/** Option, the conventional Some/None datatype; a quadrant with no
    detection assigned to it holds None (the service's `None`/JSON null). */
module Wrappers {
  datatype Option<+T> = None | Some(value: T)
}

/** The quadrant classifier of the detection service's `/predict` handler:
    given the decoded image's width and height and the detector's boxes, it
    takes each box's centre, places it in one of four quadrants relative to
    the image centre, and keeps the centre of the last box seen per quadrant.
    Coordinates are pixel integers with the origin at the top left and y
    growing downwards. */
module Quadrants {
  import opened Wrappers

  /** A pixel position. */
  datatype Point = Point(x: int, y: int)

  /** A detector bounding box, (x1, y1, x2, y2) in the detector's order. */
  datatype Box = Box(x1: int, y1: int, x2: int, y2: int)

  datatype Quadrant = TopLeft | TopRight | BottomLeft | BottomRight

  /** The handler's four optional points, `point_tl`, `point_tr`,
      `point_bl` and `point_br`. */
  datatype QuadrantResult = QuadrantResult(tl: Option<Point>, tr: Option<Point>,
                                           bl: Option<Point>, br: Option<Point>)
  {
    /** The point kept for quadrant `q`. */
    function Get(q: Quadrant): Option<Point> {
      match q
      case TopLeft => tl
      case TopRight => tr
      case BottomLeft => bl
      case BottomRight => br
    }

    /** Overwrites the point of quadrant `q` with `p`, as one branch of the
        handler's if/elif chain does. */
    function Set(q: Quadrant, p: Point): (r: QuadrantResult)
      ensures r.Get(q) == Some(p)
      ensures forall q' :: q' != q ==> r.Get(q') == Get(q')
    {
      match q
      case TopLeft => this.(tl := Some(p))
      case TopRight => this.(tr := Some(p))
      case BottomLeft => this.(bl := Some(p))
      case BottomRight => this.(br := Some(p))
    }
  }

  /** The result before any box is seen: all four points null. */
  const NoPoints := QuadrantResult(None, None, None, None)

  /** Python's `a // 2` on integers: the floor of a/2, also for negative a.
      Dafny's `/` is Euclidean, which agrees with flooring for a positive
      divisor. */
  function FloorHalf(a: int): (r: int)
    ensures 2 * r <= a < 2 * r + 2
  {
    a / 2
  }

  /** The image centre `(width // 2, height // 2)`. */
  function ImageCentre(width: int, height: int): (c: Point)
    ensures 2 * c.x <= width < 2 * c.x + 2
    ensures 2 * c.y <= height < 2 * c.y + 2
    ensures width > 0 ==> 0 <= c.x < width
    ensures height > 0 ==> 0 <= c.y < height
  {
    Point(FloorHalf(width), FloorHalf(height))
  }

  /** A box's centre `(x1 + (x2 - x1) // 2, y1 + (y2 - y1) // 2)`: the
      midpoint rounded towards the top-left corner; it lies inside every
      well-ordered box, degenerate ones included. */
  function BoxCentre(b: Box): (c: Point)
    ensures 2 * (c.x - b.x1) <= b.x2 - b.x1 < 2 * (c.x - b.x1) + 2
    ensures 2 * (c.y - b.y1) <= b.y2 - b.y1 < 2 * (c.y - b.y1) + 2
    ensures b.x1 <= b.x2 ==> b.x1 <= c.x <= b.x2
    ensures b.y1 <= b.y2 ==> b.y1 <= c.y <= b.y2
    ensures b.x1 == b.x2 ==> c.x == b.x1
    ensures b.y1 == b.y2 ==> c.y == b.y1
  {
    Point(b.x1 + FloorHalf(b.x2 - b.x1), b.y1 + FloorHalf(b.y2 - b.y1))
  }

  /** The quadrant of point `c` relative to the image centre `centre`: three
      strict cases, and everything else (every point on either centre line
      among them) is bottom-left. */
  function QuadrantOf(c: Point, centre: Point): (q: Quadrant)
    ensures q == TopLeft <==> c.x < centre.x && c.y < centre.y
    ensures q == TopRight <==> c.x > centre.x && c.y < centre.y
    ensures q == BottomRight <==> c.x > centre.x && c.y > centre.y
    ensures q == BottomLeft <==>
              c.x == centre.x || c.y == centre.y || (c.x < centre.x && c.y > centre.y)
  {
    if c.x < centre.x && c.y < centre.y then TopLeft
    else if c.x > centre.x && c.y < centre.y then TopRight
    else if c.x > centre.x && c.y > centre.y then BottomRight
    else BottomLeft
  }

  /** The quadrant a box is assigned to. */
  function BoxQuadrant(centre: Point, b: Box): Quadrant {
    QuadrantOf(BoxCentre(b), centre)
  }

  /** Specification of the classifier: a left fold over the boxes in list
      order, each box overwriting the point of its own quadrant. */
  function Classified(centre: Point, boxes: seq<Box>): QuadrantResult
    decreases |boxes|
  {
    if |boxes| == 0 then NoPoints
    else
      var last := boxes[|boxes| - 1];
      Classified(centre, boxes[..|boxes| - 1]).Set(BoxQuadrant(centre, last), BoxCentre(last))
  }

  /** Last write wins: a quadrant's point is null exactly when no box falls
      in that quadrant, and otherwise it is the centre of the last box in
      list order that does. */
  lemma {:induction false} LastWriteWins(centre: Point, boxes: seq<Box>, q: Quadrant)
    ensures Classified(centre, boxes).Get(q) == None <==>
              forall i :: 0 <= i < |boxes| ==> BoxQuadrant(centre, boxes[i]) != q
    ensures Classified(centre, boxes).Get(q) != None ==>
              exists i :: 0 <= i < |boxes| && BoxQuadrant(centre, boxes[i]) == q
                && Classified(centre, boxes).Get(q) == Some(BoxCentre(boxes[i]))
                && forall j :: i < j < |boxes| ==> BoxQuadrant(centre, boxes[j]) != q
    decreases |boxes|
  {
    if |boxes| > 0 {
      var n := |boxes|;
      var init := boxes[..n - 1];
      LastWriteWins(centre, init, q);
      assert forall i :: 0 <= i < n - 1 ==> init[i] == boxes[i];
      if BoxQuadrant(centre, boxes[n - 1]) == q {
        assert Classified(centre, boxes).Get(q) == Some(BoxCentre(boxes[n - 1]));
      } else {
        assert Classified(centre, boxes).Get(q) == Classified(centre, init).Get(q);
        if Classified(centre, init).Get(q) != None {
          var i :| 0 <= i < |init| && BoxQuadrant(centre, init[i]) == q
                   && Classified(centre, init).Get(q) == Some(BoxCentre(init[i]))
                   && forall j :: i < j < |init| ==> BoxQuadrant(centre, init[j]) != q;
          assert BoxQuadrant(centre, boxes[i]) == q;
        }
      }
    }
  }

  /** Classifying `a + b` equals classifying `a` and then `b` on top of it:
      every quadrant that some box of `b` reaches takes its point from `b`,
      every other quadrant keeps the point `a` gave it. */
  lemma {:induction false} ClassifiedAppend(centre: Point, a: seq<Box>, b: seq<Box>, q: Quadrant)
    ensures Classified(centre, a + b).Get(q) ==
              if Classified(centre, b).Get(q) != None then Classified(centre, b).Get(q)
              else Classified(centre, a).Get(q)
    decreases |b|
  {
    if |b| == 0 {
      assert a + b == a;
    } else {
      var n := |b|;
      assert (a + b)[..|a + b| - 1] == a + b[..n - 1];
      assert (a + b)[|a + b| - 1] == b[n - 1];
      ClassifiedAppend(centre, a, b[..n - 1], q);
    }
  }

  /** The classifier as the handler runs it (image centre, then an index
      loop over the boxes with four mutable points, then packing the four
      points into the result), proved equal to the fold `Classified`. */
  method Classify(width: int, height: int, boxes: seq<Box>) returns (result: QuadrantResult)
    ensures result == Classified(ImageCentre(width, height), boxes)
    ensures boxes == [] ==> result == NoPoints
  {
    var centreImage := Point(width / 2, height / 2);
    var i := 0;
    var lenBoxes := |boxes|;
    var pointTl: Option<Point> := None;
    var pointTr: Option<Point> := None;
    var pointBl: Option<Point> := None;
    var pointBr: Option<Point> := None;
    while i < lenBoxes
      invariant 0 <= i <= lenBoxes
      invariant QuadrantResult(pointTl, pointTr, pointBl, pointBr)
                == Classified(centreImage, boxes[..i])
      decreases lenBoxes - i
    {
      var bbox := boxes[i];
      var w := bbox.x2 - bbox.x1;
      var h := bbox.y2 - bbox.y1;
      var center := Point(bbox.x1 + w / 2, bbox.y1 + h / 2);
      assert boxes[..i + 1][..i] == boxes[..i];
      if center.x < centreImage.x && center.y < centreImage.y {
        pointTl := Some(center);
      } else if center.x > centreImage.x && center.y < centreImage.y {
        pointTr := Some(center);
      } else if center.x > centreImage.x && center.y > centreImage.y {
        pointBr := Some(center);
      } else {
        pointBl := Some(center);
      }
      i := i + 1;
    }
    assert boxes[..i] == boxes;
    result := QuadrantResult(pointTl, pointTr, pointBl, pointBr);
  }

  /** Four boxes, one near each corner of a 100x100 image, each land in
      their own corner's quadrant. */
  lemma FourCorners()
    ensures Classified(ImageCentre(100, 100),
                       [Box(10, 10, 30, 30), Box(80, 10, 90, 30), Box(80, 80, 90, 90), Box(10, 80, 30, 90)])
            == QuadrantResult(Some(Point(20, 20)), Some(Point(85, 20)),
                              Some(Point(20, 85)), Some(Point(85, 85)))
  {
    var boxes := [Box(10, 10, 30, 30), Box(80, 10, 90, 30), Box(80, 80, 90, 90), Box(10, 80, 30, 90)];
    var centre := ImageCentre(100, 100);
    assert boxes[..1][..0] == [];
    assert Classified(centre, boxes[..1]) == QuadrantResult(Some(Point(20, 20)), None, None, None);
    assert boxes[..2][..1] == boxes[..1];
    assert Classified(centre, boxes[..2]) == QuadrantResult(Some(Point(20, 20)), Some(Point(85, 20)), None, None);
    assert boxes[..3][..2] == boxes[..2];
    assert Classified(centre, boxes[..3])
           == QuadrantResult(Some(Point(20, 20)), Some(Point(85, 20)), None, Some(Point(85, 85)));
    assert boxes[..3] == boxes[..|boxes| - 1];
  }

  /** A box centred exactly on the image centre goes to bottom-left, and the
      other three points stay null. */
  lemma CentredBoxIsBottomLeft()
    ensures Classified(ImageCentre(100, 100), [Box(40, 40, 60, 60)])
            == QuadrantResult(None, None, Some(Point(50, 50)), None)
  {
  }
}
