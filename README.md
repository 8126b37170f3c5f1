# Quadrant classifier of the detection service

The service's `POST /predict` handler decodes an uploaded image, runs an
object detector over it, and answers with up to four points: the centres of
detected boxes, one per quadrant of the image (`point_tl`, `point_tr`,
`point_bl`, `point_br`). This project models the handler's only decision
logic, the quadrant classifier, in `quadrants.dfy`:

- `Quadrants.ImageCentre` and `Quadrants.BoxCentre` model the integer
  centre arithmetic. Python's `//` floors. Dafny's `/` is Euclidean, and the
  two agree because the divisor is always 2.
- `Quadrants.QuadrantOf` models the if/elif chain. It has three strict
  cases. Every other centre goes to bottom-left, including any centre on
  either line through the image centre.
- `Quadrants.Classified` is the specification. It is a left fold over the
  boxes in list order, where each box overwrites the point of its quadrant.
- `Quadrants.Classify` is the handler's `while` loop, with its counter and
  four mutable points. It is proved equal to the fold.
- `Quadrants.LastWriteWins` characterises the fold exactly. A point is null
  if and only if no box falls in that quadrant. Otherwise it is the centre
  of the last such box.

The detector's output enters the model only as the sequence of boxes it
returns, and the decoded image only as its width and height. The
classifier is deterministic because `Classify` is proved equal to a
function of its inputs.

## Model

| member | source | states |
|---|---|---|
| `Quadrants.ImageCentre` | service.py:75-76 | the image centre is the floor of half the width and half the height, and lies inside any image with positive dimensions |
| `Quadrants.BoxCentre` | service.py:91-100 | a box centre is its top-left corner plus the floored half width and half height; it lies inside every box with `x1 <= x2` and `y1 <= y2`, and a zero-width or zero-height box is still given a centre (on its edge) |
| `Quadrants.QuadrantOf` | service.py:112-119 | top-left iff both coordinates are strictly less than the centre's; top-right iff x is strictly greater and y strictly less; bottom-right iff both are strictly greater; bottom-left iff the point is on either centre line or strictly left of and below the centre |
| `Quadrants.QuadrantResult.Set` | service.py:112-119 | one pass through the if/elif chain sets exactly the chosen quadrant's point and leaves the other three unchanged |
| `Quadrants.Classify` | service.py:76-123 | the index loop over the boxes, with its four points initialised to null and packed into the result at the end, returns exactly the left fold `Classified` over the boxes in list order; an empty box list gives four null points |
| `Quadrants.LastWriteWins` | service.py:83-121 | after the loop, a quadrant's point is null iff no box's centre falls in that quadrant, and otherwise equals the centre of the last box in list order that falls there |
| `Quadrants.ClassifiedAppend` | service.py:90-121 | classifying a list `a + b` gives, per quadrant, the point from `b` whenever some box of `b` reaches that quadrant, and the point from `a` otherwise: later boxes override earlier ones |
| `Quadrants.FourCorners` | service.py:76-123 | on a 100x100 image, boxes (10,10,30,30), (80,10,90,30), (80,80,90,90) and (10,80,30,90) give top-left (20,20), top-right (85,20), bottom-left (20,85) and bottom-right (85,85) |
| `Quadrants.CentredBoxIsBottomLeft` | service.py:112-119 | on a 100x100 image, the single box (40,40,60,60) has centre (50,50), equal to the image centre; it is classified bottom-left and the other three points stay null |

## Left out

- The web application, the route, reading the uploaded file and returning the result as JSON (service.py:66-73, 123-130): HTTP plumbing. The non-POST path, where `result` would be unbound, cannot be reached because the route accepts only POST.
- Image decoding and `image.shape` (service.py:73-75): foreign library calls. The model takes the width and height as inputs.
- The detector's set-up and its `predict` call (service.py:46-60, 77): an external model whose source is not part of this model. Its boxes are an input sequence; their order is whatever the detector returned. Its scores and class labels are not used by the classifier and are not modelled.
- Drawing the boxes and writing the debug image `image.jpg` (service.py:79-81): file I/O with no effect on the result.
- Configuration loading, log-directory creation and logging set-up (service.py:23-44): start-up I/O.
- Floating-point box coordinates: the detector can return floats, on which Python's `//` gives a floored float. The model uses integer coordinates only.
- The commented-out classification by class label (service.py:103-110): dead code.
