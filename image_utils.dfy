/**
 * Bounding-box geometry and the pixel arithmetic of the drawing helpers. Only the
 * coordinates are modelled; the OpenCV calls that paint them are not.
 */
module ImageUtils {
  import opened Wrappers

  /** A box `[x1, y1, x2, y2]` in pixel coordinates (floating point in the source). */
  datatype Box = Box(x1: real, y1: real, x2: real, y2: real)

  datatype Point = Point(x: real, y: real)

  datatype PixelPoint = PixelPoint(x: int, y: int)

  datatype PixelRect = PixelRect(x1: int, y1: int, x2: int, y2: int)

  /** `get_center_of_bbox`: the point halfway between opposite edges. */
  function Center(b: Box): (c: Point)
    ensures c.x - b.x1 == b.x2 - c.x
    ensures c.y - b.y1 == b.y2 - c.y
  {
    Point((b.x1 + b.x2) / 2.0, (b.y1 + b.y2) / 2.0)
  }

  /** `get_bbox_width`: how far the right edge lies from the left edge. */
  function Width(b: Box): (w: real)
    ensures b.x1 + w == b.x2
    ensures w >= 0.0 <==> b.x1 <= b.x2
  {
    b.x2 - b.x1
  }

  /** The centre of a well-formed box lies inside it. */
  lemma CenterInside(b: Box)
    requires b.x1 <= b.x2 && b.y1 <= b.y2
    ensures b.x1 <= Center(b).x <= b.x2 && b.y1 <= Center(b).y <= b.y2
  {
  }

  /** Python's `int(v)` on a float. */
  function Trunc(v: real): int {
    if v >= 0.0 then v.Floor else -((-v).Floor)
  }

  /** `int(v)` rounds toward zero: down for a non-negative value, up for a negative one. */
  lemma TruncTowardZero(v: real)
    ensures v >= 0.0 ==> 0 <= Trunc(v) && Trunc(v) as real <= v < Trunc(v) as real + 1.0
    ensures v < 0.0 ==> Trunc(v) <= 0 && Trunc(v) as real - 1.0 < v <= Trunc(v) as real
  {
  }

  /** Truncation moves a value by less than one pixel. */
  lemma TruncWithinOne(v: real)
    ensures v - 1.0 < Trunc(v) as real < v + 1.0
  {
    TruncTowardZero(v);
  }

  /** The arc `draw_ellipse` paints under a player: centre, half-axes and angles in degrees. */
  datatype Ellipse = Ellipse(center: PixelPoint, axes: PixelPoint, rotation: int, startAngle: int, endAngle: int)

  /** The filled id tag under the ellipse and where its text starts. */
  datatype IdTag = IdTag(rect: PixelRect, textOrigin: PixelPoint)

  datatype EllipseLayout = EllipseLayout(ellipse: Ellipse, tag: Option<IdTag>)

  const TagWidth: int := 40
  const TagHeight: int := 20

  /** The coordinates `draw_ellipse` passes to OpenCV for a player box and an optional track id. */
  function EllipseLayoutOf(bbox: Box, trackId: Option<int>): (r: EllipseLayout)
    ensures r.ellipse.center == PixelPoint(Trunc(Center(bbox).x), Trunc(bbox.y2))
    ensures r.ellipse.axes == PixelPoint(Trunc(Width(bbox)), Trunc(Width(bbox) * 0.35))
    ensures r.ellipse.startAngle == -45 && r.ellipse.endAngle == 235 && r.ellipse.rotation == 0
    ensures r.tag.Some? <==> trackId.Some?
    ensures r.tag.Some? ==>
      var t := r.tag.value;
      && t.rect.x2 - t.rect.x1 == TagWidth && t.rect.y2 - t.rect.y1 == TagHeight
      // the tag's left edge is the truncated centre minus half its width
      && t.rect.x1 == Trunc(Center(bbox).x - (TagWidth as real) / 2.0)
      // so the tag is centred on the box centre, up to truncation
      && (t.rect.x1 + TagWidth / 2) as real - 1.0 < Center(bbox).x < (t.rect.x1 + TagWidth / 2) as real + 1.0
      // its top edge sits five pixels below the ellipse centre
      && t.rect.y1 == r.ellipse.center.y + 5
      // ids of three or more digits start ten pixels further left
      && t.textOrigin.x - t.rect.x1 == (if trackId.value > 99 then 2 else 12)
      && t.textOrigin.y == t.rect.y1 + 15
  {
    var y2 := Trunc(bbox.y2);
    var xc := Center(bbox).x;
    var w := Width(bbox);
    var ellipse := Ellipse(PixelPoint(Trunc(xc), y2), PixelPoint(Trunc(w), Trunc(w * 0.35)), 0, -45, 235);
    match trackId
    case None => EllipseLayout(ellipse, None)
    case Some(id) =>
      var x1 := Trunc(xc - (TagWidth as real) / 2.0);
      var y1 := Trunc(y2 as real - (TagHeight as real) / 2.0) + 15;
      assert Trunc(y2 as real - 10.0) == y2 - 10;
      var rect := PixelRect(x1, y1, x1 + TagWidth, y1 + TagHeight);
      var tx := x1 + 12 - (if id > 99 then 10 else 0);
      EllipseLayout(ellipse, Some(IdTag(rect, PixelPoint(tx, y1 + 15))))
  }

  /** The three corners of the marker `draw_triangle` paints above the ball. */
  datatype Triangle = Triangle(apex: PixelPoint, left: PixelPoint, right: PixelPoint)

  function TriangleOf(bbox: Box): (t: Triangle)
    ensures t.apex == PixelPoint(Trunc(Center(bbox).x), Trunc(bbox.y1))
    // a horizontal base twenty pixels wide, twenty pixels above the apex, centred over it
    ensures t.left.y == t.right.y == t.apex.y - 20
    ensures t.apex.x - t.left.x == t.right.x - t.apex.x == 10
  {
    var y := Trunc(bbox.y1);
    var xc := Trunc(Center(bbox).x);
    Triangle(PixelPoint(xc, y), PixelPoint(xc - 10, y - 20), PixelPoint(xc + 10, y - 20))
  }

  /** One parsed line of a YOLO label file: class and normalised centre and size. */
  datatype YoloLabel = YoloLabel(cls: real, x: real, y: real, w: real, h: real)

  /** The pixel rectangle `draw_boxes_on_frame` derives from a YOLO label: its centre and size scaled by the image. */
  function YoloToPixel(l: YoloLabel, imgWidth: real, imgHeight: real): PixelRect {
    CentredRect(ScaleBy(l.x, imgWidth), ScaleBy(l.y, imgHeight), ScaleBy(l.w, imgWidth), ScaleBy(l.h, imgHeight))
  }

  /** A length `d` multiplied by a factor `t` (a fraction, or an image dimension). */
  function ScaleBy(d: real, t: real): real {
    d * t
  }

  /** The rectangle of a box given by its centre and size: each exact edge `centre -+ size/2`, truncated. */
  function CentredRect(xCenter: real, yCenter: real, boxWidth: real, boxHeight: real): PixelRect {
    PixelRect(Trunc(xCenter - boxWidth / 2.0), Trunc(yCenter - boxHeight / 2.0),
              Trunc(xCenter + boxWidth / 2.0), Trunc(yCenter + boxHeight / 2.0))
  }

  /**
   * Each edge of the rectangle lies within a pixel of the exact edge, and a box of
   * non-negative size keeps its edges in order.
   */
  lemma CentredRectEdges(xCenter: real, yCenter: real, boxWidth: real, boxHeight: real)
    ensures var r := CentredRect(xCenter, yCenter, boxWidth, boxHeight);
      && (boxWidth >= 0.0 ==> r.x1 <= r.x2)
      && (boxHeight >= 0.0 ==> r.y1 <= r.y2)
      && xCenter - boxWidth / 2.0 - 1.0 < r.x1 as real < xCenter - boxWidth / 2.0 + 1.0
      && xCenter + boxWidth / 2.0 - 1.0 < r.x2 as real < xCenter + boxWidth / 2.0 + 1.0
      && yCenter - boxHeight / 2.0 - 1.0 < r.y1 as real < yCenter - boxHeight / 2.0 + 1.0
      && yCenter + boxHeight / 2.0 - 1.0 < r.y2 as real < yCenter + boxHeight / 2.0 + 1.0
  {
    var left, right := xCenter - boxWidth / 2.0, xCenter + boxWidth / 2.0;
    var top, bottom := yCenter - boxHeight / 2.0, yCenter + boxHeight / 2.0;
    if boxWidth >= 0.0 { TruncMonotone(left, right); }
    if boxHeight >= 0.0 { TruncMonotone(top, bottom); }
    TruncWithinOne(left);
    TruncWithinOne(right);
    TruncWithinOne(top);
    TruncWithinOne(bottom);
  }

  /** Truncation is monotone, so ordered edges stay ordered. */
  lemma TruncMonotone(a: real, b: real)
    requires a <= b
    ensures Trunc(a) <= Trunc(b)
  {
  }

  /** Python's `names[k]` with `k = int(cls)`: negative indices count from the end. */
  function ClassNameAt(names: seq<string>, cls: real): (r: Option<string>)
    ensures r.Some? <==> -|names| <= Trunc(cls) < |names|
    ensures r.Some? && Trunc(cls) >= 0 ==> r.value == names[Trunc(cls)]
    ensures r.Some? && Trunc(cls) < 0 ==> r.value == names[|names| + Trunc(cls)]
  {
    var k := Trunc(cls);
    if 0 <= k < |names| then Some(names[k])
    else if -|names| <= k < 0 then Some(names[|names| + k])
    else None
  }

  /** What `draw_boxes_on_frame` paints for one label: the rectangle and the class name above it. */
  datatype DrawnBox = DrawnBox(rect: PixelRect, name: string, textOrigin: PixelPoint)

  datatype DrawError = ImageUnreadable | ClassIndexOutOfRange(line: nat)

  /**
   * The boxes `draw_boxes_on_frame` paints, in file order. An unreadable image stops before
   * any label is read; a class index out of range raises, so nothing is written.
   */
  function BoxesToDraw(imageRead: bool, labels: seq<YoloLabel>, names: seq<string>,
                       imgWidth: real, imgHeight: real): (r: Result<seq<DrawnBox>, DrawError>)
    ensures !imageRead ==> r == Err(ImageUnreadable)
    ensures r.Ok? ==> |r.value| == |labels|
    ensures r.Ok? ==> forall k :: 0 <= k < |labels| ==>
      && r.value[k].rect == YoloToPixel(labels[k], imgWidth, imgHeight)
      && Some(r.value[k].name) == ClassNameAt(names, labels[k].cls)
      && r.value[k].textOrigin == PixelPoint(r.value[k].rect.x1, r.value[k].rect.y1 - 5)
    ensures imageRead && r.Err? ==>
      r.error.ClassIndexOutOfRange? && r.error.line < |labels|
      && ClassNameAt(names, labels[r.error.line].cls).None?
  {
    if !imageRead then Err(ImageUnreadable) else DrawLabels(labels, names, imgWidth, imgHeight, 0)
  }

  function DrawLabels(labels: seq<YoloLabel>, names: seq<string>, imgWidth: real, imgHeight: real,
                      from: nat): (r: Result<seq<DrawnBox>, DrawError>)
    requires from <= |labels|
    ensures r.Ok? ==> |r.value| == |labels| - from
    ensures r.Ok? ==> forall k :: from <= k < |labels| ==>
      && r.value[k - from].rect == YoloToPixel(labels[k], imgWidth, imgHeight)
      && Some(r.value[k - from].name) == ClassNameAt(names, labels[k].cls)
      && r.value[k - from].textOrigin == PixelPoint(r.value[k - from].rect.x1, r.value[k - from].rect.y1 - 5)
    ensures r.Err? ==>
      r.error.ClassIndexOutOfRange? && from <= r.error.line < |labels|
      && ClassNameAt(names, labels[r.error.line].cls).None?
    decreases |labels| - from
  {
    if from == |labels| then Ok([])
    else
      var l := labels[from];
      match ClassNameAt(names, l.cls)
      case None => Err(ClassIndexOutOfRange(from))
      case Some(name) =>
        var rect := YoloToPixel(l, imgWidth, imgHeight);
        match DrawLabels(labels, names, imgWidth, imgHeight, from + 1)
        case Err(e) => Err(e)
        case Ok(rest) => Ok([DrawnBox(rect, name, PixelPoint(rect.x1, rect.y1 - 5))] + rest)
  }
}
