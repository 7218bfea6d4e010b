/**
 * The logo overlay: the closure returned by createCustomImageExtension in
 * QRCodeDisplay.tsx. The renderer calls it with its freshly drawn SVG and its
 * options; it finds the first `image` element, draws a background plate (a
 * `rect`) just before it when the effective plate colour is visible, and then
 * overwrites the image's x, y, width and height.
 *
 * The SVG is modelled by its elements in document order. Each element keeps
 * its depth below the root, so a `rect` placed directly before the image with
 * the image's depth is its preceding sibling, which is what insertBefore on the
 * image's parent produces.
 */
module Overlay {
  import opened Optional
  import opened Strings
  import opened Colour
  import opened Presets

  /** One SVG element: its tag name, its depth below the root, and its attributes. */
  datatype Node = Node(tag: string, level: nat, attrs: map<string, Text>)

  function FindImageFrom(nodes: seq<Node>, k: nat): (r: Option<nat>)
    decreases |nodes| - k
    ensures r.Some? ==> k <= r.value < |nodes| && nodes[r.value].tag == "image"
    ensures r.Some? ==> forall j :: k <= j < r.value ==> nodes[j].tag != "image"
    ensures r.None? ==> forall j :: k <= j < |nodes| ==> nodes[j].tag != "image"
  {
    if k >= |nodes| then None
    else if nodes[k].tag == "image" then Some(k)
    else FindImageFrom(nodes, k + 1)
  }

  /** `svg.querySelector('image')`: the first image element in document order, if any. */
  function QueryImage(nodes: seq<Node>): (r: Option<nat>)
    ensures r.Some? ==> r.value < |nodes| && nodes[r.value].tag == "image"
    ensures r.Some? ==> forall j :: 0 <= j < r.value ==> nodes[j].tag != "image"
    ensures r.None? ==> forall j :: 0 <= j < |nodes| ==> nodes[j].tag != "image"
  {
    FindImageFrom(nodes, 0)
  }

  /** JavaScript truthiness of an optional string prop (`if (!image)`). */
  predicate Truthy(s: Option<string>) {
    s.Some? && s.value != ""
  }

  /** `a || b` on strings. */
  function OrString(a: string, b: string): string {
    if a != "" then a else b
  }

  /** `a || b` on numbers. */
  function OrReal(a: real, b: real): real {
    if a != 0.0 then a else b
  }

  /** `Math.min(a, b)` */
  function Min(a: real, b: real): (m: real)
    ensures m <= a && m <= b && (m == a || m == b)
  {
    if a <= b then a else b
  }

  /**
   * What the closure captures: the six arguments of createCustomImageExtension
   * and, from the component, the image prop and the imageSize prop.
   */
  datatype ImageExtension = ImageExtension(
    position: string,
    bgColor: string,
    bgSize: real,
    borderRadius: real,
    bgOpacity: real,
    paddingPreset: string,
    image: Option<string>,
    imageSize: real)

  /** A point in canvas pixels. */
  datatype Point = Point(x: real, y: real)

  /** An axis-aligned box: top-left corner and size. */
  datatype Box = Box(x: real, y: real, width: real, height: real) {
    function Centre(): Point {
      Point(x + width / 2.0, y + height / 2.0)
    }
    predicate Within(other: Box) {
      other.x <= x && x + width <= other.x + other.width
      && other.y <= y && y + height <= other.y + other.height
    }
  }

  /** The background plate: fill, box and corner radius (rx and ry alike). */
  datatype Plate = Plate(fill: Text, box: Box, radius: real)

  /** Where the overlay puts things: the anchor, the image box and the plate, if one is drawn. */
  datatype Layout = Layout(anchor: Point, image: Box, plate: Option<Plate>)

  /** The anchor: the position's fractions of the canvas width and height. */
  function AnchorPoint(ext: ImageExtension, width: real, height: real): Point {
    var pos := CalculateImagePosition(ext.position);
    Point(width * pos.x, height * pos.y)
  }

  /** The square of the given side centred on `c`. */
  function Square(c: Point, side: real): Box {
    Box(c.x - side / 2.0, c.y - side / 2.0, side, side)
  }

  /** The image side: min(width, height) * imageSize. */
  function ImageSide(ext: ImageExtension, width: real, height: real): real {
    Min(width, height) * ext.imageSize
  }

  /** The plate side: min(width, height) times the preset's size, or else the bgSize argument. */
  function PlateSide(ext: ImageExtension, width: real, height: real): real {
    Min(width, height) * OrReal(GetPaddingSettings(ext.paddingPreset).backgroundSize, ext.bgSize)
  }

  /** The plate fill, when the effective colour (the preset's, or else bgColor) is visible. */
  function PlateFill(ext: ImageExtension): Option<Text> {
    var effective := OrString(GetPaddingSettings(ext.paddingPreset).backgroundColor, ext.bgColor);
    if effective != "" && effective != "transparent" then Some(WithOpacity(effective, ext.bgOpacity))
    else None
  }

  /** The plate, if one is drawn: centred on the anchor, its corners rounded by side * borderRadius. */
  function PlateOf(ext: ImageExtension, width: real, height: real): Option<Plate> {
    match PlateFill(ext)
    case None => None
    case Some(fill) =>
      var side := PlateSide(ext, width, height);
      Some(Plate(fill, Square(AnchorPoint(ext, width, height), side), side * ext.borderRadius))
  }

  /** The overlay's geometry and plate for a canvas of the given width and height. */
  function LayOut(ext: ImageExtension, width: real, height: real): Layout {
    var a := AnchorPoint(ext, width, height);
    Layout(a, Square(a, ImageSide(ext, width, height)), PlateOf(ext, width, height))
  }

  lemma SquareCentre(c: Point, side: real)
    ensures Square(c, side).Centre() == c
  {
  }

  /** The image is a square of side min(width, height) * imageSize centred on the anchor. */
  lemma ImageGeometry(ext: ImageExtension, width: real, height: real)
    ensures var pos := CalculateImagePosition(ext.position);
            LayOut(ext, width, height).anchor == Point(width * pos.x, height * pos.y)
    ensures var l := LayOut(ext, width, height);
            l.image.Centre() == l.anchor
    ensures var l := LayOut(ext, width, height);
            l.image.width == l.image.height == Min(width, height) * ext.imageSize
  {
    SquareCentre(AnchorPoint(ext, width, height), ImageSide(ext, width, height));
  }

  /**
   * A plate is drawn exactly under the `minimal` and `standard` presets: the
   * bgColor argument never decides, and `none` never draws one.
   */
  lemma PlateDrawnIff(ext: ImageExtension, width: real, height: real)
    ensures LayOut(ext, width, height).plate.Some?
        <==> ext.paddingPreset == "minimal" || ext.paddingPreset == "standard"
  {
    VisiblePlateIff(ext.paddingPreset);
  }

  /**
   * The plate is centred on the same anchor as the image, its side is fixed by
   * the preset (never by the bgSize argument), its corner radius is side *
   * borderRadius, and it is filled plain white: the preset colour is never
   * converted to rgba, whatever the opacity.
   */
  lemma PlateGeometry(ext: ImageExtension, width: real, height: real)
    requires LayOut(ext, width, height).plate.Some?
    ensures var l := LayOut(ext, width, height);
            l.plate.value.box.Centre() == l.anchor
    ensures var l := LayOut(ext, width, height);
            l.plate.value.box.width == l.plate.value.box.height
            == Min(width, height) * GetPaddingSettings(ext.paddingPreset).backgroundSize
    ensures var l := LayOut(ext, width, height);
            l.plate.value.radius == l.plate.value.box.width * ext.borderRadius
    ensures LayOut(ext, width, height).plate.value.fill == Plain("white")
  {
    PlateFillWhite(ext);
    var side := PlateSide(ext, width, height);
    assert LayOut(ext, width, height).plate.value
        == Plate(Plain("white"), Square(AnchorPoint(ext, width, height), side), side * ext.borderRadius);
    SquareCentre(AnchorPoint(ext, width, height), side);
  }

  /** Whenever there is a plate fill, it is the preset's white, left as it is. */
  lemma PlateFillWhite(ext: ImageExtension)
    requires PlateFill(ext).Some?
    ensures PlateFill(ext) == Some(Plain("white"))
  {
    var settings := GetPaddingSettings(ext.paddingPreset);
    assert OrString(settings.backgroundColor, ext.bgColor) == "white";
  }

  /** The attributes the plate is given, in the order the closure sets them. */
  function PlateAttributes(p: Plate): seq<(string, Text)> {
    [("fill", p.fill), ("x", [Number(p.box.x)]), ("y", [Number(p.box.y)]),
     ("width", [Number(p.box.width)]), ("height", [Number(p.box.height)]),
     ("rx", [Number(p.radius)]), ("ry", [Number(p.radius)])]
  }

  /** The attribute map after setAttribute for each update in turn (a later one wins). */
  function Assign(attrs: map<string, Text>, updates: seq<(string, Text)>): map<string, Text>
    decreases |updates|
  {
    if updates == [] then attrs
    else Assign(attrs, updates[..|updates| - 1])[updates[|updates| - 1].0 := updates[|updates| - 1].1]
  }

  /** `el.setAttribute(name, value)` */
  function SetAttribute(el: Node, name: string, value: Text): Node {
    el.(attrs := el.attrs[name := value])
  }

  /** The plate element: a `rect` at the image's depth, carrying the plate's attributes. */
  function PlateNode(p: Plate, level: nat): Node {
    Node("rect", level, Assign(map[], PlateAttributes(p)))
  }

  /** The image element with its four geometry attributes overwritten. */
  function Reposition(image: Node, b: Box): Node {
    SetAttribute(SetAttribute(SetAttribute(SetAttribute(image,
      "x", [Number(b.x)]), "y", [Number(b.y)]), "width", [Number(b.width)]), "height", [Number(b.height)])
  }

  /** The SVG after the closure has run on it. */
  function Composite(nodes: seq<Node>, ext: ImageExtension, width: real, height: real): seq<Node> {
    if !Truthy(ext.image) then nodes
    else match QueryImage(nodes)
      case None => nodes
      case Some(i) =>
        var l := LayOut(ext, width, height);
        var image := Reposition(nodes[i], l.image);
        match l.plate
        case None => nodes[i := image]
        case Some(p) => nodes[..i] + [PlateNode(p, nodes[i].level), image] + nodes[i + 1..]
  }

  /** The plate element carries exactly its seven attributes. */
  lemma PlateNodeAttributes(p: Plate, level: nat)
    ensures PlateNode(p, level).attrs
         == map["fill" := p.fill, "x" := [Number(p.box.x)], "y" := [Number(p.box.y)],
                "width" := [Number(p.box.width)], "height" := [Number(p.box.height)],
                "rx" := [Number(p.radius)], "ry" := [Number(p.radius)]]
  {
    var u := PlateAttributes(p);
    var m0: map<string, Text> := map[];
    assert u[..0] == [];
    AssignStep(m0, u, 0);
    AssignStep(m0, u, 1);
    AssignStep(m0, u, 2);
    AssignStep(m0, u, 3);
    AssignStep(m0, u, 4);
    AssignStep(m0, u, 5);
    AssignStep(m0, u, 6);
    assert u[..7] == u;
  }

  /** One more update on a prefix of the list. */
  lemma AssignStep(attrs: map<string, Text>, updates: seq<(string, Text)>, k: nat)
    requires k < |updates|
    ensures Assign(attrs, updates[..k + 1]) == Assign(attrs, updates[..k])[updates[k].0 := updates[k].1]
  {
    assert updates[..k + 1][..k] == updates[..k];
  }

  /** The four attributes the overlay overwrites on the image. */
  const GeometryKeys: set<string> := {"x", "y", "width", "height"}

  /** `b` is `a` with its geometry attributes set to the box `box`, and nothing else changed. */
  predicate Repositioned(a: Node, b: Node, box: Box) {
    && b.tag == a.tag && b.level == a.level
    && b.attrs.Keys == a.attrs.Keys + GeometryKeys
    && (forall k :: k in a.attrs && k !in GeometryKeys ==> b.attrs[k] == a.attrs[k])
    && b.attrs["x"] == [Number(box.x)] && b.attrs["y"] == [Number(box.y)]
    && b.attrs["width"] == [Number(box.width)] && b.attrs["height"] == [Number(box.height)]
  }

  lemma RepositionChangesGeometryOnly(n: Node, box: Box)
    ensures Repositioned(n, Reposition(n, box), box)
  {
  }

  /** Without an image prop, or without an image element, the closure leaves the SVG as it is. */
  lemma CompositeNoOp(nodes: seq<Node>, ext: ImageExtension, width: real, height: real)
    requires !Truthy(ext.image) || QueryImage(nodes).None?
    ensures Composite(nodes, ext, width, height) == nodes
  {
  }

  /**
   * Otherwise the closure changes nothing but this: a `rect` at the image's depth
   * directly before the first image when a plate is drawn, and the image's four
   * geometry attributes. Every other element keeps its place in order.
   */
  lemma CompositeEdits(nodes: seq<Node>, ext: ImageExtension, width: real, height: real)
    requires Truthy(ext.image) && QueryImage(nodes).Some?
    ensures var i, l := QueryImage(nodes).value, LayOut(ext, width, height);
            var d, r := if l.plate.Some? then 1 else 0, Composite(nodes, ext, width, height);
            && |r| == |nodes| + d
            && r[..i] == nodes[..i]
            && r[i + d + 1..] == nodes[i + 1..]
            && Repositioned(nodes[i], r[i + d], l.image)
            && (l.plate.Some? ==> r[i] == PlateNode(l.plate.value, nodes[i].level))
  {
    var i, l := QueryImage(nodes).value, LayOut(ext, width, height);
    RepositionChangesGeometryOnly(nodes[i], l.image);
    var r := Composite(nodes, ext, width, height);
    if l.plate.Some? {
      assert r == nodes[..i] + [PlateNode(l.plate.value, nodes[i].level), Reposition(nodes[i], l.image)] + nodes[i + 1..];
      assert r[i + 2..] == nodes[i + 1..];
    } else {
      assert r == nodes[i := Reposition(nodes[i], l.image)];
    }
  }

  /** After the edit the first image is still the same element, one place later if a plate went in. */
  lemma CompositeKeepsFirstImage(nodes: seq<Node>, ext: ImageExtension, width: real, height: real)
    requires Truthy(ext.image) && QueryImage(nodes).Some?
    ensures var i, l := QueryImage(nodes).value, LayOut(ext, width, height);
            QueryImage(Composite(nodes, ext, width, height))
            == Some(if l.plate.Some? then i + 1 else i)
  {
    var i, l := QueryImage(nodes).value, LayOut(ext, width, height);
    var r := Composite(nodes, ext, width, height);
    var d := if l.plate.Some? then 1 else 0;
    CompositeEdits(nodes, ext, width, height);
    forall j | 0 <= j < i + d ensures r[j].tag != "image" {
      if j < i {
        assert r[j] == r[..i][j] == nodes[..i][j] == nodes[j];
      }
    }
    assert r[i + d].tag == "image";
  }

  /**
   * The closure must run on a fresh render: run again on its own output it adds a
   * second plate in front of the first, though the image ends up the same.
   */
  lemma ReapplyStacksPlates(nodes: seq<Node>, ext: ImageExtension, width: real, height: real)
    requires Truthy(ext.image) && QueryImage(nodes).Some?
    requires LayOut(ext, width, height).plate.Some?
    ensures var i, once := QueryImage(nodes).value, Composite(nodes, ext, width, height);
            var twice := Composite(once, ext, width, height);
            && |twice| == |nodes| + 2
            && twice[i].tag == "rect" && twice[i + 1].tag == "rect"
            && twice[i + 2] == once[i + 1]
  {
    var i, once := QueryImage(nodes).value, Composite(nodes, ext, width, height);
    var l := LayOut(ext, width, height);
    CompositeEdits(nodes, ext, width, height);
    CompositeKeepsFirstImage(nodes, ext, width, height);
    CompositeEdits(once, ext, width, height);
    var twice := Composite(once, ext, width, height);
    assert twice[..i + 1][i] == once[..i + 1][i];
    var image := once[i + 1];
    assert image == Reposition(nodes[i], l.image);
    assert twice[i + 2] == Reposition(image, l.image);
    assert Reposition(image, l.image).attrs == image.attrs;
  }

  /** `a * b <= a * c` for `a >= 0` and `b <= c`. */
  lemma MulMonotone(a: real, b: real, c: real)
    requires 0.0 <= a && b <= c
    ensures a * b <= a * c
  {
  }

  /** `a * c <= b * c` for `a <= b` and `c >= 0`. */
  lemma MulMonotoneRight(a: real, b: real, c: real)
    requires a <= b && 0.0 <= c
    ensures a * c <= b * c
  {
  }

  /** `m * k <= extent * c` for `0 <= m <= extent` and `0 <= k <= c`. */
  lemma ProductBound(m: real, extent: real, k: real, c: real)
    requires 0.0 <= m <= extent && 0.0 <= k <= c
    ensures m * k <= extent * c
  {
    MulMonotone(m, k, c);
    MulMonotoneRight(m, extent, c);
  }

  lemma Fifths(e: real)
    ensures e * 0.4 == 2.0 * (e * 0.2) && e * 0.8 == e - e * 0.2
  {
  }

  /** A square no wider than `2 * lo` centred between `lo` and `extent - lo` fits in `[0, extent]`. */
  lemma CentredBetween(extent: real, c: real, side: real, lo: real, hi: real, bound: real)
    requires 0.0 <= side <= bound && bound == 2.0 * lo
    requires lo <= c <= hi && hi == extent - lo
    ensures 0.0 <= c - side / 2.0 && c - side / 2.0 + side <= extent
  {
  }

  /** A square of side `side` centred at `c` fits in `[0, extent]`. */
  lemma CentredFits(extent: real, c: real, side: real)
    requires 0.0 <= side
    requires side <= 2.0 * c && side <= 2.0 * (extent - c)
    ensures 0.0 <= c - side / 2.0 && c - side / 2.0 + side <= extent
  {
  }

  /** A square of side `m * k`, `m <= extent`, centred at a fraction in [0.2, 0.8] of `extent`, fits when `k <= 0.4`. */
  lemma SquareFitsAnywhere(extent: real, frac: real, m: real, k: real)
    requires 0.0 <= m <= extent && 0.0 <= k <= 0.4 && 0.2 <= frac <= 0.8
    ensures 0.0 <= extent * frac - m * k / 2.0 && extent * frac - m * k / 2.0 + m * k <= extent
  {
    MulMonotone(m, 0.0, k);
    ProductBound(m, extent, k, 0.4);
    MulMonotone(extent, 0.2, frac);
    MulMonotone(extent, frac, 0.8);
    Fifths(extent);
    CentredBetween(extent, extent * frac, m * k, extent * 0.2, extent * 0.8, extent * 0.4);
  }

  /** A square of side `m * k`, `m <= extent`, centred in `extent`, fits when `k <= 1`. */
  lemma SquareFitsCentre(extent: real, m: real, k: real)
    requires 0.0 <= m <= extent && 0.0 <= k <= 1.0
    ensures 0.0 <= extent * 0.5 - m * k / 2.0 && extent * 0.5 - m * k / 2.0 + m * k <= extent
  {
    MulMonotone(m, 0.0, k);
    ProductBound(m, extent, k, 1.0);
    CentredFits(extent, extent * 0.5, m * k);
  }

  /** Either way the square fits. */
  lemma SquareFits(extent: real, frac: real, m: real, k: real)
    requires 0.0 <= m <= extent && 0.0 <= k
    requires (0.2 <= frac <= 0.8 && k <= 0.4) || (frac == 0.5 && k <= 1.0)
    ensures 0.0 <= extent * frac - m * k / 2.0 && extent * frac - m * k / 2.0 + m * k <= extent
  {
    if frac == 0.5 && k <= 1.0 {
      SquareFitsCentre(extent, m, k);
    } else {
      SquareFitsAnywhere(extent, frac, m, k);
    }
  }

  /** The canvas the renderer draws on. */
  function Canvas(width: real, height: real): Box {
    Box(0.0, 0.0, width, height)
  }

  /**
   * The image stays on the canvas: at the centre for any imageSize up to 1,
   * and at any of the five positions for an imageSize up to 0.4.
   */
  lemma ImageInsideCanvas(ext: ImageExtension, width: real, height: real)
    requires 0.0 <= width && 0.0 <= height
    requires PositionFits(ext)
    ensures LayOut(ext, width, height).image.Within(Canvas(width, height))
  {
    FitsAnchor(ext);
    CentredSquareWithin(LayOut(ext, width, height).image, width, height,
                        CalculateImagePosition(ext.position), Min(width, height), ext.imageSize);
  }

  /** An imageSize of at most 0.4 fits at any position, and one of at most 1 at the centre. */
  predicate PositionFits(ext: ImageExtension) {
    0.0 <= ext.imageSize && (ext.imageSize <= 0.4 || (ext.position == "center" && ext.imageSize <= 1.0))
  }

  /** What PositionFits says about each coordinate of the anchor. */
  lemma FitsAnchor(ext: ImageExtension)
    requires PositionFits(ext)
    ensures var pos := CalculateImagePosition(ext.position);
            (0.2 <= pos.x <= 0.8 && ext.imageSize <= 0.4) || (pos.x == 0.5 && ext.imageSize <= 1.0)
    ensures var pos := CalculateImagePosition(ext.position);
            (0.2 <= pos.y <= 0.8 && ext.imageSize <= 0.4) || (pos.y == 0.5 && ext.imageSize <= 1.0)
  {
  }

  /** The square of side `m * k` centred on the anchor `pos` of the canvas lies on the canvas. */
  lemma CentredSquareWithin(b: Box, width: real, height: real, pos: Anchor, m: real, k: real)
    requires b == Square(Point(width * pos.x, height * pos.y), m * k)
    requires 0.0 <= m <= width && m <= height && 0.0 <= k
    requires (0.2 <= pos.x <= 0.8 && k <= 0.4) || (pos.x == 0.5 && k <= 1.0)
    requires (0.2 <= pos.y <= 0.8 && k <= 0.4) || (pos.y == 0.5 && k <= 1.0)
    ensures b.Within(Canvas(width, height))
  {
    SquareFits(width, pos.x, m, k);
    SquareFits(height, pos.y, m, k);
  }

  /** The plate, when drawn, always stays on the canvas, at any position. */
  lemma PlateInsideCanvas(ext: ImageExtension, width: real, height: real)
    requires 0.0 <= width && 0.0 <= height
    requires LayOut(ext, width, height).plate.Some?
    ensures LayOut(ext, width, height).plate.value.box.Within(Canvas(width, height))
  {
    var pos, m := CalculateImagePosition(ext.position), Min(width, height);
    var k := GetPaddingSettings(ext.paddingPreset).backgroundSize;
    CentredSquareWithin(LayOut(ext, width, height).plate.value.box, width, height, pos, m, k);
  }

  /** The plate lies under the whole image when the image is no larger than the plate. */
  lemma PlateCoversImage(ext: ImageExtension, width: real, height: real)
    requires 0.0 <= width && 0.0 <= height
    requires LayOut(ext, width, height).plate.Some?
    requires 0.0 <= ext.imageSize <= GetPaddingSettings(ext.paddingPreset).backgroundSize
    ensures LayOut(ext, width, height).image.Within(LayOut(ext, width, height).plate.value.box)
  {
    var m := Min(width, height);
    ImageGeometry(ext, width, height);
    PlateGeometry(ext, width, height);
    MulMonotone(m, ext.imageSize, GetPaddingSettings(ext.paddingPreset).backgroundSize);
  }

  /** The loop over the plate's attribute names, setting each on the element in turn. */
  method SetAttributes(el: Node, updates: seq<(string, Text)>) returns (r: Node)
    ensures r == el.(attrs := Assign(el.attrs, updates))
  {
    r := el;
    var i := 0;
    while i < |updates|
      invariant 0 <= i <= |updates|
      invariant r == el.(attrs := Assign(el.attrs, updates[..i]))
    {
      assert updates[..i + 1][..i] == updates[..i];
      r := SetAttribute(r, updates[i].0, updates[i].1);
      i := i + 1;
    }
    assert updates[..i] == updates;
  }

  /** The rendered SVG, which the closure edits in place. */
  class Svg {
    var nodes: seq<Node>

    constructor (nodes: seq<Node>)
      ensures this.nodes == nodes
    {
      this.nodes := nodes;
    }

    /** The closure returned by createCustomImageExtension, called with the renderer's width and height. */
    method ApplyImageExtension(ext: ImageExtension, width: real, height: real)
      modifies this
      ensures nodes == Composite(old(nodes), ext, width, height)
    {
      if !Truthy(ext.image) {
        return;
      }
      var found := QueryImage(nodes);
      if found.None? {
        return;
      }
      var i := found.value;
      ghost var before := nodes;
      var layout := LayOut(ext, width, height);
      if layout.plate.Some? {
        // document.createElementNS(..., "rect"), its attributes, then insertBefore(bg, imageElement)
        var bg := SetAttributes(Node("rect", nodes[i].level, map[]), PlateAttributes(layout.plate.value));
        nodes := nodes[..i] + [bg] + nodes[i..];
        i := i + 1;
      }
      var image := nodes[i];
      image := SetAttribute(image, "x", [Number(layout.image.x)]);
      image := SetAttribute(image, "y", [Number(layout.image.y)]);
      image := SetAttribute(image, "width", [Number(layout.image.width)]);
      image := SetAttribute(image, "height", [Number(layout.image.height)]);
      nodes := nodes[i := image];
      if layout.plate.Some? {
        assert nodes == before[..found.value] + [PlateNode(layout.plate.value, before[found.value].level), image]
                        + before[found.value + 1..];
      }
    }
  }
}
