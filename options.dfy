/**
 * The component's props and the options it hands to the renderer
 * (QRCodeDisplay.tsx). The first effect builds a new renderer with the
 * create options and, when an image is given, applies the overlay; the second
 * effect sends the update options to an existing renderer and applies the
 * overlay again. Both paths build the overlay from the same arguments.
 */
module Options {
  import opened Optional
  import opened Strings
  import opened Styles
  import opened Presets
  import opened Overlay

  /** The renderer's error-correction levels. */
  datatype ErrorCorrectionLevel = L | M | Q | H

  /** The props after destructuring, with the component's defaults filled in. */
  datatype Props = Props(
    contents: string,
    moduleColor: string,
    positionRingColor: string,
    positionCenterColor: string,
    size: real,
    patternStyle: DotType,
    cornerStyle: CornerStyle,
    image: Option<string>,
    backgroundColor: string,
    errorCorrectionLevel: ErrorCorrectionLevel,
    imageSize: real,
    imageMargin: real,
    imagePosition: ImagePosition,
    imageBackgroundColor: string,
    imageHideBackgroundDots: bool,
    imageBackgroundSize: real,
    imageBackgroundBorderRadius: real,
    imageBackgroundOpacity: real,
    imagePaddingPreset: PaddingPreset)

  /** The props a caller gives only the five required values: every other prop takes its default. */
  function Defaults(contents: string, moduleColor: string, positionRingColor: string,
                    positionCenterColor: string, size: real): Props {
    Props(contents, moduleColor, positionRingColor, positionCenterColor, size,
          DotType.Square, CornerStyle.Square, None, "transparent", H,
          0.2, 0.0, Center, "transparent", true, 0.22, 0.1, 0.9, NoPadding)
  }

  datatype DotsOptions = DotsOptions(color: string, dotType: DotType)
  datatype CornersSquareOptions = CornersSquareOptions(color: string, squareType: CornerSquareType)
  datatype CornersDotOptions = CornersDotOptions(color: string, dotType: CornerDotType)
  datatype ImageOptions = ImageOptions(crossOrigin: string, margin: real, hideBackgroundDots: bool, imageSize: real)

  /**
   * An options object for the renderer. `drawType` (the `type` key) and `margin`
   * are absent from the update object, which leaves them as they were.
   */
  datatype RendererOptions = RendererOptions(
    width: real,
    height: real,
    drawType: Option<string>,
    data: string,
    image: Option<string>,
    margin: Option<real>,
    errorCorrectionLevel: ErrorCorrectionLevel,
    dots: DotsOptions,
    cornersSquare: CornersSquareOptions,
    cornersDot: CornersDotOptions,
    backgroundColor: string,
    imageOptions: ImageOptions)

  /** The payload encoded when the contents are empty. */
  const FallbackData: string := "https://exon.dev"

  /** The options the first effect constructs the renderer with. */
  function CreateOptions(p: Props): RendererOptions {
    var settings := GetPaddingSettings(p.imagePaddingPreset.Name());
    RendererOptions(
      p.size, p.size, Some("svg"), OrString(p.contents, FallbackData), p.image, Some(0.0),
      p.errorCorrectionLevel,
      DotsOptions(p.moduleColor, MapPatternStyle(p.patternStyle.Name())),
      CornersSquareOptions(p.positionRingColor, MapCornerSquareStyle(p.cornerStyle.Name())),
      CornersDotOptions(p.positionCenterColor, MapCornerDotStyle(p.cornerStyle.Name())),
      p.backgroundColor,
      ImageOptions("anonymous", OrReal(settings.margin, p.imageMargin), p.imageHideBackgroundDots, p.imageSize))
  }

  /** The options the second effect passes to `update`. */
  function UpdateOptions(p: Props): RendererOptions {
    var settings := GetPaddingSettings(p.imagePaddingPreset.Name());
    RendererOptions(
      p.size, p.size, None, OrString(p.contents, FallbackData), p.image, None,
      p.errorCorrectionLevel,
      DotsOptions(p.moduleColor, MapPatternStyle(p.patternStyle.Name())),
      CornersSquareOptions(p.positionRingColor, MapCornerSquareStyle(p.cornerStyle.Name())),
      CornersDotOptions(p.positionCenterColor, MapCornerDotStyle(p.cornerStyle.Name())),
      p.backgroundColor,
      ImageOptions("anonymous", OrReal(settings.margin, p.imageMargin), p.imageHideBackgroundDots, p.imageSize))
  }

  /** The overlay both effects apply, or none when the image prop is empty or absent. */
  function ExtensionFor(p: Props): Option<ImageExtension> {
    var settings := GetPaddingSettings(p.imagePaddingPreset.Name());
    if Truthy(p.image) then
      Some(ImageExtension(
        p.imagePosition.Name(),
        OrString(settings.backgroundColor, p.imageBackgroundColor),
        OrReal(settings.backgroundSize, p.imageBackgroundSize),
        p.imageBackgroundBorderRadius,
        p.imageBackgroundOpacity,
        p.imagePaddingPreset.Name(),
        p.image,
        p.imageSize))
    else None
  }

  /**
   * The SVG after the renderer has drawn `nodes` and run the overlay. The
   * renderer calls the overlay with its own width and height, which are the size prop.
   */
  function Render(p: Props, nodes: seq<Node>): seq<Node> {
    match ExtensionFor(p)
    case None => nodes
    case Some(ext) => Composite(nodes, ext, p.size, p.size)
  }

  /** The renderer always gets a payload: the contents, or the fallback URL when they are empty. */
  lemma PayloadNeverEmpty(p: Props)
    ensures CreateOptions(p).data != "" && UpdateOptions(p).data != ""
    ensures p.contents != "" ==> CreateOptions(p).data == p.contents
    ensures p.contents == "" ==> CreateOptions(p).data == FallbackData
  {
  }

  /**
   * The logo margin: the preset's margin, except that `none` has margin 0, which
   * is falsy, so the imageMargin prop is used there and only there.
   */
  lemma MarginByPreset(p: Props)
    ensures CreateOptions(p).imageOptions.margin
         == match p.imagePaddingPreset
            case NoPadding => p.imageMargin
            case Minimal => 2.0
            case Standard => 5.0
  {
  }

  /** The typed style props reach the renderer unchanged; corner dots are round only with round corner squares. */
  lemma StylesReachRenderer(p: Props)
    ensures CreateOptions(p).dots.dotType == p.patternStyle
    ensures CreateOptions(p).cornersSquare.squareType.Name()
         == (if p.cornerStyle == CornerStyle.ClassyRounded then "square" else p.cornerStyle.Name())
    ensures CreateOptions(p).cornersDot.dotType == CornerDotType.Dot
        <==> CreateOptions(p).cornersSquare.squareType == CornerSquareType.Dot
  {
    NamesRoundTrip(p.patternStyle, CornerSquareType.Square, CornerDotType.Square);
    CornerStyleTranslation(p.cornerStyle);
  }

  /** The update path sends the same settings as the create path, less the draw type and the outer margin. */
  lemma UpdateMatchesCreate(p: Props)
    ensures UpdateOptions(p) == CreateOptions(p).(drawType := None, margin := None)
  {
  }

  /**
   * The overlay is built exactly when the image prop is non-empty, and its plate
   * colour and size are always the preset's: the imageBackgroundColor and
   * imageBackgroundSize props never reach it.
   */
  lemma ExtensionUsesPreset(p: Props)
    ensures ExtensionFor(p).Some? <==> Truthy(p.image)
    ensures ExtensionFor(p).Some? ==>
              ExtensionFor(p).value.bgColor == GetPaddingSettings(p.imagePaddingPreset.Name()).backgroundColor
    ensures ExtensionFor(p).Some? ==>
              ExtensionFor(p).value.bgSize == GetPaddingSettings(p.imagePaddingPreset.Name()).backgroundSize
  {
  }

  /** Changing imageBackgroundColor or imageBackgroundSize changes neither the options nor the drawing. */
  lemma BackgroundPropsHaveNoEffect(p: Props, color: string, bgSize: real, nodes: seq<Node>)
    ensures var q := p.(imageBackgroundColor := color, imageBackgroundSize := bgSize);
            CreateOptions(q) == CreateOptions(p) && UpdateOptions(q) == UpdateOptions(p)
    ensures var q := p.(imageBackgroundColor := color, imageBackgroundSize := bgSize);
            Render(q, nodes) == Render(p, nodes)
  {
    var q := p.(imageBackgroundColor := color, imageBackgroundSize := bgSize);
    ExtensionUsesPreset(p);
    ExtensionUsesPreset(q);
    assert ExtensionFor(q) == ExtensionFor(p);
  }

  /**
   * A plate is added to the drawing exactly when there is an image prop, the
   * drawing has an image element and the preset is not `none`; otherwise the
   * element count is unchanged.
   */
  lemma RenderPlateIff(p: Props, nodes: seq<Node>)
    ensures |Render(p, nodes)| == |nodes| + 1
        <==> Truthy(p.image) && QueryImage(nodes).Some? && p.imagePaddingPreset != NoPadding
    ensures |Render(p, nodes)| == |nodes| || |Render(p, nodes)| == |nodes| + 1
  {
    if Truthy(p.image) && QueryImage(nodes).Some? {
      var ext := ExtensionFor(p).value;
      CompositeEdits(nodes, ext, p.size, p.size);
      PlateDrawnIff(ext, p.size, p.size);
    }
  }

  /** Without an image prop the drawing is left exactly as the renderer made it. */
  lemma RenderWithoutImage(p: Props, nodes: seq<Node>)
    requires !Truthy(p.image)
    ensures Render(p, nodes) == nodes
  {
  }

  /**
   * With the defaults and a logo, no plate is drawn and the logo becomes a square
   * of a fifth of the size at the centre.
   */
  lemma DefaultLogo(contents: string, moduleColor: string, ring: string, centre: string,
                    size: real, logo: string, nodes: seq<Node>)
    requires logo != "" && QueryImage(nodes).Some?
    ensures var p := Defaults(contents, moduleColor, ring, centre, size).(image := Some(logo));
            var r, i := Render(p, nodes), QueryImage(nodes).value;
            |r| == |nodes| && Repositioned(nodes[i], r[i], Box(0.4 * size, 0.4 * size, 0.2 * size, 0.2 * size))
  {
    var p := Defaults(contents, moduleColor, ring, centre, size).(image := Some(logo));
    var ext := ExtensionFor(p).value;
    CompositeEdits(nodes, ext, size, size);
    PlateDrawnIff(ext, size, size);
    assert LayOut(ext, size, size).image == Box(0.4 * size, 0.4 * size, 0.2 * size, 0.2 * size) by {
      assert CalculateImagePosition("center") == Anchor(0.5, 0.5);
      assert Min(size, size) == size;
      assert size * 0.5 - size * 0.2 / 2.0 == 0.4 * size;
    }
  }
}
