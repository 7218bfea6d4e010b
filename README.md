# QR code display: styles, logo overlay and renderer options

This project models in Dafny the core of the `QRCodeDisplay` component in the
qr.exon.dev web app. The component does not draw the QR code itself. It turns
its props into an options object for the external `qr-code-styling` renderer.
When a logo image is given, it also installs an extension: a callback that the
renderer runs on its freshly drawn SVG.

The model covers four parts.

- **Style mappers** (`Styles`). These translate the component's pattern and
  corner style names into the renderer's names. Any unknown name becomes
  `square`.
- **Lookup tables** (`Presets`). One maps each logo position to a fractional
  anchor on the canvas. The other maps each padding preset to a margin, a plate
  colour and a plate size.
- **The logo overlay** (`Overlay`, with `Colour` and `Strings`). The extension
  closure does four things:
  - It finds the first `image` element.
  - It computes the anchor, the logo size and the plate size from the canvas
    width and height.
  - If the plate colour is visible, it converts that colour to rgba at the
    requested opacity, builds a `rect` plate and inserts it just before the
    image.
  - It overwrites the image's `x`, `y`, `width` and `height`.

  The SVG is a sequence of elements in document order. Each element records its
  depth. `Overlay.Svg` holds that sequence, and its method
  `ApplyImageExtension` edits it in place, following the closure's steps. The
  function `Overlay.Composite` states the resulting tree.
- **Renderer options** (`Options`). These are the objects built on the create
  path and the update path, and the overlay arguments the component passes.
  The payload falls back to `https://exon.dev` and the logo margin falls back
  to the `imageMargin` prop.

Attribute values are `Text`, a sequence of characters and numbers. A number that
JavaScript would turn into a string is kept as an exact real.

Several facts about the code come out of the proofs:

- The preset table never yields an empty colour or a zero size. The
  `|| bgColor` and `|| bgSize` fallbacks in the closure are dead. So are the
  `imageBackgroundColor` and `imageBackgroundSize` props: changing them changes
  nothing.
- A plate is drawn exactly under the `minimal` and `standard` presets. It is
  then always plain `white`. White forms neither a `#` nor an `rgb(` colour, so
  the rgba conversion never fires in the app. The conversion is still modelled
  and proved on its own terms.
- The closure is not idempotent. Applied to its own output, it inserts a second
  plate.

The prop comments at app/components/QRCodeDisplay.tsx:30 and :32 describe `imageBackgroundColor` and
`imageBackgroundSize` as the colour and size of the background behind the image.
The code takes both from the preset instead (lines 201 and 205). This model
follows the code.

## Model

| member | source | states |
|---|---|---|
| Styles.MapPatternStyle | app/components/QRCodeDisplay.tsx:98-106 | each of the four dot names maps to the shape of that name; any other string maps to square |
| Styles.MapCornerSquareStyle | app/components/QRCodeDisplay.tsx:109-117 | square, extra-rounded and dot map to themselves; anything else maps to square |
| Styles.MapCornerDotStyle | app/components/QRCodeDisplay.tsx:120-127 | square and dot map to themselves; anything else (extra-rounded, classy-rounded included) maps to square |
| Styles.NamesRoundTrip | app/components/QRCodeDisplay.tsx:7-9 | every renderer name maps back to itself, so each mapper's result lies in its target type and is stable |
| Styles.CornerStyleTranslation | app/components/QRCodeDisplay.tsx:109-127 | for each cornerStyle value, what the square and dot mappers return; the corner dot is round exactly when the corner square is |
| Styles.CornerDotFollowsSquare | app/components/QRCodeDisplay.tsx:109-127 | for any string, the dot mapper gives dot exactly when the square mapper does |
| Presets.CalculateImagePosition | app/components/QRCodeDisplay.tsx:130-139 | both coordinates lie in [0.2, 0.8]; at least one is 0.5; an unknown name gives the centre |
| Presets.PositionAnchors | app/components/QRCodeDisplay.tsx:130-139 | the five positions give their five table anchors; different positions give different anchors |
| Presets.GetPaddingSettings | app/components/QRCodeDisplay.tsx:142-169 | colour never empty and size never 0; colour is transparent or white, transparent exactly when margin is 0; bounds on size and margin; unknown presets behave as none |
| Presets.PaddingTable | app/components/QRCodeDisplay.tsx:142-169 | the exact triples for none, minimal and standard, and the default equals none |
| Presets.PaddingMonotone | app/components/QRCodeDisplay.tsx:144-161 | margin and plate size grow strictly from none to minimal to standard |
| Presets.VisiblePlateIff | app/components/QRCodeDisplay.tsx:142-169 | the colour is not transparent exactly for minimal and standard |
| Strings.IndexOf | app/components/QRCodeDisplay.tsx:219 | the result is the first index where the pattern occurs, or none when it never occurs |
| Strings.ReplaceFirst | app/components/QRCodeDisplay.tsx:219 | no ensures of its own: the string-pattern `replace`, first occurrence only; its properties are Strings.ReplaceLeading, Strings.ReplaceAfter and Strings.ReplaceAbsent |
| Strings.ReplaceLeading | app/components/QRCodeDisplay.tsx:219 | a string-pattern replace of a prefix the text starts with swaps only that prefix |
| Strings.ReplaceAfter | app/components/QRCodeDisplay.tsx:219 | for a one-character pattern (the `')'` of line 219), replace acts on its first occurrence only: later ones are left alone |
| Strings.ReplaceAbsent | app/components/QRCodeDisplay.tsx:219 | replace leaves the text unchanged when the pattern does not occur |
| Colour.ParseHexPair | app/components/QRCodeDisplay.tsx:213-215 | two hex digits, in either case, parse to a value below 256; the exact value is pinned by Colour.ParseHexPairRoundTrip |
| Colour.HexPairRoundTrip | app/components/QRCodeDisplay.tsx:213-215 | parsing the two-digit hex form of n gives n back |
| Colour.ParseHexPairRoundTrip | app/components/QRCodeDisplay.tsx:213-215 | formatting the value of any two hex digits, upper or lower case, gives those digits back in lower case |
| Colour.LowerIsHexColor | app/components/QRCodeDisplay.tsx:211-215 | any well-formed `#` colour, in any case, lower-cases to `#rrggbb` of its three parsed channels |
| Colour.WithOpacity | app/components/QRCodeDisplay.tsx:210-220 | at opacity 1 or more, or for a colour that is neither `#` nor `rgb(`, the colour is unchanged |
| Colour.HexToRgba | app/components/QRCodeDisplay.tsx:211-216 | `#rrggbb` below opacity 1 becomes rgba of its three channels and the opacity |
| Colour.HexToRgbaAnyCase | app/components/QRCodeDisplay.tsx:211-216 | a `#` colour in any mix of cases below opacity 1 becomes rgba of the channels of its lower-case form |
| Colour.UpperCaseHex | app/components/QRCodeDisplay.tsx:211-216 | `#AABBCC` at opacity 0.9 becomes rgba(170, 187, 204, 0.9), as `#aabbcc` does |
| Colour.RgbToRgba | app/components/QRCodeDisplay.tsx:217-219 | `rgb(inner)rest` below opacity 1 becomes `rgba(inner, opacity)rest` |
| Colour.RgbToRgbaText | app/components/QRCodeDisplay.tsx:219 | no ensures of its own: the chained replace of `rgb(` and then `)`; its properties are Colour.RgbToRgba and Colour.RgbWithoutClose |
| Colour.RgbWithoutClose | app/components/QRCodeDisplay.tsx:217-219 | an `rgb(` colour without `)` only has `rgb(` renamed to `rgba(` |
| Colour.OpacityAppliedIff | app/components/QRCodeDisplay.tsx:210-220 | the opacity appears in the fill exactly when opacity < 1 and the colour is `#…`, or `rgb(` with a `)` |
| Overlay.QueryImage | app/components/QRCodeDisplay.tsx:185-186 | the first image element in document order, or none when there is no image |
| Overlay.AnchorPoint | app/components/QRCodeDisplay.tsx:192-194 | no ensures of its own: the anchor (W·pos.x, H·pos.y); stated by Overlay.ImageGeometry |
| Overlay.ImageSide | app/components/QRCodeDisplay.tsx:200 | no ensures of its own: min(W,H)·imageSize; stated by Overlay.ImageGeometry |
| Overlay.PlateSide | app/components/QRCodeDisplay.tsx:201 | no ensures of its own: min(W,H) times the preset size, bgSize when that is falsy; stated by Overlay.PlateGeometry |
| Overlay.PlateFill | app/components/QRCodeDisplay.tsx:205-220 | no ensures of its own: the rgba-converted effective colour, or none when it is falsy or transparent; stated by Overlay.PlateDrawnIff and Overlay.PlateGeometry |
| Overlay.PlateOf | app/components/QRCodeDisplay.tsx:201-230 | no ensures of its own: the plate's box, corner radius and fill; stated by Overlay.PlateGeometry |
| Overlay.LayOut | app/components/QRCodeDisplay.tsx:192-230 | no ensures of its own: the anchor, image box and optional plate the closure computes; stated by Overlay.ImageGeometry, Overlay.PlateDrawnIff and Overlay.PlateGeometry |
| Overlay.ImageGeometry | app/components/QRCodeDisplay.tsx:192-200 | anchor = (W·pos.x, H·pos.y); the image box is centred on it with side min(W,H)·imageSize |
| Overlay.PlateDrawnIff | app/components/QRCodeDisplay.tsx:197-206 | a plate is drawn exactly under the minimal or standard preset, whatever bgColor is |
| Overlay.PlateGeometry | app/components/QRCodeDisplay.tsx:197-230 | the plate is centred on the anchor, side min(W,H)·preset size, rx = ry = side·borderRadius, fill white |
| Overlay.PlateAttributes | app/components/QRCodeDisplay.tsx:222-230 | no ensures of its own: the seven attribute names and values in key order; stated by Overlay.PlateNodeAttributes |
| Overlay.PlateNode | app/components/QRCodeDisplay.tsx:207-234 | no ensures of its own: a new rect at the given depth with the attributes set in order; stated by Overlay.PlateNodeAttributes |
| Overlay.PlateNodeAttributes | app/components/QRCodeDisplay.tsx:222-234 | the plate rect carries exactly fill, x, y, width, height, rx and ry with the plate's values |
| Overlay.SetAttributes | app/components/QRCodeDisplay.tsx:232-234 | the loop leaves the element with every update applied in order, the later one winning |
| Overlay.CompositeNoOp | app/components/QRCodeDisplay.tsx:181-186 | with no image prop, or no image element, the SVG is unchanged |
| Overlay.Reposition | app/components/QRCodeDisplay.tsx:243-246 | no ensures of its own: the image's x, y, width and height overwritten; stated by Overlay.RepositionChangesGeometryOnly |
| Overlay.RepositionChangesGeometryOnly | app/components/QRCodeDisplay.tsx:243-246 | the image keeps its tag, depth and every other attribute, and gains exactly x, y, width and height set to the box |
| Overlay.Composite | app/components/QRCodeDisplay.tsx:180-246 | no ensures of its own: the whole SVG after the closure; stated by Overlay.CompositeNoOp, Overlay.CompositeEdits and Overlay.CompositeKeepsFirstImage, and met by Overlay.Svg.ApplyImageExtension |
| Overlay.CompositeEdits | app/components/QRCodeDisplay.tsx:206-246 | only changes: a rect at the image's depth directly before it when a plate is drawn, and the image's four geometry attributes |
| Overlay.CompositeKeepsFirstImage | app/components/QRCodeDisplay.tsx:237-239 | after the edit the same image is still the first one, one place later when a plate went in |
| Overlay.ReapplyStacksPlates | app/components/QRCodeDisplay.tsx:180-246 | running the closure on its own output adds a second plate; the image ends up the same |
| Overlay.ImageInsideCanvas | app/components/QRCodeDisplay.tsx:192-246 | the image lies on [0,W]×[0,H] at the centre for 0 ≤ imageSize ≤ 1, and at any position for imageSize ≤ 0.4 |
| Overlay.PlateInsideCanvas | app/components/QRCodeDisplay.tsx:192-227 | a drawn plate always lies on the canvas |
| Overlay.PlateCoversImage | app/components/QRCodeDisplay.tsx:200-246 | the plate lies under the whole image when imageSize is at most the preset's size |
| Overlay.Svg.ApplyImageExtension | app/components/QRCodeDisplay.tsx:180-246 | the in-place edit leaves exactly the tree Composite describes |
| Options.PayloadNeverEmpty | app/components/QRCodeDisplay.tsx:279 | the data is never empty: the contents when non-empty, else https://exon.dev |
| Options.Defaults | app/components/QRCodeDisplay.tsx:41-67 | no ensures of its own: the default prop values; used by Options.DefaultLogo |
| Options.CreateOptions | app/components/QRCodeDisplay.tsx:275-306 | no ensures of its own: the create-path options object; stated by Options.PayloadNeverEmpty, Options.MarginByPreset and Options.StylesReachRenderer |
| Options.UpdateOptions | app/components/QRCodeDisplay.tsx:377-406 | no ensures of its own: the update-path options object; stated by Options.UpdateMatchesCreate |
| Options.ExtensionFor | app/components/QRCodeDisplay.tsx:409-421 | no ensures of its own: the overlay arguments, built only when image is truthy; stated by Options.ExtensionUsesPreset |
| Options.Render | app/components/QRCodeDisplay.tsx:309-319 | no ensures of its own: one draw followed by the overlay; stated by Options.RenderPlateIff, Options.RenderWithoutImage and Options.BackgroundPropsHaveNoEffect |
| Options.MarginByPreset | app/components/QRCodeDisplay.tsx:300-305 | the logo margin is imageMargin under none, 2 under minimal and 5 under standard |
| Options.StylesReachRenderer | app/components/QRCodeDisplay.tsx:286-297 | the dot shape is the patternStyle prop; classy-rounded corners become square; the corner dot is round only with a round corner square |
| Options.UpdateMatchesCreate | app/components/QRCodeDisplay.tsx:377-406 | the update object equals the create object without the type and margin keys |
| Options.ExtensionUsesPreset | app/components/QRCodeDisplay.tsx:413-421 | the overlay is built exactly when image is non-empty; its colour and size arguments are always the preset's |
| Options.BackgroundPropsHaveNoEffect | app/components/QRCodeDisplay.tsx:413-421 | imageBackgroundColor and imageBackgroundSize change neither the options nor the drawing |
| Options.RenderPlateIff | app/components/QRCodeDisplay.tsx:309-319 | one element is added exactly when there is an image prop, an image element and a preset other than none |
| Options.RenderWithoutImage | app/components/QRCodeDisplay.tsx:309-310 | without an image prop the drawing is what the renderer made |
| Options.DefaultLogo | app/components/QRCodeDisplay.tsx:47-66 | with default props and a logo, no plate is drawn and the logo becomes the centred square of side 0.2·size |

## Left out

- The React lifecycle is not modelled: `useEffect`, `useState`, the dynamic import of the renderer, `append`, `applyExtension`, `deleteExtension`, clearing `innerHTML`, and the `typeof window` guard. This is plumbing around a foreign library whose code is not part of this model. The options are modelled as values, and `Options.Render` stands for one draw followed by the overlay.
- The renderer's drawing is not modelled: the SVG it produces is an input. Its merge of update options into old ones is not modelled either. `drawType` and `margin` are simply absent from the update object.
- The padding-preset effect (lines 72-95) only reassigns local variables and has no observable effect.
- The JSX wrapper and its styling (lines 450-470) are presentational.
- `try`/`catch` and `console.error` are I/O. None of the modelled operations throws.
- JavaScript number-to-string formatting and IEEE-754 rounding: geometry is exact real arithmetic, and a number written into an attribute or an rgba string stays a number piece of `Text`.
- `parseInt` on non-hex characters, which yields NaN or the value of a parsed prefix (`"0g"` reads as 0): a `#` colour must have six hex digits after the `#` (`Colour.Convertible`). The app only ever passes `white` or `transparent`.
- `imageElement.parentNode` being null: every element below the SVG root has a parent, so the insertion always happens. The tree is flat in document order with depths; a rect placed directly before the image at the same depth is its previous sibling.
- The props maskXToYRatio, qrBackgroundPadding, qrBackgroundBorderRadius and onQRInstance are destructured but never reach the renderer or the overlay.
- The SVG root element is not in the element sequence: the image lookup only searches below the root, and the root is never the image.
- Overlay.ImageInsideCanvas: covers the centre with 0 ≤ imageSize ≤ 1 and every position with imageSize ≤ 0.4; other combinations can leave the canvas and are not claimed.
- The other files of the repository (app.tsx, page.tsx, the OG image route and component, sitemap, robots) hold UI mock-ups, metadata and static routes and are not part of this model. The content encoder, the link serializer and the export controller are not part of this model either.
