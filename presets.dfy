/**
 * The two fixed lookup tables of QRCodeDisplay.tsx: calculateImagePosition
 * (where the logo is anchored, as fractions of the canvas) and
 * getPaddingSettings (the margin, plate colour and plate size of a padding
 * preset). Both switch over strings and have a default branch.
 */
module Presets {
  /** A point given as fractions of the canvas width and height. */
  datatype Anchor = Anchor(x: real, y: real)

  /** The values of the imagePosition prop. */
  datatype ImagePosition = Center | Top | Bottom | Left | Right {
    function Name(): string {
      match this
      case Center => "center"
      case Top => "top"
      case Bottom => "bottom"
      case Left => "left"
      case Right => "right"
    }
  }

  /** The names of the five positions. */
  const PositionNames: set<string> := {"center", "top", "bottom", "left", "right"}

  /** calculateImagePosition */
  function CalculateImagePosition(position: string): (pos: Anchor)
    ensures 0.2 <= pos.x <= 0.8 && 0.2 <= pos.y <= 0.8
    ensures pos.x == 0.5 || pos.y == 0.5
    ensures position !in PositionNames ==> pos == Anchor(0.5, 0.5)
  {
    match position
    case "center" => Anchor(0.5, 0.5)
    case "top" => Anchor(0.5, 0.2)
    case "bottom" => Anchor(0.5, 0.8)
    case "left" => Anchor(0.2, 0.5)
    case "right" => Anchor(0.8, 0.5)
    case _ => Anchor(0.5, 0.5)
  }

  /**
   * The five positions have five different anchors: the centre, and one point
   * on each side a fifth of the way in, placed symmetrically about the centre.
   */
  lemma PositionAnchors(p: ImagePosition, q: ImagePosition)
    ensures p.Name() in PositionNames
    ensures p != q ==> CalculateImagePosition(p.Name()) != CalculateImagePosition(q.Name())
    ensures CalculateImagePosition(ImagePosition.Center.Name()) == Anchor(0.5, 0.5)
    ensures CalculateImagePosition(ImagePosition.Top.Name()).y + CalculateImagePosition(ImagePosition.Bottom.Name()).y == 1.0
    ensures CalculateImagePosition(ImagePosition.Left.Name()).x + CalculateImagePosition(ImagePosition.Right.Name()).x == 1.0
    ensures CalculateImagePosition(ImagePosition.Top.Name()).y == 0.2
    ensures CalculateImagePosition(ImagePosition.Left.Name()).x == 0.2
    ensures CalculateImagePosition(ImagePosition.Top.Name()).x == CalculateImagePosition(ImagePosition.Bottom.Name()).x == 0.5
    ensures CalculateImagePosition(ImagePosition.Left.Name()).y == CalculateImagePosition(ImagePosition.Right.Name()).y == 0.5
  {
  }

  /** What a padding preset sets: the renderer's image margin and the plate behind the logo. */
  datatype PaddingSettings = PaddingSettings(margin: real, backgroundColor: string, backgroundSize: real)

  /** The values of the imagePaddingPreset prop. */
  datatype PaddingPreset = NoPadding | Minimal | Standard {
    function Name(): string {
      match this
      case NoPadding => "none"
      case Minimal => "minimal"
      case Standard => "standard"
    }
  }

  /** The names of the three presets. */
  const PresetNames: set<string> := {"none", "minimal", "standard"}

  /** getPaddingSettings */
  function GetPaddingSettings(preset: string): (r: PaddingSettings)
    // never falsy, so `settings.backgroundColor || c` and `settings.backgroundSize || s` always take the left side
    ensures r.backgroundColor != "" && r.backgroundSize != 0.0
    ensures r.backgroundColor == "transparent" || r.backgroundColor == "white"
    ensures r.backgroundColor == "transparent" <==> r.margin == 0.0
    ensures 0.22 <= r.backgroundSize <= 0.25 && 0.0 <= r.margin <= 5.0
    ensures preset !in PresetNames ==> r == PaddingSettings(0.0, "transparent", 0.22)
  {
    match preset
    case "none" => PaddingSettings(0.0, "transparent", 0.22)
    case "minimal" => PaddingSettings(2.0, "white", 0.23)
    case "standard" => PaddingSettings(5.0, "white", 0.25)
    case _ => PaddingSettings(0.0, "transparent", 0.22)
  }

  /**
   * The table of the three presets. The default branch gives the same as
   * `none`, and each step up from `none` to `minimal` to `standard` widens both
   * the margin and the plate.
   */
  lemma PaddingTable(preset: string)
    ensures forall p: PaddingPreset :: p.Name() in PresetNames
    ensures GetPaddingSettings(PaddingPreset.NoPadding.Name()) == PaddingSettings(0.0, "transparent", 0.22)
    ensures GetPaddingSettings(PaddingPreset.Minimal.Name()) == PaddingSettings(2.0, "white", 0.23)
    ensures GetPaddingSettings(PaddingPreset.Standard.Name()) == PaddingSettings(5.0, "white", 0.25)
    ensures preset != "minimal" && preset != "standard"
        ==> GetPaddingSettings(preset) == GetPaddingSettings(PaddingPreset.NoPadding.Name())
  {
  }

  /** The presets are ordered: each step up strictly widens the margin and the plate. */
  lemma PaddingMonotone()
    ensures var none, minimal, standard := GetPaddingSettings("none"), GetPaddingSettings("minimal"),
                                           GetPaddingSettings("standard");
            none.margin < minimal.margin < standard.margin
            && none.backgroundSize < minimal.backgroundSize < standard.backgroundSize
  {
  }

  /** A plate colour other than transparent comes only from `minimal` and `standard`. */
  lemma VisiblePlateIff(preset: string)
    ensures GetPaddingSettings(preset).backgroundColor != "transparent"
        <==> preset == PaddingPreset.Minimal.Name() || preset == PaddingPreset.Standard.Name()
  {
  }
}
