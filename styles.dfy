/**
 * The component's style names and their translation into the renderer's
 * vocabulary (QRCodeDisplay.tsx: mapPatternStyle, mapCornerSquareStyle,
 * mapCornerDotStyle). The mappers take any string, as the switches do, and
 * fall back to the square shape for any name they do not know.
 */
module Styles {
  /** The renderer's dot shapes; also the type of the patternStyle prop. */
  datatype DotType = Square | Dots | Rounded | Classy {
    function Name(): string {
      match this
      case Square => "square"
      case Dots => "dots"
      case Rounded => "rounded"
      case Classy => "classy"
    }
  }

  /** The renderer's corner-square shapes. */
  datatype CornerSquareType = Square | ExtraRounded | Dot {
    function Name(): string {
      match this
      case Square => "square"
      case ExtraRounded => "extra-rounded"
      case Dot => "dot"
    }
  }

  /** The renderer's corner-dot shapes. */
  datatype CornerDotType = Square | Dot {
    function Name(): string {
      match this
      case Square => "square"
      case Dot => "dot"
    }
  }

  /** The values of the cornerStyle prop. */
  datatype CornerStyle = Square | ExtraRounded | Dot | ClassyRounded {
    function Name(): string {
      match this
      case Square => "square"
      case ExtraRounded => "extra-rounded"
      case Dot => "dot"
      case ClassyRounded => "classy-rounded"
    }
  }

  /** mapPatternStyle: the identity on the four dot shapes, square for anything else. */
  function MapPatternStyle(style: string): (r: DotType)
    ensures forall d: DotType :: d.Name() == style ==> r == d
    ensures r.Name() == style || r == DotType.Square
  {
    match style
    case "square" => DotType.Square
    case "dots" => DotType.Dots
    case "rounded" => DotType.Rounded
    case "classy" => DotType.Classy
    case _ => DotType.Square
  }

  /** mapCornerSquareStyle: the identity on the three corner-square shapes, square for anything else. */
  function MapCornerSquareStyle(style: string): (r: CornerSquareType)
    ensures forall c: CornerSquareType :: c.Name() == style ==> r == c
    ensures r.Name() == style || r == CornerSquareType.Square
  {
    match style
    case "square" => CornerSquareType.Square
    case "extra-rounded" => CornerSquareType.ExtraRounded
    case "dot" => CornerSquareType.Dot
    case _ => CornerSquareType.Square
  }

  /** mapCornerDotStyle: the identity on the two corner-dot shapes, square for anything else. */
  function MapCornerDotStyle(style: string): (r: CornerDotType)
    ensures forall c: CornerDotType :: c.Name() == style ==> r == c
    ensures r.Name() == style || r == CornerDotType.Square
  {
    match style
    case "square" => CornerDotType.Square
    case "dot" => CornerDotType.Dot
    case _ => CornerDotType.Square
  }

  /** Each renderer vocabulary's names are distinct, so a mapped name maps back to itself. */
  lemma NamesRoundTrip(d: DotType, c: CornerSquareType, e: CornerDotType)
    ensures MapPatternStyle(d.Name()) == d
    ensures MapCornerSquareStyle(c.Name()) == c
    ensures MapCornerDotStyle(e.Name()) == e
  {
  }

  /**
   * What each corner style becomes: `extra-rounded` keeps its shape only on
   * the corner squares, `classy-rounded` is square on both, and the inner dot is
   * round exactly when the outer square is.
   */
  lemma CornerStyleTranslation(style: CornerStyle)
    ensures MapCornerSquareStyle(style.Name()).Name()
         == (if style == CornerStyle.ClassyRounded then "square" else style.Name())
    ensures MapCornerDotStyle(style.Name()).Name()
         == (if style == CornerStyle.Square || style == CornerStyle.Dot then style.Name() else "square")
    ensures MapCornerDotStyle(style.Name()) == CornerDotType.Dot
        <==> MapCornerSquareStyle(style.Name()) == CornerSquareType.Dot
  {
  }

  /** On any name at all, the corner dot is round only if the corner square is. */
  lemma CornerDotFollowsSquare(style: string)
    ensures MapCornerDotStyle(style) == CornerDotType.Dot <==> MapCornerSquareStyle(style) == CornerSquareType.Dot
  {
  }
}
