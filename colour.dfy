/**
 * The plate's fill colour with the background opacity applied
 * (QRCodeDisplay.tsx, inside the overlay closure): a `#rrggbb` colour becomes
 * `rgba(r, g, b, opacity)`, an `rgb(...)` colour becomes `rgba(..., opacity)`,
 * and any other colour is left as it is.
 */
module Colour {
  import opened Strings

  predicate IsHexDigit(c: char) {
    '0' <= c <= '9' || 'a' <= c <= 'f' || 'A' <= c <= 'F'
  }

  /** The value of one base-16 digit, either case, as parseInt reads it. */
  function HexDigitValue(c: char): (v: nat)
    requires IsHexDigit(c)
    ensures v < 16
  {
    if '0' <= c <= '9' then c as int - '0' as int
    else if 'a' <= c <= 'f' then c as int - 'a' as int + 10
    else c as int - 'A' as int + 10
  }

  /** `parseInt(s, 16)` for two hex digits. */
  function ParseHexPair(s: string): (v: nat)
    requires |s| == 2 && IsHexDigit(s[0]) && IsHexDigit(s[1])
    ensures v < 256
  {
    16 * HexDigitValue(s[0]) + HexDigitValue(s[1])
  }

  /** Characters 1 to 6 are hex digits, so the three slices parse without NaN. */
  predicate HasHexRgb(color: string) {
    |color| >= 7 && forall i :: 1 <= i < 7 ==> IsHexDigit(color[i])
  }

  /** The text `rgba(r, g, b, alpha)`. */
  function RgbaText(r: real, g: real, b: real, alpha: real): Text {
    Plain("rgba(") + [Number(r)] + Plain(", ") + [Number(g)] + Plain(", ") + [Number(b)]
      + Plain(", ") + [Number(alpha)] + Plain(")")
  }

  /** `color.startsWith('#')` */
  predicate StartsWithHash(color: string) {
    |color| > 0 && color[0] == '#'
  }

  /** What the conversion needs of the colour: a colour it will parse as hex is well formed. */
  predicate Convertible(color: string, opacity: real) {
    opacity < 1.0 && StartsWithHash(color) ==> HasHexRgb(color)
  }

  /** The text that closes the rgba form: `, opacity)`. */
  function CloseWith(opacity: real): Text {
    Plain(", ") + [Number(opacity)] + Plain(")")
  }

  /** The rgb branch: the first `rgb(` renamed to `rgba(`, then the first `)` replaced by the closing text. */
  function RgbToRgbaText(color: string, opacity: real): Text {
    ReplaceFirst(ReplaceFirst(Plain(color), Plain("rgb("), Plain("rgba(")), Plain(")"), CloseWith(opacity))
  }

  /** The fill the overlay writes for `color` at background opacity `opacity`. */
  function WithOpacity(color: string, opacity: real): (fill: Text)
    requires Convertible(color, opacity)
    ensures opacity >= 1.0 ==> fill == Plain(color)
    ensures !StartsWithHash(color) && !StartsWith(color, "rgb(") ==> fill == Plain(color)
  {
    if opacity < 1.0 && StartsWithHash(color) then
      RgbaText(ParseHexPair(color[1..3]) as real, ParseHexPair(color[3..5]) as real,
               ParseHexPair(color[5..7]) as real, opacity)
    else if opacity < 1.0 && StartsWith(color, "rgb(") then
      RgbToRgbaText(color, opacity)
    else
      Plain(color)
  }

  /** A base-16 digit as written by a formatter (lower case). */
  function HexDigit(d: nat): (c: char)
    requires d < 16
    ensures IsHexDigit(c)
  {
    if d < 10 then ('0' as int + d) as char else ('a' as int + d - 10) as char
  }

  /** Two lower-case hex digits for a channel value. */
  function HexPair(n: nat): (s: string)
    requires n < 256
    ensures |s| == 2 && IsHexDigit(s[0]) && IsHexDigit(s[1])
  {
    [HexDigit(n / 16), HexDigit(n % 16)]
  }

  /** The colour `#rrggbb` for three channel values. */
  function HexColor(r: nat, g: nat, b: nat): (color: string)
    requires r < 256 && g < 256 && b < 256
    ensures |color| == 7 && color[0] == '#' && HasHexRgb(color)
  {
    "#" + HexPair(r) + HexPair(g) + HexPair(b)
  }

  lemma {:induction false} HexPairRoundTrip(n: nat)
    requires n < 256
    ensures ParseHexPair(HexPair(n)) == n
  {
    var s := HexPair(n);
    assert HexDigitValue(s[0]) == n / 16;
    assert HexDigitValue(s[1]) == n % 16;
  }

  /** An upper-case hex letter in lower case; every other character unchanged. */
  function LowerDigit(c: char): char {
    if 'A' <= c <= 'F' then (c as int - 'A' as int + 'a' as int) as char else c
  }

  /** A string with its upper-case hex letters in lower case. */
  function Lower(s: string): (t: string)
    ensures |t| == |s|
    ensures forall i :: 0 <= i < |s| ==> t[i] == LowerDigit(s[i])
  {
    if s == [] then [] else [LowerDigit(s[0])] + Lower(s[1..])
  }

  /** A digit's value does not depend on its case, and the formatter writes its lower-case form. */
  lemma DigitCase(c: char)
    requires IsHexDigit(c)
    ensures IsHexDigit(LowerDigit(c)) && HexDigitValue(LowerDigit(c)) == HexDigitValue(c)
    ensures HexDigit(HexDigitValue(c)) == LowerDigit(c)
  {
  }

  /**
   * The other direction of the round trip: formatting the value of any two hex
   * digits, in either case, gives those digits back in lower case.
   */
  lemma {:induction false} ParseHexPairRoundTrip(s: string)
    requires |s| == 2 && IsHexDigit(s[0]) && IsHexDigit(s[1])
    ensures HexPair(ParseHexPair(s)) == Lower(s)
  {
    var hi, lo := HexDigitValue(s[0]), HexDigitValue(s[1]);
    DivMod16(hi, lo);
    DigitCase(s[0]);
    DigitCase(s[1]);
    assert HexPair(16 * hi + lo) == [HexDigit(hi), HexDigit(lo)];
    assert Lower(s) == [LowerDigit(s[0]), LowerDigit(s[1])];
  }

  lemma DivMod16(hi: nat, lo: nat)
    requires hi < 16 && lo < 16
    ensures (16 * hi + lo) / 16 == hi && (16 * hi + lo) % 16 == lo
  {
  }

  /** Two hex digits parse to the same value as their lower-case form: parseInt ignores case. */
  lemma {:induction false} ParseIgnoresCase(s: string)
    requires |s| == 2 && IsHexDigit(s[0]) && IsHexDigit(s[1])
    ensures |Lower(s)| == 2 && IsHexDigit(Lower(s)[0]) && IsHexDigit(Lower(s)[1])
    ensures ParseHexPair(Lower(s)) == ParseHexPair(s)
  {
    DigitCase(s[0]);
    DigitCase(s[1]);
  }

  /** A well-formed `#` colour, in any mix of cases, lower-cases to the `#rrggbb` of its parsed channels. */
  lemma {:induction false} LowerIsHexColor(color: string)
    requires |color| == 7 && StartsWithHash(color) && HasHexRgb(color)
    ensures Lower(color) == HexColor(ParseHexPair(color[1..3]), ParseHexPair(color[3..5]), ParseHexPair(color[5..7]))
  {
    var r, g, b := ParseHexPair(color[1..3]), ParseHexPair(color[3..5]), ParseHexPair(color[5..7]);
    ParseHexPairRoundTrip(color[1..3]);
    ParseHexPairRoundTrip(color[3..5]);
    ParseHexPairRoundTrip(color[5..7]);
    var h := HexColor(r, g, b);
    forall i | 0 <= i < 7 ensures Lower(color)[i] == h[i] {
      if i == 0 {
      } else if i < 3 {
        assert h[i] == HexPair(r)[i - 1] && Lower(color[1..3])[i - 1] == LowerDigit(color[i]);
      } else if i < 5 {
        assert h[i] == HexPair(g)[i - 3] && Lower(color[3..5])[i - 3] == LowerDigit(color[i]);
      } else {
        assert h[i] == HexPair(b)[i - 5] && Lower(color[5..7])[i - 5] == LowerDigit(color[i]);
      }
    }
  }

  /** A hex colour at opacity below 1 becomes rgba with the same three channels. */
  lemma HexToRgba(r: nat, g: nat, b: nat, opacity: real)
    requires r < 256 && g < 256 && b < 256 && opacity < 1.0
    ensures WithOpacity(HexColor(r, g, b), opacity)
         == RgbaText(r as real, g as real, b as real, opacity)
  {
    var color := HexColor(r, g, b);
    assert color[1..3] == HexPair(r);
    assert color[3..5] == HexPair(g);
    assert color[5] == HexPair(b)[0] && color[6] == HexPair(b)[1];
    assert color[5..7] == HexPair(b);
    HexPairRoundTrip(r);
    HexPairRoundTrip(g);
    HexPairRoundTrip(b);
  }

  /** A channel whose lower-cased digits are the formatted form of `n` parses to `n`. */
  lemma {:induction false} ChannelParses(color: string, k: nat, n: nat)
    requires k + 2 <= |color| && IsHexDigit(color[k]) && IsHexDigit(color[k + 1]) && n < 256
    requires Lower(color)[k..k + 2] == HexPair(n)
    ensures ParseHexPair(color[k..k + 2]) == n
  {
    var s := color[k..k + 2];
    ParseIgnoresCase(s);
    assert Lower(s) == Lower(color)[k..k + 2];
    HexPairRoundTrip(n);
  }

  /**
   * A hex colour in any mix of cases at opacity below 1 becomes rgba with the
   * channels of its lower-case form, so `#AABBCC` converts as `#aabbcc` does.
   */
  lemma HexToRgbaAnyCase(color: string, r: nat, g: nat, b: nat, opacity: real)
    requires |color| == 7 && StartsWithHash(color) && HasHexRgb(color)
    requires r < 256 && g < 256 && b < 256 && Lower(color) == HexColor(r, g, b) && opacity < 1.0
    ensures Convertible(color, opacity)
    ensures WithOpacity(color, opacity) == RgbaText(r as real, g as real, b as real, opacity)
  {
    HexColorChannels(r, g, b);
    ChannelParses(color, 1, r);
    ChannelParses(color, 3, g);
    ChannelParses(color, 5, b);
    HexBranch(color, opacity);
  }

  /** An upper-case colour converts to the same channels as its lower-case spelling. */
  lemma UpperCaseHex()
    ensures WithOpacity("#AABBCC", 0.9) == RgbaText(170.0, 187.0, 204.0, 0.9)
  {
    assert Lower("#AABBCC") == "#aabbcc";
    assert HexColor(170, 187, 204) == "#aabbcc";
    HexToRgbaAnyCase("#AABBCC", 170, 187, 204, 0.9);
  }

  lemma HexColorChannels(r: nat, g: nat, b: nat)
    requires r < 256 && g < 256 && b < 256
    ensures HexColor(r, g, b)[1..3] == HexPair(r)
    ensures HexColor(r, g, b)[3..5] == HexPair(g)
    ensures HexColor(r, g, b)[5..7] == HexPair(b)
  {
    var h := HexColor(r, g, b);
    assert h == "#" + HexPair(r) + HexPair(g) + HexPair(b);
    assert h[5] == HexPair(b)[0] && h[6] == HexPair(b)[1];
  }

  /** Below opacity 1, a `#` colour takes the hex branch. */
  lemma HexBranch(color: string, opacity: real)
    requires StartsWithHash(color) && HasHexRgb(color) && opacity < 1.0
    ensures Convertible(color, opacity)
    ensures WithOpacity(color, opacity)
         == RgbaText(ParseHexPair(color[1..3]) as real, ParseHexPair(color[3..5]) as real,
                     ParseHexPair(color[5..7]) as real, opacity)
  {
  }

  /** Renaming the leading `rgb(` of a colour. */
  lemma RenameRgb(color: string)
    requires StartsWith(color, "rgb(")
    ensures ReplaceFirst(Plain(color), Plain("rgb("), Plain("rgba(")) == Plain("rgba(" + color[4..])
  {
    PlainSlice(color, 0, 4);
    ReplaceLeading(Plain(color), Plain("rgb("), Plain("rgba("));
    PlainSlice(color, 4, |color|);
    PlainAppend("rgba(", color[4..]);
  }

  lemma PlainParen()
    ensures Plain(")") == [Char(')')]
  {
  }

  /** The renamed text of `rgb(inner)rest`, split at its first closing parenthesis. */
  lemma RenamedClosed(inner: string, rest: string)
    ensures ReplaceFirst(Plain("rgb(" + inner + ")" + rest), Plain("rgb("), Plain("rgba("))
         == Plain("rgba(" + inner) + [Char(')')] + Plain(rest)
  {
    var color := "rgb(" + inner + ")" + rest;
    assert color[..4] == "rgb(";
    RenameRgb(color);
    var tail := inner + ")" + rest;
    assert color == "rgb(" + tail;
    assert color[4..] == tail;
    var a := "rgba(" + inner;
    assert "rgba(" + tail == a + ")" + rest;
    PlainAppend(a + ")", rest);
    PlainAppend(a, ")");
    PlainParen();
  }

  lemma NoParenInRgba(inner: string)
    requires ')' !in inner
    ensures Char(')') !in Plain("rgba(" + inner)
  {
    var a := "rgba(" + inner;
    forall i | 0 <= i < |a| ensures Plain(a)[i] != Char(')') {
      if i >= 5 {
        assert a[i] == inner[i - 5];
      }
    }
  }

  lemma RgbTextClosed(inner: string, rest: string, opacity: real)
    requires ')' !in inner
    ensures RgbToRgbaText("rgb(" + inner + ")" + rest, opacity)
         == Plain("rgba(" + inner) + CloseWith(opacity) + Plain(rest)
  {
    RenamedClosed(inner, rest);
    NoParenInRgba(inner);
    PlainParen();
    ReplaceAfter(Plain("rgba(" + inner), Char(')'), Plain(rest), CloseWith(opacity));
  }

  /**
   * `rgb(inner)` followed by anything becomes `rgba(inner, opacity)` followed by
   * the same text: the closing parenthesis that is rewritten is the first one.
   */
  lemma RgbToRgba(inner: string, rest: string, opacity: real)
    requires ')' !in inner && opacity < 1.0
    ensures Convertible("rgb(" + inner + ")" + rest, opacity)
    ensures WithOpacity("rgb(" + inner + ")" + rest, opacity)
         == Plain("rgba(" + inner) + CloseWith(opacity) + Plain(rest)
  {
    var color := "rgb(" + inner + ")" + rest;
    assert color[0] == 'r';
    assert color[..4] == "rgb(";
    RgbTextClosed(inner, rest, opacity);
  }

  /** Below opacity 1, a colour starting with `rgb(` takes the rgb branch. */
  lemma RgbBranch(color: string, opacity: real)
    requires StartsWith(color, "rgb(") && opacity < 1.0
    ensures Convertible(color, opacity)
    ensures WithOpacity(color, opacity) == RgbToRgbaText(color, opacity)
  {
    assert color[..4][0] == 'r';
  }

  lemma RgbTextWithoutClose(color: string, opacity: real)
    requires StartsWith(color, "rgb(") && ')' !in color
    ensures RgbToRgbaText(color, opacity) == Plain("rgba(" + color[4..])
  {
    RenameRgb(color);
    var t := "rgba(" + color[4..];
    assert Char(')') !in Plain(t) by {
      forall i | 0 <= i < |t| ensures Plain(t)[i] != Char(')') {
        if i >= 5 {
          assert t[i] == color[i - 1];
        }
      }
    }
    PlainParen();
    ReplaceAbsent(Plain(t), Char(')'), CloseWith(opacity));
  }

  /** A colour without a closing parenthesis only has `rgb(` renamed to `rgba(`. */
  lemma RgbWithoutClose(color: string, opacity: real)
    requires StartsWith(color, "rgb(") && ')' !in color && opacity < 1.0
    ensures Convertible(color, opacity)
    ensures WithOpacity(color, opacity) == Plain("rgba(" + color[4..])
  {
    RgbBranch(color, opacity);
    RgbTextWithoutClose(color, opacity);
  }

  lemma PlainHasNoNumber(s: string, x: real)
    ensures Number(x) !in Plain(s)
  {
  }

  lemma RgbaHasAlpha(r: real, g: real, b: real, alpha: real)
    ensures Number(alpha) in RgbaText(r, g, b, alpha)
  {
    var t := RgbaText(r, g, b, alpha);
    var front := Plain("rgba(") + [Number(r)] + Plain(", ") + [Number(g)] + Plain(", ") + [Number(b)]
                   + Plain(", ");
    assert t == front + [Number(alpha)] + Plain(")");
    assert t[|front|] == Number(alpha);
  }

  lemma RgbClosedHasOpacity(inner: string, rest: string, opacity: real)
    requires ')' !in inner
    ensures Number(opacity) in RgbToRgbaText("rgb(" + inner + ")" + rest, opacity)
  {
    RgbTextClosed(inner, rest, opacity);
    var u, c := Plain("rgba(" + inner), CloseWith(opacity);
    assert c[2] == Number(opacity);
    assert (u + c + Plain(rest))[|u| + 2] == c[2];
  }

  /** An `rgb(` colour with a closing parenthesis gets the opacity written in. */
  lemma RgbWithClose(color: string, opacity: real)
    requires StartsWith(color, "rgb(") && ')' in color
    ensures Number(opacity) in RgbToRgbaText(color, opacity)
  {
    var k :| 0 <= k < |color| && color[k] == ')';
    assert OccursAt(color, ")", k) by { assert color[k..k + 1] == ")"; }
    k := IndexOf(color, ")").value;
    assert color[k..k + 1] == ")";
    forall j | 0 <= j < 4 ensures color[j] != ')' {
      assert color[j] == color[..4][j];
    }
    assert 4 <= k;
    var inner, rest := color[4..k], color[k + 1..];
    assert ')' !in inner by {
      forall j | 0 <= j < |inner| ensures inner[j] != ')' {
        assert !OccursAt(color, ")", 4 + j);
        assert color[4 + j..4 + j + 1] == [inner[j]];
      }
    }
    assert color == "rgb(" + inner + ")" + rest by {
      assert color[..k] == color[..4] + inner;
      assert color == color[..k] + [color[k]] + rest;
      assert color[..4] == "rgb(" && [color[k]] == ")";
    }
    RgbClosedHasOpacity(inner, rest, opacity);
  }

  /** The opacity shows up in the fill exactly when a conversion took place. */
  lemma OpacityAppliedIff(color: string, opacity: real)
    requires Convertible(color, opacity)
    ensures Number(opacity) in WithOpacity(color, opacity)
        <==> opacity < 1.0 && (StartsWithHash(color) || (StartsWith(color, "rgb(") && ')' in color))
  {
    if opacity < 1.0 && StartsWithHash(color) {
      RgbaHasAlpha(ParseHexPair(color[1..3]) as real, ParseHexPair(color[3..5]) as real,
                   ParseHexPair(color[5..7]) as real, opacity);
    } else if opacity < 1.0 && StartsWith(color, "rgb(") {
      if ')' in color {
        assert !StartsWithHash(color);
        assert WithOpacity(color, opacity) == RgbToRgbaText(color, opacity);
        RgbWithClose(color, opacity);
      } else {
        RgbWithoutClose(color, opacity);
        PlainHasNoNumber("rgba(" + color[4..], opacity);
      }
    } else {
      PlainHasNoNumber(color, opacity);
    }
  }
}
