/**
 * A brand colour and its theme tokens by WCAG 2.2 contrast
 * (app/services/brand_colour.py). How a channel becomes linear light is a
 * parameter: all that is asked of it is in Plausible.
 */
module Contrast {
  import opened Facts
  import opened Options

  type Channel = x: int | 0 <= x <= 255

  datatype Colour = Colour(r: Channel, g: Channel, b: Channel)

  const WHITE := Colour(255, 255, 255)
  const BLACK := Colour(0, 0, 0)
  const TEXT_MINIMUM := 4.5

  // Monotone, from 0 to 1, and neither end of the scale flattened away: 224 is
  // the darkest channel of a light tint, 70 the lightest of a dark one.
  ghost predicate Plausible(linear: Channel -> real) {
    && (forall c: Channel, d: Channel | c <= d :: linear(c) <= linear(d))
    && linear(0) == 0.0 && linear(255) == 1.0
    && linear(224) >= 0.175 && linear(70) <= 0.183
  }

  function Luminance(linear: Channel -> real, c: Colour): real {
    0.2126 * linear(c.r) + 0.7152 * linear(c.g) + 0.0722 * linear(c.b)
  }

  function Ratio(x: real, y: real): real
    requires x >= 0.0 && y >= 0.0
  {
    if x >= y then (x + 0.05) / (y + 0.05) else (y + 0.05) / (x + 0.05)
  }

  // WCAG 2.2, relative luminance: the three primaries' shares, which add up.
  lemma LuminanceIs(linear: Channel -> real, c: Colour)
    requires Plausible(linear)
    ensures Luminance(linear, Colour(255, 0, 0)) == 0.2126 && Luminance(linear, Colour(0, 255, 0)) == 0.7152
    ensures Luminance(linear, Colour(0, 0, 255)) == 0.0722
    ensures Luminance(linear, c) ==
            Luminance(linear, Colour(c.r, 0, 0)) + Luminance(linear, Colour(0, c.g, 0)) + Luminance(linear, Colour(0, 0, c.b))
    ensures Luminance(linear, Colour(c.r, 0, 0)) == 0.2126 * linear(c.r)
    ensures Luminance(linear, Colour(0, c.g, 0)) == 0.7152 * linear(c.g)
    ensures Luminance(linear, Colour(0, 0, c.b)) == 0.0722 * linear(c.b)
  {
  }

  lemma LuminanceIsMonotone(linear: Channel -> real, c: Colour, d: Colour)
    requires Plausible(linear) && c.r <= d.r && c.g <= d.g && c.b <= d.b
    ensures 0.0 <= Luminance(linear, c) <= Luminance(linear, d) <= 1.0
  {
    assert linear(0) <= linear(c.r) <= linear(d.r) <= linear(255);
    assert linear(0) <= linear(c.g) <= linear(d.g) <= linear(255);
    assert linear(0) <= linear(c.b) <= linear(d.b) <= linear(255);
  }

  function ContrastOf(linear: Channel -> real, a: Colour, b: Colour): (ratio: real)
    requires Plausible(linear)
  {
    LuminanceIsMonotone(linear, a, a);
    LuminanceIsMonotone(linear, b, b);
    Ratio(Luminance(linear, a), Luminance(linear, b))
  }

  // WCAG 2.2, contrast ratio: of the lighter to the darker, in either order.
  lemma ContrastIs(linear: Channel -> real, a: Colour, b: Colour)
    requires Plausible(linear)
    ensures ContrastOf(linear, a, b) == ContrastOf(linear, b, a)
    ensures var light, dark := Luminance(linear, a), Luminance(linear, b);
            0.0 <= dark && (dark <= light ==> ContrastOf(linear, a, b) == (light + 0.05) / (dark + 0.05))
  {
    LuminanceIsMonotone(linear, b, b);
  }

  lemma Divides(x: real, y: real, m: real)
    requires y > 0.0
    ensures x / y >= m <==> x >= m * y
  {
    var q := x / y;
    assert q * y == x;
    if q >= m {
      assert (q - m) * y >= 0.0;
    } else {
      assert (m - q) * y > 0.0;
    }
  }

  // How far apart two luminances must be for a ratio of m.
  lemma ApartEnough(x: real, y: real, m: real)
    requires x >= y >= 0.0
    ensures Ratio(x, y) == Ratio(y, x)
    ensures Ratio(x, y) >= m <==> x + 0.05 >= m * (y + 0.05)
  {
    Divides(x + 0.05, y + 0.05, m);
  }

  // The contrasts of a fill with white and with black multiply to 21.
  lemma WhiteTimesBlack(linear: Channel -> real, fill: Colour)
    requires Plausible(linear)
    ensures ContrastOf(linear, fill, WHITE) * ContrastOf(linear, fill, BLACK) == 21.0
  {
    LuminanceIsMonotone(linear, fill, WHITE);
    LuminanceIsMonotone(linear, BLACK, fill);
    var y := Luminance(linear, fill) + 0.05;
    assert Luminance(linear, WHITE) == 1.0 && Luminance(linear, BLACK) == 0.0;
    assert ContrastOf(linear, fill, WHITE) == 1.05 / y;
    assert ContrastOf(linear, fill, BLACK) == y / 0.05;
    Cancels(y);
  }

  lemma Cancels(y: real)
    requires y > 0.0
    ensures (1.05 / y) * (y / 0.05) == 21.0
  {
    assert (1.05 / y) * y == 1.05;
    assert y / 0.05 == y * 20.0;
    assert (1.05 / y) * (y * 20.0) == ((1.05 / y) * y) * 20.0;
  }

  function On(linear: Channel -> real, fill: Colour): Colour
    requires Plausible(linear)
  {
    if ContrastOf(linear, fill, WHITE) >= ContrastOf(linear, fill, BLACK) then WHITE else BLACK
  }

  // So the better of the two always reaches the minimum for text.
  lemma TextIsReadable(linear: Channel -> real, fill: Colour)
    requires Plausible(linear)
    ensures ContrastOf(linear, fill, On(linear, fill)) >= TEXT_MINIMUM
  {
    WhiteTimesBlack(linear, fill);
    AtLeastOne(linear, fill, WHITE);
    AtLeastOne(linear, fill, BLACK);
    hide ContrastOf;
    TheLargerOf(ContrastOf(linear, fill, WHITE), ContrastOf(linear, fill, BLACK));
  }

  lemma AtLeastOne(linear: Channel -> real, a: Colour, b: Colour)
    requires Plausible(linear)
    ensures ContrastOf(linear, a, b) >= 1.0
  {
    LuminanceIsMonotone(linear, a, a);
    LuminanceIsMonotone(linear, b, b);
    var x, y := Luminance(linear, a), Luminance(linear, b);
    if x >= y {
      ApartEnough(x, y, 1.0);
    } else {
      ApartEnough(y, x, 1.0);
    }
  }

  lemma TheLargerOf(w: real, b: real)
    requires w >= 1.0 && b >= 1.0 && w * b == 21.0
    ensures w >= TEXT_MINIMUM || b >= TEXT_MINIMUM
  {
    if w < 4.5 {
      Product(4.5 - w, b);
      assert (4.5 - w) * b == 4.5 * b - 21.0;
    }
  }

  // ── Mixing ────────────────────────────────────────────────────────

  function MixChannel(c: Channel, t: Channel, share: real): (m: Channel)
    requires 0.0 <= share <= 1.0
    ensures c <= t ==> c <= m <= t
    ensures t <= c ==> t <= m <= c
    ensures share == 1.0 ==> m == t
  {
    var moved := c as real + (t - c) as real * share;
    MovedStaysBetween(c, t, share);
    (moved + 0.5).Floor
  }

  // The nearest channel, half up.
  lemma MixIs(c: Channel, t: Channel, share: real)
    requires 0.0 <= share <= 1.0
    ensures var m, moved := MixChannel(c, t, share) as real, c as real * (1.0 - share) + t as real * share;
            m - 0.5 <= moved < m + 0.5
  {
    assert (t - c) as real * share == t as real * share - c as real * share;
  }

  lemma MovedStaysBetween(c: Channel, t: Channel, share: real)
    requires 0.0 <= share <= 1.0
    ensures var moved := c as real + (t - c) as real * share;
            && (c <= t ==> c as real <= moved <= t as real)
            && (t <= c ==> t as real <= moved <= c as real)
  {
    var d := (t - c) as real;
    if c <= t {
      Product(d, share);
      Product(d, 1.0 - share);
    } else {
      Product(-d, share);
      Product(-d, 1.0 - share);
      assert (-d) * share == -(d * share) && (-d) * (1.0 - share) == -(d * (1.0 - share));
    }
    assert d * (1.0 - share) == d - d * share;
  }

  // Half up, channel by channel.
  function Mix(c: Colour, toward: Colour, share: real): Colour
    requires 0.0 <= share <= 1.0
  {
    Colour(MixChannel(c.r, toward.r, share), MixChannel(c.g, toward.g, share), MixChannel(c.b, toward.b, share))
  }

  // ── Themes ────────────────────────────────────────────────────────

  datatype Theme = Theme(canvas: Colour, card: Colour, toward: Colour, share: real)

  const LIGHT := Theme(Colour(0xff, 0xff, 0xff), Colour(0xf6, 0xf6, 0xf5), BLACK, 0.12)
  const DARK := Theme(Colour(0x0a, 0x0a, 0x0b), Colour(0x13, 0x13, 0x15), WHITE, 0.24)

  function Digit(c: char): Option<nat> {
    if '0' <= c <= '9' then Some((c - '0') as nat)
    else if 'a' <= c <= 'f' then Some((c - 'a') as nat + 10)
    else None
  }

  // _channels and parse, of a colour in lower case: "#rrggbb", or nothing.
  function Parsed(s: string): Option<Colour> {
    if |s| != 7 || s[0] != '#' || exists i | 1 <= i < 7 :: Digit(s[i]).None? then None
    else
      assert forall i | 1 <= i < 7 :: Digit(s[i]).Some?;
      Some(Colour(
             Digit(s[1]).value * 16 + Digit(s[2]).value,
             Digit(s[3]).value * 16 + Digit(s[4]).value,
             Digit(s[5]).value * 16 + Digit(s[6]).value))
  }

  function Pair(c: Channel): (p: string)
    ensures |p| == 2
  {
    [DIGITS[c / 16], DIGITS[c % 16]]
  }

  const DIGITS := "0123456789abcdef"

  // "#" and each channel in two digits, as _mix writes it.
  function Printed(c: Colour): string { "#" + Pair(c.r) + Pair(c.g) + Pair(c.b) }

  lemma DigitsRead(n: nat)
    requires n < 16
    ensures Digit(DIGITS[n]) == Some(n)
  {
  }

  lemma PairReads(c: Channel)
    ensures var p := Pair(c);
            && |p| == 2 && Digit(p[0]).Some? && Digit(p[1]).Some? && Digit(p[0]).value * 16 + Digit(p[1]).value == c
  {
    DigitsRead(c / 16);
    DigitsRead(c % 16);
  }

  // A colour written is read as itself.
  lemma PrintedIsParsed(c: Colour)
    ensures Parsed(Printed(c)) == Some(c)
  {
    var s := Printed(c);
    PairReads(c.r);
    PairReads(c.g);
    PairReads(c.b);
    hide Digit, Pair;
    assert s[1..3] == Pair(c.r) && s[3..5] == Pair(c.g) && s[5..7] == Pair(c.b);
    assert s[1] == s[1..3][0] && s[2] == s[1..3][1] && s[3] == s[3..5][0] && s[4] == s[3..5][1];
    assert s[5] == s[5..7][0] && s[6] == s[5..7][1];
    forall i | 1 <= i < 7 ensures Digit(s[i]).Some? {
      assert i == 1 || i == 2 || i == 3 || i == 4 || i == 5 || i == 6;
    }
  }

  // The themes, as they are written.
  lemma ThemesAre()
    ensures Printed(LIGHT.canvas) == "#ffffff" && Printed(LIGHT.card) == "#f6f6f5" && Printed(LIGHT.toward) == "#000000"
    ensures Printed(DARK.canvas) == "#0a0a0b" && Printed(DARK.card) == "#131315" && Printed(DARK.toward) == "#ffffff"
    ensures LIGHT.share == 0.12 && DARK.share == 0.24
  {
  }

  predicate ReadableOn(linear: Channel -> real, c: Colour, backgrounds: seq<Colour>)
    requires Plausible(linear)
  {
    forall i | 0 <= i < |backgrounds| :: ContrastOf(linear, c, backgrounds[i]) >= TEXT_MINIMUM
  }

  function Candidate(c: Colour, toward: Colour, step: nat): Colour
    requires step <= 50
  {
    Mix(c, toward, step as real / 50.0)
  }

  // From the colour itself to the far end, in fiftieths of the way.
  lemma StepsAre(c: Colour, toward: Colour, step: nat)
    requires step <= 50
    ensures Candidate(c, toward, 0) == c && Candidate(c, toward, 50) == toward
    ensures var m, moved := Candidate(c, toward, step).r as real, c.r as real + (toward.r - c.r) as real * (step as real / 50.0);
            m - 0.5 <= moved < m + 0.5
    ensures var m, moved := Candidate(c, toward, step).g as real, c.g as real + (toward.g - c.g) as real * (step as real / 50.0);
            m - 0.5 <= moved < m + 0.5
    ensures var m, moved := Candidate(c, toward, step).b as real, c.b as real + (toward.b - c.b) as real * (step as real / 50.0);
            m - 0.5 <= moved < m + 0.5
  {
  }

  // The first of the fifty-one steps that is readable, or the last one.
  ghost predicate IsFirst(linear: Channel -> real, c: Colour, backgrounds: seq<Colour>, toward: Colour, found: Colour)
    requires Plausible(linear)
  {
    if exists k: nat :: k <= 50 && ReadableOn(linear, Candidate(c, toward, k), backgrounds) then
      exists k: nat ::
        && k <= 50 && found == Candidate(c, toward, k) && ReadableOn(linear, found, backgrounds)
        && forall j: nat | j < k :: !ReadableOn(linear, Candidate(c, toward, j), backgrounds)
    else found == toward
  }

  method Readable(linear: Channel -> real, c: Colour, backgrounds: seq<Colour>, toward: Colour) returns (found: Colour)
    requires Plausible(linear)
    ensures IsFirst(linear, c, backgrounds, toward, found)
    ensures ReadableOn(linear, toward, backgrounds) ==> ReadableOn(linear, found, backgrounds)
  {
    for step := 0 to 51
      invariant forall j: nat | j < step :: !ReadableOn(linear, Candidate(c, toward, j), backgrounds)
    {
      var candidate := Candidate(c, toward, step);
      hide ContrastOf, Candidate, Plausible;
      var readable := true;
      for i := 0 to |backgrounds|
        invariant readable <==> forall k | 0 <= k < i :: ContrastOf(linear, candidate, backgrounds[k]) >= TEXT_MINIMUM
      {
        if ContrastOf(linear, candidate, backgrounds[i]) < TEXT_MINIMUM {
          readable := false;
        }
      }
      if readable {
        return candidate;
      }
    }
    found := toward;
  }

  // A colour that is readable already is left as it is.
  lemma ReadableStays(linear: Channel -> real, c: Colour, backgrounds: seq<Colour>, toward: Colour, found: Colour)
    requires Plausible(linear) && IsFirst(linear, c, backgrounds, toward, found) && ReadableOn(linear, c, backgrounds)
    ensures found == c
  {
    StepsAre(c, toward, 0);
    hide Candidate, ReadableOn, Plausible;
  }

  // The far end is readable on every background of a theme, whatever the colour.
  lemma BlackOnLight(linear: Channel -> real, b: Colour)
    requires Plausible(linear) && b.r >= 224 && b.g >= 224 && b.b >= 224
    ensures ContrastOf(linear, BLACK, b) >= TEXT_MINIMUM
  {
    LuminanceIsMonotone(linear, BLACK, b);
    LuminanceIsMonotone(linear, Colour(224, 224, 224), b);
    ApartEnough(Luminance(linear, b), Luminance(linear, BLACK), TEXT_MINIMUM);
  }

  lemma WhiteOnDark(linear: Channel -> real, b: Colour)
    requires Plausible(linear) && b.r <= 70 && b.g <= 70 && b.b <= 70
    ensures ContrastOf(linear, WHITE, b) >= TEXT_MINIMUM
  {
    LuminanceIsMonotone(linear, b, WHITE);
    LuminanceIsMonotone(linear, b, Colour(70, 70, 70));
    ApartEnough(Luminance(linear, WHITE), Luminance(linear, b), TEXT_MINIMUM);
  }

  lemma TintsStayNear(c: Colour)
    ensures var tint := Mix(LIGHT.canvas, c, LIGHT.share); tint.r >= 224 && tint.g >= 224 && tint.b >= 224
    ensures var tint := Mix(DARK.canvas, c, DARK.share); tint.r <= 70 && tint.g <= 70 && tint.b <= 70
  {
  }

  lemma TowardIsReadable(linear: Channel -> real, theme: Theme, c: Colour)
    requires Plausible(linear) && (theme == LIGHT || theme == DARK)
    ensures ReadableOn(linear, theme.toward, [theme.canvas, theme.card, Mix(theme.canvas, c, theme.share)])
  {
    var tint := Mix(theme.canvas, c, theme.share);
    TintsStayNear(c);
    if theme == LIGHT {
      BlackOnLight(linear, theme.canvas);
      BlackOnLight(linear, theme.card);
      BlackOnLight(linear, tint);
    } else {
      WhiteOnDark(linear, theme.canvas);
      WhiteOnDark(linear, theme.card);
      WhiteOnDark(linear, tint);
    }
  }

  // The hover fill moves away from its text, which reads no worse on it.
  lemma HoverReadsNoWorse(linear: Channel -> real, fill: Colour, on: Colour)
    requires Plausible(linear) && (on == WHITE || on == BLACK)
    ensures var strong := Mix(fill, if on == WHITE then BLACK else WHITE, 0.15);
            ContrastOf(linear, strong, on) >= ContrastOf(linear, fill, on)
  {
    var strong := Mix(fill, if on == WHITE then BLACK else WHITE, 0.15);
    var m := ContrastOf(linear, fill, on);
    if on == WHITE {
      LuminanceIsMonotone(linear, strong, fill);
      LuminanceIsMonotone(linear, fill, WHITE);
      Further(Luminance(linear, WHITE), Luminance(linear, fill), Luminance(linear, strong));
    } else {
      LuminanceIsMonotone(linear, fill, strong);
      LuminanceIsMonotone(linear, BLACK, fill);
      FurtherUp(Luminance(linear, BLACK), Luminance(linear, fill), Luminance(linear, strong));
    }
  }

  lemma Further(top: real, x: real, lower: real)
    requires top >= x >= lower >= 0.0
    ensures Ratio(lower, top) >= Ratio(x, top)
  {
    var m := Ratio(top, x);
    ApartEnough(top, x, m);
    ApartEnough(top, lower, m);
    assert m >= 0.0 && m * (x - lower) >= 0.0;
    assert m * (lower + 0.05) == m * (x + 0.05) - m * (x - lower);
  }

  lemma FurtherUp(bottom: real, x: real, higher: real)
    requires higher >= x >= bottom >= 0.0
    ensures Ratio(higher, bottom) >= Ratio(x, bottom)
  {
    var m := Ratio(x, bottom);
    ApartEnough(x, bottom, m);
    ApartEnough(higher, bottom, m);
  }

  datatype Tokens = Tokens(accent: Colour, on: Colour, weak: Colour, strong: Colour)

  // The four tokens of a theme, for any colour but the default one.
  method TokensFor(linear: Channel -> real, theme: Theme, c: Colour) returns (out: Tokens)
    requires Plausible(linear) && (theme == LIGHT || theme == DARK)
    ensures out.weak == Mix(theme.canvas, c, theme.share)
    ensures IsFirst(linear, c, [theme.canvas, theme.card, out.weak], theme.toward, out.accent)
    ensures ReadableOn(linear, c, [theme.canvas, theme.card, out.weak]) ==> out.accent == c
    ensures ContrastOf(linear, out.accent, theme.canvas) >= TEXT_MINIMUM
    ensures ContrastOf(linear, out.accent, theme.card) >= TEXT_MINIMUM
    ensures ContrastOf(linear, out.accent, out.weak) >= TEXT_MINIMUM
    ensures out.on == if ContrastOf(linear, out.accent, WHITE) >= ContrastOf(linear, out.accent, BLACK) then WHITE else BLACK
    ensures ContrastOf(linear, out.accent, out.on) >= TEXT_MINIMUM
    ensures ContrastOf(linear, out.strong, out.on) >= ContrastOf(linear, out.accent, out.on)
    ensures out.strong == Mix(out.accent, if out.on == WHITE then BLACK else WHITE, 0.15)
  {
    var weak := Mix(theme.canvas, c, theme.share);
    TowardIsReadable(linear, theme, c);
    var backgrounds := [theme.canvas, theme.card, weak];
    var accent := Readable(linear, c, backgrounds, theme.toward);
    assert ContrastOf(linear, accent, backgrounds[0]) >= TEXT_MINIMUM;
    assert ContrastOf(linear, accent, backgrounds[1]) >= TEXT_MINIMUM;
    assert ContrastOf(linear, accent, backgrounds[2]) >= TEXT_MINIMUM;
    if ReadableOn(linear, c, backgrounds) {
      ReadableStays(linear, c, backgrounds, theme.toward, accent);
    }
    hide ContrastOf, Mix, Plausible, IsFirst;
    TextIsReadable(linear, accent);
    var on := On(linear, accent);
    HoverReadsNoWorse(linear, accent, on);
    out := Tokens(accent, on, weak, Mix(accent, if on == WHITE then BLACK else WHITE, 0.15));
  }

  // What is asked of the light is not too much: a square has it.
  function Square(c: Channel): real { (c as real / 255.0) * (c as real / 255.0) }

  lemma TheSquareIsPlausible()
    ensures Plausible(Square)
  {
    forall c: Channel, d: Channel | c <= d ensures Square(c) <= Square(d) {
      var x, y := c as real / 255.0, d as real / 255.0;
      Product(y - x, y);
      Product(y - x, x);
      assert (y - x) * y == y * y - x * y && (y - x) * x == x * y - x * x;
    }
  }
}
