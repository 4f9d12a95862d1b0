/**
 * The geometry, colour and control flow of festival sticker generation. The
 * pixel work itself (resampling, masks, pasting, PNG encoding) is not modelled:
 * a sticker is described by its template, canvas size, the box the photo is
 * pasted into and how it was masked. Scale factors and the gradient opacity
 * are computed on exact reals; Python's `int()` truncates toward zero.
 */
module Sticker {
  import opened Wrappers

  type byte = x: int | 0 <= x < 256

  /** A template descriptor: its name, frame colour and text colour as "#RRGGBB". */
  datatype Template = Template(name: string, color: string, textColor: string)

  const Templates: seq<Template> := [
    Template("template1", "#FF6B6B", "#FFFFFF"),
    Template("template2", "#4ECDC4", "#FFFFFF"),
    Template("template3", "#45B7D1", "#FFFFFF"),
    Template("template4", "#96CEB4", "#FFFFFF"),
    Template("template5", "#FFEAA7", "#2D3436")
  ]

  const FestivalText := "Хорошие истории начинаются с тебя"
  const AvitoText := "Avito × Dikaya Myata"

  /** The width of the solid frame drawn along each edge of a template. */
  const BorderWidth := 20

  datatype Rgb = Rgb(r: int, g: int, b: int)
  datatype Rgba = Rgba(r: int, g: int, b: int, a: int)

  predicate IsChannel(n: int) { 0 <= n < 256 }

  // ---------------------------------------------------------------------------
  // Colour parsing

  /** Python's slice `s[i:j]` for 0 <= i <= j: indices past the end are clamped. */
  function Slice(s: string, i: nat, j: nat): (t: string)
    requires i <= j
    ensures |t| <= j - i
    ensures j <= |s| ==> t == s[i..j]
  {
    if i >= |s| then "" else s[i..if j <= |s| then j else |s|]
  }

  /** The value of one hexadecimal digit, either case. */
  function HexDigit(c: char): (d: Option<nat>)
    ensures d.Some? ==> d.value < 16
  {
    if '0' <= c <= '9' then Some(c as int - '0' as int)
    else if 'a' <= c <= 'f' then Some(c as int - 'a' as int + 10)
    else if 'A' <= c <= 'F' then Some(c as int - 'A' as int + 10)
    else None
  }

  function Pow16(n: nat): nat
  {
    if n == 0 then 1 else 16 * Pow16(n - 1)
  }

  /** Python's `int(t, 16)` on a string of hexadecimal digits; `None` where Python raises. */
  function ParseHex(t: string): (r: Option<nat>)
    ensures r.Some? <==> |t| > 0 && forall i :: 0 <= i < |t| ==> HexDigit(t[i]).Some?
    ensures r.Some? ==> r.value < Pow16(|t|)
    decreases |t|
  {
    if |t| == 0 then None
    else
      var d := HexDigit(t[|t| - 1]);
      if d.None? then None
      else if |t| == 1 then Some(d.value)
      else match ParseHex(t[..|t| - 1])
        case None => None
        case Some(v) => Some(16 * v + d.value)
  }

  /** The channel held in the two characters at offset `i` of a colour string. */
  function Channel(s: string, i: nat): Option<nat>
  {
    ParseHex(Slice(s, i, i + 2))
  }

  /**
   * The colour triple `tuple(int(s[i:i+2], 16) for i in (1, 3, 5))`; the
   * leading character is not inspected.
   */
  function ParseHexColor(s: string): (c: Option<Rgb>)
    ensures c.Some? ==> IsChannel(c.value.r) && IsChannel(c.value.g) && IsChannel(c.value.b)
  {
    var r, g, b := Channel(s, 1), Channel(s, 3), Channel(s, 5);
    if r.Some? && g.Some? && b.Some? then Some(Rgb(r.value, g.value, b.value)) else None
  }

  function HexChar(n: nat): char
    requires n < 16
  {
    "0123456789ABCDEF"[n]
  }

  function HexPair(n: int): string
    requires IsChannel(n)
  {
    [HexChar(n / 16), HexChar(n % 16)]
  }

  /** The "#RRGGBB" spelling of a colour, in upper case as the templates write it. */
  function FormatHexColor(c: Rgb): (s: string)
    requires IsChannel(c.r) && IsChannel(c.g) && IsChannel(c.b)
    ensures |s| == 7 && s[0] == '#'
  {
    "#" + HexPair(c.r) + HexPair(c.g) + HexPair(c.b)
  }

  lemma HexPairParses(n: int)
    requires IsChannel(n)
    ensures ParseHex(HexPair(n)) == Some(n)
  {
    var p := HexPair(n);
    assert HexDigit(p[0]) == Some(n / 16);
    assert HexDigit(p[1]) == Some(n % 16);
    assert p[..1] == [p[0]];
  }

  /** Formatting a colour and parsing it back gives the colour again. */
  lemma FormatParseRoundTrip(c: Rgb)
    requires IsChannel(c.r) && IsChannel(c.g) && IsChannel(c.b)
    ensures ParseHexColor(FormatHexColor(c)) == Some(c)
  {
    var s := FormatHexColor(c);
    HexPairParses(c.r);
    HexPairParses(c.g);
    HexPairParses(c.b);
    assert s[1..3] == HexPair(c.r);
    assert s[3..5] == HexPair(c.g);
    assert s[5..7] == HexPair(c.b);
  }

  /** A two-digit hexadecimal string is worth 16 times its first digit plus its second. */
  lemma ParseTwoDigits(t: string)
    requires |t| == 2 && HexDigit(t[0]).Some? && HexDigit(t[1]).Some?
    ensures ParseHex(t) == Some(16 * HexDigit(t[0]).value + HexDigit(t[1]).value)
  {
    assert t[..1] == [t[0]];
  }

  /** A colour "#RRGGBB" whose six characters are the digits a .. f parses to their three pairs. */
  lemma ParseDigits(s: string, a: nat, b: nat, c: nat, d: nat, e: nat, f: nat)
    requires |s| == 7
    requires HexDigit(s[1]) == Some(a) && HexDigit(s[2]) == Some(b)
    requires HexDigit(s[3]) == Some(c) && HexDigit(s[4]) == Some(d)
    requires HexDigit(s[5]) == Some(e) && HexDigit(s[6]) == Some(f)
    ensures ParseHexColor(s) == Some(Rgb(16 * a + b, 16 * c + d, 16 * e + f))
  {
    ParseTwoDigits(s[1..3]);
    ParseTwoDigits(s[3..5]);
    ParseTwoDigits(s[5..7]);
  }

  lemma ParsesFF6B6B()
    ensures ParseHexColor("#FF6B6B") == Some(Rgb(255, 107, 107))
    ensures FillColorAccepted("#FF6B6B")
  {
    ParseDigits("#FF6B6B", 15, 15, 6, 11, 6, 11);
  }

  lemma Parses4ECDC4()
    ensures ParseHexColor("#4ECDC4") == Some(Rgb(78, 205, 196))
    ensures FillColorAccepted("#4ECDC4")
  {
    ParseDigits("#4ECDC4", 4, 14, 12, 13, 12, 4);
  }

  lemma Parses45B7D1()
    ensures ParseHexColor("#45B7D1") == Some(Rgb(69, 183, 209))
    ensures FillColorAccepted("#45B7D1")
  {
    ParseDigits("#45B7D1", 4, 5, 11, 7, 13, 1);
  }

  lemma Parses96CEB4()
    ensures ParseHexColor("#96CEB4") == Some(Rgb(150, 206, 180))
    ensures FillColorAccepted("#96CEB4")
  {
    ParseDigits("#96CEB4", 9, 6, 12, 14, 11, 4);
  }

  lemma ParsesFFEAA7()
    ensures ParseHexColor("#FFEAA7") == Some(Rgb(255, 234, 167))
    ensures FillColorAccepted("#FFEAA7")
  {
    ParseDigits("#FFEAA7", 15, 15, 14, 10, 10, 7);
  }

  lemma Parses2D3436()
    ensures ParseHexColor("#2D3436") == Some(Rgb(45, 52, 54))
    ensures FillColorAccepted("#2D3436")
  {
    ParseDigits("#2D3436", 2, 13, 3, 4, 3, 6);
  }

  lemma ParsesFFFFFF()
    ensures ParseHexColor("#FFFFFF") == Some(Rgb(255, 255, 255))
    ensures FillColorAccepted("#FFFFFF")
  {
    ParseDigits("#FFFFFF", 15, 15, 15, 15, 15, 15);
  }

  /**
   * Every template's colours parse: frame colours (255, 107, 107), (78, 205, 196),
   * (69, 183, 209), (150, 206, 180), (255, 234, 167); text colour white, except
   * (45, 52, 54) on the last template.
   */
  lemma TemplateColorsParse(i: nat)
    requires i < |Templates|
    ensures ParseHexColor(Templates[i].color) == Some(
      [Rgb(255, 107, 107), Rgb(78, 205, 196), Rgb(69, 183, 209), Rgb(150, 206, 180), Rgb(255, 234, 167)][i])
    ensures ParseHexColor(Templates[i].textColor) == Some(if i == 4 then Rgb(45, 52, 54) else Rgb(255, 255, 255))
  {
    if i == 0 {
      ParsesFF6B6B(); ParsesFFFFFF();
    } else if i == 1 {
      Parses4ECDC4(); ParsesFFFFFF();
    } else if i == 2 {
      Parses45B7D1(); ParsesFFFFFF();
    } else if i == 3 {
      Parses96CEB4(); ParsesFFFFFF();
    } else {
      ParsesFFEAA7(); Parses2D3436();
    }
  }

  /**
   * The colour strings PIL accepts as a `fill` in this model: `#` and six hex
   * digits, the only form the templates use.
   */
  predicate FillColorAccepted(s: string)
  {
    && |s| == 7 && s[0] == '#'
    && HexDigit(s[1]).Some? && HexDigit(s[2]).Some? && HexDigit(s[3]).Some?
    && HexDigit(s[4]).Some? && HexDigit(s[5]).Some? && HexDigit(s[6]).Some?
  }

  /** A colour PIL accepts also gets through the channel slicing of the gradient. */
  lemma AcceptedColorParses(s: string)
    requires FillColorAccepted(s)
    ensures ParseHexColor(s).Some?
  {
    ParseDigits(s, HexDigit(s[1]).value, HexDigit(s[2]).value, HexDigit(s[3]).value,
                HexDigit(s[4]).value, HexDigit(s[5]).value, HexDigit(s[6]).value);
  }

  /**
   * create_festival_template draws without raising: the gradient loop parses
   * the frame colour, and the border and the two text lines hand the frame and
   * text colours to PIL.
   */
  predicate TemplateRenders(t: Template)
  {
    ParseHexColor(t.color).Some? && FillColorAccepted(t.color) && FillColorAccepted(t.textColor)
  }

  /** Every template renders. */
  lemma TemplatesRender(i: nat)
    requires i < |Templates|
    ensures TemplateRenders(Templates[i])
  {
    if i == 0 {
      ParsesFF6B6B(); ParsesFFFFFF();
    } else if i == 1 {
      Parses4ECDC4(); ParsesFFFFFF();
    } else if i == 2 {
      Parses45B7D1(); ParsesFFFFFF();
    } else if i == 3 {
      Parses96CEB4(); ParsesFFFFFF();
    } else {
      ParsesFFEAA7(); Parses2D3436();
    }
  }

  // ---------------------------------------------------------------------------
  // Gradient wash

  /** Python's `int()` of a number: truncation toward zero. */
  function Trunc(x: real): (n: int)
    ensures 0.0 <= x ==> n as real <= x < n as real + 1.0
    ensures x < 0.0 ==> n as real - 1.0 < x <= n as real
  {
    if x >= 0.0 then x.Floor else -((-x).Floor)
  }

  lemma RealDivFloor(n: int, d: int)
    requires 0 <= n && 0 < d
    ensures ((n as real) / (d as real)).Floor == n / d
  {
    var q, m := n / d, n % d;
    assert n == q * d + m;
    assert (n as real) == (q as real) * (d as real) + (m as real);
    assert (n as real) / (d as real) == (q as real) + (m as real) / (d as real);
    assert 0.0 <= (m as real) / (d as real) < 1.0;
  }

  lemma RealDivMonotone(a: real, b: real, d: real)
    requires a <= b && 0.0 < d
    ensures a / d <= b / d
  {
    assert a / d * d == a && b / d * d == b;
  }

  lemma DivMul(a: real, d: real)
    requires d != 0.0
    ensures (a / d) * d == a
  {
  }

  lemma MulDiv(a: real, d: real)
    requires d != 0.0
    ensures (a * d) / d == a
  {
  }

  lemma MulCancel(a: real, b: real, d: real)
    requires 0.0 < d && a * d == b * d
    ensures a == b
  {
    MulDiv(a, d);
    MulDiv(b, d);
  }

  /** The opacity before truncation: 255 * (1 - y / h) * 0.8. */
  function AlphaReal(y: int, h: int): real
    requires 0 <= y < h
  {
    255.0 * (1.0 - (y as real) / (h as real)) * 0.8
  }

  lemma AlphaTimesHeight(y: int, h: int)
    requires 0 <= y < h
    ensures AlphaReal(y, h) * (h as real) == 204.0 * ((h - y) as real)
  {
    var hr, yr := h as real, y as real;
    var q := yr / hr;
    DivMul(yr, hr);
    assert AlphaReal(y, h) == 204.0 * (1.0 - q);
    assert (204.0 * (1.0 - q)) * hr == 204.0 * hr - 204.0 * (q * hr);
  }

  /** The opacity before truncation is 204 (h - y) / h, between 0 and 204, and 204 on the top row. */
  lemma AlphaRealValue(y: int, h: int)
    requires 0 <= y < h
    ensures AlphaReal(y, h) == ((204 * (h - y)) as real) / (h as real)
    ensures 0.0 <= AlphaReal(y, h) <= 204.0
    ensures y == 0 ==> AlphaReal(y, h) == 204.0
  {
    var x := ((204 * (h - y)) as real) / (h as real);
    DivMul((204 * (h - y)) as real, h as real);
    AlphaTimesHeight(y, h);
    MulCancel(AlphaReal(y, h), x, h as real);
    AlphaBounds(AlphaReal(y, h), h as real, (h - y) as real);
  }

  lemma AlphaBounds(a: real, hr: real, dr: real)
    requires 0.0 <= dr <= hr && 0.0 < hr && a * hr == 204.0 * dr
    ensures 0.0 <= a <= 204.0
    ensures dr == hr ==> a == 204.0
  {
    MulDiv(a, hr);
    MulDiv(204.0, hr);
    RealDivMonotone(0.0, 204.0 * dr, hr);
    RealDivMonotone(204.0 * dr, 204.0 * hr, hr);
  }

  /**
   * The opacity of row `y` of a canvas `h` rows tall: 80 percent of 255 at the
   * top, fading linearly toward the bottom.
   */
  function GradientAlpha(y: int, h: int): (a: int)
    requires 0 <= y < h
    ensures a == (204 * (h - y)) / h
    ensures 0 <= a <= 204
    ensures y == 0 ==> a == 204
  {
    AlphaRealValue(y, h);
    RealDivFloor(204 * (h - y), h);
    Trunc(AlphaReal(y, h))
  }

  /** The opacity never increases from one row to a lower one. */
  lemma GradientNonIncreasing(y1: int, y2: int, h: int)
    requires 0 <= y1 <= y2 < h
    ensures GradientAlpha(y2, h) <= GradientAlpha(y1, h)
  {
    AlphaRealValue(y1, h);
    AlphaRealValue(y2, h);
    RealDivMonotone((204 * (h - y2)) as real, (204 * (h - y1)) as real, h as real);
  }

  /** The colour a row of the wash is painted with. */
  function RowColor(c: Rgb, y: int, h: int): (px: Rgba)
    requires 0 <= y < h
    ensures px.r == c.r && px.g == c.g && px.b == c.b
    ensures 0 <= px.a <= 204 && (y == 0 ==> px.a == 204)
  {
    Rgba(c.r, c.g, c.b, GradientAlpha(y, h))
  }

  /**
   * The per-row loop of the gradient wash: row y is painted with the template
   * colour at opacity GradientAlpha(y, h). The colour is parsed in every
   * iteration, so a malformed colour fails only when there is a row to paint.
   */
  method GradientRows(color: string, h: int) returns (rows: Option<seq<Rgba>>)
    ensures rows.None? <==> h > 0 && ParseHexColor(color).None?
    ensures rows.Some? ==> |rows.value| == (if h > 0 then h else 0)
    ensures rows.Some? ==> forall y :: 0 <= y < |rows.value| ==>
      ParseHexColor(color).Some? && rows.value[y] == RowColor(ParseHexColor(color).value, y, h)
  {
    var painted: seq<Rgba> := [];
    var y := 0;
    while y < h
      invariant 0 <= y <= (if h > 0 then h else 0)
      invariant |painted| == y
      invariant y > 0 ==> ParseHexColor(color).Some?
      invariant forall k :: 0 <= k < y ==>
        ParseHexColor(color).Some? && painted[k] == RowColor(ParseHexColor(color).value, k, h)
    {
      var alpha := GradientAlpha(y, h);
      var c := ParseHexColor(color);
      if c.None? {
        return None;
      }
      painted := painted + [Rgba(c.value.r, c.value.g, c.value.b, alpha)];
      y := y + 1;
    }
    rows := Some(painted);
  }

  // ---------------------------------------------------------------------------
  // Text

  datatype Point = Point(x: int, y: int)

  /** The left edge that centres a text of width `textWidth` on a canvas `canvasWidth` wide. */
  function CenteredX(canvasWidth: int, textWidth: int): (x: int)
    ensures 2 * x <= canvasWidth - textWidth <= 2 * x + 1
    ensures 0 <= textWidth <= canvasWidth ==>
      0 <= x && 0 <= (canvasWidth - textWidth - x) - x <= 1
  {
    (canvasWidth - textWidth) / 2
  }

  /** Where the two text lines and their drop shadows are drawn. */
  datatype TextLayout = TextLayout(mainShadow: Point, main: Point, brandShadow: Point, brand: Point)

  /**
   * The text positions on a `w` by `h` canvas, given the measured widths of the
   * festival line and of the brand line.
   */
  function LayoutText(w: int, h: int, mainWidth: int, brandWidth: int): (l: TextLayout)
    ensures l.main.y == h - 120 && l.brand.y == h - 60
    ensures 2 * l.main.x <= w - mainWidth <= 2 * l.main.x + 1
    ensures 2 * l.brand.x <= w - brandWidth <= 2 * l.brand.x + 1
    ensures l.mainShadow == Point(l.main.x + 2, l.main.y + 2)
    ensures l.brandShadow == Point(l.brand.x + 1, l.brand.y + 1)
  {
    var mainX, mainY := CenteredX(w, mainWidth), h - 120;
    var brandX, brandY := CenteredX(w, brandWidth), h - 60;
    TextLayout(Point(mainX + 2, mainY + 2), Point(mainX, mainY), Point(brandX + 1, brandY + 1), Point(brandX, brandY))
  }

  // ---------------------------------------------------------------------------
  // Compositing

  datatype Size = Size(width: nat, height: nat)

  /** The scaled size of the pasted photo and its top-left corner. */
  datatype Placement = Placement(width: int, height: int, x: int, y: int)

  function MinReal(a: real, b: real): real { if a <= b then a else b }

  /**
   * min(availW / w, availH / h, 1.0), where the available region is the canvas
   * less 100 px of side padding and 200 px at the bottom.
   */
  function CutoutScale(bg: Size, fg: Size): (s: real)
    requires fg.width > 0 && fg.height > 0
    ensures s <= 1.0
    ensures s <= ((bg.width - 100) as real) / (fg.width as real)
    ensures s <= ((bg.height - 200) as real) / (fg.height as real)
    ensures s == 1.0 || s == ((bg.width - 100) as real) / (fg.width as real)
         || s == ((bg.height - 200) as real) / (fg.height as real)
  {
    MinReal(MinReal(((bg.width - 100) as real) / (fg.width as real),
                    ((bg.height - 200) as real) / (fg.height as real)), 1.0)
  }

  /** Python's int(n * s): a side of n pixels scaled by s. */
  function ScaledLength(n: nat, s: real): (m: int)
    ensures 0.0 <= s ==> 0 <= m && m as real <= n as real * s < m as real + 1.0
  {
    Trunc(n as real * s)
  }

  /**
   * The cutout box for a scale `s`: the scaled cutout centred horizontally and
   * put 50 px below the top of the region that leaves 200 px at the bottom.
   */
  function CutoutPlacement(bg: Size, fg: Size, s: real): (p: Placement)
    ensures 0 <= bg.width - p.width - 2 * p.x <= 1
    ensures 0 <= bg.height - 200 - p.height - 2 * (p.y - 50) <= 1
  {
    var w, h := ScaledLength(fg.width, s), ScaledLength(fg.height, s);
    Placement(w, h, (bg.width - w) / 2, (bg.height - 200 - h) / 2 + 50)
  }

  /**
   * composite_images: the cutout is scaled by CutoutScale and placed by
   * CutoutPlacement. `fg` is the size of the decoded cutout, `None` when the
   * bytes are not an image; a zero-sized cutout divides by zero. Both failures
   * yield `None`.
   */
  function CompositeImages(bg: Size, fg: Option<Size>): (p: Option<Placement>)
    ensures p.Some? <==> fg.Some? && fg.value.width > 0 && fg.value.height > 0
    ensures p.Some? ==> p.value == CutoutPlacement(bg, fg.value, CutoutScale(bg, fg.value))
  {
    match fg
    case None => None
    case Some(f) =>
      if f.width == 0 || f.height == 0 then None
      else Some(CutoutPlacement(bg, f, CutoutScale(bg, f)))
  }

  /** A side `n` scaled by `s` <= bound / n stays within `bound`. */
  lemma ScaledAtMost(n: nat, s: real, bound: int)
    requires 0 < n && 0.0 < s && 0 <= bound
    requires s <= (bound as real) / (n as real)
    ensures 0 <= ScaledLength(n, s) <= bound
  {
    var nr, q := n as real, (bound as real) / (n as real);
    DivMul(bound as real, nr);
    assert nr * s <= nr * q;
    var m := ScaledLength(n, s);
    assert m as real <= bound as real;
  }

  /** A side `n` scaled by exactly bound / n becomes `bound`. */
  lemma ScaledExactly(n: nat, bound: nat)
    requires 0 < n
    ensures ScaledLength(n, (bound as real) / (n as real)) == bound
  {
    assert (n as real) * ((bound as real) / (n as real)) == bound as real;
  }

  /** Scaling by at least 1 never shrinks a side. */
  lemma ScaledAtLeast(n: nat, s: real)
    requires 1.0 <= s
    ensures ScaledLength(n, s) >= n
  {
    assert (n as real) * s >= (n as real) * 1.0;
  }

  /** Scaling by at most 1 never enlarges a side. */
  lemma ScaledAtMostOne(n: nat, s: real)
    requires 0.0 < s <= 1.0
    ensures 0 <= ScaledLength(n, s) <= n
  {
    assert (n as real) * s <= (n as real) * 1.0;
  }

  /** bound / n is at least 1 exactly when n <= bound. */
  lemma RatioAtLeastOne(n: nat, bound: nat)
    requires 0 < n <= bound
    ensures 1.0 <= (bound as real) / (n as real)
  {
    RealDivMonotone(n as real, bound as real, n as real);
  }

  lemma PositiveRatio(a: int, n: nat)
    requires 0 < a && 0 < n
    ensures 0.0 < (a as real) / (n as real)
  {
  }

  /** The cutout scale is positive, at most 1, and at most each side's ratio. */
  lemma ScaleFacts(bg: Size, fg: Size)
    requires bg.width > 100 && bg.height > 200 && fg.width > 0 && fg.height > 0
    ensures var s := CutoutScale(bg, fg);
      && 0.0 < s <= 1.0
      && s <= ((bg.width - 100) as real) / (fg.width as real)
      && s <= ((bg.height - 200) as real) / (fg.height as real)
  {
    PositiveRatio(bg.width - 100, fg.width);
    PositiveRatio(bg.height - 200, fg.height);
  }

  /** Centring a box of width w <= W - 100 leaves at least 50 px on either side. */
  lemma CentredBox(bgW: int, bgH: int, w: int, h: int)
    requires 0 <= w <= bgW - 100 && 0 <= h <= bgH - 200
    ensures 50 <= (bgW - w) / 2 && (bgW - w) / 2 + w <= bgW - 50
    ensures 50 <= (bgH - 200 - h) / 2 + 50 && (bgH - 200 - h) / 2 + 50 + h <= bgH - 150
  {
  }

  /** The box of CutoutPlacement for any scale that keeps both sides within the photo and the region. */
  lemma CutoutPlacementFits(bg: Size, fg: Size, s: real)
    requires bg.width > 100 && bg.height > 200 && fg.width > 0 && fg.height > 0
    requires 0.0 < s <= 1.0
    requires s <= ((bg.width - 100) as real) / (fg.width as real)
    requires s <= ((bg.height - 200) as real) / (fg.height as real)
    ensures var p := CutoutPlacement(bg, fg, s);
      && 0 <= p.width <= fg.width && 0 <= p.height <= fg.height
      && p.width <= bg.width - 100 && p.height <= bg.height - 200
      && 50 <= p.x && p.x + p.width <= bg.width - 50
      && 50 <= p.y && p.y + p.height <= bg.height - 150
  {
    ScaledAtMost(fg.width, s, bg.width - 100);
    ScaledAtMost(fg.height, s, bg.height - 200);
    ScaledAtMostOne(fg.width, s);
    ScaledAtMostOne(fg.height, s);
    CentredBox(bg.width, bg.height, ScaledLength(fg.width, s), ScaledLength(fg.height, s));
  }

  /**
   * With more than 100 px of width and 200 px of height, the cutout is never
   * enlarged, fits the reserved region, and its box lies in
   * [50, w - 50] x [50, h - 150]: inside the frame and above the text lines.
   */
  lemma CutoutFits(bg: Size, fg: Size)
    requires bg.width > 100 && bg.height > 200 && fg.width > 0 && fg.height > 0
    ensures var p := CompositeImages(bg, Some(fg));
      && p.Some?
      && 0 <= p.value.width <= fg.width && 0 <= p.value.height <= fg.height
      && p.value.width <= bg.width - 100 && p.value.height <= bg.height - 200
      && 50 <= p.value.x && p.value.x + p.value.width <= bg.width - 50
      && 50 <= p.value.y && p.value.y + p.value.height <= bg.height - 150
      && BorderWidth < p.value.x && BorderWidth < p.value.y
      && p.value.x + p.value.width < bg.width - BorderWidth
      && p.value.y + p.value.height < LayoutText(bg.width, bg.height, 0, 0).main.y
  {
    ScaleFacts(bg, fg);
    CutoutPlacementFits(bg, fg, CutoutScale(bg, fg));
  }

  /** A cutout that already fits the region is pasted at its own size. */
  lemma CutoutKeepsFittingSize(bg: Size, fg: Size)
    requires bg.width > 100 && bg.height > 200 && fg.width > 0 && fg.height > 0
    requires fg.width <= bg.width - 100 && fg.height <= bg.height - 200
    ensures var p := CompositeImages(bg, Some(fg));
      p.Some? && p.value.width == fg.width && p.value.height == fg.height
  {
    RatioAtLeastOne(fg.width, bg.width - 100);
    RatioAtLeastOne(fg.height, bg.height - 200);
    assert CutoutScale(bg, fg) == 1.0;
  }

  /** The fixed canvases: 800 x 800 after a cutout, 600 x 800 on the fallback path. */
  const FullCanvas := Size(800, 800)
  const SimpleCanvas := Size(600, 800)

  /** The fallback scale min(500 / w, 600 / h), with no cap at 1.0. */
  function SimpleScale(photo: Size): (s: real)
    requires photo.width > 0 && photo.height > 0
    ensures s <= ((SimpleCanvas.width - 100) as real) / (photo.width as real)
    ensures s <= ((SimpleCanvas.height - 200) as real) / (photo.height as real)
    ensures s == ((SimpleCanvas.width - 100) as real) / (photo.width as real)
         || s == ((SimpleCanvas.height - 200) as real) / (photo.height as real)
  {
    MinReal(((SimpleCanvas.width - 100) as real) / (photo.width as real),
            ((SimpleCanvas.height - 200) as real) / (photo.height as real))
  }

  /**
   * The placement computation of generate_simple_sticker on its 600 x 800
   * canvas: the photo is scaled by SimpleScale, centred horizontally and put
   * 80 px from the top.
   */
  function SimplePlacement(photo: Size): (p: Option<Placement>)
    ensures p.Some? <==> photo.width > 0 && photo.height > 0
  {
    if photo.width == 0 || photo.height == 0 then None
    else
      var s := SimpleScale(photo);
      var w, h := ScaledLength(photo.width, s), ScaledLength(photo.height, s);
      Some(Placement(w, h, (SimpleCanvas.width - w) / 2, 80))
  }

  /** The fallback box for any scale that is one of the two ratios and at most both. */
  lemma SimpleBoxFits(photo: Size, s: real)
    requires photo.width > 0 && photo.height > 0 && 0.0 < s
    requires s <= 500.0 / (photo.width as real) && s <= 600.0 / (photo.height as real)
    requires s == 500.0 / (photo.width as real) || s == 600.0 / (photo.height as real)
    ensures var w, h := ScaledLength(photo.width, s), ScaledLength(photo.height, s);
      && 0 <= w <= 500 && 0 <= h <= 600 && (w == 500 || h == 600)
  {
    ScaledAtMost(photo.width, s, 500);
    ScaledAtMost(photo.height, s, 600);
    if s == 500.0 / (photo.width as real) {
      ScaledExactly(photo.width, 500);
    } else {
      ScaledExactly(photo.height, 600);
    }
  }

  /** A photo within 500 x 600 is scaled by at least 1 and so is never shrunk. */
  lemma SimpleEnlarges(photo: Size, s: real)
    requires 0 < photo.width <= 500 && 0 < photo.height <= 600
    requires s == 500.0 / (photo.width as real) || s == 600.0 / (photo.height as real)
    ensures ScaledLength(photo.width, s) >= photo.width && ScaledLength(photo.height, s) >= photo.height
  {
    RatioAtLeastOne(photo.width, 500);
    RatioAtLeastOne(photo.height, 600);
    ScaledAtLeast(photo.width, s);
    ScaledAtLeast(photo.height, s);
  }

  /**
   * On the fallback path the photo fills the 500 x 600 region in one dimension,
   * a small photo is enlarged, and the pasted box lies inside the canvas, between
   * the frame and the festival text line.
   */
  lemma SimpleFits(photo: Size)
    requires photo.width > 0 && photo.height > 0
    ensures var p := SimplePlacement(photo);
      && p.Some?
      && 0 <= p.value.width <= 500 && 0 <= p.value.height <= 600
      && (p.value.width == 500 || p.value.height == 600)
      && (photo.width <= 500 && photo.height <= 600 ==>
            p.value.width >= photo.width && p.value.height >= photo.height)
      && 50 <= p.value.x && p.value.x + p.value.width <= 550
      && p.value.y == 80 && p.value.y + p.value.height <= LayoutText(600, 800, 0, 0).main.y
      && BorderWidth < p.value.x && BorderWidth < p.value.y
  {
    var s := SimpleScale(photo);
    PositiveRatio(500, photo.width);
    PositiveRatio(600, photo.height);
    SimpleBoxFits(photo, s);
    if photo.width <= 500 && photo.height <= 600 {
      SimpleEnlarges(photo, s);
    }
  }

  // ---------------------------------------------------------------------------
  // Pipelines

  /** How the photo was cut out before pasting. */
  datatype Mode = Cutout | CircleMask

  /** A finished sticker, described by what it was composed from. */
  datatype StickerImage = StickerImage(template: Template, canvas: Size, placement: Placement, mode: Mode)

  /**
   * generate_sticker: `removed` is what the background-removal service returned,
   * `choice` the index `random.choice` picked, and `cutoutSize` the size of the
   * decoded cutout. An empty or missing cutout, or a failed composite, gives
   * `(None, None)`: this path does not fall back to the circular mask.
   */
  function GenerateSticker(removed: Option<seq<byte>>, choice: nat, cutoutSize: Option<Size>): (r: (Option<StickerImage>, Option<string>))
    requires choice < |Templates|
    ensures r.0.Some? <==> r.1.Some?
    ensures (removed.None? || removed == Some([])) ==> r == (None, None)
    ensures r.0.Some? <==> && removed.Some? && removed.value != []
                           && cutoutSize.Some? && cutoutSize.value.width > 0 && cutoutSize.value.height > 0
    ensures r.1.Some? ==> r.1.value == Templates[choice].name
    ensures r.0.Some? ==>
      && r.0.value.template == Templates[choice] && r.0.value.canvas == FullCanvas
      && r.0.value.mode == Cutout && Some(r.0.value.placement) == CompositeImages(FullCanvas, cutoutSize)
  {
    TemplatesRender(choice);
    if removed.None? || removed.value == [] then (None, None)
    else
      var t := Templates[choice];
      if !TemplateRenders(t) then (None, None)
      else match CompositeImages(FullCanvas, cutoutSize)
        case None => (None, None)
        case Some(p) => (Some(StickerImage(t, FullCanvas, p, Cutout)), Some(t.name))
  }

  /**
   * generate_simple_sticker: the photo of size `photo` (`None` when it does not
   * decode) is scaled onto a 600 x 800 template and masked with a circle. A
   * template whose colours do not render fails while drawing the template.
   */
  function GenerateSimpleSticker(photo: Option<Size>, t: Template): (r: Option<StickerImage>)
    ensures r.Some? <==> photo.Some? && photo.value.width > 0 && photo.value.height > 0 && TemplateRenders(t)
    ensures r.Some? ==>
      && r.value.template == t && r.value.canvas == SimpleCanvas && r.value.mode == CircleMask
      && Some(r.value.placement) == SimplePlacement(photo.value)
  {
    if photo.None? || !TemplateRenders(t) then None
    else match SimplePlacement(photo.value)
      case None => None
      case Some(p) => Some(StickerImage(t, SimpleCanvas, p, CircleMask))
  }
}
