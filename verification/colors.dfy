/**
 Colours and their SGR parameters (`Color::to_ansi_code` and
 `Color::to_bg_ansi_code` in src/lib.rs).
 */
module Colors {
  import opened Optional
  import opened Decimal
  import opened Params

  /** Rust's `u8` and `u32`. */
  type u8 = x: nat | x < 0x100
  type u32 = x: nat | x < 0x1_0000_0000

  datatype Color =
    | Black | Red | Green | Yellow | Blue | Magenta | Cyan | White
    | BrightBlack | BrightRed | BrightGreen | BrightYellow
    | BrightBlue | BrightMagenta | BrightCyan | BrightWhite
    | Rgb(r: u8, g: u8, b: u8)
    | Color256(index: u8)
    | Hex(code: u32)
  {
    /** One of the sixteen named colours. */
    predicate IsNamed() {
      !Rgb? && !Color256? && !Hex?
    }

    predicate IsBright() {
      BrightBlack? || BrightRed? || BrightGreen? || BrightYellow? ||
      BrightBlue? || BrightMagenta? || BrightCyan? || BrightWhite?
    }
  }

  /** Position of a named colour in the conventional ANSI order black, red, ..., white. */
  function NamedIndex(c: Color): (k: nat)
    requires c.IsNamed()
    ensures k < 8
  {
    match c
    case Black | BrightBlack => 0
    case Red | BrightRed => 1
    case Green | BrightGreen => 2
    case Yellow | BrightYellow => 3
    case Blue | BrightBlue => 4
    case Magenta | BrightMagenta => 5
    case Cyan | BrightCyan => 6
    case White | BrightWhite => 7
  }

  /** ANSI numbering: standard colours are 30 + index, bright colours 90 + index. */
  function NamedForeground(c: Color): (n: nat)
    requires c.IsNamed()
    ensures c.IsBright() ==> 90 <= n <= 97
    ensures !c.IsBright() ==> 30 <= n <= 37
  {
    (if c.IsBright() then 90 else 30) + NamedIndex(c)
  }

  /** Each named colour has its own number. */
  lemma NamedForegroundInjective(a: Color, b: Color)
    requires a.IsNamed() && b.IsNamed()
    ensures NamedForeground(a) == NamedForeground(b) <==> a == b
  {
  }

  /** `(h >> 16) as u8`: a right shift is a division by a power of two, `as u8` keeps the low byte. */
  function HexRed(h: u32): (r: u8)
    ensures h % 0x100_0000 == r * 0x1_0000 + h % 0x1_0000
  {
    (h / 0x1_0000) % 0x100
  }

  /** `((h >> 8) & 0xFF) as u8`. */
  function HexGreen(h: u32): (g: u8)
    ensures h % 0x1_0000 == g * 0x100 + h % 0x100
  {
    (h / 0x100) % 0x100
  }

  /** `(h & 0xFF) as u8`. */
  function HexBlue(h: u32): (b: u8)
    ensures (h - b) % 0x100 == 0
  {
    h % 0x100
  }

  /**
   `Color::to_ansi_code`. The source also prints the Hex colour's three bytes
   to standard output here; that debugging output is not part of the model.
   */
  function ForegroundCode(c: Color): (s: string)
    ensures |s| > 0 && IsParamText(s)
  {
    match c
    case Black => "30"
    case Red => "31"
    case Green => "32"
    case Yellow => "33"
    case Blue => "34"
    case Magenta => "35"
    case Cyan => "36"
    case White => "37"
    case BrightBlack => "90"
    case BrightRed => "91"
    case BrightGreen => "92"
    case BrightYellow => "93"
    case BrightBlue => "94"
    case BrightMagenta => "95"
    case BrightCyan => "96"
    case BrightWhite => "97"
    case Rgb(r, g, b) => "38;2;" + NatToString(r) + ";" + NatToString(g) + ";" + NatToString(b)
    case Color256(i) => "38;5;" + NatToString(i)
    case Hex(h) =>
      var r := HexRed(h);
      var g := HexGreen(h);
      var b := HexBlue(h);
      "38;2;" + NatToString(r) + ";" + NatToString(g) + ";" + NatToString(b)
  }

  /**
   `Color::to_bg_ansi_code`. A named colour's background code is computed by
   parsing its foreground code as a `u8`, falling back to 30 when that fails,
   and adding 10.
   */
  function BackgroundCode(c: Color): (s: string)
    ensures |s| > 0 && IsParamText(s)
  {
    match c
    case Rgb(r, g, b) => "48;2;" + NatToString(r) + ";" + NatToString(g) + ";" + NatToString(b)
    case Color256(i) => "48;5;" + NatToString(i)
    case Hex(h) =>
      var r := HexRed(h);
      var g := HexGreen(h);
      var b := HexBlue(h);
      "48;2;" + NatToString(r) + ";" + NatToString(g) + ";" + NatToString(b)
    case _ => NatToString(UnwrapOr(ParseU8(ForegroundCode(c)), 30) + 10)
  }

  /**
   The SGR parameters a foreground colour selects: a named colour's own
   number, `38;2;r;g;b` for a direct colour and `38;5;i` for a palette index
   (ITU-T T.416 colour selection, as terminals implement it).
   */
  function ForegroundParams(c: Color): (ps: seq<nat>)
    ensures |ps| > 0
  {
    match c
    case Rgb(r, g, b) => [38, 2, r, g, b]
    case Color256(i) => [38, 5, i]
    case Hex(h) => [38, 2, h / 0x1_0000 % 0x100, h / 0x100 % 0x100, h % 0x100]
    case _ => [NamedForeground(c)]
  }

  /** Background parameters: the foreground ones with the leading parameter raised by ten. */
  function BackgroundParams(c: Color): (ps: seq<nat>)
    ensures |ps| > 0
  {
    var f := ForegroundParams(c);
    [f[0] + 10] + f[1..]
  }

  lemma NamedForegroundCode(c: Color)
    requires c.IsNamed()
    ensures ForegroundCode(c) == NatToString(NamedForeground(c))
  {
  }

  /** The foreground code is the `;`-joined decimal text of the foreground parameters. */
  lemma ForegroundCodeEncodes(c: Color)
    ensures ForegroundCode(c) == JoinParams(ForegroundParams(c))
  {
    var ps := ForegroundParams(c);
    match c
    case Rgb(r, g, b) =>
      RgbText("38;2;", 38, r, g, b);
    case Color256(i) =>
      JoinParamsCons(5, [i]);
      assert [5] + [i] == [5, i];
      JoinParamsCons(ps[0], [5, i]);
      assert ps == [ps[0]] + [5, i];
      assert NatToString(38) == "38" && NatToString(5) == "5";
      FormatAssoc2(NatToString(i));
    case Hex(h) =>
      RgbText("38;2;", 38, HexRed(h), HexGreen(h), HexBlue(h));
    case _ =>
      NamedForegroundCode(c);
  }

  /** The `38;2;` / `48;2;` prefix followed by three decimal bytes, as parameters. */
  lemma RgbText(lead: string, n: nat, r: nat, g: nat, b: nat)
    requires lead == NatToString(n) + ";2;"
    ensures lead + NatToString(r) + ";" + NatToString(g) + ";" + NatToString(b)
         == JoinParams([n, 2, r, g, b])
  {
    var ps: seq<nat> := [n, 2, r, g, b];
    JoinParamsCons(g, [b]);
    assert [g] + [b] == [g, b];
    JoinParamsCons(r, [g, b]);
    assert [r] + [g, b] == [r, g, b];
    JoinParamsCons(2, [r, g, b]);
    assert [2] + [r, g, b] == [2, r, g, b];
    JoinParamsCons(n, [2, r, g, b]);
    assert [n] + [2, r, g, b] == ps;
    assert NatToString(2) == "2";
    FormatAssoc(NatToString(n), NatToString(r), NatToString(g), NatToString(b));
  }

  lemma FormatAssoc2(i: string)
    ensures "38;5;" + i == "38" + ";" + ("5" + ";" + i)
    ensures "48;5;" + i == "48" + ";" + ("5" + ";" + i)
  {
  }

  lemma FormatAssoc(n: string, r: string, g: string, b: string)
    ensures n + ";2;" + r + ";" + g + ";" + b == n + ";" + ("2" + ";" + (r + ";" + (g + ";" + b)))
  {
  }

  /**
   The `unwrap_or(30)` fallback is never taken: every named foreground code
   parses as a `u8`, and adding ten cannot overflow one.
   */
  lemma NamedBackgroundParses(c: Color)
    requires c.IsNamed()
    ensures ParseU8(ForegroundCode(c)) == Some(NamedForeground(c))
    ensures NamedForeground(c) + 10 < 0x100
  {
    NamedForegroundCode(c);
    ParseU8OfNatToString(NamedForeground(c));
  }

  /** A named colour's background code is the decimal text of its foreground number plus ten. */
  lemma NamedBackgroundCode(c: Color)
    requires c.IsNamed()
    ensures BackgroundCode(c) == NatToString(NamedForeground(c) + 10)
    ensures 40 <= NamedForeground(c) + 10 <= 47 || 100 <= NamedForeground(c) + 10 <= 107
  {
    assert BackgroundCode(c) == NatToString(UnwrapOr(ParseU8(ForegroundCode(c)), 30) + 10);
    NamedBackgroundParses(c);
  }

  /** The background code is the `;`-joined decimal text of the background parameters. */
  lemma BackgroundCodeEncodes(c: Color)
    ensures BackgroundCode(c) == JoinParams(BackgroundParams(c))
  {
    var ps := BackgroundParams(c);
    match c
    case Rgb(r, g, b) =>
      assert ps == [48, 2, r, g, b];
      RgbText("48;2;", 48, r, g, b);
    case Color256(i) =>
      assert ps == [48, 5, i];
      JoinParamsCons(5, [i]);
      assert [5] + [i] == [5, i];
      JoinParamsCons(ps[0], [5, i]);
      assert ps == [ps[0]] + [5, i];
      assert NatToString(48) == "48" && NatToString(5) == "5";
      FormatAssoc2(NatToString(i));
    case Hex(h) =>
      assert ps == [48, 2, HexRed(h), HexGreen(h), HexBlue(h)];
      RgbText("48;2;", 48, HexRed(h), HexGreen(h), HexBlue(h));
    case _ =>
      assert ps == [NamedForeground(c) + 10];
      NamedBackgroundCode(c);
  }

  /** What a terminal reads from a foreground code: exactly the foreground parameters. */
  lemma DecodeForegroundCode(c: Color)
    ensures DecodeParams(ForegroundCode(c)) == Some(ForegroundParams(c))
  {
    ForegroundCodeEncodes(c);
    DecodeJoinParams(ForegroundParams(c));
  }

  /** What a terminal reads from a background code: exactly the background parameters. */
  lemma DecodeBackgroundCode(c: Color)
    ensures DecodeParams(BackgroundCode(c)) == Some(BackgroundParams(c))
  {
    BackgroundCodeEncodes(c);
    DecodeJoinParams(BackgroundParams(c));
  }

  /** A Hex colour writes the same codes as the Rgb colour of its three low bytes. */
  lemma HexIsRgb(h: u32)
    ensures ForegroundCode(Hex(h)) == ForegroundCode(Rgb(HexRed(h), HexGreen(h), HexBlue(h)))
    ensures BackgroundCode(Hex(h)) == BackgroundCode(Rgb(HexRed(h), HexGreen(h), HexBlue(h)))
  {
  }

  /** Packing three bytes as `0xRRGGBB` and reading them back with the shifts gives the bytes. */
  lemma HexBytesOfPacked(r: u8, g: u8, b: u8)
    ensures r * 0x1_0000 + g * 0x100 + b < 0x100_0000
    ensures var h := r * 0x1_0000 + g * 0x100 + b;
      HexRed(h) == r && HexGreen(h) == g && HexBlue(h) == b
  {
    var h := r * 0x1_0000 + g * 0x100 + b;
    assert g * 0x100 + b < 0x1_0000;
    assert h / 0x1_0000 == r;
    assert h / 0x100 == r * 0x100 + g;
  }

  /** So `Hex(0xRRGGBB)` and `Rgb(RR, GG, BB)` render the same codes. */
  lemma HexOfPackedIsRgb(r: u8, g: u8, b: u8)
    ensures ForegroundCode(Hex(r * 0x1_0000 + g * 0x100 + b)) == ForegroundCode(Rgb(r, g, b))
    ensures BackgroundCode(Hex(r * 0x1_0000 + g * 0x100 + b)) == BackgroundCode(Rgb(r, g, b))
  {
    HexBytesOfPacked(r, g, b);
    var h: u32 := r * 0x1_0000 + g * 0x100 + b;
    HexIsRgb(h);
  }

  /** The eight bits above bit 23 of a Hex colour are silently dropped. */
  lemma HexIgnoresHighByte(h: u32)
    ensures ForegroundCode(Hex(h)) == ForegroundCode(Hex(h % 0x100_0000))
    ensures BackgroundCode(Hex(h)) == BackgroundCode(Hex(h % 0x100_0000))
  {
    var m: u32 := h % 0x100_0000;
    HexBytesBelowBit24(h);
    HexIsRgb(h);
    HexIsRgb(m);
  }

  /** Each of the three bytes read from `h` lies below bit 24. */
  lemma HexBytesBelowBit24(h: u32)
    ensures HexRed(h) == HexRed(h % 0x100_0000)
    ensures HexGreen(h) == HexGreen(h % 0x100_0000)
    ensures HexBlue(h) == HexBlue(h % 0x100_0000)
  {
    var q, m := h / 0x100_0000, h % 0x100_0000;
    QuotientOfHighAndLow(h, q, m);
    LowByteOfSum(q * 0x100, m / 0x1_0000);
    LowByteOfSum(q * 0x1_0000, m / 0x100);
    LowByteOfSum(q * 0x100_0000, m);
  }

  /** Splitting `h` at bit 24 splits its quotients by 2^16 and 2^8 the same way. */
  lemma QuotientOfHighAndLow(h: nat, q: nat, m: nat)
    requires q == h / 0x100_0000 && m == h % 0x100_0000
    ensures h == q * 0x100_0000 + m
    ensures h / 0x1_0000 == q * 0x100 + m / 0x1_0000
    ensures h / 0x100 == q * 0x1_0000 + m / 0x100
  {
  }

  /** Adding a multiple of 256 does not change the low byte. */
  lemma LowByteOfSum(a: nat, t: nat)
    requires a % 0x100 == 0
    ensures (a + t) % 0x100 == t % 0x100
  {
  }

  lemma HexExample()
    ensures ForegroundCode(Hex(0xFF8800)) == "38;2;255;136;0"
    ensures BackgroundCode(Hex(0xFF8800)) == "48;2;255;136;0"
  {
    var h: u32 := 0xFF8800;
    assert HexRed(h) == 255 && HexGreen(h) == 136 && HexBlue(h) == 0;
    HexIsRgb(h);
    assert NatToString(255) == "255" && NatToString(136) == "136" && NatToString(0) == "0";
    assert ForegroundCode(Rgb(255, 136, 0)) == "38;2;255;136;0";
    assert BackgroundCode(Rgb(255, 136, 0)) == "48;2;255;136;0";
  }
}
