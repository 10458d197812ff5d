/**
 Rendering a styled value (`impl fmt::Display for CLW` in src/lib.rs): the SGR
 control sequence `ESC [ params m`, the payload, and the reset `ESC [ 0 m`.
 `ParseRendered` reads such a string back, to state what the rendering means.
 */
module Rendering {
  import opened Optional
  import opened Decimal
  import opened Params
  import opened Colors
  import opened Styles
  import opened Builder

  /** Control Sequence Introducer: ESC followed by `[`. */
  const Csi: string := "\U{1B}["

  /** SGR 0, which clears every attribute. */
  const Reset: string := "\U{1B}[0m"

  /** The parameter strings `fmt` collects: foreground, background, then each style in order. */
  function Codes(w: Clw): (codes: seq<string>)
    ensures |codes| == 0 <==> IsPlain(w)
  {
    (if w.text.Some? then [ForegroundCode(w.text.value)] else [])
    + (if w.bg.Some? then [BackgroundCode(w.bg.value)] else [])
    + seq(|w.font|, i requires 0 <= i < |w.font| => StyleCode(w.font[i]))
  }

  /** `fmt`: the payload unchanged when nothing is set, otherwise wrapped in SGR on/reset. */
  function Render(w: Clw): (out: string)
    ensures out == w.value <==> IsPlain(w)
    ensures |out| >= |w.value|
  {
    var codes := Codes(w);
    if |codes| == 0 then w.value
    else Csi + JoinWith(codes, ";") + "m" + w.value + Reset
  }

  /** The parameters of one style list, in order. */
  function StyleParams(font: seq<Style>): (ps: seq<nat>)
    ensures |ps| == |font|
    ensures forall i :: 0 <= i < |font| ==> ps[i] == Discriminant(font[i])
  {
    seq(|font|, i requires 0 <= i < |font| => Discriminant(font[i]))
  }

  /** All SGR parameters a styled value selects, in the order a terminal applies them. */
  function SgrParams(w: Clw): seq<nat>
  {
    (if w.text.Some? then ForegroundParams(w.text.value) else [])
    + (if w.bg.Some? then BackgroundParams(w.bg.value) else [])
    + StyleParams(w.font)
  }

  /** The parameter group each code writes. */
  function Groups(w: Clw): (gs: seq<seq<nat>>)
    ensures |gs| == |Codes(w)|
  {
    (if w.text.Some? then [ForegroundParams(w.text.value)] else [])
    + (if w.bg.Some? then [BackgroundParams(w.bg.value)] else [])
    + Singletons(StyleParams(w.font))
  }

  /** Code `i` writes parameter group `i`, and every group is non-empty. */
  predicate WritesGroups(codes: seq<string>, gs: seq<seq<nat>>) {
    |codes| == |gs| && forall i :: 0 <= i < |gs| ==> |gs[i]| > 0 && codes[i] == JoinParams(gs[i])
  }

  lemma WritesGroupsAppend(c1: seq<string>, g1: seq<seq<nat>>, c2: seq<string>, g2: seq<seq<nat>>)
    requires WritesGroups(c1, g1) && WritesGroups(c2, g2)
    ensures WritesGroups(c1 + c2, g1 + g2)
  {
  }

  lemma CodesWriteGroups(w: Clw)
    ensures WritesGroups(Codes(w), Groups(w))
    ensures Concat(Groups(w)) == SgrParams(w)
  {
    var fgC := if w.text.Some? then [ForegroundCode(w.text.value)] else [];
    var bgC := if w.bg.Some? then [BackgroundCode(w.bg.value)] else [];
    var fgG := if w.text.Some? then [ForegroundParams(w.text.value)] else [];
    var bgG := if w.bg.Some? then [BackgroundParams(w.bg.value)] else [];
    var stC := seq(|w.font|, i requires 0 <= i < |w.font| => StyleCode(w.font[i]));
    var stG := Singletons(StyleParams(w.font));
    assert Codes(w) == fgC + bgC + stC;
    assert Groups(w) == fgG + bgG + stG;
    if w.text.Some? {
      ForegroundCodeEncodes(w.text.value);
    }
    if w.bg.Some? {
      BackgroundCodeEncodes(w.bg.value);
    }
    StylesWriteGroups(w.font);
    WritesGroupsAppend(fgC, fgG, bgC, bgG);
    WritesGroupsAppend(fgC + bgC, fgG + bgG, stC, stG);
    ConcatOfGroups(w);
  }

  lemma StylesWriteGroups(font: seq<Style>)
    ensures WritesGroups(seq(|font|, i requires 0 <= i < |font| => StyleCode(font[i])),
                         Singletons(StyleParams(font)))
  {
  }

  lemma ConcatOfGroups(w: Clw)
    ensures Concat(Groups(w)) == SgrParams(w)
  {
    var fgG := if w.text.Some? then [ForegroundParams(w.text.value)] else [];
    var bgG := if w.bg.Some? then [BackgroundParams(w.bg.value)] else [];
    var stG := Singletons(StyleParams(w.font));
    ConcatAppend(fgG + bgG, stG);
    ConcatAppend(fgG, bgG);
    ConcatSingletons(StyleParams(w.font));
    assert Concat(fgG) == (if w.text.Some? then ForegroundParams(w.text.value) else []);
    assert Concat(bgG) == (if w.bg.Some? then BackgroundParams(w.bg.value) else []);
  }

  /** The `;`-joined codes are the decimal text of all the value's parameters. */
  lemma JoinedCodesEncodeParams(w: Clw)
    ensures JoinWith(Codes(w), ";") == JoinParams(SgrParams(w))
    ensures |SgrParams(w)| > 0 <==> !IsPlain(w)
  {
    CodesWriteGroups(w);
    JoinWithGroups(Codes(w), Groups(w));
  }

  /** A rendered string split into the parameters it selects and the text it shows. */
  datatype Rendered = Rendered(params: seq<nat>, payload: string)

  /**
   Reads `ESC [ params m payload ESC [ 0 m`: the parameters run up to the first
   `m`, the payload is everything between that `m` and the closing reset.
   */
  function ParseRendered(out: string): Option<Rendered>
  {
    if |out| < |Csi| + |Reset| || out[..|Csi|] != Csi || out[|out| - |Reset|..] != Reset then None
    else
      var body := out[|Csi|..|out| - |Reset|];
      var i := IndexOf(body, 'm');
      if i == |body| then None
      else match DecodeParams(body[..i]) {
        case None => None
        case Some(ps) => Some(Rendered(ps, body[i + 1..]))
      }
  }

  /**
   A styled value renders as an SGR sequence that selects exactly its
   parameters (foreground, background, styles in call order), followed by its
   payload verbatim and the reset.
   */
  lemma RenderRoundTrip(w: Clw)
    requires !IsPlain(w)
    ensures ParseRendered(Render(w)) == Some(Rendered(SgrParams(w), w.value))
  {
    JoinedCodesEncodeParams(w);
    DecodeJoinParams(SgrParams(w));
    ParseWrapped(JoinWith(Codes(w), ";"), SgrParams(w), w.value);
  }

  /**
   The exact text of a styled rendering: `ESC[`, the canonical decimal text of
   its parameters joined by `;`, `m`, the payload, and the reset.
   */
  lemma RenderShape(w: Clw)
    requires !IsPlain(w)
    ensures Render(w) == Csi + JoinParams(SgrParams(w)) + "m" + w.value + Reset
  {
    JoinedCodesEncodeParams(w);
  }

  /** Any SGR-wrapped payload reads back as its parameters and the payload. */
  lemma ParseWrapped(p: string, ps: seq<nat>, v: string)
    requires IsParamText(p) && DecodeParams(p) == Some(ps)
    ensures ParseRendered(Csi + p + "m" + v + Reset) == Some(Rendered(ps, v))
  {
    var out := Csi + p + "m" + v + Reset;
    assert out[..|Csi|] == Csi;
    assert out[|out| - |Reset|..] == Reset;
    var body := out[|Csi|..|out| - |Reset|];
    assert body == p + "m" + v;
    IndexOfFirst(p, 'm', v);
    assert body[..|p|] == p;
    assert body[|p| + 1..] == v;
  }

  /** Adding a style adds exactly its parameter, after all earlier ones. */
  lemma FontAppendsParam(w: Clw, s: Style)
    ensures SgrParams(Font(w, s)) == SgrParams(w) + [Discriminant(s)]
  {
  }

  /** The foreground's parameters come first, whatever else is set. */
  lemma ForegroundLeads(w: Clw, c: Color)
    ensures SgrParams(Text(w, c))[..|ForegroundParams(c)|] == ForegroundParams(c)
  {
  }

  /** A fresh value renders as its text, unchanged. */
  lemma RenderNew(value: string)
    ensures Render(New(value)) == value
    ensures Render(ClwOf(value)) == value
  {
  }

  /** The documented chained example: background first in the call chain, yet the foreground code leads. */
  lemma ChainedExample()
    ensures Render(FontBlink(FontBold(TextCyan(BgBrightBlack(ClwOf("Styled"))))))
         == Csi + "36;100;1;5m" + "Styled" + Reset
  {
    var w := FontBlink(FontBold(TextCyan(BgBrightBlack(ClwOf("Styled")))));
    ChainedExampleCodes(w);
    assert Render(w) == Csi + "36;100;1;5" + "m" + "Styled" + Reset;
    assert "36;100;1;5" + "m" == "36;100;1;5m";
  }

  lemma ChainedExampleCodes(w: Clw)
    requires w == Clw("Styled", Some(BrightBlack), Some(Cyan), [Bold, Blink])
    ensures JoinWith(Codes(w), ";") == "36;100;1;5"
  {
    assert BackgroundCode(BrightBlack) == "100" by {
      NamedBackgroundCode(BrightBlack);
      assert NatToString(100) == "100";
    }
    var styles := seq(|w.font|, i requires 0 <= i < |w.font| => StyleCode(w.font[i]));
    assert styles == ["1", "5"];
    assert Codes(w) == ["36", "100", "1", "5"] by {
      assert Codes(w) == ["36"] + ["100"] + styles;
    }
    ChainedExampleJoin();
  }

  lemma ChainedExampleJoin()
    ensures JoinWith(["36", "100", "1", "5"], ";") == "36;100;1;5"
  {
  }
}
