/**
 SGR parameter strings: decimal numbers separated by `;`, as in the
 `ESC [ Ps ; Ps ... m` control sequence of section 8.3.117 of ECMA-48.
 `JoinParams` writes one; `DecodeParams` is its inverse, used to state what
 a written string means.
 */
module Params {
  import opened Optional
  import opened Decimal

  /** Only digits and separators: never the final byte `m` of the sequence. */
  predicate IsParamText(s: string) {
    forall i :: 0 <= i < |s| ==> IsDigit(s[i]) || s[i] == ';'
  }

  /** Position of the first `ch` in `s`, or `|s|` when `s` has none. */
  function IndexOf(s: string, ch: char): (i: nat)
    ensures i <= |s|
    ensures i < |s| ==> s[i] == ch
    ensures forall j :: 0 <= j < i ==> s[j] != ch
  {
    if |s| == 0 then 0
    else if s[0] == ch then 0
    else 1 + IndexOf(s[1..], ch)
  }

  lemma IndexOfFirst(a: string, ch: char, b: string)
    requires forall j :: 0 <= j < |a| ==> a[j] != ch
    ensures IndexOf(a + [ch] + b, ch) == |a|
  {
    var s := a + [ch] + b;
    assert s[|a|] == ch;
    assert forall j :: 0 <= j < |a| ==> s[j] == a[j];
  }

  /** Rust's `[String]::join(sep)`. */
  function JoinWith(parts: seq<string>, sep: string): (r: string)
    ensures |parts| == 0 ==> r == ""
    ensures |parts| == 1 ==> r == parts[0]
    ensures |parts| > 1 ==> |parts[0]| + |sep| <= |r| && r[..|parts[0]| + |sep|] == parts[0] + sep
  {
    if |parts| == 0 then ""
    else if |parts| == 1 then parts[0]
    else parts[0] + sep + JoinWith(parts[1..], sep)
  }

  /** The parameters `ps`, each in decimal, separated by `;`. */
  function JoinParams(ps: seq<nat>): (s: string)
    ensures IsParamText(s)
    ensures |ps| > 0 <==> |s| > 0
  {
    if |ps| == 0 then ""
    else if |ps| == 1 then NatToString(ps[0])
    else NatToString(ps[0]) + ";" + JoinParams(ps[1..])
  }

  /**
   The parameters a string denotes: one or more non-empty runs of digits
   separated by single `;`; anything else is `None`.
   */
  function DecodeParams(s: string): (r: Option<seq<nat>>)
    ensures r.Some? ==> |r.value| > 0 && IsParamText(s)
    decreases |s|
  {
    var i := IndexOf(s, ';');
    if i == 0 || !AllDigits(s[..i]) then None
    else if i == |s| then Some([DigitsValue(s)])
    else match DecodeParams(s[i + 1..]) {
      case None => None
      case Some(rest) => Some([DigitsValue(s[..i])] + rest)
    }
  }

  /** One numeral decodes to its one number. */
  lemma DecodeNumeral(p: nat)
    ensures DecodeParams(NatToString(p)) == Some([p])
  {
    var head := NatToString(p);
    DigitsValueOfNatToString(p);
    assert IndexOf(head, ';') == |head|;
    assert head[..|head|] == head;
  }

  /** A run of digits, a `;`, and a decodable rest decode to the run's number followed by the rest's. */
  lemma DecodeField(s: string, head: string, tail: string, rest: seq<nat>)
    requires s == head + ";" + tail
    requires |head| > 0 && AllDigits(head)
    requires DecodeParams(tail) == Some(rest)
    ensures DecodeParams(s) == Some([DigitsValue(head)] + rest)
  {
    IndexOfFirst(head, ';', tail);
    assert s[..|head|] == head;
    assert s[|head| + 1..] == tail;
  }

  /** Decoding undoes writing, for every non-empty parameter list. */
  lemma {:induction false} DecodeJoinParams(ps: seq<nat>)
    requires |ps| > 0
    ensures DecodeParams(JoinParams(ps)) == Some(ps)
    decreases |ps|
  {
    if |ps| == 1 {
      DecodeNumeral(ps[0]);
      assert ps == [ps[0]];
    } else {
      var qs := ps[1..];
      DecodeJoinParams(qs);
      assert ps == [ps[0]] + qs;
      DecodeJoinStep(ps[0], qs);
    }
  }

  lemma DecodeJoinStep(p: nat, qs: seq<nat>)
    requires |qs| > 0
    requires DecodeParams(JoinParams(qs)) == Some(qs)
    ensures DecodeParams(JoinParams([p] + qs)) == Some([p] + qs)
  {
    JoinParamsCons(p, qs);
    DigitsValueOfNatToString(p);
    DecodeField(JoinParams([p] + qs), NatToString(p), JoinParams(qs), qs);
  }

  /** Writing a list is writing its first parameter, a `;`, then the rest. */
  lemma JoinParamsCons(p: nat, qs: seq<nat>)
    requires |qs| > 0
    ensures JoinParams([p] + qs) == NatToString(p) + ";" + JoinParams(qs)
  {
    assert ([p] + qs)[1..] == qs;
  }

  /** Writing a concatenation is writing both halves with a `;` between. */
  lemma {:induction false} JoinParamsAppend(a: seq<nat>, b: seq<nat>)
    requires |a| > 0 && |b| > 0
    ensures JoinParams(a + b) == JoinParams(a) + ";" + JoinParams(b)
    decreases |a|
  {
    if |a| == 1 {
      assert (a + b)[1..] == b;
    } else {
      assert (a + b)[1..] == a[1..] + b;
      JoinParamsAppend(a[1..], b);
    }
  }

  /** The parameter groups `gs` one after another. */
  function Concat(gs: seq<seq<nat>>): seq<nat>
  {
    if |gs| == 0 then [] else gs[0] + Concat(gs[1..])
  }

  lemma {:induction false} ConcatAppend(gs: seq<seq<nat>>, hs: seq<seq<nat>>)
    ensures Concat(gs + hs) == Concat(gs) + Concat(hs)
    decreases |gs|
  {
    if |gs| == 0 {
      assert gs + hs == hs;
    } else {
      assert (gs + hs)[1..] == gs[1..] + hs;
      ConcatAppend(gs[1..], hs);
    }
  }

  /** One-parameter groups concatenate back to the parameters themselves. */
  lemma {:induction false} ConcatSingletons(xs: seq<nat>)
    ensures Concat(Singletons(xs)) == xs
    decreases |xs|
  {
    if |xs| > 0 {
      assert Singletons(xs)[1..] == Singletons(xs[1..]);
      ConcatSingletons(xs[1..]);
    }
  }

  function Singletons(xs: seq<nat>): (gs: seq<seq<nat>>)
    ensures |gs| == |xs|
    ensures forall i :: 0 <= i < |xs| ==> gs[i] == [xs[i]]
  {
    seq(|xs|, i requires 0 <= i < |xs| => [xs[i]])
  }

  /**
   Joining codes that each write a non-empty parameter group writes all the
   groups' parameters in order: the `;` between codes is just another separator.
   */
  lemma {:induction false} JoinWithGroups(parts: seq<string>, gs: seq<seq<nat>>)
    requires |parts| == |gs|
    requires forall i :: 0 <= i < |gs| ==> |gs[i]| > 0 && parts[i] == JoinParams(gs[i])
    ensures JoinWith(parts, ";") == JoinParams(Concat(gs))
    decreases |gs|
  {
    if |gs| == 1 {
      assert Concat(gs) == gs[0] + Concat(gs[1..]);
      assert gs[0] + [] == gs[0];
    } else if |gs| > 1 {
      JoinWithGroups(parts[1..], gs[1..]);
      assert |Concat(gs[1..])| > 0 by {
        assert Concat(gs[1..]) == gs[1] + Concat(gs[2..]);
      }
      JoinParamsAppend(gs[0], Concat(gs[1..]));
    }
  }
}
