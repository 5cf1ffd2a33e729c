/** The arc-flag scanner of `parsePathDataNormalized`: the large-arc and sweep
    flags of an `A`/`a` command are one-digit booleans that may run together with
    each other and with the following coordinate ("1110 10" is the flags 1 and 1,
    then 10 and 10). The scanner walks the tokens of an arc run, counting the
    position inside the current 7-value tuple, and cuts a token found at the flag
    positions 3 or 4 into its flag digits and the rest. */
module ArcFlags {

  /** Number of values of one arc tuple (`comLengths.a`). */
  const ArcArity: nat := 7

  /** The tokens written one after the other. */
  function Concat(ts: seq<string>): string {
    if ts == [] then "" else ts[0] + Concat(ts[1..])
  }

  lemma {:induction false} ConcatAppend(a: seq<string>, b: seq<string>)
    ensures Concat(a + b) == Concat(a) + Concat(b)
  {
    if a == [] {
      assert a + b == b;
    } else {
      assert (a + b)[1..] == a[1..] + b;
      ConcatAppend(a[1..], b);
    }
  }

  /** `.filter(Boolean)` on strings: drops the empty ones and keeps the order. */
  function DropEmpty(ts: seq<string>): (r: seq<string>)
    ensures forall k :: 0 <= k < |r| ==> r[k] != ""
    ensures |r| <= |ts|
    ensures Concat(r) == Concat(ts)
  {
    if ts == [] then []
    else if ts[0] == "" then DropEmpty(ts[1..])
    else [ts[0]] + DropEmpty(ts[1..])
  }

  /** The pieces a token longer than one character is cut into when it stands at
      tuple position `n` (3: large-arc flag, 4: sweep flag), without the empty ones:
      at 3 the two flags and the rest, at 4 the sweep flag and the rest. */
  function FlagPieces(value: string, n: nat): (r: seq<string>)
    requires n == 3 || n == 4
    requires |value| > 1
    ensures 2 <= |r| <= 3 && (n == 4 ==> |r| == 2)
    ensures |r[0]| == 1 && (n == 3 ==> |r[1]| == 1)
    ensures forall k :: 0 <= k < |r| ==> r[k] != ""
    ensures Concat(r) == value
  {
    if n == 3 then
      var rest := if |value| > 2 then [value[2..]] else [];
      var r := [value[..1], value[1..2]] + rest;
      assert Concat(rest) == value[2..];
      assert Concat(r) == value[..1] + (value[1..2] + value[2..]);
      assert value[..1] + (value[1..2] + value[2..]) == value;
      r
    else
      var r := [value[..1], value[1..]];
      assert r[1..] == [value[1..]] && Concat(r[1..][1..]) == "";
      assert Concat(r) == value[..1] + (value[1..] + "");
      assert value[..1] + value[1..] == value;
      r
  }

  /** What the scanner appends for one token when the position counter stands
      at `n`, and the counter after it: the counter is reset once it reaches the
      tuple size, a long token at position 3 or 4 is cut into `FlagPieces` and
      advances the counter by their number, any other token is copied and
      advances it by one. */
  function ArcStep(value: string, n: nat): (seq<string>, nat) {
    var m := if n >= ArcArity then 0 else n;
    if (m == 3 || m == 4) && |value| > 1 then
      var pieces := FlagPieces(value, m);
      (pieces, m + |pieces|)
    else
      ([value], m + 1)
  }

  /** What the scanner appends to `arcValues` for the tokens `values` when the
      position counter stands at `n`. */
  function ArcScan(values: seq<string>, n: nat): seq<string>
    decreases |values|
  {
    if values == [] then []
    else
      var st := ArcStep(values[0], n);
      st.0 + ArcScan(values[1..], st.1)
  }

  /** The scan of the tokens from `i` on, after `acc`, is the step on token `i`
      followed by the scan of the rest. */
  lemma ArcScanAdvance(values: seq<string>, i: nat, n: nat, acc: seq<string>)
    requires i < |values|
    ensures var st := ArcStep(values[i], n);
      acc + ArcScan(values[i..], n) == acc + st.0 + ArcScan(values[i + 1..], st.1)
  {
    var st := ArcStep(values[i], n);
    assert values[i..][0] == values[i] && values[i..][1..] == values[i + 1..];
    assert ArcScan(values[i..], n) == st.0 + ArcScan(values[i + 1..], st.1);
  }

  /** The values of an arc run after the scan (`arcValues.flat().filter(Boolean)`). */
  function ArcTokens(values: seq<string>): seq<string> {
    DropEmpty(ArcScan(values, 0))
  }

  /** The scanner loses and adds no character: its pieces spell out the input. */
  lemma {:induction false} ArcScanKeepsText(values: seq<string>, n: nat)
    ensures Concat(ArcScan(values, n)) == Concat(values)
    decreases |values|
  {
    if values != [] {
      var st := ArcStep(values[0], n);
      ArcScanKeepsText(values[1..], st.1);
      ConcatAppend(st.0, ArcScan(values[1..], st.1));
      assert Concat(st.0) == values[0];
      assert Concat(values) == values[0] + Concat(values[1..]);
    }
  }

  /** The tokens of an arc run after flag splitting concatenate back to the
      tokens before it, and none of them is empty. */
  lemma ArcTokensKeepText(values: seq<string>)
    ensures Concat(ArcTokens(values)) == Concat(values)
    ensures forall k :: 0 <= k < |ArcTokens(values)| ==> ArcTokens(values)[k] != ""
  {
    ArcScanKeepsText(values, 0);
  }

  /** `.filter(Boolean)` leaves a list without empty strings as it is. */
  lemma {:induction false} DropEmptyKeepsNonEmpty(ts: seq<string>)
    requires forall k :: 0 <= k < |ts| ==> ts[k] != ""
    ensures DropEmpty(ts) == ts
  {
    if ts != [] {
      DropEmptyKeepsNonEmpty(ts[1..]);
    }
  }

  /** The flags run together with the x coordinate: "1110" at position 3 is
      read as the large-arc flag 1, the sweep flag 1 and the coordinate 10, and
      the next token then stands at position 6. */
  lemma RunTogetherFlagsExample()
    ensures ArcStep("1110", 3) == (["1", "1", "10"], 6)
  {
    var t := "1110";
    assert t[..1] == "1" && t[1..2] == "1" && t[2..] == "10";
    var pieces := FlagPieces(t, 3);
    assert pieces == [t[..1], t[1..2]] + [t[2..]];
    assert pieces == ["1", "1", "10"];
    assert ArcStep(t, 3) == (pieces, 3 + |pieces|);
  }

  /** The scanner as the source runs it: a counter `n` over the tuple position
      and the list `arcValues` it appends to. */
  method SplitArcFlags(values: seq<string>) returns (out: seq<string>)
    ensures out == ArcTokens(values)
  {
    var n: nat := 0;
    var arcValues: seq<string> := [];
    var i := 0;
    while i < |values|
      invariant 0 <= i <= |values|
      invariant arcValues + ArcScan(values[i..], n) == ArcScan(values, 0)
    {
      var value := values[i];
      ArcScanAdvance(values, i, n, arcValues);
      ghost var step, before := ArcStep(value, n), arcValues;
      if n >= ArcArity {
        n := 0;
      }
      if (n == 3 || n == 4) && |value| > 1 {
        var comN := FlagPieces(value, n);
        arcValues := arcValues + comN;
        n := n + |comN|;
      } else {
        arcValues := arcValues + [value];
        n := n + 1;
      }
      assert arcValues == before + step.0 && n == step.1;
      i := i + 1;
    }
    assert values[i..] == [];
    assert arcValues + ArcScan(values[i..], n) == arcValues;
    out := DropEmpty(arcValues);
  }
}
