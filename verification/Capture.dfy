/**
 The verbatim-capture cap (src/trace/capture.rs): content over the cap is cut at a character
 boundary and marked with its original and its kept length.
 */
module Capture {
  import opened Prelude
  import opened Utf8

  function Marker(original: nat, captured: nat): string {
    "[truncated:original_bytes=" + (Decimal(original) + (",captured_bytes=" + (Decimal(captured) + "]")))
  }

  /** A place where no character is cut in two. */
  predicate Boundary(data: seq<byte>, end: nat) {
    end == 0 || end >= |data| || !IsContinuation(data[end])
  }

  /** The last boundary at or before `cap`. */
  function CutPoint(data: seq<byte>, cap: nat): (end: nat)
    ensures end <= cap && Boundary(data, end)
    ensures forall k: nat :: end < k <= cap ==> !Boundary(data, k)
  {
    if Boundary(data, cap) then cap else CutPoint(data, cap - 1)
  }

  function Bounded(data: seq<byte>, cap: nat): string {
    if |data| <= cap then DecodeLossy(data)
    else DecodeLossy(data[..CutPoint(data, cap)]) + Marker(|data|, CutPoint(data, cap))
  }

  class CaptureCap {
    var maxBytes: nat

    ghost predicate Valid() reads this { maxBytes >= 1 }

    constructor (maxBytes: nat)
      ensures Valid() && this.maxBytes == Max(maxBytes, 1)
    {
      this.maxBytes := Max(maxBytes, 1);
    }

    method SetMax(maxBytes: nat)
      modifies this
      ensures Valid() && this.maxBytes == Max(maxBytes, 1)
    {
      this.maxBytes := Max(maxBytes, 1);
    }

    method Bound(data: seq<byte>) returns (out: string)
      requires Valid()
      ensures out == Bounded(data, maxBytes)
    {
      if |data| <= maxBytes {
        return DecodeLossy(data);
      }
      var end: nat := maxBytes;
      while end > 0 && 0x80 <= data[end] < 0xC0
        invariant 0 <= end <= maxBytes
        invariant CutPoint(data, end) == CutPoint(data, maxBytes)
      {
        end := end - 1;
      }
      out := DecodeLossy(data[..end]);
      out := out + Marker(|data|, end);
    }
  }

  // ---------------------------------------------------------------------------------------------
  // What is kept

  /** On any bytes the kept text is the start of the whole text, and the rest decodes on its own. */
  lemma CutSplitsTheText(data: seq<byte>, cap: nat)
    requires |data| > cap
    ensures var end := CutPoint(data, cap);
            DecodeLossy(data) == DecodeLossy(data[..end]) + DecodeLossy(data[end..])
  {
    var end := CutPoint(data, cap);
    assert data == data[..end] + data[end..];
    DecodeAtSeam(data[..end], data[end..]);
  }

  lemma {:induction false} EncodeAppend(t: string, u: string)
    ensures EncodeAll(t + u) == EncodeAll(t) + EncodeAll(u)
  {
    if t == "" {
      assert t + u == u;
    } else {
      EncodeAppend(t[1..], u);
      assert (t + u)[1..] == t[1..] + u;
    }
  }

  lemma EncodedHere(a: seq<byte>, c: char, b: seq<byte>, k: nat)
    requires k < |Encode(c)|
    ensures (a + (Encode(c) + b))[|a| + k] == Encode(c)[k]
    ensures IsContinuation(Encode(c)[k]) <==> k > 0
  {
  }

  /** In valid text the last boundary at or before the cap is where the last whole character ends. */
  lemma CutAtCharacter(a: seq<byte>, c: char, b: seq<byte>, cap: nat)
    requires |a| <= cap < |a| + |Encode(c)|
    ensures CutPoint(a + (Encode(c) + b), cap) == |a|
  {
    var data := a + (Encode(c) + b);
    EncodedHere(a, c, b, 0);
    assert Boundary(data, |a|);
    var end := CutPoint(data, cap);
    if end > |a| {
      EncodedHere(a, c, b, end - |a|);
    }
  }

  lemma {:induction false} EncodeAround(t: string, n: nat)
    requires n < |t|
    ensures EncodeAll(t) == EncodeAll(t[..n]) + (Encode(t[n]) + EncodeAll(t[n + 1..]))
    ensures EncodeAll(t[..n + 1]) == EncodeAll(t[..n]) + Encode(t[n])
  {
    assert t == t[..n] + ([t[n]] + t[n + 1..]) && t[..n + 1] == t[..n] + ([t[n]] + "");
    EncodeParts(t[..n], t[n], t[n + 1..]);
    EncodeParts(t[..n], t[n], "");
  }

  lemma {:induction false} EncodeParts(before: string, c: char, after: string)
    ensures EncodeAll(before + ([c] + after)) == EncodeAll(before) + (Encode(c) + EncodeAll(after))
  {
    EncodeAppend(before, [c] + after);
    EncodeCons(c, after);
  }

  /** How many whole characters fit, after the first `from`: the next one would pass the cap. */
  lemma {:induction false} FitCount(t: string, cap: nat, from: nat) returns (n: nat)
    requires from <= |t| && |EncodeAll(t[..from])| <= cap < |EncodeAll(t)|
    ensures n < |t| && |EncodeAll(t[..n])| <= cap < |EncodeAll(t[..n + 1])|
    decreases |t| - from
  {
    assert t[..|t|] == t;
    if |EncodeAll(t[..from + 1])| <= cap {
      n := FitCount(t, cap, from + 1);
    } else {
      n := from;
    }
  }

  /** Whatever longest prefix of whole characters fits is what is kept, with both true lengths. */
  lemma ValidTextIsCutBetweenCharacters(t: string, cap: nat)
    ensures |EncodeAll(t)| <= cap ==> Bounded(EncodeAll(t), cap) == t
    ensures |EncodeAll(t)| > cap ==>
              exists n: nat :: n < |t| && |EncodeAll(t[..n])| <= cap < |EncodeAll(t[..n + 1])|
                && Bounded(EncodeAll(t), cap) == t[..n] + Marker(|EncodeAll(t)|, |EncodeAll(t[..n])|)
  {
    Decoded(t);
    if |EncodeAll(t)| > cap {
      assert EncodeAll(t[..0]) == [];
      var n := FitCount(t, cap, 0);
      EncodeAround(t, n);
      CutAtCharacter(EncodeAll(t[..n]), t[n], EncodeAll(t[n + 1..]), cap);
      assert EncodeAll(t)[..|EncodeAll(t[..n])|] == EncodeAll(t[..n]);
      Decoded(t[..n]);
      assert Bounded(EncodeAll(t), cap) == t[..n] + Marker(|EncodeAll(t)|, |EncodeAll(t[..n])|);
    }
  }

  lemma Decoded(t: string)
    ensures DecodeLossy(EncodeAll(t)) == t
  {
    DecodeEncoded(t);
    StrictIsLossy(EncodeAll(t));
  }

  predicate IsDigit(c: char) {
    '0' <= c <= '9'
  }

  function LeadingDigits(s: string): string {
    if s == "" || !IsDigit(s[0]) then "" else [s[0]] + LeadingDigits(s[1..])
  }

  lemma {:induction false} DigitsLead(d: string, after: string)
    requires AllDigits(d) && after != "" && !IsDigit(after[0])
    ensures LeadingDigits(d + after) == d
  {
    if d == "" {
      assert d + after == after;
    } else {
      DigitsLead(d[1..], after);
      assert (d + after)[1..] == d[1..] + after;
    }
  }

  /** Two decimal fields, each behind its label and ahead of a character that is no digit. */
  function TwoFields(head: string, m: nat, middle: string, n: nat, end: string): string {
    head + (Decimal(m) + (middle + (Decimal(n) + end)))
  }

  lemma TwoFieldsTell(head: string, m: nat, middle: string, n: nat, end: string, m': nat, n': nat)
    requires middle != "" && !IsDigit(middle[0]) && end != "" && !IsDigit(end[0])
    requires TwoFields(head, m, middle, n, end) == TwoFields(head, m', middle, n', end)
    ensures m == m' && n == n'
  {
    var x, y := middle + (Decimal(n) + end), middle + (Decimal(n') + end);
    assert Decimal(m) + x == TwoFields(head, m, middle, n, end)[|head|..];
    assert Decimal(m') + y == TwoFields(head, m', middle, n', end)[|head|..];
    FieldTells(m, x, m', y);
    assert Decimal(n) + end == x[|middle|..] && Decimal(n') + end == y[|middle|..];
    FieldTells(n, end, n', end);
  }

  lemma FieldTells(m: nat, after: string, n: nat, after': string)
    requires after != "" && !IsDigit(after[0]) && after' != "" && !IsDigit(after'[0])
    requires Decimal(m) + after == Decimal(n) + after'
    ensures m == n && after == after'
  {
    DecimalReadsBack(m);
    DecimalReadsBack(n);
    DigitsLead(Decimal(m), after);
    DigitsLead(Decimal(n), after');
    assert (Decimal(m) + after)[|Decimal(m)|..] == after;
  }

  /** What the marker says, character by character: first the original length, then what was kept. */
  lemma MarkerSpelled(original: nat, captured: nat)
    ensures var o, c := Decimal(original), Decimal(captured);
            && AllDigits(o) && DigitsValue(o) == original && AllDigits(c) && DigitsValue(c) == captured
            && Marker(original, captured)
                 == "[truncated:original_bytes=" + (o + (",captured_bytes=" + (c + "]")))
  {
    DecimalReadsBack(original);
    DecimalReadsBack(captured);
  }

  /** No two pairs of lengths are marked alike. */
  lemma MarkerTellsLengths(original: nat, captured: nat, otherOriginal: nat, otherCaptured: nat)
    requires Marker(original, captured) == Marker(otherOriginal, otherCaptured)
    ensures original == otherOriginal && captured == otherCaptured
  {
    TwoFieldsTell("[truncated:original_bytes=", original, ",captured_bytes=", captured, "]",
                  otherOriginal, otherCaptured);
  }
}
