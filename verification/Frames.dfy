/**
 Server-sent-event framing (section 9.2 of the WHATWG HTML standard, as far as the gateway follows
 it): `data:` lines, blank-line boundaries, and the cut the incremental path makes.
 Carriage returns are shed only at line ends; a trailing block without a blank line still counts.
 */
module Frames {
  import opened Prelude
  import opened Utf8

  const LF: byte := 10
  const CR: byte := 13

  // ---------------------------------------------------------------------------------------------
  // Lines

  /** `text.split('\n')`: one more piece than there are separators. */
  function SplitLines(text: string): (lines: seq<string>)
    ensures lines != []
  {
    if text == "" then [""]
    else if text[0] == '\n' then [""] + SplitLines(text[1..])
    else
      var rest := SplitLines(text[1..]);
      [[text[0]] + rest[0]] + rest[1..]
  }

  lemma {:induction false} SplitAtNewline(a: string, b: string)
    ensures SplitLines(a + "\n" + b) == SplitLines(a) + SplitLines(b)
  {
    var whole := a + "\n" + b;
    if a == "" {
      assert whole[1..] == b;
    } else {
      assert whole[1..] == a[1..] + "\n" + b;
      SplitAtNewline(a[1..], b);
    }
  }

  function ShedCr(line: string): string {
    if line != "" && line[|line| - 1] == '\r' then line[..|line| - 1] else line
  }

  /** What a line means to the framer. */
  datatype Line = Blank | Data(payload: string) | Other

  function Classify(line: string): Line {
    var shed := ShedCr(line);
    if shed == "" then Blank
    else
      var rest := StripPrefix(shed, "data:");
      if rest.None? then Other
      else
        var inner := StripPrefix(rest.value, " ");
        Data(if inner.Some? then inner.value else rest.value)
  }

  function ClassifyAll(lines: seq<string>): (r: seq<Line>)
    ensures |r| == |lines|
  {
    seq(|lines|, i requires 0 <= i < |lines| => Classify(lines[i]))
  }

  // ---------------------------------------------------------------------------------------------
  // Frames: a block of lines between blank lines yields the join of its data payloads

  function DataLines(lines: seq<Line>): seq<string> {
    if lines == [] then []
    else (if lines[0].Data? then [lines[0].payload] else []) + DataLines(lines[1..])
  }

  function JoinLines(parts: seq<string>): string
    requires parts != []
  {
    if |parts| == 1 then parts[0] else parts[0] + "\n" + JoinLines(parts[1..])
  }

  function BlockFrame(block: seq<Line>): seq<string> {
    var d := DataLines(block);
    if d == [] then [] else [JoinLines(d)]
  }

  /** Index of the first blank line, or the number of lines. */
  function FirstBlank(lines: seq<Line>): (i: nat)
    ensures i <= |lines|
  {
    if lines == [] || lines[0].Blank? then 0 else 1 + FirstBlank(lines[1..])
  }

  /** Reference: cut the lines into blocks at blank lines, one frame a block that has data. */
  function BlockFrames(lines: seq<Line>): seq<string> {
    var i := FirstBlank(lines);
    if i == |lines| then BlockFrame(lines)
    else BlockFrame(lines[..i]) + BlockFrames(lines[i + 1..])
  }

  function FramesOf(text: string): seq<string> {
    BlockFrames(ClassifyAll(SplitLines(text)))
  }

  /** What remains to be emitted once `pending` has been gathered and `lines` are still to come. */
  function Remaining(pending: Option<string>, lines: seq<Line>): seq<string>
    decreases lines
  {
    if lines == [] then Gathered(pending, [])
    else match lines[0]
      case Blank => Gathered(pending, []) + Remaining(None, lines[1..])
      case Data(d) => Remaining(Some(Extend(pending, d)), lines[1..])
      case Other => Remaining(pending, lines[1..])
  }

  function Extend(pending: Option<string>, data: string): string {
    if pending.None? then data else pending.value + "\n" + data
  }

  function Gathered(pending: Option<string>, data: seq<string>): seq<string> {
    if data == [] then (if pending.Some? then [pending.value] else [])
    else [Extend(pending, JoinLines(data))]
  }

  /** The block under way, completed by the lines up to the next blank one, then the other blocks. */
  function BlocksAfter(pending: Option<string>, lines: seq<Line>): seq<string> {
    var i := FirstBlank(lines);
    Gathered(pending, DataLines(lines[..i])) + (if i == |lines| then [] else BlockFrames(lines[i + 1..]))
  }

  lemma {:induction false} RemainingIsBlocks(pending: Option<string>, lines: seq<Line>)
    ensures Remaining(pending, lines) == BlocksAfter(pending, lines)
    decreases |lines|
  {
    if lines == [] {
    } else if lines[0].Blank? {
      RemainingIsBlocks(None, lines[1..]);
      NothingPending(lines[1..]);
      assert FirstBlank(lines) == 0 && lines[..0] == [];
    } else {
      var p := if lines[0].Data? then Some(Extend(pending, lines[0].payload)) else pending;
      RemainingIsBlocks(p, lines[1..]);
      LineHead(pending, p, lines);
    }
  }

  lemma LineHead(pending: Option<string>, p: Option<string>, lines: seq<Line>)
    requires lines != [] && !lines[0].Blank?
    requires p == if lines[0].Data? then Some(Extend(pending, lines[0].payload)) else pending
    ensures BlocksAfter(pending, lines) == BlocksAfter(p, lines[1..])
  {
    var rest := lines[1..];
    var i := FirstBlank(rest);
    assert lines[..i + 1][0] == lines[0];
    assert lines[..i + 1][1..] == rest[..i];
    assert i < |rest| ==> rest[i + 1..] == lines[i + 2..];
    assert FirstBlank(lines) == i + 1;
    var later := DataLines(rest[..i]);
    if lines[0].Data? {
      assert DataLines(lines[..i + 1]) == [lines[0].payload] + later;
      JoinShift(pending, lines[0].payload, later);
    } else {
      assert DataLines(lines[..i + 1]) == later;
    }
    assert Gathered(pending, DataLines(lines[..i + 1])) == Gathered(p, later);
  }

  lemma JoinShift(pending: Option<string>, d: string, later: seq<string>)
    ensures Gathered(pending, [d] + later) == Gathered(Some(Extend(pending, d)), later)
  {
    if later != [] {
      assert ([d] + later)[1..] == later;
      if pending.Some? {
        assert pending.value + "\n" + d + "\n" + JoinLines(later)
            == pending.value + "\n" + (d + "\n" + JoinLines(later));
      }
    }
  }

  lemma NothingPending(lines: seq<Line>)
    ensures BlocksAfter(None, lines) == BlockFrames(lines)
  {
    var i := FirstBlank(lines);
    if i == |lines| {
      assert lines[..i] == lines;
    }
  }

  /** The splitter between two lines: the frames it has pushed and the one it is collecting. */
  datatype Splitter = Splitter(out: seq<string>, data: Option<string>)

  function Absorb(s: Splitter, line: Line): Splitter {
    match line
    case Blank => Splitter(s.out + Gathered(s.data, []), None)
    case Data(d) => Splitter(s.out, Some(Extend(s.data, d)))
    case Other => s
  }

  /** A line absorbed leaves the frames still to come, counted with those pushed, as they were. */
  lemma AbsorbKeeps(s: Splitter, lines: seq<Line>, i: nat)
    requires i < |lines|
    ensures s.out + Remaining(s.data, lines[i..])
         == Absorb(s, lines[i]).out + Remaining(Absorb(s, lines[i]).data, lines[i + 1..])
  {
    assert lines[i..][1..] == lines[i + 1..];
    if lines[i].Blank? { Assoc(s.out, Gathered(s.data, []), Remaining(None, lines[i + 1..])); }
  }

  /** `collect_frames`: one pass over the lines, the frame under construction in `data`. */
  method CollectFrames(text: string) returns (out: seq<string>)
    ensures out == FramesOf(text)
  {
    out := CollectLines(ClassifyAll(SplitLines(text)));
  }

  method CollectLines(lines: seq<Line>) returns (out: seq<string>)
    ensures out == BlockFrames(lines)
  {
    out := [];
    var data: Option<string> := None;
    RemainingIsBlocks(None, lines);
    NothingPending(lines);
    assert lines[0..] == lines;
    for i := 0 to |lines|
      invariant out + Remaining(data, lines[i..]) == BlockFrames(lines)
    {
      ghost var next := Absorb(Splitter(out, data), lines[i]);
      AbsorbKeeps(Splitter(out, data), lines, i);
      match lines[i]
      case Blank =>
        if data.Some? { out := out + [data.value]; }
        data := None;
      case Data(payload) =>
        data := Some(Extend(data, payload));
      case Other =>
      assert next == Splitter(out, data);
    }
    assert lines[|lines|..] == [];
    if data.Some? { out := out + [data.value]; }
  }

  /** `sse_data_frames`: the valid-UTF-8 path and the lossy path are one function of the bytes. */
  method SseDataFrames(body: seq<byte>) returns (out: seq<string>)
    ensures out == FramesOf(DecodeLossy(body))
  {
    var strict := DecodeStrict(body);
    if strict.Some? {
      StrictIsLossy(body);
      out := CollectFrames(strict.value);
      return;
    }
    out := CollectFrames(DecodeLossy(body));
  }

  // ---------------------------------------------------------------------------------------------
  // The blank-line boundary

  const LF_LF: seq<byte> := [LF, LF]
  const LF_CR_LF: seq<byte> := [LF, CR, LF]

  predicate EndsWith(body: seq<byte>, e: nat, pat: seq<byte>)
    requires e <= |body|
  {
    |pat| <= e && body[e - |pat|..e] == pat
  }

  predicate BoundaryAt(body: seq<byte>, e: nat)
    requires e <= |body|
  {
    EndsWith(body, e, LF_LF) || EndsWith(body, e, LF_CR_LF)
  }

  /** End of the last occurrence of `pat` (`windows(..).rposition(..)`). */
  function EndOf(body: seq<byte>, pat: seq<byte>): (e: Option<nat>)
    requires pat != []
    ensures e.Some? ==> 0 < e.value <= |body| && EndsWith(body, e.value, pat)
    ensures forall k | (if e.Some? then e.value else 0) < k <= |body| :: !EndsWith(body, k, pat)
  {
    LastEnd(body, pat, |body|)
  }

  function LastEnd(body: seq<byte>, pat: seq<byte>, n: nat): (e: Option<nat>)
    requires pat != [] && n <= |body|
    ensures e.Some? ==> 0 < e.value <= n && EndsWith(body, e.value, pat)
    ensures forall k | (if e.Some? then e.value else 0) < k <= n :: !EndsWith(body, k, pat)
  {
    if n < |pat| then None
    else if body[n - |pat|..n] == pat then Some(n)
    else LastEnd(body, pat, n - 1)
  }

  /** `last_frame_boundary`: where the last blank line ends. */
  function LastFrameBoundary(body: seq<byte>): (cut: Option<nat>)
    ensures cut.Some? ==> 0 < cut.value <= |body| && BoundaryAt(body, cut.value)
    ensures forall k | (if cut.Some? then cut.value else 0) < k <= |body| :: !BoundaryAt(body, k)
  {
    match (EndOf(body, LF_CR_LF), EndOf(body, LF_LF))
    case (Some(a), Some(b)) => Some(Max(a, b))
    case (Some(a), None) => Some(a)
    case (None, b) => b
  }

  /** A boundary is where two newlines, or newline, return, newline, have just gone by. */
  lemma BoundaryBytes(body: seq<byte>, k: nat)
    requires k <= |body|
    ensures BoundaryAt(body, k) <==>
              (k >= 2 && body[k - 2] == 10 && body[k - 1] == 10)
              || (k >= 3 && body[k - 3] == 10 && body[k - 2] == 13 && body[k - 1] == 10)
  {
    if k >= 2 { assert body[k - 2..k] == [body[k - 2], body[k - 1]]; }
    if k >= 3 { assert body[k - 3..k] == [body[k - 3], body[k - 2], body[k - 1]]; }
  }

  /** A prefix of the stream that the incremental path may decode and parse on its own. */
  predicate Settled(prefix: seq<byte>) {
    prefix == [] || BoundaryAt(prefix, |prefix|)
  }

  lemma SettledEndsInLf(prefix: seq<byte>)
    requires Settled(prefix)
    ensures prefix == [] || prefix[|prefix| - 1] == LF
  {
    var n := |prefix|;
    if n > 0 {
      var pat := if EndsWith(prefix, n, LF_LF) then LF_LF else LF_CR_LF;
      assert prefix[n - |pat|..n][|pat| - 1] == pat[|pat| - 1];
    }
  }

  /** The decoded text of a settled prefix ends with a blank line, "" or a lone CR. */
  lemma DecodedBoundary(prefix: seq<byte>) returns (u: string, blank: string)
    requires prefix != [] && Settled(prefix)
    ensures blank == "" || blank == "\r"
    ensures DecodeLossy(prefix) == u + "\n" + blank + "\n"
  {
    var n := |prefix|;
    DecodeNewline();
    if EndsWith(prefix, n, LF_LF) {
      u, blank := DecodeLossy(prefix[..n - 2]), "";
      DecodeEnding(prefix, LF_LF);
    } else {
      u, blank := DecodeLossy(prefix[..n - 3]), "\r";
      DecodeEnding(prefix, LF_CR_LF);
    }
  }

  lemma {:induction false} DecodeEnding(prefix: seq<byte>, pat: seq<byte>)
    requires |pat| <= |prefix| && EndsWith(prefix, |prefix|, pat) && (pat == [] || !IsContinuation(pat[0]))
    ensures DecodeLossy(prefix) == DecodeLossy(prefix[..|prefix| - |pat|]) + DecodeLossy(pat)
  {
    var front := prefix[..|prefix| - |pat|];
    assert prefix == front + pat;
    DecodeAtSeam(front, pat);
  }

  lemma DecodeNewline()
    ensures DecodeLossy(LF_LF) == "\n" + "" + "\n"
    ensures DecodeLossy(LF_CR_LF) == "\n" + "\r" + "\n"
  {
    DecodeAscii(LF, []);
    DecodeAscii(LF, [LF]);
    DecodeAscii(CR, [LF]);
    DecodeAscii(LF, [CR, LF]);
    assert [LF] + [LF] == LF_LF && [CR] + [LF] == [CR, LF] && [LF] + [CR, LF] == LF_CR_LF;
    assert [LF] + [] == [LF];
  }

  lemma DecodeAscii(b: byte, rest: seq<byte>)
    requires b < 0x80
    ensures DecodeLossy([b] + rest) == [b as char] + DecodeLossy(rest)
  {
    assert ([b] + rest)[1..] == rest;
  }

  lemma {:induction false} FramesAfterBlank(a: seq<Line>, rest: seq<Line>)
    requires rest != [] && rest[0].Blank?
    ensures BlockFrames(a + rest) == BlockFrames(a) + BlockFrames(rest[1..])
    decreases |a|
  {
    var i := FirstBlank(a);
    FirstBlankIn(a, rest);
    SlicesOfConcat(a, rest, i);
    if i < |a| {
      FramesAfterBlank(a[i + 1..], rest);
      CutAtBlank(a + rest, i);
      CutAtBlank(a, i);
      Assoc(BlockFrame(a[..i]), BlockFrames(a[i + 1..]), BlockFrames(rest[1..]));
    } else {
      CutAtBlank(a + rest, i);
    }
  }

  lemma {:induction false} CutAtBlank(lines: seq<Line>, i: nat)
    requires i == FirstBlank(lines) < |lines|
    ensures BlockFrames(lines) == BlockFrame(lines[..i]) + BlockFrames(lines[i + 1..])
  {
  }

  lemma SlicesOfConcat<T>(a: seq<T>, b: seq<T>, i: nat)
    requires i <= |a| && b != []
    ensures (a + b)[..i] == a[..i]
    ensures i < |a| ==> (a + b)[i + 1..] == a[i + 1..] + b
    ensures i == |a| ==> (a + b)[i + 1..] == b[1..] && a[..i] == a
  {
  }

  lemma {:induction false} FirstBlankIn(a: seq<Line>, b: seq<Line>)
    ensures FirstBlank(a) < |a| ==> FirstBlank(a + b) == FirstBlank(a)
    ensures FirstBlank(a) == |a| ==> FirstBlank(a + b) == |a| + FirstBlank(b)
  {
    if a == [] {
      assert a + b == b;
    } else {
      assert (a + b)[1..] == a[1..] + b;
      FirstBlankIn(a[1..], b);
    }
  }

  /** Cutting a body behind a blank line cuts its frame list in two, whatever follows. */
  lemma FramesAtSettledCut(prefix: seq<byte>, rest: seq<byte>)
    requires Settled(prefix)
    ensures FramesOf(DecodeLossy(prefix + rest))
         == FramesOf(DecodeLossy(prefix)) + FramesOf(DecodeLossy(rest))
  {
    SettledEndsInLf(prefix);
    DecodeAtSeam(prefix, rest);
    TextBehindSettled(prefix, DecodeLossy(rest));
  }

  lemma {:induction false} TextBehindSettled(prefix: seq<byte>, tail: string)
    requires Settled(prefix)
    ensures FramesOf(DecodeLossy(prefix) + tail) == FramesOf(DecodeLossy(prefix)) + FramesOf(tail)
  {
    if prefix == [] {
      NoFrames();
      assert "" + tail == tail;
    } else {
      var u, blank := DecodedBoundary(prefix);
      TextCut(DecodeLossy(prefix), u, blank, tail);
    }
  }

  lemma NoFrames()
    ensures FramesOf("") == []
  {
    assert SplitLines("") == [""];
  }

  lemma TextCut(head: string, u: string, blank: string, tail: string)
    requires blank == "" || blank == "\r"
    requires head == u + "\n" + blank + "\n"
    ensures FramesOf(head + tail) == FramesOf(head) + FramesOf(tail)
  {
    BlankLineCut(head, u, blank, tail);
    assert FramesOf(head) == FramesOf(u) by {
      BlankLineCut(head, u, blank, []);
      assert head + [] == head;
      NoFrames();
    }
  }

  lemma BlankLineCut(head: string, u: string, blank: string, tail: string)
    requires blank == "" || blank == "\r"
    requires head == u + "\n" + blank + "\n"
    ensures FramesOf(head + tail) == FramesOf(u) + FramesOf(tail)
  {
    SplitAtBlank(head, u, blank, tail);
    BlocksAtBlank(SplitLines(u), blank, SplitLines(tail));
  }

  lemma SplitAtBlank(head: string, u: string, blank: string, tail: string)
    requires '\n' !in blank
    requires head == u + "\n" + blank + "\n"
    ensures SplitLines(head + tail) == SplitLines(u) + ([blank] + SplitLines(tail))
  {
    var below := blank + "\n" + tail;
    SplitAtNewline(u, below);
    assert head + tail == u + "\n" + below;
    SplitAtNewline(blank, tail);
    OneLine(blank);
  }

  lemma BlocksAtBlank(before: seq<string>, blank: string, after: seq<string>)
    requires blank == "" || blank == "\r"
    ensures BlockFrames(ClassifyAll(before + ([blank] + after)))
         == BlockFrames(ClassifyAll(before)) + BlockFrames(ClassifyAll(after))
  {
    ClassifyConcat(before, [blank] + after);
    ClassifyConcat([blank], after);
    BlankLine(blank);
    FramesAfterBlank(ClassifyAll(before), [Blank] + ClassifyAll(after));
  }

  lemma {:induction false} BlankLine(blank: string)
    requires blank == "" || blank == "\r"
    ensures ClassifyAll([blank]) == [Blank]
  {
  }

  lemma {:induction false} ClassifyConcat(a: seq<string>, b: seq<string>)
    ensures ClassifyAll(a + b) == ClassifyAll(a) + ClassifyAll(b)
  {
  }

  lemma {:induction false} OneLine(s: string)
    requires '\n' !in s
    ensures SplitLines(s) == [s]
  {
    if s != "" {
      OneLine(s[1..]);
      assert [s[0]] + s[1..] == s;
    }
  }
}
