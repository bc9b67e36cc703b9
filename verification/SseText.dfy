/**
 Event streams as they are written, line by line, and what the framer must read from them. Nothing
 here looks at a line: data lines, other lines and blank lines are put down and expected back.
 */
module SseText {
  import opened Prelude
  import opened Frames

  /** A line put into a block: a piece of payload, or anything else that is neither empty nor data. */
  datatype Item =
    | DataItem(text: string, spaced: bool, crlf: bool)
    | OtherItem(text: string, crlf: bool)

  /** The items up to a blank line, and how the blank line ends. */
  datatype Block = Block(items: seq<Item>, crlf: bool)

  function Ending(crlf: bool): string {
    if crlf then "\r\n" else "\n"
  }

  function WriteItem(i: Item): string {
    match i
    case DataItem(text, spaced, crlf) => "data:" + (if spaced then " " else "") + text + Ending(crlf)
    case OtherItem(text, crlf) => text + Ending(crlf)
  }

  /** Items that can be told apart: no newline inside, no carriage return before a bare newline. */
  predicate Writable(i: Item) {
    && '\n' !in i.text
    && (i.text != "" && !i.crlf ==> i.text[|i.text| - 1] != '\r')
    && (i.DataItem? && !i.spaced && i.text != "" ==> i.text[0] != ' ')
    && (i.OtherItem? ==> i.text != "" && !("data:" <= i.text))
  }

  predicate AllWritable(items: seq<Item>) {
    forall k | 0 <= k < |items| :: Writable(items[k])
  }

  predicate BlocksWritable(blocks: seq<Block>) {
    forall k | 0 <= k < |blocks| :: AllWritable(blocks[k].items)
  }

  function WriteItems(items: seq<Item>): string {
    if items == [] then "" else WriteItem(items[0]) + WriteItems(items[1..])
  }

  /** Whole blocks, then the items of a last block that no blank line ends. */
  function Write(blocks: seq<Block>, open: seq<Item>): string {
    if blocks == [] then WriteItems(open)
    else WriteItems(blocks[0].items) + (Ending(blocks[0].crlf) + Write(blocks[1..], open))
  }

  /** The payload of a block: its data texts with newlines in between; none if it has no data item. */
  function PayloadOf(items: seq<Item>): Option<string> {
    if items == [] then None
    else
      var before, i := PayloadOf(items[..|items| - 1]), items[|items| - 1];
      if i.OtherItem? then before
      else if before.None? then Some(i.text)
      else Some(before.value + "\n" + i.text)
  }

  function Meant(items: seq<Item>): seq<string> {
    var p := PayloadOf(items);
    if p.Some? then [p.value] else []
  }

  function MeantBy(blocks: seq<Block>, open: seq<Item>): seq<string> {
    if blocks == [] then Meant(open) else Meant(blocks[0].items) + MeantBy(blocks[1..], open)
  }

  // ---------------------------------------------------------------------------------------------
  // One line

  function LineOf(i: Item): Line {
    if i.DataItem? then Data(i.text) else Other
  }

  function LinesOf(items: seq<Item>): (r: seq<Line>)
    ensures |r| == |items|
  {
    if items == [] then [] else [LineOf(items[0])] + LinesOf(items[1..])
  }

  /** The characters of an item's line before its newline. */
  function RawOf(i: Item): string {
    match i
    case DataItem(text, spaced, crlf) =>
      "data:" + (if spaced then " " else "") + text + (if crlf then "\r" else "")
    case OtherItem(text, crlf) => text + (if crlf then "\r" else "")
  }

  lemma ShedWritten(shed: string, crlf: bool)
    requires shed != "" && (!crlf ==> shed[|shed| - 1] != '\r')
    ensures ShedCr(shed + (if crlf then "\r" else "")) == shed
  {
  }

  lemma DataShape(raw: string, rest: string)
    requires ShedCr(raw) == "data:" + rest
    ensures Classify(raw) == Data(if rest != "" && rest[0] == ' ' then rest[1..] else rest)
  {
    assert ("data:" + rest)[5..] == rest;
  }

  lemma DataRead(text: string, spaced: bool, crlf: bool)
    requires Writable(DataItem(text, spaced, crlf))
    ensures Classify(RawOf(DataItem(text, spaced, crlf))) == Data(text)
  {
    var space := if spaced then " " else "";
    var rest := space + text;
    Assoc("data:", space, text);
    DataEnds(rest, text, spaced, crlf);
    ShedWritten("data:" + rest, crlf);
    DataShape(RawOf(DataItem(text, spaced, crlf)), rest);
  }

  lemma DataEnds(rest: string, text: string, spaced: bool, crlf: bool)
    requires Writable(DataItem(text, spaced, crlf)) && rest == (if spaced then " " else "") + text
    ensures !crlf ==> ("data:" + rest)[|"data:" + rest| - 1] != '\r'
    ensures (if rest != "" && rest[0] == ' ' then rest[1..] else rest) == text
  {
    if spaced { assert rest[1..] == text; } else { assert rest == text; }
  }

  lemma OtherRead(text: string, crlf: bool)
    requires Writable(OtherItem(text, crlf))
    ensures Classify(RawOf(OtherItem(text, crlf))) == Other
  {
    ShedWritten(text, crlf);
  }

  lemma LineWritten(raw: string, rest: string)
    requires '\n' !in raw
    ensures ClassifyAll(SplitLines(raw + "\n" + rest)) == [Classify(raw)] + ClassifyAll(SplitLines(rest))
  {
    SplitAtNewline(raw, rest);
    OneLine(raw);
    ClassifyConcat([raw], SplitLines(rest));
  }

  lemma ItemRead(i: Item)
    requires Writable(i)
    ensures Classify(RawOf(i)) == LineOf(i)
  {
    match i
    case DataItem(text, spaced, crlf) => DataRead(text, spaced, crlf);
    case OtherItem(text, crlf) => OtherRead(text, crlf);
  }

  lemma RawThenNewline(i: Item)
    ensures WriteItem(i) == RawOf(i) + "\n"
    ensures '\n' !in i.text ==> '\n' !in RawOf(i)
  {
  }

  lemma ItemWritten(i: Item, rest: string)
    requires Writable(i)
    ensures ClassifyAll(SplitLines(WriteItem(i) + rest)) == [LineOf(i)] + ClassifyAll(SplitLines(rest))
  {
    RawThenNewline(i);
    ItemRead(i);
    LineWritten(RawOf(i), rest);
  }

  lemma {:induction false} ItemsWritten(items: seq<Item>, rest: string)
    requires AllWritable(items)
    ensures ClassifyAll(SplitLines(WriteItems(items) + rest)) == LinesOf(items) + ClassifyAll(SplitLines(rest))
  {
    if items == [] {
      assert "" + rest == rest;
    } else {
      ItemsWritten(items[1..], rest);
      ItemWritten(items[0], WriteItems(items[1..]) + rest);
      Assoc(WriteItem(items[0]), WriteItems(items[1..]), rest);
    }
  }

  lemma BlankWritten(crlf: bool, rest: string)
    ensures ClassifyAll(SplitLines(Ending(crlf) + rest)) == [Blank] + ClassifyAll(SplitLines(rest))
  {
    var raw := if crlf then "\r" else "";
    assert Ending(crlf) + rest == raw + "\n" + rest;
    LineWritten(raw, rest);
    BlankLine(raw);
  }

  // ---------------------------------------------------------------------------------------------
  // Blocks

  lemma {:induction false} LinesSnoc(items: seq<Item>, i: Item)
    ensures LinesOf(items + [i]) == LinesOf(items) + [LineOf(i)]
  {
    if items == [] {
      assert items + [i] == [i];
      assert LinesOf([i][1..]) == [];
    } else {
      assert (items + [i])[1..] == items[1..] + [i];
      LinesSnoc(items[1..], i);
    }
  }

  /** Reading the lines of a block after `pending` extends it by the payload of the block. */
  function Gather(pending: Option<string>, items: seq<Item>): Option<string>
    decreases |items|
  {
    if items == [] then pending
    else if items[0].OtherItem? then Gather(pending, items[1..])
    else Gather(Some(Extend(pending, items[0].text)), items[1..])
  }

  lemma {:induction false} GatherSnoc(pending: Option<string>, items: seq<Item>, i: Item)
    ensures var g := Gather(pending, items);
            Gather(pending, items + [i]) == if i.OtherItem? then g else Some(Extend(g, i.text))
    decreases |items|
  {
    if items == [] {
      assert items + [i] == [i];
      assert [i][1..] == [];
    } else {
      assert (items + [i])[1..] == items[1..] + [i];
      GatherSnoc(if items[0].OtherItem? then pending else Some(Extend(pending, items[0].text)), items[1..], i);
    }
  }

  lemma {:induction false} GatherIsPayload(items: seq<Item>)
    ensures Gather(None, items) == PayloadOf(items)
    decreases |items|
  {
    if items != [] {
      var n := |items| - 1;
      GatherIsPayload(items[..n]);
      GatherSnoc(None, items[..n], items[n]);
      assert items == items[..n] + [items[n]];
    }
  }

  lemma {:induction false} GatherThenRest(pending: Option<string>, items: seq<Item>, rest: seq<Line>)
    ensures Remaining(pending, LinesOf(items) + rest) == Remaining(Gather(pending, items), rest)
    decreases |items|
  {
    if items == [] {
      assert [] + rest == rest;
    } else {
      var lines := LinesOf(items) + rest;
      assert lines[1..] == LinesOf(items[1..]) + rest && lines[0] == LineOf(items[0]);
      GatherThenRest(
        if items[0].OtherItem? then pending else Some(Extend(pending, items[0].text)), items[1..], rest);
    }
  }

  lemma BlockRead(items: seq<Item>, rest: seq<Line>)
    ensures Remaining(None, LinesOf(items) + ([Blank] + rest)) == Meant(items) + Remaining(None, rest)
  {
    GatherThenRest(None, items, [Blank] + rest);
    GatherIsPayload(items);
    assert ([Blank] + rest)[1..] == rest;
  }

  lemma {:induction false} WrittenLines(blocks: seq<Block>, open: seq<Item>)
    requires BlocksWritable(blocks) && AllWritable(open)
    ensures Remaining(None, ClassifyAll(SplitLines(Write(blocks, open)))) == MeantBy(blocks, open)
    decreases |blocks|
  {
    if blocks == [] {
      assert WriteItems(open) + "" == WriteItems(open);
      ItemsWritten(open, "");
      assert SplitLines("") == [""];
      BlankLine("");
      BlockRead(open, []);
      assert [Blank] + [] == [Blank];
      assert Remaining(None, []) == [];
    } else {
      var b, rest := blocks[0], Write(blocks[1..], open);
      WrittenLines(blocks[1..], open);
      ItemsWritten(b.items, Ending(b.crlf) + rest);
      BlankWritten(b.crlf, rest);
      BlockRead(b.items, ClassifyAll(SplitLines(rest)));
    }
  }

  /**
   Any stream written from blocks of data and other lines, with either line ending and with or
   without the space, reads back as the payloads of its blocks, the unfinished last one included.
   */
  lemma WrittenReadsBack(blocks: seq<Block>, open: seq<Item>)
    requires BlocksWritable(blocks) && AllWritable(open)
    ensures FramesOf(Write(blocks, open)) == MeantBy(blocks, open)
  {
    WrittenLines(blocks, open);
    var lines := ClassifyAll(SplitLines(Write(blocks, open)));
    RemainingIsBlocks(None, lines);
    NothingPending(lines);
  }

  /** A newline at the very end of a text makes no difference. */
  lemma FinalNewline(text: string)
    ensures FramesOf(text + "\n") == FramesOf(text)
  {
    assert text + "\n" == text + "\n" + "";
    SplitAtNewline(text, "");
    assert SplitLines("") == [""];
    ClassifyConcat(SplitLines(text), [""]);
    BlankLine("");
    FramesAfterBlank(ClassifyAll(SplitLines(text)), [Blank]);
  }

  lemma {:induction false} OtherSkipped(pending: Option<string>, a: seq<Line>, b: seq<Line>)
    ensures Remaining(pending, a + ([Other] + b)) == Remaining(pending, a + b)
    decreases |a|
  {
    if a == [] {
      assert a + ([Other] + b) == [Other] + b && a + b == b;
      assert ([Other] + b)[1..] == b;
    } else {
      assert (a + ([Other] + b))[1..] == a[1..] + ([Other] + b) && (a + b)[1..] == a[1..] + b;
      OtherSkipped(
        match a[0] case Blank => None case Data(d) => Some(Extend(pending, d)) case Other => pending, a[1..], b);
    }
  }

  /** A line that is neither empty nor data may be put in anywhere: no frame changes. */
  lemma OtherLineIgnored(before: string, i: Item, after: string)
    requires Writable(i) && i.OtherItem?
    ensures FramesOf(before + "\n" + (WriteItem(i) + after)) == FramesOf(before + "\n" + after)
    ensures FramesOf(WriteItem(i) + after) == FramesOf(after)
  {
    var a, b := ClassifyAll(SplitLines(before)), ClassifyAll(SplitLines(after));
    ItemWritten(i, after);
    SplitAtNewline(before, WriteItem(i) + after);
    SplitAtNewline(before, after);
    ClassifyConcat(SplitLines(before), SplitLines(WriteItem(i) + after));
    ClassifyConcat(SplitLines(before), SplitLines(after));
    SkippedEverywhere(a, b);
    SkippedEverywhere([], b);
    assert [] + ([Other] + b) == [Other] + b && [] + b == b;
  }

  lemma SkippedEverywhere(a: seq<Line>, b: seq<Line>)
    ensures BlockFrames(a + ([Other] + b)) == BlockFrames(a + b)
  {
    OtherSkipped(None, a, b);
    RemainingIsBlocks(None, a + ([Other] + b));
    NothingPending(a + ([Other] + b));
    RemainingIsBlocks(None, a + b);
    NothingPending(a + b);
  }
}
