/** The stream decoder with the remembered event name kept across reads.

    The decoder as written resets the name at the start of every read, so a
    read boundary between an `event:` line and its `data:` line drops the
    event. Here the name lives as long as the carry-over buffer does, and the
    callbacks no longer depend on where the reads split the stream. */
module CarriedEvent {
  import opened Text
  import opened StreamDecoder
  import StreamRoundTrip

  /** A scan's callbacks and failure, plus the name it remembers at the end. */
  datatype Scan<J> = Scan(fired: seq<Callback<J>>, thrown: Option<Failure>, event: string)

  /** The state between reads: the scan so far and the carried partial line. */
  datatype Progress<J> = Progress(fired: seq<Callback<J>>, thrown: Option<Failure>, event: string, buffer: string)

  /** The line scan, also reporting the remembered name. */
  function ScanLines<J>(lines: seq<string>, event: string, acc: seq<Callback<J>>,
                        parse: string -> Result<J, string>, flush: bool): Scan<J>
    decreases |lines|
  {
    if lines == [] then Scan(acc, None, event)
    else
      var line := lines[0];
      if StartsWith(line, EventPrefix) then
        ScanLines(lines[1..], line[|EventPrefix|..], acc, parse, flush)
      else if StartsWith(line, DataPrefix) then
        match parse(line[|DataPrefix|..])
        case Err(m) => Scan(acc, Some(ParseFailure(m)), event)
        case Ok(d) => ScanLines(lines[1..], "", acc + Route(event, d, flush), parse, flush)
      else
        ScanLines(lines[1..], event, acc, parse, flush)
  }

  /** The read loop with the name carried from one read to the next. */
  function CarriedReadLoop<J>(buffer: string, event: string, chunks: seq<string>, acc: seq<Callback<J>>,
                              parse: string -> Result<J, string>): Progress<J>
    decreases |chunks|
  {
    if chunks == [] then Progress(acc, None, event, buffer)
    else
      var text := buffer + chunks[0];
      var s := ScanLines(CompleteLines(text), event, acc, parse, false);
      if s.thrown.Some? then Progress(s.fired, s.thrown, s.event, Carry(text))
      else CarriedReadLoop(Carry(text), s.event, chunks[1..], s.fired, parse)
  }

  /** What one read of `text` does from the given buffer and name. */
  function OneRead<J>(buffer: string, event: string, text: string, acc: seq<Callback<J>>,
                      parse: string -> Result<J, string>): Progress<J>
  {
    var s := ScanLines(CompleteLines(buffer + text), event, acc, parse, false);
    Progress(s.fired, s.thrown, s.event, Carry(buffer + text))
  }

  function Concat(chunks: seq<string>): string
  {
    if chunks == [] then [] else chunks[0] + Concat(chunks[1..])
  }

  /** The leftover scan, starting from the carried name. */
  function CarriedFlush<J>(buffer: string, event: string, acc: seq<Callback<J>>,
                           parse: string -> Result<J, string>): Outcome<J>
  {
    if IsBlank(buffer, JsIsSpace) then Outcome(acc, None)
    else Dispatch(Split(buffer, '\n'), event, acc, parse, true)
  }

  /** Every callback the corrected decoder fires, in order. */
  function CarriedTrace<J>(fetched: Fetched, chunks: seq<string>, end: StreamEnd,
                           parse: string -> Result<J, string>): seq<Callback<J>>
  {
    match fetched
    case FetchRejected(f) => Settle([], Some(f))
    case Responded(ok, status, statusText) =>
      if !ok then Settle([], Some(HttpFailure(status, statusText)))
      else
        var r := CarriedReadLoop("", "", chunks, [], parse);
        if r.thrown.Some? then Settle(r.fired, r.thrown)
        else match end
          case ReadRejected(f) => Settle(r.fired, Some(f))
          case EndOfStream =>
            var o := CarriedFlush(r.buffer, r.event, r.fired, parse);
            Settle(o.fired, o.thrown)
  }

  // ---------------------------------------------------------------------
  // Properties
  // ---------------------------------------------------------------------

  /** The scan here fires and fails exactly as the decoder's line scan does. */
  lemma {:induction false} ScanAgrees<J>(lines: seq<string>, event: string, acc: seq<Callback<J>>,
                                         parse: string -> Result<J, string>, flush: bool)
    ensures var s := ScanLines(lines, event, acc, parse, flush);
      Dispatch(lines, event, acc, parse, flush) == Outcome(s.fired, s.thrown)
    decreases |lines|
  {
    if lines != [] {
      var line := lines[0];
      if StartsWith(line, EventPrefix) {
        ScanAgrees(lines[1..], line[|EventPrefix|..], acc, parse, flush);
      } else if StartsWith(line, DataPrefix) {
        match parse(line[|DataPrefix|..])
        case Err(m) =>
        case Ok(d) => ScanAgrees(lines[1..], "", acc + Route(event, d, flush), parse, flush);
      } else {
        ScanAgrees(lines[1..], event, acc, parse, flush);
      }
    }
  }

  /** Scanning two runs of lines is scanning the first, then the second from where
      the first left off, unless the first failed. */
  lemma {:induction false} ScanAppend<J>(xs: seq<string>, ys: seq<string>, event: string, acc: seq<Callback<J>>,
                                         parse: string -> Result<J, string>, flush: bool)
    ensures var s := ScanLines(xs, event, acc, parse, flush);
      ScanLines(xs + ys, event, acc, parse, flush)
        == if s.thrown.Some? then s else ScanLines(ys, s.event, s.fired, parse, flush)
    decreases |xs|
  {
    if xs == [] {
      assert xs + ys == ys;
    } else {
      var line := xs[0];
      assert (xs + ys)[0] == line && (xs + ys)[1..] == xs[1..] + ys;
      if StartsWith(line, EventPrefix) {
        ScanAppend(xs[1..], ys, line[|EventPrefix|..], acc, parse, flush);
      } else if StartsWith(line, DataPrefix) {
        match parse(line[|DataPrefix|..])
        case Err(m) =>
        case Ok(d) => ScanAppend(xs[1..], ys, "", acc + Route(event, d, flush), parse, flush);
      } else {
        ScanAppend(xs[1..], ys, event, acc, parse, flush);
      }
    }
  }

  /** The complete lines of a longer text: those of the first part, then those of
      its carry followed by the rest. */
  lemma LinesOfConcat(x: string, y: string)
    ensures CompleteLines(x + y) == CompleteLines(x) + CompleteLines(Carry(x) + y)
    ensures Carry(x + y) == Carry(Carry(x) + y)
  {
    SplitConcat(x, y, '\n');
    var p := Split(x, '\n');
    var q := Split(Carry(x) + y, '\n');
    assert Split(x + y, '\n') == AllButLast(p) + q;
    PartsOfConcat(AllButLast(p), q);
  }

  lemma PartsOfConcat(a: seq<string>, q: seq<string>)
    requires q != []
    ensures AllButLast(a + q) == a + AllButLast(q) && Last(a + q) == Last(q)
  {
    assert (a + q)[..|a| + |q| - 1] == a + q[..|q| - 1];
  }

  /** Reading the chunks one by one ends exactly as reading them all at once:
      same callbacks, same failure, and, when nothing failed, the same name and
      carry-over. */
  lemma {:induction false} ReadsAsOne<J>(buffer: string, event: string, chunks: seq<string>,
                                         acc: seq<Callback<J>>, parse: string -> Result<J, string>)
    requires '\n' !in buffer
    ensures var r := CarriedReadLoop(buffer, event, chunks, acc, parse);
      var o := OneRead(buffer, event, Concat(chunks), acc, parse);
      r.fired == o.fired && r.thrown == o.thrown && (o.thrown.None? ==> r == o)
    decreases |chunks|
  {
    if chunks == [] {
      SplitNoSeparator(buffer, '\n');
      assert buffer + [] == buffer;
    } else {
      var c := chunks[0];
      var rest := Concat(chunks[1..]);
      var text := buffer + c;
      assert buffer + Concat(chunks) == text + rest;
      LinesOfConcat(text, rest);
      ScanAppend(CompleteLines(text), CompleteLines(Carry(text) + rest), event, acc, parse, false);
      var s := ScanLines(CompleteLines(text), event, acc, parse, false);
      if s.thrown.None? {
        ReadSplitsAtLastNewline(text);
        ReadsAsOne(Carry(text), s.event, chunks[1..], s.fired, parse);
      }
    }
  }

  /** The corrected decoder's callbacks depend only on the text of the stream,
      not on where the reads split it. */
  lemma ChunkingIrrelevant<J>(fetched: Fetched, chunks: seq<string>, end: StreamEnd,
                              parse: string -> Result<J, string>)
    ensures CarriedTrace(fetched, chunks, end, parse) == CarriedTrace(fetched, [Concat(chunks)], end, parse)
  {
    ReadsAsOne("", "", chunks, [], parse);
    ReadsAsOne("", "", [Concat(chunks)], [], parse);
    assert Concat([Concat(chunks)]) == Concat(chunks) + [];
  }

  /** Within a single read the correction changes nothing: the name is reset only
      between reads. */
  lemma SingleReadUnchanged<J>(buffer: string, chunk: string, acc: seq<Callback<J>>,
                               parse: string -> Result<J, string>)
    ensures var r := CarriedReadLoop(buffer, "", [chunk], acc, parse);
      var w := ReadLoop(buffer, [chunk], acc, parse);
      r.fired == w.fired && r.thrown == w.thrown && r.buffer == w.buffer
  {
    ScanAgrees(CompleteLines(buffer + chunk), "", acc, parse, false);
    assert [chunk][1..] == [];
  }

  /** The read split from the as-written decoder: the corrected one keeps the event. */
  lemma CarriedPairInTwoReads<J>(name: string, payload: string, parse: string -> Result<J, string>)
    requires '\n' !in name && '\n' !in payload && parse(payload).Ok?
    ensures CarriedReadLoop("", "", [EventPrefix + name + "\n", DataPrefix + payload + "\n"], [], parse).fired
         == Route(name, parse(payload).value, false)
  {
    var a, b := EventPrefix + name + "\n", DataPrefix + payload + "\n";
    ReadsAsOne("", "", [a, b], [], parse);
    ReadsAsOne("", "", [a + b], [], parse);
    ConcatPair(a, b);
    assert EventPrefix + name + "\n" + DataPrefix + payload + "\n" == a + b;
    StreamRoundTrip.PairInOneRead(name, payload, parse);
    SingleReadUnchanged("", a + b, [], parse);
  }

  lemma ConcatPair(a: string, b: string)
    ensures Concat([a, b]) == a + b && Concat([a + b]) == a + b
  {
    assert [b][1..] == [] && [a + b][1..] == [];
    assert Concat([b]) == b + [];
    assert [a, b][1..] == [b];
  }
}
