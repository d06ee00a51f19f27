/** The browser-side decoder of the answer stream (`queryKnowledgeStream`).

    The response body arrives as a sequence of text chunks (one per
    `reader.read()`). A carry-over buffer keeps the text after the last
    newline; every complete line is scanned: `event: <name>` remembers a name,
    `data: <json>` parses the payload and fires the callback for the
    remembered name, then forgets it. The remembered name is reset to `""` at
    the start of every read. After the end of the stream a non-blank
    leftover buffer is scanned once more, without the metadata branch. Any
    failure (non-OK status, rejected fetch or read, malformed payload) ends
    processing and reaches `onError` unless its name is `AbortError`.

    Callbacks are recorded as a trace instead of being invoked. JSON parsing
    is the parameter `parse`; the `onDelta` entry carries the whole parsed
    payload, and the chat window reads its `content` member when it is
    delivered. */
module StreamDecoder {
  import opened Text

  datatype Failure = Failure(name: string, message: string)

  datatype Callback<J> = OnMetadata(data: J) | OnDelta(data: J) | OnDone | OnError(error: Failure)

  /** What `fetch` produced: a response with its status, or a rejection. */
  datatype Fetched = Responded(ok: bool, status: nat, statusText: string) | FetchRejected(reason: Failure)

  /** How the sequence of reads ended: `done: true`, or a rejected read. */
  datatype StreamEnd = EndOfStream | ReadRejected(reason: Failure)

  /** Callbacks fired so far, and the failure that stopped the scan, if any. */
  datatype Outcome<J> = Outcome(fired: seq<Callback<J>>, thrown: Option<Failure>)

  /** The state after a run of reads: the outcome plus the carried partial line. */
  datatype ReadState<J> = ReadState(fired: seq<Callback<J>>, thrown: Option<Failure>, buffer: string)

  const EventPrefix := "event: "
  const DataPrefix := "data: "

  function HttpFailure(status: nat, statusText: string): Failure
  {
    Failure("Error", "HTTP " + NatToString(status) + ": " + statusText)
  }

  function ParseFailure(message: string): Failure
  {
    Failure("SyntaxError", message)
  }

  predicate IsAbort(f: Failure)
  {
    f.name == "AbortError"
  }

  // ---------------------------------------------------------------------
  // Specification
  // ---------------------------------------------------------------------

  /** The callback a `data:` line fires for the remembered event name. During the
      final flush the source has no metadata branch. */
  function Route<J>(event: string, data: J, flush: bool): (r: seq<Callback<J>>)
    ensures |r| <= 1
    ensures forall k :: 0 <= k < |r| ==> !r[k].OnError?
    ensures r != [] <==> (event == "delta" || event == "done" || (event == "metadata" && !flush))
  {
    if event == "metadata" && !flush then [OnMetadata(data)]
    else if event == "delta" then [OnDelta(data)]
    else if event == "done" then [OnDone]
    else []
  }

  /** Scan of complete lines with the remembered event name `event`, appending to `acc`. */
  function Dispatch<J>(lines: seq<string>, event: string, acc: seq<Callback<J>>,
                       parse: string -> Result<J, string>, flush: bool): Outcome<J>
    decreases |lines|
  {
    if lines == [] then Outcome(acc, None)
    else
      var line := lines[0];
      if StartsWith(line, EventPrefix) then
        Dispatch(lines[1..], line[|EventPrefix|..], acc, parse, flush)
      else if StartsWith(line, DataPrefix) then
        match parse(line[|DataPrefix|..])
        case Err(m) => Outcome(acc, Some(ParseFailure(m)))
        case Ok(d) => Dispatch(lines[1..], "", acc + Route(event, d, flush), parse, flush)
      else
        Dispatch(lines[1..], event, acc, parse, flush)
  }

  /** One read: the complete lines of buffer + chunk, and the carried last piece. */
  function CompleteLines(text: string): seq<string>
  {
    AllButLast(Split(text, '\n'))
  }

  function Carry(text: string): string
  {
    Last(Split(text, '\n'))
  }

  function AllButLast(lines: seq<string>): seq<string>
    requires lines != []
  {
    lines[..|lines| - 1]
  }

  function Last(lines: seq<string>): string
    requires lines != []
  {
    lines[|lines| - 1]
  }

  /** The read loop: each chunk is appended to the buffer and its complete lines
      are scanned with the event name reset to `""`. */
  function ReadLoop<J>(buffer: string, chunks: seq<string>, acc: seq<Callback<J>>,
                       parse: string -> Result<J, string>): ReadState<J>
    decreases |chunks|
  {
    if chunks == [] then ReadState(acc, None, buffer)
    else
      var text := buffer + chunks[0];
      var o := Dispatch(CompleteLines(text), "", acc, parse, false);
      if o.thrown.Some? then ReadState(o.fired, o.thrown, Carry(text))
      else ReadLoop(Carry(text), chunks[1..], o.fired, parse)
  }

  /** The scan of the leftover buffer after the end of the stream. */
  function Flush<J>(buffer: string, acc: seq<Callback<J>>, parse: string -> Result<J, string>): Outcome<J>
  {
    if IsBlank(buffer, JsIsSpace) then Outcome(acc, None)
    else Dispatch(Split(buffer, '\n'), "", acc, parse, true)
  }

  /** The catch block: a failure other than an abort reaches `onError`. */
  function Settle<J>(fired: seq<Callback<J>>, thrown: Option<Failure>): seq<Callback<J>>
  {
    match thrown
    case None => fired
    case Some(f) => if IsAbort(f) then fired else fired + [OnError(f)]
  }

  /** Every callback `queryKnowledgeStream` fires, in order. */
  function Trace<J>(fetched: Fetched, chunks: seq<string>, end: StreamEnd,
                    parse: string -> Result<J, string>): seq<Callback<J>>
  {
    match fetched
    case FetchRejected(f) => Settle([], Some(f))
    case Responded(ok, status, statusText) =>
      if !ok then Settle([], Some(HttpFailure(status, statusText)))
      else
        var r := ReadLoop("", chunks, [], parse);
        if r.thrown.Some? then Settle(r.fired, r.thrown)
        else match end
          case ReadRejected(f) => Settle(r.fired, Some(f))
          case EndOfStream =>
            var o := Flush(r.buffer, r.fired, parse);
            Settle(o.fired, o.thrown)
  }

  // ---------------------------------------------------------------------
  // Implementation
  // ---------------------------------------------------------------------

  /** The `for (const line of lines)` loop, shared by the read loop (`flush` false)
      and the leftover scan (`flush` true, which has no metadata branch). */
  method ProcessLines<J>(lines: seq<string>, flush: bool, parse: string -> Result<J, string>,
                         fired0: seq<Callback<J>>) returns (fired: seq<Callback<J>>, thrown: Option<Failure>)
    ensures Outcome(fired, thrown) == Dispatch(lines, "", fired0, parse, flush)
  {
    fired, thrown := fired0, None;
    var currentEvent := "";
    var j := 0;
    while j < |lines| && thrown.None?
      invariant 0 <= j <= |lines|
      invariant thrown.None? ==> Dispatch(lines[j..], currentEvent, fired, parse, flush) == Dispatch(lines, "", fired0, parse, flush)
      invariant thrown.Some? ==> Outcome(fired, thrown) == Dispatch(lines, "", fired0, parse, flush)
    {
      var line := lines[j];
      assert lines[j..][0] == line && lines[j..][1..] == lines[j + 1..];
      assert |EventPrefix| == 7 && |DataPrefix| == 6;
      if StartsWith(line, EventPrefix) {
        currentEvent := line[7..];
      } else if StartsWith(line, DataPrefix) {
        var data := parse(line[6..]);
        if data.Err? {
          thrown := Some(ParseFailure(data.error));
        } else {
          ghost var before := fired;
          if currentEvent == "metadata" && !flush {
            fired := fired + [OnMetadata(data.value)];
          } else if currentEvent == "delta" {
            fired := fired + [OnDelta(data.value)];
          } else if currentEvent == "done" {
            fired := fired + [OnDone];
          }
          assert fired == before + Route(currentEvent, data.value, flush);
          currentEvent := "";
        }
      }
      j := j + 1;
    }
    if thrown.None? {
      assert lines[j..] == [];
    }
  }

  /** The `while (true)` read loop: each chunk is appended to the buffer, the
      buffer is split at newlines, the last piece is kept and the others are
      scanned; it stops at the end of the chunks or at the first failure. */
  method ReadChunks<J>(chunks: seq<string>, parse: string -> Result<J, string>) returns (read: ReadState<J>)
    ensures read == ReadLoop("", chunks, [], parse)
  {
    var buffer := "";
    var trace: seq<Callback<J>> := [];
    var thrown: Option<Failure> := None;
    var i := 0;
    while i < |chunks| && thrown.None?
      invariant 0 <= i <= |chunks|
      invariant thrown.None? ==> ReadLoop(buffer, chunks[i..], trace, parse) == ReadLoop("", chunks, [], parse)
      invariant thrown.Some? ==> ReadState(trace, thrown, buffer) == ReadLoop("", chunks, [], parse)
    {
      assert chunks[i..][0] == chunks[i] && chunks[i..][1..] == chunks[i + 1..];
      var lines := Split(buffer + chunks[i], '\n');
      buffer := Last(lines);
      trace, thrown := ProcessLines(AllButLast(lines), false, parse, trace);
      i := i + 1;
    }
    if thrown.None? {
      assert chunks[i..] == [];
    }
    read := ReadState(trace, thrown, buffer);
  }

  /** `queryKnowledgeStream`: the fetch, the read loop, the leftover scan and the catch block. */
  method QueryKnowledgeStream<J>(fetched: Fetched, chunks: seq<string>, end: StreamEnd,
                                 parse: string -> Result<J, string>) returns (trace: seq<Callback<J>>)
    ensures trace == Trace(fetched, chunks, end, parse)
  {
    var thrown: Option<Failure> := None;
    trace := [];
    if fetched.FetchRejected? {
      thrown := Some(fetched.reason);
    } else if !fetched.ok {
      thrown := Some(HttpFailure(fetched.status, fetched.statusText));
    } else {
      var read := ReadChunks(chunks, parse);
      trace, thrown := read.fired, read.thrown;
      if thrown.None? {
        if end.ReadRejected? {
          thrown := Some(end.reason);
        } else if !IsBlank(read.buffer, JsIsSpace) {
          var lines := Split(read.buffer, '\n');
          trace, thrown := ProcessLines(lines, true, parse, trace);
        }
      }
    }
    if thrown.Some? && !IsAbort(thrown.value) {
      trace := trace + [OnError(thrown.value)];
    }
  }

  // ---------------------------------------------------------------------
  // Properties
  // ---------------------------------------------------------------------

  /** Only text up to the last newline is scanned: the scanned lines, a newline and
      the carry make up exactly the accumulated text, and the carry holds no newline. */
  lemma ReadSplitsAtLastNewline(text: string)
    ensures '\n' !in Carry(text)
    ensures CompleteLines(text) == [] ==> text == Carry(text)
    ensures CompleteLines(text) != [] ==> text == Join(CompleteLines(text), '\n') + "\n" + Carry(text)
    ensures forall k :: 0 <= k < |CompleteLines(text)| ==> '\n' !in CompleteLines(text)[k]
  {
    LastPart(Split(text, '\n'), '\n');
  }

  /** The parts of a split, cut before the last one. */
  lemma LastPart(lines: seq<string>, sep: char)
    requires |lines| >= 1 && forall k :: 0 <= k < |lines| ==> sep !in lines[k]
    ensures sep !in Last(lines)
    ensures AllButLast(lines) == [] ==> Join(lines, sep) == Last(lines)
    ensures AllButLast(lines) != [] ==> Join(lines, sep) == Join(AllButLast(lines), sep) + [sep] + Last(lines)
    ensures forall k :: 0 <= k < |AllButLast(lines)| ==> sep !in AllButLast(lines)[k]
  {
    var init, last := AllButLast(lines), Last(lines);
    assert lines == init + [last];
    if init != [] {
      JoinSnoc(init, last, sep);
    }
  }

  /** Between reads the buffer never holds a newline. */
  lemma {:induction false} CarriedBufferHasNoNewline<J>(buffer: string, chunks: seq<string>, acc: seq<Callback<J>>,
                                                       parse: string -> Result<J, string>)
    requires '\n' !in buffer
    ensures '\n' !in ReadLoop(buffer, chunks, acc, parse).buffer
    decreases |chunks|
  {
    if chunks != [] {
      var text := buffer + chunks[0];
      ReadSplitsAtLastNewline(text);
      CarriedBufferHasNoNewline(Carry(text), chunks[1..], Dispatch(CompleteLines(text), "", acc, parse, false).fired, parse);
    }
  }

  /** One read that scans without failing hands its carry and callbacks to the next. */
  lemma ReadStep<J>(buffer: string, chunk: string, rest: seq<string>, acc: seq<Callback<J>>,
                    fired: seq<Callback<J>>, parse: string -> Result<J, string>)
    requires Dispatch(CompleteLines(buffer + chunk), "", acc, parse, false) == Outcome(fired, None)
    ensures ReadLoop(buffer, [chunk] + rest, acc, parse) == ReadLoop(Carry(buffer + chunk), rest, fired, parse)
  {
    assert ([chunk] + rest)[0] == chunk && ([chunk] + rest)[1..] == rest;
  }

  /** How the two prefixes tell lines apart. */
  lemma PrefixFacts(x: string)
    ensures |EventPrefix| == 7 && |DataPrefix| == 6
    ensures StartsWith(EventPrefix + x, EventPrefix) && (EventPrefix + x)[7..] == x
    ensures StartsWith(DataPrefix + x, DataPrefix) && (DataPrefix + x)[6..] == x
    ensures !StartsWith(DataPrefix + x, EventPrefix)
  {
    assert (EventPrefix + x)[..7] == EventPrefix;
    assert (DataPrefix + x)[..6] == DataPrefix;
    if |DataPrefix + x| >= 7 {
      assert (DataPrefix + x)[..7][0] == 'd';
      assert EventPrefix[0] == 'e';
    }
  }

  /** An `event:` line followed by a `data:` line fires the callback of that name
      (nothing for any other name) and forgets the name. */
  lemma EventDataPair<J>(name: string, payload: string, rest: seq<string>, event: string,
                         acc: seq<Callback<J>>, parse: string -> Result<J, string>, flush: bool)
    requires parse(payload).Ok?
    ensures Dispatch([EventPrefix + name, DataPrefix + payload] + rest, event, acc, parse, flush)
         == Dispatch(rest, "", acc + Route(name, parse(payload).value, flush), parse, flush)
  {
    var lines := [EventPrefix + name, DataPrefix + payload] + rest;
    PrefixFacts(name);
    PrefixFacts(payload);
    assert lines[1..] == [DataPrefix + payload] + rest;
    assert lines[1..][1..] == rest;
  }

  /** A `data:` line with no remembered name fires nothing. */
  lemma DataWithoutEvent<J>(payload: string, rest: seq<string>, acc: seq<Callback<J>>,
                            parse: string -> Result<J, string>, flush: bool)
    requires parse(payload).Ok?
    ensures Dispatch([DataPrefix + payload] + rest, "", acc, parse, flush) == Dispatch(rest, "", acc, parse, flush)
  {
    var lines := [DataPrefix + payload] + rest;
    PrefixFacts(payload);
    assert lines[1..] == rest;
    assert acc + Route("", parse(payload).value, flush) == acc;
  }

  /** The scan never fires `onError` itself and only ever appends. */
  lemma {:induction false} DispatchAppends<J>(lines: seq<string>, event: string, acc: seq<Callback<J>>,
                                              parse: string -> Result<J, string>, flush: bool)
    ensures var o := Dispatch(lines, event, acc, parse, flush);
      |acc| <= |o.fired| && o.fired[..|acc|] == acc
      && forall k :: |acc| <= k < |o.fired| ==> !o.fired[k].OnError?
    decreases |lines|
  {
    if lines != [] {
      var line := lines[0];
      if StartsWith(line, EventPrefix) {
        DispatchAppends(lines[1..], line[|EventPrefix|..], acc, parse, flush);
      } else if StartsWith(line, DataPrefix) {
        match parse(line[|DataPrefix|..])
        case Err(m) =>
        case Ok(d) =>
          var acc' := acc + Route(event, d, flush);
          DispatchAppends(lines[1..], "", acc', parse, flush);
          var o := Dispatch(lines[1..], "", acc', parse, flush);
          assert o.fired[..|acc'|] == acc';
          assert o.fired[..|acc|] == acc'[..|acc|];
      } else {
        DispatchAppends(lines[1..], event, acc, parse, flush);
      }
    }
  }

  /** A scan that does not throw fires only on complete event/data pairs; with no
      remembered name, the single leftover line can fire nothing. */
  lemma FlushFiresNothing<J>(buffer: string, acc: seq<Callback<J>>, parse: string -> Result<J, string>)
    requires '\n' !in buffer
    ensures Flush(buffer, acc, parse).fired == acc
    ensures Flush(buffer, acc, parse).thrown.Some? <==>
      !IsBlank(buffer, JsIsSpace) && StartsWith(buffer, DataPrefix) && !StartsWith(buffer, EventPrefix)
      && parse(buffer[|DataPrefix|..]).Err?
  {
    if !IsBlank(buffer, JsIsSpace) {
      SplitNoSeparator(buffer, '\n');
      var lines := [buffer];
      assert lines[0] == buffer && lines[1..] == [];
      assert Flush(buffer, acc, parse) == Dispatch(lines, "", acc, parse, true);
      if StartsWith(buffer, EventPrefix) {
        assert !StartsWith(buffer, DataPrefix) by {
          assert buffer[0] == EventPrefix[0];
        }
        assert Dispatch(lines, "", acc, parse, true) == Dispatch([], buffer[7..], acc, parse, true);
      } else if StartsWith(buffer, DataPrefix) {
        match parse(buffer[|DataPrefix|..])
        case Err(m) =>
        case Ok(d) =>
          assert acc + Route("", d, true) == acc;
          assert Dispatch(lines, "", acc, parse, true) == Dispatch([], "", acc, parse, true);
      }
    }
  }

  /** Callbacks already fired stay fired: the read loop only appends. */
  lemma {:induction false} ReadLoopAppends<J>(buffer: string, chunks: seq<string>, acc: seq<Callback<J>>,
                                             parse: string -> Result<J, string>)
    ensures var r := ReadLoop(buffer, chunks, acc, parse);
      |acc| <= |r.fired| && r.fired[..|acc|] == acc
      && forall k :: |acc| <= k < |r.fired| ==> !r.fired[k].OnError?
    decreases |chunks|
  {
    if chunks != [] {
      var text := buffer + chunks[0];
      DispatchAppends(CompleteLines(text), "", acc, parse, false);
      var o := Dispatch(CompleteLines(text), "", acc, parse, false);
      if o.thrown.None? {
        ReadLoopAppends(Carry(text), chunks[1..], o.fired, parse);
        AppendsChain(acc, o.fired, ReadLoop(Carry(text), chunks[1..], o.fired, parse).fired);
      }
    }
  }

  /** Appending callbacks that are not errors, twice over. */
  lemma AppendsChain<J>(acc: seq<Callback<J>>, mid: seq<Callback<J>>, fin: seq<Callback<J>>)
    requires |acc| <= |mid| && mid[..|acc|] == acc && forall k :: |acc| <= k < |mid| ==> !mid[k].OnError?
    requires |mid| <= |fin| && fin[..|mid|] == mid && forall k :: |mid| <= k < |fin| ==> !fin[k].OnError?
    ensures |acc| <= |fin| && fin[..|acc|] == acc && forall k :: |acc| <= k < |fin| ==> !fin[k].OnError?
  {
    assert fin[..|acc|] == fin[..|mid|][..|acc|];
    forall k | |acc| <= k < |mid|
      ensures fin[k] == mid[k]
    {
      assert fin[k] == fin[..|mid|][k];
    }
  }

  /** Reading more chunks only extends what was fired: the callbacks fired while
      reading a prefix of the chunks are a prefix of those fired for all of them. */
  lemma {:induction false} ReadLoopPrefix<J>(buffer: string, chunks: seq<string>, n: nat, acc: seq<Callback<J>>,
                                            parse: string -> Result<J, string>)
    requires n <= |chunks|
    ensures var p := ReadLoop(buffer, chunks[..n], acc, parse);
      var r := ReadLoop(buffer, chunks, acc, parse);
      |p.fired| <= |r.fired| && r.fired[..|p.fired|] == p.fired
    decreases n
  {
    if n == 0 {
      ReadLoopAppends(buffer, chunks, acc, parse);
    } else {
      var text := buffer + chunks[0];
      assert chunks[..n][0] == chunks[0];
      assert chunks[..n][1..] == chunks[1..][..n - 1];
      var o := Dispatch(CompleteLines(text), "", acc, parse, false);
      var p := ReadLoop(buffer, chunks[..n], acc, parse);
      var r := ReadLoop(buffer, chunks, acc, parse);
      if o.thrown.Some? {
        assert p == r;
      } else {
        ReadLoopPrefix(Carry(text), chunks[1..], n - 1, o.fired, parse);
        assert p == ReadLoop(Carry(text), chunks[1..][..n - 1], o.fired, parse);
        assert r == ReadLoop(Carry(text), chunks[1..], o.fired, parse);
      }
    }
  }

  /** `onError` fires at most once, only as the very last callback, and never for an abort. */
  lemma ErrorIsLastAndNeverAbort<J>(fetched: Fetched, chunks: seq<string>, end: StreamEnd,
                                    parse: string -> Result<J, string>)
    ensures var t := Trace(fetched, chunks, end, parse);
      forall k :: 0 <= k < |t| && t[k].OnError? ==> k == |t| - 1 && !IsAbort(t[k].error)
  {
    match fetched
    case FetchRejected(f) => SettleErrorLast<J>([], Some(f));
    case Responded(ok, status, statusText) =>
      if !ok {
        SettleErrorLast<J>([], Some(HttpFailure(status, statusText)));
      } else {
        ReadLoopAppends("", chunks, [], parse);
        var r := ReadLoop("", chunks, [], parse);
        ErrorFreeExtended<J>([], r.fired);
        if r.thrown.Some? {
          SettleErrorLast(r.fired, r.thrown);
        } else if end.ReadRejected? {
          SettleErrorLast(r.fired, Some(end.reason));
        } else {
          var o := Flush(r.buffer, r.fired, parse);
          if !IsBlank(r.buffer, JsIsSpace) {
            DispatchAppends(Split(r.buffer, '\n'), "", r.fired, parse, true);
            ErrorFreeExtended(r.fired, o.fired);
          }
          SettleErrorLast(o.fired, o.thrown);
        }
      }
  }

  predicate ErrorFree<J>(fired: seq<Callback<J>>)
  {
    forall k :: 0 <= k < |fired| ==> !fired[k].OnError?
  }

  /** Error-free callbacks followed by more error-free ones. */
  lemma ErrorFreeExtended<J>(acc: seq<Callback<J>>, fired: seq<Callback<J>>)
    requires ErrorFree(acc) && |acc| <= |fired| && fired[..|acc|] == acc
    requires forall k :: |acc| <= k < |fired| ==> !fired[k].OnError?
    ensures ErrorFree(fired)
  {
    forall k | 0 <= k < |acc|
      ensures fired[k] == acc[k]
    {
      assert fired[k] == fired[..|acc|][k];
    }
  }

  /** The catch block adds at most one error, at the end, and never an abort. */
  lemma SettleErrorLast<J>(fired: seq<Callback<J>>, thrown: Option<Failure>)
    requires ErrorFree(fired)
    ensures var t := Settle(fired, thrown);
      forall k :: 0 <= k < |t| && t[k].OnError? ==> k == |t| - 1 && !IsAbort(t[k].error)
  {
  }

  /** A non-OK status fires `onError` once and nothing else. */
  lemma HttpErrorOnly<J>(status: nat, statusText: string, chunks: seq<string>, end: StreamEnd,
                         parse: string -> Result<J, string>)
    ensures Trace(Responded(false, status, statusText), chunks, end, parse) == [OnError(HttpFailure(status, statusText))]
  {
  }

  /** An abort, of the fetch or of a read, never reaches `onError`: when nothing
      else failed, the trace holds no error at all. */
  lemma AbortIsSilent<J>(fetched: Fetched, chunks: seq<string>, reason: Failure,
                         parse: string -> Result<J, string>)
    requires IsAbort(reason)
    requires fetched == FetchRejected(reason) || (fetched.Responded? && fetched.ok)
    requires ReadLoop("", chunks, [], parse).thrown.None?
    ensures forall k :: 0 <= k < |Trace(fetched, chunks, ReadRejected(reason), parse)| ==>
      !Trace(fetched, chunks, ReadRejected(reason), parse)[k].OnError?
  {
    if fetched.Responded? {
      ReadLoopAppends("", chunks, [], parse);
    }
  }
}
