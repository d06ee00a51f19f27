/** What the browser's decoder makes of the frames the server writes.

    The server frames every event as `event: <name>\ndata: <json>\n\n`. When
    every read delivers whole frames, the decoder fires one callback per frame,
    in frame order. When a read ends between an `event:` line and its `data:`
    line, the event is lost, because the decoder forgets the event name at the
    start of every read. */
module StreamRoundTrip {
  import opened Text
  import opened StreamDecoder
  import QueryApi
  import PromptBuilder

  type Frame = QueryApi.Frame

  /** The complete lines a run of frames puts on the wire. */
  function FrameLines(frames: seq<Frame>): seq<string>
  {
    if frames == [] then []
    else [EventPrefix + frames[0].event, DataPrefix + frames[0].data, ""] + FrameLines(frames[1..])
  }

  /** A frame the decoder can take apart: no newline inside its name or its data. */
  predicate WellFramed(f: Frame)
  {
    '\n' !in f.event && '\n' !in f.data
  }

  /** The callbacks the frames call for, one per frame with a known name. */
  function FrameCallbacks<J>(frames: seq<Frame>, parse: string -> Result<J, string>): seq<Callback<J>>
    requires forall k :: 0 <= k < |frames| ==> parse(frames[k].data).Ok?
  {
    if frames == [] then []
    else Route(frames[0].event, parse(frames[0].data).value, false) + FrameCallbacks(frames[1..], parse)
  }

  lemma {:induction false} WireLines(frames: seq<Frame>)
    requires forall k :: 0 <= k < |frames| ==> WellFramed(frames[k])
    ensures Split(QueryApi.Wire(frames), '\n') == FrameLines(frames) + [""]
  {
    if frames != [] {
      var f := frames[0];
      var w := QueryApi.Wire(frames[1..]);
      WireLines(frames[1..]);
      var a := EventPrefix + f.event;
      var b := DataPrefix + f.data;
      FrameHeadLines(f);
      WireCons(frames);
      SplitFrame(a, b, w);
      Associative([a, b, ""], FrameLines(frames[1..]), [""]);
    }
  }

  /** Neither line of a well-framed frame holds a newline. */
  lemma FrameHeadLines(f: Frame)
    requires WellFramed(f)
    ensures '\n' !in EventPrefix + f.event && '\n' !in DataPrefix + f.data
  {
    assert forall c :: c in EventPrefix + f.event ==> c in EventPrefix || c in f.event;
    assert forall c :: c in DataPrefix + f.data ==> c in DataPrefix || c in f.data;
  }

  lemma WireCons(frames: seq<Frame>)
    requires frames != []
    ensures QueryApi.Wire(frames)
         == (EventPrefix + frames[0].event) + ['\n']
            + ((DataPrefix + frames[0].data) + ['\n'] + ([] + ['\n'] + QueryApi.Wire(frames[1..])))
  {
    var f := frames[0];
    FrameTextLines(f);
    Regroup(EventPrefix + f.event, DataPrefix + f.data, QueryApi.Wire(frames[1..]), '\n');
  }

  lemma FrameTextLines(f: Frame)
    ensures QueryApi.FrameText(f) == (EventPrefix + f.event) + ['\n'] + (DataPrefix + f.data) + ['\n'] + ['\n']
  {
    var a := EventPrefix + f.event;
    assert "\n\n" == ['\n'] + ['\n'];
    Associative(a + "\n", DataPrefix, f.data);
  }

  lemma Regroup<T>(a: seq<T>, b: seq<T>, w: seq<T>, n: T)
    ensures a + [n] + b + [n] + [n] + w == a + [n] + (b + [n] + ([] + [n] + w))
  {
  }

  /** The three lines of one frame, split off the front of the wire. */
  lemma SplitFrame(a: string, b: string, w: string)
    requires '\n' !in a && '\n' !in b
    ensures Split(a + ['\n'] + (b + ['\n'] + ([] + ['\n'] + w)), '\n') == [a, b, ""] + Split(w, '\n')
  {
    SplitAfterPiece(a, b + ['\n'] + ([] + ['\n'] + w), '\n');
    SplitAfterPiece(b, [] + ['\n'] + w, '\n');
    SplitAfterPiece([], w, '\n');
  }

  lemma {:induction false} DispatchFrames<J>(frames: seq<Frame>, event: string, acc: seq<Callback<J>>,
                                             parse: string -> Result<J, string>)
    requires forall k :: 0 <= k < |frames| ==> parse(frames[k].data).Ok?
    ensures Dispatch(FrameLines(frames), event, acc, parse, false) == Outcome(acc + FrameCallbacks(frames, parse), None)
  {
    if frames != [] {
      var f := frames[0];
      DispatchFrames(frames[1..], "", acc + Route(f.event, parse(f.data).value, false), parse);
      DispatchFrame(frames, event, acc, parse);
    }
  }

  /** The step of `DispatchFrames`: the first frame's two lines and the blank
      line after them, then the rest as the induction hypothesis gives it. */
  lemma DispatchFrame<J>(frames: seq<Frame>, event: string, acc: seq<Callback<J>>,
                         parse: string -> Result<J, string>)
    requires frames != [] && forall k :: 0 <= k < |frames| ==> parse(frames[k].data).Ok?
    requires var acc' := acc + Route(frames[0].event, parse(frames[0].data).value, false);
      Dispatch(FrameLines(frames[1..]), "", acc', parse, false)
        == Outcome(acc' + FrameCallbacks(frames[1..], parse), None)
    ensures Dispatch(FrameLines(frames), event, acc, parse, false) == Outcome(acc + FrameCallbacks(frames, parse), None)
  {
    var f := frames[0];
    var lines := FrameLines(frames[1..]);
    assert FrameLines(frames) == [EventPrefix + f.event, DataPrefix + f.data] + ([""] + lines);
    EventDataPair(f.event, f.data, [""] + lines, event, acc, parse, false);
    var route := Route(f.event, parse(f.data).value, false);
    BlankLineSkipped(lines, "", acc + route, parse);
    Associative(acc, route, FrameCallbacks(frames[1..], parse));
  }

  lemma BlankLineSkipped<J>(lines: seq<string>, event: string, acc: seq<Callback<J>>,
                            parse: string -> Result<J, string>)
    ensures Dispatch([""] + lines, event, acc, parse, false) == Dispatch(lines, event, acc, parse, false)
  {
    assert ([""] + lines)[1..] == lines;
  }

  /** One read of whole frames fires their callbacks and carries nothing over. */
  lemma WholeFramesRead<J>(frames: seq<Frame>, acc: seq<Callback<J>>, parse: string -> Result<J, string>)
    requires forall k :: 0 <= k < |frames| ==> WellFramed(frames[k]) && parse(frames[k].data).Ok?
    ensures CompleteLines(QueryApi.Wire(frames)) == FrameLines(frames)
    ensures Carry(QueryApi.Wire(frames)) == ""
    ensures Dispatch(CompleteLines(QueryApi.Wire(frames)), "", acc, parse, false) == Outcome(acc + FrameCallbacks(frames, parse), None)
  {
    WireLines(frames);
    DispatchFrames(frames, "", acc, parse);
  }

  function Flatten<T>(batches: seq<seq<T>>): seq<T>
  {
    if batches == [] then [] else batches[0] + Flatten(batches[1..])
  }

  function Wires(batches: seq<seq<Frame>>): (chunks: seq<string>)
    ensures |chunks| == |batches|
    ensures forall k :: 0 <= k < |batches| ==> chunks[k] == QueryApi.Wire(batches[k])
  {
    seq(|batches|, k requires 0 <= k < |batches| => QueryApi.Wire(batches[k]))
  }

  lemma {:induction false} FrameCallbacksAppend<J>(xs: seq<Frame>, ys: seq<Frame>, parse: string -> Result<J, string>)
    requires forall k :: 0 <= k < |xs| ==> parse(xs[k].data).Ok?
    requires forall k :: 0 <= k < |ys| ==> parse(ys[k].data).Ok?
    ensures forall k :: 0 <= k < |xs + ys| ==> parse((xs + ys)[k].data).Ok?
    ensures FrameCallbacks(xs + ys, parse) == FrameCallbacks(xs, parse) + FrameCallbacks(ys, parse)
  {
    if xs == [] {
      assert xs + ys == ys;
    } else {
      var zs := xs + ys;
      assert zs[0] == xs[0] && zs[1..] == xs[1..] + ys;
      FrameCallbacksAppend(xs[1..], ys, parse);
      var r := Route(xs[0].event, parse(xs[0].data).value, false);
      assert FrameCallbacks(zs, parse) == r + FrameCallbacks(xs[1..] + ys, parse);
    }
  }

  /** Every frame of every batch is well framed and parses. */
  predicate Decodable<J>(batches: seq<seq<Frame>>, parse: string -> Result<J, string>)
  {
    forall b, k :: 0 <= b < |batches| && 0 <= k < |batches[b]| ==>
      WellFramed(batches[b][k]) && parse(batches[b][k].data).Ok?
  }

  lemma {:induction false} FlattenDecodable<J>(batches: seq<seq<Frame>>, parse: string -> Result<J, string>)
    requires Decodable(batches, parse)
    ensures forall k :: 0 <= k < |Flatten(batches)| ==>
      WellFramed(Flatten(batches)[k]) && parse(Flatten(batches)[k].data).Ok?
  {
    if batches != [] {
      FlattenDecodable(batches[1..], parse);
      var head := batches[0];
      var tail := Flatten(batches[1..]);
      assert Flatten(batches) == head + tail;
      assert forall k :: |head| <= k < |head + tail| ==> (head + tail)[k] == tail[k - |head|];
    }
  }

  /** Reads that each deliver whole frames fire one callback per frame, in frame
      order across all the reads, and leave nothing in the buffer. */
  lemma {:induction false} FrameAlignedReads<J>(batches: seq<seq<Frame>>, acc: seq<Callback<J>>,
                                                parse: string -> Result<J, string>)
    requires Decodable(batches, parse)
    ensures forall k :: 0 <= k < |Flatten(batches)| ==> parse(Flatten(batches)[k].data).Ok?
    ensures ReadLoop("", Wires(batches), acc, parse) == ReadState(acc + FrameCallbacks(Flatten(batches), parse), None, "")
  {
    FlattenDecodable(batches, parse);
    if batches != [] {
      var head := batches[0];
      BatchHead(batches, parse);
      FrameAlignedReads(batches[1..], acc + FrameCallbacks(head, parse), parse);
      AlignedStep(head, Wires(batches[1..]), Flatten(batches[1..]), acc, parse);
    }
  }

  /** One whole-frame read in front of reads already known to decode. */
  lemma AlignedStep<J>(head: seq<Frame>, restWires: seq<string>, restFrames: seq<Frame>, acc: seq<Callback<J>>,
                       parse: string -> Result<J, string>)
    requires forall k :: 0 <= k < |head| ==> WellFramed(head[k]) && parse(head[k].data).Ok?
    requires forall k :: 0 <= k < |restFrames| ==> parse(restFrames[k].data).Ok?
    requires ReadLoop("", restWires, acc + FrameCallbacks(head, parse), parse)
          == ReadState(acc + FrameCallbacks(head, parse) + FrameCallbacks(restFrames, parse), None, "")
    ensures forall k :: 0 <= k < |head + restFrames| ==> parse((head + restFrames)[k].data).Ok?
    ensures ReadLoop("", [QueryApi.Wire(head)] + restWires, acc, parse)
         == ReadState(acc + FrameCallbacks(head + restFrames, parse), None, "")
  {
    var w := QueryApi.Wire(head);
    WholeFramesRead(head, acc, parse);
    assert "" + w == w;
    ReadStep("", w, restWires, acc, acc + FrameCallbacks(head, parse), parse);
    assert Carry("" + w) == "";
    FrameCallbacksAppend(head, restFrames, parse);
    Associative(acc, FrameCallbacks(head, parse), FrameCallbacks(restFrames, parse));
  }

  /** The first batch of decodable reads, and the rest. */
  lemma BatchHead<J>(batches: seq<seq<Frame>>, parse: string -> Result<J, string>)
    requires batches != [] && Decodable(batches, parse)
    ensures forall k :: 0 <= k < |batches[0]| ==> WellFramed(batches[0][k]) && parse(batches[0][k].data).Ok?
    ensures Decodable(batches[1..], parse)
    ensures Wires(batches) == [QueryApi.Wire(batches[0])] + Wires(batches[1..])
    ensures Flatten(batches) == batches[0] + Flatten(batches[1..])
  {
    assert forall b :: 1 <= b < |batches| ==> batches[1..][b - 1] == batches[b];
  }

  /** Round trip: frames delivered in whole-frame reads, the last read followed by
      the end of the stream, produce exactly their callbacks. */
  lemma FrameAlignedTrace<J>(batches: seq<seq<Frame>>, status: nat, statusText: string,
                             parse: string -> Result<J, string>)
    requires Decodable(batches, parse)
    ensures forall k :: 0 <= k < |Flatten(batches)| ==> parse(Flatten(batches)[k].data).Ok?
    ensures Trace(Responded(true, status, statusText), Wires(batches), EndOfStream, parse)
         == FrameCallbacks(Flatten(batches), parse)
  {
    FrameAlignedReads(batches, [], parse);
    assert IsBlank("", JsIsSpace);
  }

  /** One `onDelta` per fragment, in order. */
  function DeltaEvents(fragments: seq<string>): seq<Callback<QueryApi.Payload>>
  {
    if fragments == [] then [] else [OnDelta(QueryApi.DeltaPayload(fragments[0]))] + DeltaEvents(fragments[1..])
  }

  /** The server's whole stream in a single read: metadata, every non-empty
      fragment as a delta, then done, provided the encoder writes no raw newline
      and the browser's parser reads back what the encoder wrote. */
  lemma ServerStreamRoundTrip(question: string, hits: seq<QueryApi.Hit>, useRerank: bool,
                              reply: QueryApi.RerankReply, deltas: seq<Option<string>>,
                              dumps: (QueryApi.Payload, bool) -> string,
                              parse: string -> Result<QueryApi.Payload, string>,
                              doneValue: QueryApi.Payload, status: nat, statusText: string)
    requires forall p, ascii :: '\n' !in dumps(p, ascii) && parse(dumps(p, ascii)) == Ok(p)
    requires parse(QueryApi.DoneData) == Ok(doneValue)
    requires hits != []
    ensures var ranked := QueryApi.Ranked(hits, useRerank, reply);
      var contexts := QueryApi.Contexts(ranked);
      Trace(Responded(true, status, statusText),
            [QueryApi.Wire(QueryApi.EventStream(question, hits, useRerank, reply, deltas, dumps))],
            EndOfStream, parse)
      == [OnMetadata(QueryApi.MetadataPayload(QueryApi.RetrievalOf(ranked), contexts, useRerank,
                                              PromptBuilder.BuildRequest(question, contexts).fullPrompt))]
         + DeltaEvents(PromptBuilder.NonEmptyDeltas(deltas)) + [OnDone]
  {
    var ranked := QueryApi.Ranked(hits, useRerank, reply);
    var contexts := QueryApi.Contexts(ranked);
    var meta := QueryApi.MetadataPayload(QueryApi.RetrievalOf(ranked), contexts, useRerank,
                                         PromptBuilder.BuildRequest(question, contexts).fullPrompt);
    var fragments := PromptBuilder.NonEmptyDeltas(deltas);
    var first := [QueryApi.Frame("metadata", dumps(meta, false))];
    var middle := QueryApi.DeltaFrames(fragments, dumps);
    var last := [QueryApi.Frame("done", QueryApi.DoneData)];
    assert QueryApi.EventStream(question, hits, useRerank, reply, deltas, dumps) == first + middle + last;
    ServerFramesDecoded(first, middle, last, meta, fragments, dumps, parse, doneValue, status, statusText);
  }

  /** Metadata frame, delta frames, done frame, delivered in one read. */
  lemma ServerFramesDecoded(first: seq<Frame>, middle: seq<Frame>, last: seq<Frame>, meta: QueryApi.Payload,
                            fragments: seq<string>, dumps: (QueryApi.Payload, bool) -> string,
                            parse: string -> Result<QueryApi.Payload, string>,
                            doneValue: QueryApi.Payload, status: nat, statusText: string)
    requires forall p, ascii :: '\n' !in dumps(p, ascii) && parse(dumps(p, ascii)) == Ok(p)
    requires parse(QueryApi.DoneData) == Ok(doneValue)
    requires first == [QueryApi.Frame("metadata", dumps(meta, false))]
    requires middle == QueryApi.DeltaFrames(fragments, dumps)
    requires last == [QueryApi.Frame("done", QueryApi.DoneData)]
    ensures Trace(Responded(true, status, statusText), [QueryApi.Wire(first + middle + last)], EndOfStream, parse)
         == [OnMetadata(meta)] + DeltaEvents(fragments) + [OnDone]
  {
    var frames := first + middle + last;
    ServerFramesWellFramed(first, middle, last, meta, fragments, dumps, parse, doneValue);
    OneBatch(frames, parse);
    FrameAlignedTrace([frames], status, statusText, parse);
    ServerCallbacks(first, middle, last, meta, fragments, dumps, parse, doneValue);
  }

  lemma ServerFramesWellFramed(first: seq<Frame>, middle: seq<Frame>, last: seq<Frame>, meta: QueryApi.Payload,
                               fragments: seq<string>, dumps: (QueryApi.Payload, bool) -> string,
                               parse: string -> Result<QueryApi.Payload, string>, doneValue: QueryApi.Payload)
    requires forall p, ascii :: '\n' !in dumps(p, ascii) && parse(dumps(p, ascii)) == Ok(p)
    requires parse(QueryApi.DoneData) == Ok(doneValue)
    requires first == [QueryApi.Frame("metadata", dumps(meta, false))]
    requires middle == QueryApi.DeltaFrames(fragments, dumps)
    requires last == [QueryApi.Frame("done", QueryApi.DoneData)]
    ensures var frames := first + middle + last;
      forall k :: 0 <= k < |frames| ==> WellFramed(frames[k]) && parse(frames[k].data).Ok?
  {
    var frames := first + middle + last;
    forall k | 0 <= k < |frames|
      ensures WellFramed(frames[k]) && parse(frames[k].data).Ok?
    {
      if k == 0 {
      } else if k == |frames| - 1 {
        assert '\n' !in QueryApi.DoneData;
      } else {
        assert frames[k] == middle[k - 1];
      }
    }
  }

  /** Frames delivered in a single read. */
  lemma OneBatch<J>(frames: seq<Frame>, parse: string -> Result<J, string>)
    requires forall k :: 0 <= k < |frames| ==> WellFramed(frames[k]) && parse(frames[k].data).Ok?
    ensures Decodable([frames], parse) && Wires([frames]) == [QueryApi.Wire(frames)] && Flatten([frames]) == frames
  {
    var batches := [frames];
    assert batches[0] == frames && batches[1..] == [];
    assert Flatten(batches) == frames + Flatten(batches[1..]);
    forall b, k | 0 <= b < |batches| && 0 <= k < |batches[b]|
      ensures WellFramed(batches[b][k]) && parse(batches[b][k].data).Ok?
    {
      assert batches[b] == frames;
    }
    OneWire(batches, frames);
  }

  lemma OneWire(batches: seq<seq<Frame>>, frames: seq<Frame>)
    requires batches == [frames]
    ensures Wires(batches) == [QueryApi.Wire(frames)]
  {
    assert Wires(batches)[0] == QueryApi.Wire(frames);
  }

  lemma ServerCallbacks(first: seq<Frame>, middle: seq<Frame>, last: seq<Frame>, meta: QueryApi.Payload,
                        fragments: seq<string>, dumps: (QueryApi.Payload, bool) -> string,
                        parse: string -> Result<QueryApi.Payload, string>, doneValue: QueryApi.Payload)
    requires forall p, ascii :: parse(dumps(p, ascii)) == Ok(p)
    requires parse(QueryApi.DoneData) == Ok(doneValue)
    requires first == [QueryApi.Frame("metadata", dumps(meta, false))]
    requires middle == QueryApi.DeltaFrames(fragments, dumps)
    requires last == [QueryApi.Frame("done", QueryApi.DoneData)]
    requires forall k :: 0 <= k < |first + middle + last| ==> parse((first + middle + last)[k].data).Ok?
    ensures FrameCallbacks(first + middle + last, parse) == [OnMetadata(meta)] + DeltaEvents(fragments) + [OnDone]
  {
    DeltaFramesDecoded(fragments, dumps, parse);
    FrameCallbacksAppend(first, middle, parse);
    FrameCallbacksAppend(first + middle, last, parse);
    assert FrameCallbacks(first, parse) == [OnMetadata(meta)] + FrameCallbacks(first[1..], parse);
    assert first[1..] == [] && last[1..] == [];
    assert FrameCallbacks(last, parse) == [OnDone] + FrameCallbacks(last[1..], parse);
  }

  lemma {:induction false} DeltaFramesDecoded(fragments: seq<string>, dumps: (QueryApi.Payload, bool) -> string,
                                              parse: string -> Result<QueryApi.Payload, string>)
    requires forall p, ascii :: parse(dumps(p, ascii)) == Ok(p)
    ensures forall k :: 0 <= k < |fragments| ==> parse(QueryApi.DeltaFrames(fragments, dumps)[k].data).Ok?
    ensures FrameCallbacks(QueryApi.DeltaFrames(fragments, dumps), parse) == DeltaEvents(fragments)
  {
    if fragments != [] {
      var frames := QueryApi.DeltaFrames(fragments, dumps);
      assert frames[1..] == QueryApi.DeltaFrames(fragments[1..], dumps);
      DeltaFramesDecoded(fragments[1..], dumps, parse);
    }
  }

  /** `done` does not end the read loop: a delta framed after it is still delivered. */
  lemma DoneDoesNotStopReading<J>(doneData: string, deltaData: string, status: nat, statusText: string,
                                  parse: string -> Result<J, string>)
    requires '\n' !in doneData && '\n' !in deltaData
    requires parse(doneData).Ok? && parse(deltaData).Ok?
    ensures Trace(Responded(true, status, statusText),
                  [QueryApi.Wire([QueryApi.Frame("done", doneData), QueryApi.Frame("delta", deltaData)])],
                  EndOfStream, parse)
         == [OnDone, OnDelta(parse(deltaData).value)]
  {
    var frames := [QueryApi.Frame("done", doneData), QueryApi.Frame("delta", deltaData)];
    OneBatch(frames, parse);
    FrameAlignedTrace([frames], status, statusText, parse);
    assert frames[1..] == [frames[1]] && frames[1..][1..] == [];
    assert FrameCallbacks(frames[1..], parse) == [OnDelta(parse(deltaData).value)] + FrameCallbacks([], parse);
  }

  /** A line free of newlines, followed by one, reads as that single complete line. */
  lemma OneLineRead(line: string)
    requires '\n' !in line
    ensures CompleteLines("" + (line + "\n")) == [line]
    ensures Carry("" + (line + "\n")) == ""
  {
    assert "" + (line + "\n") == line + ['\n'] + [];
    SplitAfterPiece(line, [], '\n');
  }

  lemma PrefixedLineFree(prefix: string, rest: string)
    requires '\n' !in prefix && '\n' !in rest
    ensures '\n' !in prefix + rest
  {
    assert forall c :: c in prefix + rest ==> c in prefix || c in rest;
  }

  /** The `event:` and `data:` lines of one frame in a single read fire its callback. */
  lemma PairInOneRead<J>(name: string, payload: string, parse: string -> Result<J, string>)
    requires '\n' !in name && '\n' !in payload && parse(payload).Ok?
    ensures ReadLoop("", [EventPrefix + name + "\n" + DataPrefix + payload + "\n"], [], parse).fired
         == Route(name, parse(payload).value, false)
  {
    var f := QueryApi.Frame(name, payload);
    var chunk := EventPrefix + name + "\n" + DataPrefix + payload + "\n";
    PrefixedLineFree(EventPrefix, name);
    PrefixedLineFree(DataPrefix, payload);
    var a := EventPrefix + name;
    var b := DataPrefix + payload;
    assert "" + chunk == a + ['\n'] + (b + ['\n'] + []);
    SplitAfterPiece(a, b + ['\n'] + [], '\n');
    SplitAfterPiece(b, [], '\n');
    assert CompleteLines("" + chunk) == [a, b];
    EventDataPair(name, payload, [], "", [], parse, false);
    assert [a, b] + [] == [a, b] && [a, b] == [EventPrefix + name, DataPrefix + payload];
    assert [] + Route(name, parse(payload).value, false) == Route(name, parse(payload).value, false);
    ReadStep("", chunk, [], [], Route(name, parse(payload).value, false), parse);
    assert [chunk] == [chunk] + [];
  }

  /** The same two lines in two reads fire nothing: the second read forgets the name. */
  lemma PairInTwoReads<J>(name: string, payload: string, parse: string -> Result<J, string>)
    requires '\n' !in name && '\n' !in payload && parse(payload).Ok?
    ensures ReadLoop("", [EventPrefix + name + "\n", DataPrefix + payload + "\n"], [], parse).fired == []
  {
    PrefixedLineFree(EventPrefix, name);
    PrefixedLineFree(DataPrefix, payload);
    var a := EventPrefix + name;
    var b := DataPrefix + payload;
    OneLineRead(a);
    OneLineRead(b);
    PrefixFacts(name);
    assert Dispatch([a], "", [], parse, false) == Outcome([], None);
    DataWithoutEvent(payload, [], [], parse, false);
    assert Dispatch([b], "", [], parse, false) == Outcome([], None) by {
      assert [b] == [DataPrefix + payload] + [];
    }
    ReadStep("", a + "\n", [b + "\n"], [], [], parse);
    ReadStep("", b + "\n", [], [], [], parse);
    assert [a + "\n", b + "\n"] == [a + "\n"] + [b + "\n"];
    assert [b + "\n"] == [b + "\n"] + [];
  }

  /** A read boundary between `event:` and `data:` loses the event: the same two
      lines in one read fire the callback, split over two reads they fire nothing. */
  lemma ReadBoundaryLosesEvent<J>(name: string, payload: string, parse: string -> Result<J, string>)
    requires name == "metadata" || name == "delta" || name == "done"
    requires '\n' !in payload && parse(payload).Ok?
    ensures ReadLoop("", [EventPrefix + name + "\n" + DataPrefix + payload + "\n"], [], parse).fired != []
    ensures ReadLoop("", [EventPrefix + name + "\n", DataPrefix + payload + "\n"], [], parse).fired == []
  {
    PairInOneRead(name, payload, parse);
    PairInTwoReads(name, payload, parse);
  }
}
