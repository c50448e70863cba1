/** Server-sent events end to end: the gateway's writer, the SDK's reader, and the line parsers for
    provider streams. */
module Streaming {
  import opened Options
  import opened Framing

  datatype Usage = Usage(promptTokens: nat, completionTokens: nat)

  datatype Chunk = Chunk(id: string, delta: string, done: bool, finishReason: Option<string>, usage: Option<Usage>)

  /** What the gateway sends as one event: a chunk, or the error object of a stream that broke. */
  datatype Payload = ChunkEvent(chunk: Chunk) | ErrorEvent(message: string) {
    /** The parsed object's `delta`, "" when it has none. */
    function Delta(): string { if ChunkEvent? then chunk.delta else "" }
  }

  /** JSON.stringify and JSON.parse. The text of an object is enclosed in braces, contains no newline
      (control characters are escaped, section 7 of RFC 8259) and parses back to the object. */
  datatype Codec = Codec(encode: Payload -> string, decode: string -> Option<Payload>) {
    ghost predicate Valid() {
      forall p :: IsObjectText(encode(p)) && decode(encode(p)) == Some(p)
    }
  }

  ghost predicate IsObjectText(t: string) {
    |t| >= 2 && t[0] == '{' && t[|t| - 1] == '}' && NoNewline(t)
  }

  // ---------------------------------------------------------------------------------------
  // The gateway
  // ---------------------------------------------------------------------------------------

  const FRAME_END := "\n\n"
  const DONE := "data: [DONE]"

  function Body(p: Payload, codec: Codec): string { "data: " + codec.encode(p) }

  function WriteSse(p: Payload, codec: Codec): string { Body(p, codec) + FRAME_END }

  function Events(ps: seq<Payload>, codec: Codec): string {
    if ps == [] then "" else Events(ps[..|ps| - 1], codec) + WriteSse(ps[|ps| - 1], codec)
  }

  function Deltas(chunks: seq<Chunk>): string {
    if chunks == [] then "" else Deltas(chunks[..|chunks| - 1]) + chunks[|chunks| - 1].delta
  }

  /** The chunks as events, followed by the error event if the stream broke. */
  function Sent(chunks: seq<Chunk>, failure: Option<string>): seq<Payload> {
    seq(|chunks|, i requires 0 <= i < |chunks| => ChunkEvent(chunks[i])) +
    if failure.Some? then [ErrorEvent(failure.value)] else []
  }

  function Wire(chunks: seq<Chunk>, failure: Option<string>, codec: Codec): string {
    Events(Sent(chunks, failure), codec) + (DONE + FRAME_END)
  }

  /** resumeIterator: the chunk pulled early, if any, then the rest of the iterator. */
  method ResumeIterator(first: Option<Chunk>, rest: seq<Chunk>) returns (all: seq<Chunk>)
    ensures all == if first.None? then [] else [first.value] + rest
  {
    if first.None? {
      return [];
    }
    all := [first.value];
    for i := 0 to |rest|
      invariant all == [first.value] + rest[..i]
    {
      all := all + [rest[i]];
    }
  }

  /** The last done chunk decides the finish reason; the last done chunk with usage, the usage. */
  function FinishReason(chunks: seq<Chunk>): string {
    if chunks == [] then "stop"
    else
      var c := chunks[|chunks| - 1];
      if c.done then c.finishReason.GetOr("stop") else FinishReason(chunks[..|chunks| - 1])
  }

  function FinalUsage(chunks: seq<Chunk>): Usage {
    if chunks == [] then Usage(0, 0)
    else
      var c := chunks[|chunks| - 1];
      if c.done && c.usage.Some? then c.usage.value else FinalUsage(chunks[..|chunks| - 1])
  }

  /** The streaming loop: what is written to the client and what is assembled for billing. */
  method StreamToClient(chunks: seq<Chunk>, failure: Option<string>, codec: Codec)
    returns (wire: string, fullText: string, responseId: string, finishReason: string, usage: Usage)
    ensures wire == Wire(chunks, failure, codec)
    ensures fullText == Deltas(chunks)
    ensures responseId == if chunks == [] then "" else chunks[|chunks| - 1].id
    ensures finishReason == FinishReason(chunks) && usage == FinalUsage(chunks)
  {
    wire, fullText, responseId, finishReason, usage := "", "", "", "stop", Usage(0, 0);
    ghost var sent := Sent(chunks, None);
    for i := 0 to |chunks|
      invariant wire == Events(sent[..i], codec) && fullText == Deltas(chunks[..i])
      invariant responseId == if i == 0 then "" else chunks[i - 1].id
      invariant finishReason == FinishReason(chunks[..i]) && usage == FinalUsage(chunks[..i])
    {
      var chunk := chunks[i];
      assert chunks[..i + 1][..i] == chunks[..i] && sent[..i + 1][..i] == sent[..i];
      responseId := chunk.id;
      fullText := fullText + chunk.delta;
      if chunk.done {
        finishReason := chunk.finishReason.GetOr("stop");
        usage := chunk.usage.GetOr(usage);
      }
      wire := wire + WriteSse(ChunkEvent(chunk), codec);
    }
    assert chunks[..|chunks|] == chunks && sent[..|chunks|] == sent;
    if failure.Some? {
      ghost var all := Sent(chunks, failure);
      assert all[..|all| - 1] == sent;
      wire := wire + WriteSse(ErrorEvent(failure.value), codec);
    }
    wire := wire + (DONE + FRAME_END);
  }

  // ---------------------------------------------------------------------------------------
  // The SDK
  // ---------------------------------------------------------------------------------------

  datatype Frame = Stop | Skip | Yield(text: string)

  function FirstDataLine(lines: seq<string>): (line: Option<string>)
    ensures line.None? <==> forall i :: 0 <= i < |lines| ==> !StartsWith(lines[i], "data:")
    ensures line.Some? ==> exists i :: IsFirstData(lines, i) && lines[i] == line.value
  {
    if lines == [] then None
    else if StartsWith(lines[0], "data:") then
      assert IsFirstData(lines, 0);
      Some(lines[0])
    else
      var rest := FirstDataLine(lines[1..]);
      assert rest.Some? ==> exists i :: IsFirstData(lines[1..], i) && lines[1..][i] == rest.value;
      assert forall i :: IsFirstData(lines[1..], i) ==> IsFirstData(lines, i + 1) && lines[i + 1] == lines[1..][i];
      rest
  }

  /** Line i is the first that starts with "data:". */
  ghost predicate IsFirstData(lines: seq<string>, i: int) {
    0 <= i < |lines| && StartsWith(lines[i], "data:") && forall j :: 0 <= j < i ==> !StartsWith(lines[j], "data:")
  }

  function Lines(frame: string): seq<string> {
    Split(frame, "\n").parts + [Split(frame, "\n").rest]
  }

  function ReadFrame(frame: string, codec: Codec): Frame {
    var line := FirstDataLine(Lines(frame));
    if line.None? then Skip
    else
      var payload := Trim(line.value[5..]);
      if payload == "[DONE]" then Stop
      else if payload == "" then Skip
      else
        var parsed := codec.decode(payload);
        if parsed.Some? && parsed.value.Delta() != "" then Yield(parsed.value.Delta()) else Skip
  }

  /** The texts yielded by a list of frames, and whether it ended the stream. */
  datatype Yielded = Yielded(texts: seq<string>, stopped: bool)

  function ReadFrames(frames: seq<string>, codec: Codec): Yielded {
    if frames == [] then Yielded([], false)
    else
      Next(ReadFrames(frames[..|frames| - 1], codec), ReadFrame(frames[|frames| - 1], codec))
  }

  function Next(y: Yielded, frame: Frame): Yielded {
    if y.stopped then y
    else
      match frame
      case Stop => Yielded(y.texts, true)
      case Skip => y
      case Yield(text) => Yielded(y.texts + [text], false)
  }

  /** What the SDK yields for a whole response body. */
  function SdkTexts(body: string, codec: Codec): seq<string> {
    ReadFrames(Split(body, FRAME_END).parts, codec).texts
  }

  lemma {:induction false} StoppedStays(a: seq<string>, b: seq<string>, codec: Codec)
    requires ReadFrames(a, codec).stopped
    ensures ReadFrames(a + b, codec) == ReadFrames(a, codec)
  {
    if b == [] {
      assert a + b == a;
    } else {
      StoppedStays(a, b[..|b| - 1], codec);
      assert (a + b)[..|a + b| - 1] == a + b[..|b| - 1];
    }
  }

  lemma {:induction false} ReadFramesSnoc(seen: seq<string>, frame: string, codec: Codec)
    ensures ReadFrames(seen + [frame], codec) == Next(ReadFrames(seen, codec), ReadFrame(frame, codec))
  {
    assert (seen + [frame])[..|seen|] == seen;
  }

  lemma {:induction false} ReadOneMore(seen: seq<string>, frames: seq<string>, f: nat, codec: Codec)
    requires f < |frames|
    ensures ReadFrames(seen + frames[..f + 1], codec)
         == Next(ReadFrames(seen + frames[..f], codec), ReadFrame(frames[f], codec))
  {
    ReadFramesSnoc(seen + frames[..f], frames[f], codec);
    assert seen + frames[..f + 1] == seen + frames[..f] + [frames[f]];
  }

  lemma {:induction false} StoppedInside(seen: seq<string>, frames: seq<string>, f: nat, codec: Codec)
    requires f <= |frames| && ReadFrames(seen + frames[..f], codec).stopped
    ensures ReadFrames(seen + frames, codec) == ReadFrames(seen + frames[..f], codec)
  {
    StoppedStays(seen + frames[..f], frames[f..], codec);
    assert seen + frames == seen + frames[..f] + frames[f..];
  }

  /** The loop over the frames completed by one read. */
  method YieldFrames(ghost seen: seq<string>, frames: seq<string>, before: seq<string>, codec: Codec)
    returns (texts: seq<string>, stopped: bool)
    requires ReadFrames(seen, codec) == Yielded(before, false)
    ensures ReadFrames(seen + frames, codec) == Yielded(texts, stopped)
  {
    texts := before;
    assert seen + frames[..0] == seen;
    for f := 0 to |frames|
      invariant ReadFrames(seen + frames[..f], codec) == Yielded(texts, false)
    {
      ReadOneMore(seen, frames, f, codec);
      match ReadFrame(frames[f], codec)
      case Stop =>
        StoppedInside(seen, frames, f + 1, codec);
        return texts, true;
      case Skip =>
      case Yield(text) => texts := texts + [text];
    }
    assert frames[..|frames|] == frames;
    stopped := false;
  }

  /** chat.stream: whatever the reads, the texts are those of the body as a whole. */
  method SdkStream(chunksRead: seq<string>, codec: Codec) returns (texts: seq<string>)
    ensures texts == SdkTexts(Concat(chunksRead), codec)
  {
    var buffer := "";
    texts := [];
    ghost var seen: seq<string> := [];
    for r := 0 to |chunksRead|
      invariant Split(Concat(chunksRead[..r]), FRAME_END) == Cut(seen, buffer)
      invariant ReadFrames(seen, codec) == Yielded(texts, false)
    {
      assert chunksRead[..r + 1][..r] == chunksRead[..r];
      SplitAppend(Concat(chunksRead[..r]), chunksRead[r], FRAME_END);
      var cut := Split(buffer + chunksRead[r], FRAME_END);
      buffer := cut.rest;
      var stopped;
      texts, stopped := YieldFrames(seen, cut.parts, texts, codec);
      seen := seen + cut.parts;
      if stopped {
        StopIsFinal(chunksRead, r + 1, seen, codec);
        return;
      }
    }
    assert chunksRead[..|chunksRead|] == chunksRead;
  }

  /** Once the frames read so far end the stream, later reads change nothing. */
  lemma StopIsFinal(chunksRead: seq<string>, r: nat, frames: seq<string>, codec: Codec)
    requires r <= |chunksRead| && ReadFrames(frames, codec).stopped
    requires Split(Concat(chunksRead[..r]), FRAME_END).parts == frames
    ensures SdkTexts(Concat(chunksRead), codec) == ReadFrames(frames, codec).texts
  {
    ConcatSplit(chunksRead, r);
    var tail := Concat(chunksRead[r..]);
    var c := Split(Concat(chunksRead[..r]), FRAME_END);
    SplitAppend(Concat(chunksRead[..r]), tail, FRAME_END);
    StoppedStays(frames, Split(c.rest + tail, FRAME_END).parts, codec);
  }

  lemma {:induction false} ConcatSplit(pieces: seq<string>, r: nat)
    requires r <= |pieces|
    ensures Concat(pieces) == Concat(pieces[..r]) + Concat(pieces[r..])
  {
    if r == |pieces| {
      assert pieces[..r] == pieces;
    } else {
      var n := |pieces| - 1;
      ConcatSplit(pieces[..n], r);
      assert pieces[..n][..r] == pieces[..r] && pieces[..n][r..] == pieces[r..][..n - r];
    }
  }

  // ---------------------------------------------------------------------------------------
  // End to end
  // ---------------------------------------------------------------------------------------

  lemma DataLine(text: string, codec: Codec)
    requires text != "" && NoNewline(text) && !IsSpace(text[0]) && !IsSpace(text[|text| - 1])
    ensures ReadFrame("data: " + text, codec) ==
            if text == "[DONE]" then Stop
            else if codec.decode(text).Some? && codec.decode(text).value.Delta() != "" then
              Yield(codec.decode(text).value.Delta())
            else Skip
  {
    var frame := "data: " + text;
    SplitNone(frame, "\n");
    assert Lines(frame) == [frame];
    assert StartsWith(frame, "data:");
    assert frame[5..] == " " + text;
    TrimLeadingSpace(text);
  }

  /** A frame of any lines: its first data line alone decides. [DONE] stops; an empty payload, one that
      does not parse and one without a delta are skipped; and so is a frame without a data line. */
  lemma FirstDataLineDecides(lines: seq<string>, i: int, text: string, codec: Codec)
    requires lines != [] && forall j :: 0 <= j < |lines| ==> NoNewline(lines[j])
    requires -1 <= i < |lines| && (if i < 0 then FirstDataLine(lines).None? else IsFirstData(lines, i))
    requires i >= 0 ==> text == Trim(lines[i][5..])
    ensures ReadFrame(Joined(lines), codec) ==
            if i < 0 || text == "" then Skip
            else if text == "[DONE]" then Stop
            else match codec.decode(text)
                 case None => Skip
                 case Some(p) => if p.Delta() == "" then Skip else Yield(p.Delta())
  {
    JoinedComesApart(lines);
    var found := FirstDataLine(lines);
    if i >= 0 {
      assert found.Some?;
      var k :| IsFirstData(lines, k) && lines[k] == found.value;
      assert k == i;
    }
  }

  /** Lines with a newline between each two. */
  function Joined(lines: seq<string>): string
    requires lines != []
  {
    if |lines| == 1 then lines[0] else lines[0] + ("\n" + Joined(lines[1..]))
  }

  lemma {:induction false} JoinedComesApart(lines: seq<string>)
    requires lines != [] && forall j :: 0 <= j < |lines| ==> NoNewline(lines[j])
    ensures Lines(Joined(lines)) == lines
  {
    if |lines| == 1 {
      SplitNone(lines[0], "\n");
    } else {
      JoinedComesApart(lines[1..]);
      SplitBody(lines[0], "\n", Joined(lines[1..]));
      var c := Split(Joined(lines[1..]), "\n");
      assert [lines[0]] + c.parts + [c.rest] == [lines[0]] + (c.parts + [c.rest]);
    }
  }

  /** The SDK reads back the delta of every event the gateway wrote. */
  lemma ReadsBack(p: Payload, codec: Codec)
    requires codec.Valid()
    ensures ReadFrame(Body(p, codec), codec) == if p.Delta() == "" then Skip else Yield(p.Delta())
  {
    assert IsObjectText(codec.encode(p));
    DataLine(codec.encode(p), codec);
  }

  function Frames(ps: seq<Payload>, codec: Codec): seq<string> {
    if ps == [] then [] else Frames(ps[..|ps| - 1], codec) + [Body(ps[|ps| - 1], codec)]
  }

  lemma BodyIsOneLine(p: Payload, codec: Codec)
    requires codec.Valid()
    ensures NoNewline(Body(p, codec))
  {
    assert IsObjectText(codec.encode(p));
  }

  lemma EventsSnoc(ps: seq<Payload>, tail: string, codec: Codec)
    requires ps != []
    ensures Events(ps, codec) + tail
         == Events(ps[..|ps| - 1], codec) + (Body(ps[|ps| - 1], codec) + (FRAME_END + tail))
  {
    Reassociate(Events(ps[..|ps| - 1], codec), Body(ps[|ps| - 1], codec), FRAME_END, tail);
  }

  function Prepend(frames: seq<string>, c: Cut): Cut { Cut(frames + c.parts, c.rest) }

  lemma PrependTwice(frames: seq<string>, body: string, c: Cut)
    ensures Prepend(frames, Cut([body] + c.parts, c.rest)) == Prepend(frames + [body], c)
  {
    assert frames + ([body] + c.parts) == frames + [body] + c.parts;
  }

  /** The events come apart again into one frame each, whatever follows them. */
  lemma {:induction false} EventsSplit(ps: seq<Payload>, tail: string, codec: Codec)
    requires codec.Valid()
    ensures Split(Events(ps, codec) + tail, FRAME_END) == Prepend(Frames(ps, codec), Split(tail, FRAME_END))
  {
    if ps == [] {
      assert Events(ps, codec) + tail == tail && [] + Split(tail, FRAME_END).parts == Split(tail, FRAME_END).parts;
    } else {
      var n := |ps| - 1;
      var body := Body(ps[n], codec);
      EventsSnoc(ps, tail, codec);
      EventsSplit(ps[..n], body + (FRAME_END + tail), codec);
      BodyIsOneLine(ps[n], codec);
      SplitBody(body, FRAME_END, tail);
      PrependTwice(Frames(ps[..n], codec), body, Split(tail, FRAME_END));
    }
  }

  function DeltasOf(ps: seq<Payload>): string {
    if ps == [] then "" else DeltasOf(ps[..|ps| - 1]) + ps[|ps| - 1].Delta()
  }

  lemma {:induction false} FramesYield(ps: seq<Payload>, codec: Codec)
    requires codec.Valid()
    ensures !ReadFrames(Frames(ps, codec), codec).stopped
    ensures Concat(ReadFrames(Frames(ps, codec), codec).texts) == DeltasOf(ps)
  {
    if ps != [] {
      var n := |ps| - 1;
      FramesYield(ps[..n], codec);
      ReadFramesSnoc(Frames(ps[..n], codec), Body(ps[n], codec), codec);
      ReadsBack(ps[n], codec);
      var before := ReadFrames(Frames(ps[..n], codec), codec).texts;
      assert (before + [ps[n].Delta()])[..|before|] == before;
    }
  }

  lemma {:induction false} SentDeltas(chunks: seq<Chunk>, failure: Option<string>)
    ensures DeltasOf(Sent(chunks, failure)) == Deltas(chunks)
    decreases |chunks|, failure.Some?
  {
    var sent := Sent(chunks, failure);
    if failure.Some? {
      SentDeltas(chunks, None);
      assert sent[..|sent| - 1] == Sent(chunks, None);
    } else if chunks != [] {
      SentDeltas(chunks[..|chunks| - 1], None);
      assert sent[..|sent| - 1] == Sent(chunks[..|chunks| - 1], None);
    }
  }

  lemma WireSplits(chunks: seq<Chunk>, failure: Option<string>, after: string, codec: Codec)
    requires codec.Valid()
    ensures Split(Wire(chunks, failure, codec) + after, FRAME_END)
         == Prepend(Frames(Sent(chunks, failure), codec) + [DONE], Split(after, FRAME_END))
  {
    var ps := Sent(chunks, failure);
    Reassociate(Events(ps, codec), DONE, FRAME_END, after);
    EventsSplit(ps, DONE + (FRAME_END + after), codec);
    SplitBody(DONE, FRAME_END, after);
    PrependTwice(Frames(ps, codec), DONE, Split(after, FRAME_END));
  }

  lemma DoneStops(codec: Codec)
    ensures ReadFrame(DONE, codec) == Stop
  {
    assert DONE == "data: " + "[DONE]";
    DataLine("[DONE]", codec);
  }

  /** Nothing after [DONE] is yielded. */
  lemma NothingAfterDone(frames: seq<string>, more: seq<string>, codec: Codec)
    ensures ReadFrames(frames + [DONE] + more, codec).texts == ReadFrames(frames, codec).texts
  {
    DoneStops(codec);
    ReadFramesSnoc(frames, DONE, codec);
    StoppedStays(frames + [DONE], more, codec);
  }

  /** However the wire text is split into reads, and whatever bytes come after it, the texts the SDK
      yields concatenate to the full text the gateway assembled, also when the stream broke off. */
  lemma StreamingRoundTrip(
    chunks: seq<Chunk>, failure: Option<string>, chunksRead: seq<string>, after: string, codec: Codec)
    requires codec.Valid() && Concat(chunksRead) == Wire(chunks, failure, codec) + after
    ensures Concat(SdkTexts(Concat(chunksRead), codec)) == Deltas(chunks)
  {
    var ps := Sent(chunks, failure);
    WireSplits(chunks, failure, after, codec);
    NothingAfterDone(Frames(ps, codec), Split(after, FRAME_END).parts, codec);
    FramesYield(ps, codec);
    SentDeltas(chunks, failure);
  }

  /** Frame by frame: the client can decode every event that was written, chunks in order and then the
      error if the stream broke, and the last frame is the terminator. */
  lemma WireHoldsEveryEvent(chunks: seq<Chunk>, failure: Option<string>, codec: Codec)
    requires codec.Valid()
    ensures var frames := Split(Wire(chunks, failure, codec), FRAME_END).parts;
            && |frames| == |chunks| + (if failure.Some? then 2 else 1) && frames[|frames| - 1] == DONE
            && (forall i :: 0 <= i < |chunks| ==> Decoded(frames[i], codec) == Some(ChunkEvent(chunks[i])))
            && (failure.Some? ==> Decoded(frames[|chunks|], codec) == Some(ErrorEvent(failure.value)))
  {
    var ps := Sent(chunks, failure);
    var wire := Wire(chunks, failure, codec);
    WireSplits(chunks, failure, "", codec);
    assert wire + "" == wire;
    SplitNone("", FRAME_END);
    FramesAre(ps, codec);
    forall i | 0 <= i < |ps|
      ensures Decoded(Frames(ps, codec)[i], codec) == Some(ps[i])
    {
      BodyDecodes(ps[i], codec);
    }
  }

  /** What follows "data: " in a frame, parsed. */
  function Decoded(frame: string, codec: Codec): Option<Payload> {
    if StartsWith(frame, "data: ") then codec.decode(frame[6..]) else None
  }

  lemma BodyDecodes(p: Payload, codec: Codec)
    requires codec.Valid()
    ensures Decoded(Body(p, codec), codec) == Some(p)
  {
    assert Body(p, codec)[6..] == codec.encode(p);
    assert IsObjectText(codec.encode(p));
  }

  lemma {:induction false} FramesAre(ps: seq<Payload>, codec: Codec)
    ensures |Frames(ps, codec)| == |ps| && forall i :: 0 <= i < |ps| ==> Frames(ps, codec)[i] == Body(ps[i], codec)
  {
    if ps != [] {
      FramesAre(ps[..|ps| - 1], codec);
    }
  }

  /** The finish reason is that of the last done chunk, "stop" if it names none or there is none .. */
  lemma {:induction false} LastDoneChunkDecides(chunks: seq<Chunk>, i: int)
    requires -1 <= i < |chunks| && (i >= 0 ==> chunks[i].done)
    requires forall j :: 0 <= j < |chunks| && i < j ==> !chunks[j].done
    ensures FinishReason(chunks) ==
            if i < 0 then "stop" else if chunks[i].finishReason.Some? then chunks[i].finishReason.value else "stop"
  {
    if i < |chunks| - 1 {
      LastDoneChunkDecides(chunks[..|chunks| - 1], i);
    }
  }

  /** .. and the usage that of the last done chunk that reports one, nothing if there is none. */
  lemma {:induction false} LastReportedUsageCounts(chunks: seq<Chunk>, i: int)
    requires -1 <= i < |chunks| && (i >= 0 ==> chunks[i].done && chunks[i].usage.Some?)
    requires forall j :: 0 <= j < |chunks| && i < j ==> !(chunks[j].done && chunks[j].usage.Some?)
    ensures FinalUsage(chunks) == if i < 0 then Usage(0, 0) else chunks[i].usage.value
  {
    if i < |chunks| - 1 {
      LastReportedUsageCounts(chunks[..|chunks| - 1], i);
    }
  }

  // ---------------------------------------------------------------------------------------
  // The line parsers for provider streams
  // ---------------------------------------------------------------------------------------

  /** What one completed line contributes. */
  function SseLine(line: string): seq<string> {
    var l := Trim(line);
    if StartsWith(l, "data:") then [Trim(l[5..])] else []
  }

  function NdjsonLine(line: string): seq<string> {
    if Trim(line) == "" then [] else [Trim(line)]
  }

  function Collect(lines: seq<string>, f: string -> seq<string>): seq<string> {
    if lines == [] then [] else Collect(lines[..|lines| - 1], f) + f(lines[|lines| - 1])
  }

  /** The payloads of a whole body: those of its terminated lines. */
  function Payloads(body: string, f: string -> seq<string>): seq<string> {
    Collect(Split(body, "\n").parts, f)
  }

  lemma CollectSnoc(lines: seq<string>, line: string, f: string -> seq<string>)
    ensures Collect(lines + [line], f) == Collect(lines, f) + f(line)
  {
    assert (lines + [line])[..|lines|] == lines;
  }

  lemma {:induction false} CollectAppend(a: seq<string>, b: seq<string>, f: string -> seq<string>)
    ensures Collect(a + b, f) == Collect(a, f) + Collect(b, f)
  {
    if b == [] {
      assert a + b == a;
    } else {
      var n := |b| - 1;
      CollectAppend(a, b[..n], f);
      CollectSnoc(a + b[..n], b[n], f);
      CollectSnoc(b[..n], b[n], f);
      Regroup(Collect(a, f), Collect(b[..n], f), f(b[n]));
      assert a + b == a + b[..n] + [b[n]] && b == b[..n] + [b[n]];
    }
  }

  lemma CollectOne(line: string, f: string -> seq<string>)
    ensures Collect([line], f) == f(line)
  {
    assert [line][..0] == [] && [] + f(line) == f(line);
  }

  lemma {:induction false} CutLine(buffer: string, f: string -> seq<string>)
    requires IndexOf(buffer, "\n") >= 0
    ensures var i := IndexOf(buffer, "\n");
            && Split(buffer, "\n").rest == Split(buffer[i + 1..], "\n").rest
            && Payloads(buffer, f) == f(buffer[..i]) + Payloads(buffer[i + 1..], f)
  {
    var i := IndexOf(buffer, "\n");
    SplitUnfold(buffer, "\n");
    CollectAppend([buffer[..i]], Split(buffer[i + 1..], "\n").parts, f);
    CollectOne(buffer[..i], f);
  }

  lemma Regroup(a: seq<string>, b: seq<string>, c: seq<string>)
    ensures a + (b + c) == a + b + c
  {
  }

  /** The inner loop of both parsers: cut complete lines off the buffer. */
  method DrainLines(full: string, f: string -> seq<string>) returns (buffer: string, out: seq<string>)
    ensures out == Payloads(full, f) && buffer == Split(full, "\n").rest
  {
    buffer, out := full, [];
    var newlineIndex := IndexOf(buffer, "\n");
    while newlineIndex != -1
      invariant newlineIndex == IndexOf(buffer, "\n")
      invariant Split(buffer, "\n").rest == Split(full, "\n").rest
      invariant out + Payloads(buffer, f) == Payloads(full, f)
      decreases |buffer|
    {
      CutLine(buffer, f);
      Regroup(out, f(buffer[..newlineIndex]), Payloads(buffer[newlineIndex + 1..], f));
      out := out + f(buffer[..newlineIndex]);
      buffer := buffer[newlineIndex + 1..];
      newlineIndex := IndexOf(buffer, "\n");
    }
  }

  /** parseSSELines (f = SseLine) and parseNDJSONLines (f = NdjsonLine): the payloads do not depend on
      how the body was split into reads. */
  method ParseLines(chunksRead: seq<string>, f: string -> seq<string>) returns (out: seq<string>)
    ensures out == Payloads(Concat(chunksRead), f)
  {
    var buffer := "";
    out := [];
    for r := 0 to |chunksRead|
      invariant out == Payloads(Concat(chunksRead[..r]), f)
      invariant buffer == Split(Concat(chunksRead[..r]), "\n").rest
    {
      assert chunksRead[..r + 1][..r] == chunksRead[..r];
      SplitAppend(Concat(chunksRead[..r]), chunksRead[r], "\n");
      CollectAppend(Split(Concat(chunksRead[..r]), "\n").parts, Split(buffer + chunksRead[r], "\n").parts, f);
      var more;
      buffer, more := DrainLines(buffer + chunksRead[r], f);
      out := out + more;
    }
    assert chunksRead[..|chunksRead|] == chunksRead;
  }

  /** A last line without its newline is never yielded, by either parser. */
  lemma UnterminatedLineIsDropped(body: string, last: string, f: string -> seq<string>)
    requires NoNewline(Split(body, "\n").rest + last)
    ensures Payloads(body + last, f) == Payloads(body, f)
  {
    SplitAppend(body, last, "\n");
    SplitNone(Split(body, "\n").rest + last, "\n");
    assert Split(body, "\n").parts + [] == Split(body, "\n").parts;
  }

  /** A data line yields its payload without the space around it, whatever line ending and padding the
      provider uses; NDJSON yields the line itself. */
  lemma LinesYieldPayloads(pre: string, mid: string, payload: string, post: string)
    requires AllSpace(pre) && AllSpace(mid) && AllSpace(post) && Tight(payload)
    ensures SseLine(pre + (("data:" + (mid + payload)) + post)) == [payload]
    ensures NdjsonLine(pre + (payload + post)) == [payload]
    ensures NdjsonLine(pre) == [] && SseLine(pre) == []
  {
    var t := "data:" + (mid + payload);
    assert t[0] == 'd' && t[|t| - 1] == payload[|payload| - 1];
    TrimAround(pre, t, post);
    assert StartsWith(t, "data:") && t[5..] == mid + payload;
    assert payload + "" == payload;
    TrimAround(mid, payload, "");
    TrimAround(pre, payload, post);
  }

  /** Lines of any other field, and comments, yield nothing. */
  lemma OtherLinesAreIgnored(pre: string, t: string, post: string)
    requires AllSpace(pre) && AllSpace(post) && Tight(t) && !StartsWith(t, "data:")
    ensures SseLine(pre + (t + post)) == []
  {
    TrimAround(pre, t, post);
  }

  function JoinLines(lines: seq<string>): string {
    if lines == [] then "" else lines[0] + ("\n" + JoinLines(lines[1..]))
  }

  lemma {:induction false} LinesComeApart(lines: seq<string>)
    requires forall i :: 0 <= i < |lines| ==> NoNewline(lines[i])
    ensures Split(JoinLines(lines), "\n") == Cut(lines, "")
  {
    if lines == [] {
      SplitNone("", "\n");
    } else {
      LinesComeApart(lines[1..]);
      SplitBody(lines[0], "\n", JoinLines(lines[1..]));
    }
  }

  /** A body of terminated lines yields what its lines yield, in order. */
  lemma BodyYieldsItsLines(lines: seq<string>, f: string -> seq<string>)
    requires forall i :: 0 <= i < |lines| ==> NoNewline(lines[i])
    ensures Payloads(JoinLines(lines), f) == Collect(lines, f)
  {
    LinesComeApart(lines);
  }

  /** For instance with the line ending that most servers use. */
  lemma CarriageReturnIsDropped(payload: string)
    requires Tight(payload)
    ensures SseLine("data: " + payload + "\r") == [payload]
    ensures NdjsonLine(payload + "\r") == [payload]
    ensures SseLine("\r") == [] && NdjsonLine("\r") == []
  {
    LinesYieldPayloads("", " ", payload, "\r");
    LinesYieldPayloads("\r", " ", payload, "");
    assert "data: " + payload + "\r" == "" + (("data:" + (" " + payload)) + "\r");
    assert payload + "\r" == "" + (payload + "\r");
  }
}
