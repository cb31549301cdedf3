/** providers/ollama/oracle.go: the streaming and the one-shot reading of a chat response. */
module Ollama {
  import opened Wrappers

  datatype StopReason = StopComplete | StopLength | StopToolCalls

  // Arguments are carried through unread.
  datatype WireCall = WireCall(name: string, arguments: string)

  datatype ToolCall = ToolCall(id: string, name: string, arguments: string)

  datatype Usage = Usage(prompt: int, completion: int, total: int)

  datatype ChatResponse = ChatResponse(content: string, toolCalls: seq<WireCall>, done: bool, doneReason: string,
                                       promptEvalCount: int, evalCount: int)

  datatype OracleResponse = OracleResponse(content: string, toolCalls: seq<ToolCall>, stopReason: StopReason, usage: Usage)

  // A line of the stream: blank, not JSON, or a chunk.
  datatype Line = Blank | Garbled | Chunk(chunk: ChatResponse)

  datatype StreamError = ApiStatus | DecodeChunk | StreamRead | NoCompletion

  datatype Event =
    | Delta(text: string)
    | Done(toolCalls: seq<ToolCall>, usage: Usage, stopReason: StopReason)
    | Error(error: StreamError)

  function NormalizeStopReason(doneReason: string): StopReason {
    match doneReason
    case "length" => StopLength
    case "stop" => StopComplete
    case _ => StopComplete
  }

  function Converted(c: WireCall): ToolCall {
    ToolCall(c.name, c.name, c.arguments)
  }

  function ConvertedAll(calls: seq<WireCall>): seq<ToolCall> {
    if calls == [] then [] else ConvertedAll(calls[..|calls| - 1]) + [Converted(calls[|calls| - 1])]
  }

  // ---- One-shot ----

  function Parsed(cr: ChatResponse): OracleResponse {
    OracleResponse(cr.content, ConvertedAll(cr.toolCalls),
                   if cr.toolCalls != [] then StopToolCalls else NormalizeStopReason(cr.doneReason),
                   Usage(cr.promptEvalCount, cr.evalCount, cr.promptEvalCount + cr.evalCount))
  }

  method ConvertToolCalls(sofar: seq<ToolCall>, calls: seq<WireCall>) returns (toolCalls: seq<ToolCall>)
    ensures toolCalls == sofar + ConvertedAll(calls)
  {
    toolCalls := sofar;
    for i := 0 to |calls|
      invariant toolCalls == sofar + ConvertedAll(calls[..i])
    {
      toolCalls := toolCalls + [ToolCall(calls[i].name, calls[i].name, calls[i].arguments)];
      assert calls[..i + 1][..i] == calls[..i];
    }
    assert calls[..|calls|] == calls;
  }

  method ParseResponse(cr: ChatResponse) returns (r: OracleResponse)
    ensures r == Parsed(cr)
    ensures r.content == cr.content && r.usage == Usage(cr.promptEvalCount, cr.evalCount, cr.promptEvalCount + cr.evalCount)
    ensures |r.toolCalls| == |cr.toolCalls|
    ensures forall k :: 0 <= k < |cr.toolCalls| ==>
      r.toolCalls[k] == ToolCall(cr.toolCalls[k].name, cr.toolCalls[k].name, cr.toolCalls[k].arguments)
    ensures r.stopReason ==
      if cr.toolCalls != [] then StopToolCalls else if cr.doneReason == "length" then StopLength else StopComplete
  {
    var toolCalls := ConvertToolCalls([], cr.toolCalls);
    var stopReason := NormalizeStopReason(cr.doneReason);
    if |toolCalls| > 0 {
      stopReason := StopToolCalls;
    }
    ConvertedAt(cr.toolCalls);
    r := OracleResponse(cr.content, toolCalls, stopReason,
                        Usage(cr.promptEvalCount, cr.evalCount, cr.promptEvalCount + cr.evalCount));
  }

  /** One tool call for each wire call, in order; the function's name doubles as the missing id. */
  lemma {:induction false} ConvertedAt(calls: seq<WireCall>)
    ensures |ConvertedAll(calls)| == |calls|
    ensures forall k :: 0 <= k < |calls| ==>
      ConvertedAll(calls)[k] == ToolCall(calls[k].name, calls[k].name, calls[k].arguments)
  {
    if calls != [] {
      var front := calls[..|calls| - 1];
      ConvertedAt(front);
      assert forall k :: 0 <= k < |front| ==> calls[k] == front[k];
    }
  }

  lemma {:induction false} ConvertedConcat(a: seq<WireCall>, b: seq<WireCall>)
    ensures ConvertedAll(a + b) == ConvertedAll(a) + ConvertedAll(b)
  {
    if b == [] {
      assert a + b == a;
    } else {
      var ab := a + b;
      assert ab[..|ab| - 1] == a + b[..|b| - 1] && ab[|ab| - 1] == b[|b| - 1];
      ConvertedConcat(a, b[..|b| - 1]);
    }
  }

  // ---- What a stream amounts to ----

  // The first line that ends the stream: a chunk marked done or a line that does not decode.
  function Ending(lines: seq<Line>): nat {
    if lines == [] then 0
    else if lines[0].Garbled? || (lines[0].Chunk? && lines[0].chunk.done) then 0
    else 1 + Ending(lines[1..])
  }

  // The chunks put together: texts and tool calls in order, everything else from the last chunk.
  function Merged(lines: seq<Line>, last: ChatResponse): ChatResponse {
    if lines == [] then last
    else
      var rest := Merged(lines[1..], last);
      if lines[0].Chunk?
      then rest.(content := lines[0].chunk.content + rest.content, toolCalls := lines[0].chunk.toolCalls + rest.toolCalls)
      else rest
  }

  // The deltas of some lines: the texts of their chunks, empty ones left out.
  function DeltasOf(lines: seq<Line>): seq<Event> {
    if lines == [] then []
    else
      var last := lines[|lines| - 1];
      DeltasOf(lines[..|lines| - 1])
      + (if last.Chunk? && last.chunk.content != "" then [Delta(last.chunk.content)] else [])
  }

  // Some chunk among the lines calls a tool.
  predicate CallsTools(lines: seq<Line>) {
    exists i :: 0 <= i < |lines| && lines[i].Chunk? && lines[i].chunk.toolCalls != []
  }

  // The Done event of a stream that ends with this chunk.
  ghost predicate DoneSays(done: Event, lines: seq<Line>, last: ChatResponse) {
    && done.Done?
    && done.usage == Usage(last.promptEvalCount, last.evalCount, last.promptEvalCount + last.evalCount)
    && done.stopReason ==
         (if CallsTools(lines) || last.toolCalls != [] then StopToolCalls
          else if last.doneReason == "length" then StopLength else StopComplete)
    && var calls := Merged(lines, last).toolCalls;
       && |done.toolCalls| == |calls|
       && forall k :: 0 <= k < |calls| ==> done.toolCalls[k] == ToolCall(calls[k].name, calls[k].name, calls[k].arguments)
  }

  // The consumer's assembly of a finished stream.
  function Text(events: seq<Event>): string {
    if events == [] then ""
    else Text(events[..|events| - 1]) + (if events[|events| - 1].Delta? then events[|events| - 1].text else "")
  }

  function Assembled(events: seq<Event>): Option<OracleResponse> {
    if events != [] && events[|events| - 1].Done?
    then
      var d := events[|events| - 1];
      Some(OracleResponse(Text(events), d.toolCalls, d.stopReason, d.usage))
    else None
  }

  // Any number of deltas, none of them empty, and then one final event.
  ghost predicate WellFormed(events: seq<Event>) {
    && events != []
    && !events[|events| - 1].Delta?
    && forall i :: 0 <= i < |events| - 1 ==> events[i].Delta? && events[i].text != ""
  }

  // ---- Streaming ----

  ghost predicate Deltas(events: seq<Event>) {
    forall j :: 0 <= j < |events| ==> events[j].Delta? && events[j].text != ""
  }

  // The running totals after some lines: the text emitted and the tool calls collected.
  ghost predicate Tracks(events: seq<Event>, toolCalls: seq<ToolCall>, lines: seq<Line>) {
    && Deltas(events)
    && events == DeltasOf(lines)
    && Text(events) == Merged(lines, NOTHING).content
    && toolCalls == ConvertedAll(Merged(lines, NOTHING).toolCalls)
  }

  /** Whatever arrives, the stream is the deltas of the chunks and then one Done or Error; a Done says
      exactly what the one-shot parse would say of the merged chunks, and an Error says why there was none. */
  method GenerateStream(statusOK: bool, lines: seq<Line>, readError: bool) returns (events: seq<Event>)
    ensures WellFormed(events)
    ensures var e := Ending(lines);
      Assembled(events) ==
        if statusOK && e < |lines| && lines[e].Chunk?
        then Some(Parsed(Merged(lines[..e], lines[e].chunk))) else None
    ensures !statusOK ==> events == [Error(ApiStatus)]
    ensures statusOK && Ending(lines) >= |lines| ==>
      events == DeltasOf(lines) + [Error(if readError then StreamRead else NoCompletion)]
    ensures var e := Ending(lines);
      statusOK && e < |lines| && lines[e].Garbled? ==> events == DeltasOf(lines[..e]) + [Error(DecodeChunk)]
    ensures var e, last := Ending(lines), events[|events| - 1];
      statusOK && e < |lines| && lines[e].Chunk? ==>
        events == DeltasOf(lines[..e + 1]) + [last] && DoneSays(last, lines[..e], lines[e].chunk)
  {
    EndingBound(lines);
    if !statusOK {
      return [Error(ApiStatus)];
    }
    events := [];
    var toolCalls: seq<ToolCall> := [];
    for i := 0 to |lines|
      invariant i <= Ending(lines)
      invariant Tracks(events, toolCalls, lines[..i])
    {
      EndingAt(lines, i);
      MergedSnoc(lines, i);
      assert lines[..i + 1][..i] == lines[..i];
      if lines[i].Blank? {
        continue;
      }
      if lines[i].Garbled? {
        return events + [Error(DecodeChunk)];
      }
      ghost var before := lines[..i];
      if lines[i].chunk.done {
        events := FinishStream(events, toolCalls, lines[i].chunk, before);
        return;
      }
      events, toolCalls := EmitChunk(events, toolCalls, lines[i].chunk, before);
    }
    assert lines[..|lines|] == lines;
    return events + [Error(if readError then StreamRead else NoCompletion)];
  }

  // The text of a chunk goes out as a delta, its tool calls are kept.
  method EmitChunk(events: seq<Event>, toolCalls: seq<ToolCall>, chunk: ChatResponse, ghost lines: seq<Line>)
    returns (out: seq<Event>, calls: seq<ToolCall>)
    requires Tracks(events, toolCalls, lines)
    ensures out == events + (if chunk.content != "" then [Delta(chunk.content)] else [])
    ensures Deltas(out) && Text(out) == Merged(lines, NOTHING).content + chunk.content
    ensures calls == ConvertedAll(Merged(lines, NOTHING).toolCalls + chunk.toolCalls)
  {
    out := events;
    if chunk.content != "" {
      TextSnoc(events, Delta(chunk.content));
      out := events + [Delta(chunk.content)];
    }
    ConvertedConcat(Merged(lines, NOTHING).toolCalls, chunk.toolCalls);
    calls := ConvertToolCalls(toolCalls, chunk.toolCalls);
  }

  // A chunk marked done is emitted like any other and followed by the Done event.
  method FinishStream(events: seq<Event>, toolCalls: seq<ToolCall>, chunk: ChatResponse, ghost lines: seq<Line>)
    returns (out: seq<Event>)
    requires Tracks(events, toolCalls, lines)
    ensures WellFormed(out) && Assembled(out) == Some(Parsed(Merged(lines, chunk)))
    ensures out == events + (if chunk.content != "" then [Delta(chunk.content)] else []) + [out[|out| - 1]]
    ensures DoneSays(out[|out| - 1], lines, chunk)
  {
    var deltas, calls := EmitChunk(events, toolCalls, chunk, lines);
    var stopReason := NormalizeStopReason(chunk.doneReason);
    if |calls| > 0 {
      stopReason := StopToolCalls;
    }
    var final := Done(calls, Usage(chunk.promptEvalCount, chunk.evalCount, chunk.promptEvalCount + chunk.evalCount), stopReason);
    Finishes(deltas, final, lines, chunk);
    out := deltas + [final];
  }

  // What was emitted and collected up to and including the last chunk fits the merged response.
  lemma Finishes(deltas: seq<Event>, final: Event, lines: seq<Line>, last: ChatResponse)
    requires Deltas(deltas) && Text(deltas) == Merged(lines, NOTHING).content + last.content
    requires final.Done? && final.toolCalls == ConvertedAll(Merged(lines, NOTHING).toolCalls + last.toolCalls)
    requires final.stopReason == if |final.toolCalls| > 0 then StopToolCalls else NormalizeStopReason(last.doneReason)
    requires final.usage == Usage(last.promptEvalCount, last.evalCount, last.promptEvalCount + last.evalCount)
    ensures WellFormed(deltas + [final]) && Assembled(deltas + [final]) == Some(Parsed(Merged(lines, last)))
    ensures DoneSays(final, lines, last)
  {
    MergedWithLast(lines, last);
    FinalAssembles(deltas, final, Merged(lines, last));
    FinalSays(final, lines, last);
  }

  // Deltas that spell out a response, and the Done event that carries the rest of it.
  lemma FinalAssembles(deltas: seq<Event>, final: Event, merged: ChatResponse)
    requires Deltas(deltas) && Text(deltas) == merged.content
    requires final.Done? && final.toolCalls == ConvertedAll(merged.toolCalls)
    requires final.stopReason == if |final.toolCalls| > 0 then StopToolCalls else NormalizeStopReason(merged.doneReason)
    requires final.usage == Usage(merged.promptEvalCount, merged.evalCount, merged.promptEvalCount + merged.evalCount)
    ensures WellFormed(deltas + [final]) && Assembled(deltas + [final]) == Some(Parsed(merged))
  {
    ConvertedAt(merged.toolCalls);
    TextSnoc(deltas, final);
    assert Text(deltas) + "" == Text(deltas);
  }

  lemma FinalSays(final: Event, lines: seq<Line>, last: ChatResponse)
    requires final.Done? && final.toolCalls == ConvertedAll(Merged(lines, last).toolCalls)
    requires final.stopReason == if |final.toolCalls| > 0 then StopToolCalls else NormalizeStopReason(last.doneReason)
    requires final.usage == Usage(last.promptEvalCount, last.evalCount, last.promptEvalCount + last.evalCount)
    ensures DoneSays(final, lines, last)
  {
    ConvertedAt(Merged(lines, last).toolCalls);
    MergedCallsTools(lines, last);
  }

  lemma {:induction false} MergedCallsTools(lines: seq<Line>, last: ChatResponse)
    ensures Merged(lines, last).toolCalls != [] <==> CallsTools(lines) || last.toolCalls != []
  {
    if lines != [] {
      MergedCallsTools(lines[1..], last);
      assert CallsTools(lines) <==> (lines[0].Chunk? && lines[0].chunk.toolCalls != []) || CallsTools(lines[1..]) by {
        assert forall i :: 1 <= i < |lines| ==> lines[i] == lines[1..][i - 1];
        assert forall i :: 0 <= i < |lines[1..]| ==> lines[1..][i] == lines[i + 1];
      }
    }
  }

  const NOTHING := ChatResponse("", [], false, "", 0, 0)

  lemma TextSnoc(events: seq<Event>, e: Event)
    ensures Text(events + [e]) == Text(events) + (if e.Delta? then e.text else "")
  {
    assert (events + [e])[..|events|] == events;
  }

  lemma {:induction false} EndingBound(lines: seq<Line>)
    ensures Ending(lines) <= |lines|
    ensures forall j :: 0 <= j < Ending(lines) ==> !lines[j].Garbled? && (lines[j].Chunk? ==> !lines[j].chunk.done)
    ensures Ending(lines) < |lines| ==>
      var l := lines[Ending(lines)]; l.Garbled? || (l.Chunk? && l.chunk.done)
  {
    if lines != [] { EndingBound(lines[1..]); }
  }

  lemma EndingAt(lines: seq<Line>, i: nat)
    requires i < |lines| && i <= Ending(lines)
    ensures Ending(lines) == i <==> lines[i].Garbled? || (lines[i].Chunk? && lines[i].chunk.done)
  {
    EndingBound(lines);
  }

  // Appending one more line to what was merged so far.
  lemma {:induction false} MergedSnoc(lines: seq<Line>, i: nat)
    requires i < |lines|
    ensures var before, after := Merged(lines[..i], NOTHING), Merged(lines[..i + 1], NOTHING);
      after == if lines[i].Chunk?
               then before.(content := before.content + lines[i].chunk.content, toolCalls := before.toolCalls + lines[i].chunk.toolCalls)
               else before
    decreases i
  {
    if i > 0 {
      assert lines[1..][..i - 1] == lines[..i][1..] && lines[1..][..i] == lines[..i + 1][1..];
      MergedSnoc(lines[1..], i - 1);
    }
  }

  lemma ConcatAssociates<T>(x: seq<T>, y: seq<T>, z: seq<T>)
    ensures (x + y) + z == x + (y + z)
  {
  }

  lemma {:induction false} MergedWithLast(lines: seq<Line>, last: ChatResponse)
    ensures var m := Merged(lines, NOTHING);
      Merged(lines, last) == last.(content := m.content + last.content, toolCalls := m.toolCalls + last.toolCalls)
  {
    if lines != [] {
      var chunk, m := lines[0], Merged(lines[1..], NOTHING);
      MergedWithLast(lines[1..], last);
      if chunk.Chunk? {
        ConcatAssociates(chunk.chunk.content, m.content, last.content);
        ConcatAssociates(chunk.chunk.toolCalls, m.toolCalls, last.toolCalls);
      }
    }
  }
}
