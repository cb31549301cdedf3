/** providers/gemini/oracle.go: a transcript becomes a chat history and the parts to send, with every
    run of tool results merged into one user turn. */
module Gemini {
  datatype Role = User | Assistant | System | Tool | OtherRole(name: string)

  // Arguments and thought signatures are carried through unread.
  datatype ToolCall = ToolCall(name: string, arguments: string, thoughtSignature: string)

  datatype Message = Message(role: Role, content: string, toolCalls: seq<ToolCall>, toolName: string)

  datatype Attachment = Attachment(mimeType: string, data: seq<bv8>)

  datatype Part =
    | Text(text: string)
    | FunctionCall(name: string, arguments: string, thoughtSignature: string)
    | FunctionResponse(name: string, result: string)
    | InlineData(mimeType: string, data: seq<bv8>)

  datatype TurnRole = UserTurn | ModelTurn

  datatype Turn = Turn(role: TurnRole, parts: seq<Part>)

  // ---- One message ----

  function CallParts(calls: seq<ToolCall>): seq<Part> {
    if calls == [] then []
    else
      var last := calls[|calls| - 1];
      CallParts(calls[..|calls| - 1]) + [FunctionCall(last.name, last.arguments, last.thoughtSignature)]
  }

  function BuildMessageParts(m: Message): seq<Part> {
    if m.role.Tool? then [FunctionResponse(m.toolName, m.content)]
    else (if m.content != "" then [Text(m.content)] else []) + CallParts(m.toolCalls)
  }

  function ConvertRole(role: Role): TurnRole {
    if role.Assistant? then ModelTurn else UserTurn
  }

  // A message with nothing to say has no turn.
  function ConvertMessageToContent(m: Message): seq<Turn> {
    var parts := BuildMessageParts(m);
    if parts == [] then [] else [Turn(ConvertRole(m.role), parts)]
  }

  lemma {:induction false} CallPartsAt(calls: seq<ToolCall>)
    ensures |CallParts(calls)| == |calls|
    ensures forall k :: 0 <= k < |calls| ==>
      CallParts(calls)[k] == FunctionCall(calls[k].name, calls[k].arguments, calls[k].thoughtSignature)
  {
    if calls != [] {
      var front := calls[..|calls| - 1];
      CallPartsAt(front);
      assert forall k :: 0 <= k < |front| ==> calls[k] == front[k];
    }
  }

  /** A tool message is one function response; any other message is its text, if it has one, followed by
      one function call for each of its tool calls, in order. It has no turn exactly when it has neither. */
  lemma MessageReads(m: Message)
    ensures m.role.Tool? ==> BuildMessageParts(m) == [FunctionResponse(m.toolName, m.content)]
    ensures !m.role.Tool? ==>
      var parts, texts := BuildMessageParts(m), if m.content == "" then 0 else 1;
      && |parts| == texts + |m.toolCalls|
      && (texts == 1 ==> parts[0] == Text(m.content))
      && forall k :: 0 <= k < |m.toolCalls| ==>
           var call := m.toolCalls[k];
           parts[texts + k] == FunctionCall(call.name, call.arguments, call.thoughtSignature)
    ensures ConvertMessageToContent(m) == [] <==> !m.role.Tool? && m.content == "" && m.toolCalls == []
  {
    CallPartsAt(m.toolCalls);
  }

  // ---- What the history should be ----

  predicate IsTool(ms: seq<Message>, i: int) {
    0 <= i < |ms| && ms[i].role.Tool?
  }

  predicate EndsWithTool(ms: seq<Message>) {
    ms != [] && ms[|ms| - 1].role.Tool?
  }

  // A tool result joins the turn of the tool result just before it, every other message opens its own turn.
  function Grow(turns: seq<Turn>, afterTool: bool, m: Message): seq<Turn> {
    if !m.role.Tool? then turns + ConvertMessageToContent(m)
    else if afterTool && turns != []
    then turns[|turns| - 1 := Turn(UserTurn, turns[|turns| - 1].parts + BuildMessageParts(m))]
    else turns + [Turn(UserTurn, BuildMessageParts(m))]
  }

  function History(ms: seq<Message>): seq<Turn> {
    if ms == [] then []
    else
      var front := ms[..|ms| - 1];
      Grow(History(front), EndsWithTool(front), ms[|ms| - 1])
  }

  function AllParts(ms: seq<Message>): seq<Part> {
    if ms == [] then [] else AllParts(ms[..|ms| - 1]) + BuildMessageParts(ms[|ms| - 1])
  }

  function Flatten(turns: seq<Turn>): seq<Part> {
    if turns == [] then [] else Flatten(turns[..|turns| - 1]) + turns[|turns| - 1].parts
  }

  // All of ms[a..b] are tool results.
  predicate ToolRun(ms: seq<Message>, a: nat, b: nat) {
    a <= b <= |ms| && forall i :: a <= i < b ==> ms[i].role.Tool?
  }

  // ---- Building these up one message at a time ----

  lemma HistorySnoc(front: seq<Message>, m: Message)
    ensures History(front + [m]) == Grow(History(front), EndsWithTool(front), m)
  {
    assert (front + [m])[..|front|] == front;
  }

  lemma AllPartsSnoc(front: seq<Message>, m: Message)
    ensures AllParts(front + [m]) == AllParts(front) + BuildMessageParts(m)
  {
    assert (front + [m])[..|front|] == front;
  }

  lemma FlattenSnoc(turns: seq<Turn>, t: Turn)
    ensures Flatten(turns + [t]) == Flatten(turns) + t.parts
  {
    assert (turns + [t])[..|turns|] == turns;
  }

  lemma ConcatAssociates<T>(x: seq<T>, y: seq<T>, z: seq<T>)
    ensures (x + y) + z == x + (y + z)
  {
  }

  lemma SliceSnoc<T>(s: seq<T>, a: nat, b: nat)
    requires a <= b < |s|
    ensures s[a..b + 1] == s[a..b] + [s[b]]
  {
  }

  lemma SliceJoin<T>(s: seq<T>, a: nat, b: nat)
    requires a <= b <= |s|
    ensures s[..b] == s[..a] + s[a..b]
    ensures s[..|s|] == s
    ensures b == |s| ==> s[a..b] == s[a..]
  {
  }

  // ---- Runs of tool results ----

  predicate AllTools(ms: seq<Message>) {
    forall m :: m in ms ==> m.role.Tool?
  }

  predicate StartsWithTool(ms: seq<Message>) {
    ms != [] && ms[0].role.Tool?
  }

  lemma OneResult(m: Message)
    ensures AllParts([m]) == BuildMessageParts(m)
  {
    AllPartsSnoc([], m);
    assert [] + [m] == [m] && [] + BuildMessageParts(m) == BuildMessageParts(m);
  }

  lemma GrowLast(turns: seq<Turn>, t: Turn, m: Message)
    requires m.role.Tool?
    ensures Grow(turns + [t], true, m) == turns + [Turn(UserTurn, t.parts + BuildMessageParts(m))]
  {
  }

  /** A run of tool results behind something else adds exactly one user turn, made of all their parts. */
  lemma {:induction false} RunIsOneTurn(before: seq<Message>, run: seq<Message>)
    requires run != [] && AllTools(run) && !EndsWithTool(before)
    ensures History(before + run) == History(before) + [Turn(UserTurn, AllParts(run))]
    decreases |run|
  {
    var front, m := run[..|run| - 1], run[|run| - 1];
    assert run == front + [m];
    AllPartsSnoc(front, m);
    HistorySnoc(before + front, m);
    ConcatAssociates(before, front, [m]);
    if front == [] {
      OneResult(m);
      assert before + front == before && run == [m];
    } else {
      RunIsOneTurn(before, front);
      assert EndsWithTool(before + front);
      GrowLast(History(before), Turn(UserTurn, AllParts(front)), m);
    }
  }

  /** Any other message with text or tool calls adds one turn of its own parts, spoken by the model exactly
      when the message is the assistant's; a message with neither adds nothing. */
  lemma MessageIsOwnTurn(before: seq<Message>, m: Message)
    requires !m.role.Tool?
    ensures m.content == "" && m.toolCalls == [] ==> History(before + [m]) == History(before)
    ensures m.content != "" || m.toolCalls != [] ==>
      History(before + [m]) ==
        History(before) + [Turn(if m.role.Assistant? then ModelTurn else UserTurn, BuildMessageParts(m))]
  {
    HistorySnoc(before, m);
    MessageReads(m);
    assert History(before) + [] == History(before);
  }

  lemma GrowConserves(turns: seq<Turn>, afterTool: bool, m: Message)
    ensures Flatten(Grow(turns, afterTool, m)) == Flatten(turns) + BuildMessageParts(m)
  {
    var parts := BuildMessageParts(m);
    if !m.role.Tool? {
      if parts == [] {
        assert turns + [] == turns;
      } else {
        FlattenSnoc(turns, Turn(ConvertRole(m.role), parts));
      }
    } else if afterTool && turns != [] {
      var front, last := turns[..|turns| - 1], turns[|turns| - 1];
      assert Grow(turns, afterTool, m) == front + [Turn(UserTurn, last.parts + parts)];
      FlattenSnoc(front, Turn(UserTurn, last.parts + parts));
      ConcatAssociates(Flatten(front), last.parts, parts);
    } else {
      FlattenSnoc(turns, Turn(UserTurn, parts));
    }
  }

  /** Nothing is lost, repeated or moved on the way into the history. */
  lemma {:induction false} HistoryConserves(ms: seq<Message>)
    ensures Flatten(History(ms)) == AllParts(ms)
    ensures EndsWithTool(ms) ==> History(ms) != []
  {
    if ms != [] {
      var front := ms[..|ms| - 1];
      HistoryConserves(front);
      GrowConserves(History(front), EndsWithTool(front), ms[|ms| - 1]);
    }
  }

  lemma {:induction false} AllPartsConcat(a: seq<Message>, b: seq<Message>)
    ensures AllParts(a + b) == AllParts(a) + AllParts(b)
  {
    if b == [] {
      assert a + b == a;
    } else {
      var front, m := b[..|b| - 1], b[|b| - 1];
      assert b == front + [m];
      ConcatAssociates(a, front, [m]);
      AllPartsSnoc(a + front, m);
      AllPartsConcat(a, front);
      ConcatAssociates(AllParts(a), AllParts(front), BuildMessageParts(m));
    }
  }

  // Growing behind a boundary leaves the turns before it alone.
  lemma GrowSplits(x: seq<Turn>, y: seq<Turn>, afterTool: bool, inside: bool, m: Message)
    requires inside ==> y != []
    requires !m.role.Tool? || afterTool == inside
    ensures Grow(x + y, afterTool, m) == x + Grow(y, inside, m)
  {
  }

  /** The turns before a boundary do not depend on what follows, and what follows is converted on its
      own, unless the boundary falls inside a run of tool results. */
  lemma {:induction false} HistorySplits(before: seq<Message>, after: seq<Message>)
    requires !(EndsWithTool(before) && StartsWithTool(after))
    ensures History(before + after) == History(before) + History(after)
    decreases |after|
  {
    if after == [] {
      assert before + after == before && History(before) + [] == History(before);
    } else {
      var front, m := after[..|after| - 1], after[|after| - 1];
      assert after == front + [m];
      assert !StartsWithTool(front) || StartsWithTool(after);
      HistorySplits(before, front);
      ConcatAssociates(before, front, [m]);
      HistorySnoc(before + front, m);
      HistorySnoc(front, m);
      HistoryConserves(front);
      assert EndsWithTool(before + front) == if front == [] then EndsWithTool(before) else EndsWithTool(front) by {
        assert front == [] ==> before + front == before;
      }
      GrowSplits(History(before), History(front), EndsWithTool(before + front), EndsWithTool(front), m);
    }
  }

  /** Every maximal run of tool results is exactly one user turn of the history, between the turns of
      what comes before and the turns of what comes after. */
  lemma MaximalRunIsOneTurn(before: seq<Message>, run: seq<Message>, after: seq<Message>)
    requires run != [] && AllTools(run) && !EndsWithTool(before) && !StartsWithTool(after)
    ensures History(before + run + after) == History(before) + [Turn(UserTurn, AllParts(run))] + History(after)
  {
    RunIsOneTurn(before, run);
    HistorySplits(before + run, after);
  }

  // ---- The conversion itself ----

  method ConvertToHistory(messages: seq<Message>) returns (history: seq<Turn>)
    ensures history == History(messages)
  {
    history := [];
    var i := 0;
    while i < |messages|
      invariant 0 <= i <= |messages|
      invariant history == History(messages[..i])
      invariant !(IsTool(messages, i - 1) && IsTool(messages, i))
      decreases |messages| - i
    {
      var m := messages[i];
      if m.role.Tool? {
        var parts: seq<Part> := [];
        ghost var start := i;
        while i < |messages| && messages[i].role.Tool?
          invariant start <= i <= |messages|
          invariant ToolRun(messages, start, i)
          invariant parts == AllParts(messages[start..i])
          decreases |messages| - i
        {
          ResultJoins(messages, start, i);
          parts := parts + BuildMessageParts(messages[i]);
          i := i + 1;
        }
        RunJoins(messages, start, i);
        history := history + [Turn(UserTurn, parts)];
      } else {
        MessageJoins(messages, i);
        history := history + ConvertMessageToContent(m);
        i := i + 1;
      }
    }
    assert messages[..i] == messages;
  }

  lemma ResultJoins(ms: seq<Message>, start: nat, i: nat)
    requires start <= i < |ms|
    ensures AllParts(ms[start..i + 1]) == AllParts(ms[start..i]) + BuildMessageParts(ms[i])
  {
    AllPartsSnoc(ms[start..i], ms[i]);
    SliceSnoc(ms, start, i);
  }

  lemma RunJoins(ms: seq<Message>, start: nat, i: nat)
    requires start < i && ToolRun(ms, start, i) && !IsTool(ms, start - 1)
    ensures History(ms[..i]) == History(ms[..start]) + [Turn(UserTurn, AllParts(ms[start..i]))]
  {
    RunIsOneTurn(ms[..start], ms[start..i]);
    SliceJoin(ms, start, i);
  }

  lemma MessageJoins(ms: seq<Message>, i: nat)
    requires i < |ms| && !ms[i].role.Tool?
    ensures History(ms[..i + 1]) == History(ms[..i]) + ConvertMessageToContent(ms[i])
  {
    HistorySnoc(ms[..i], ms[i]);
    SliceSnoc(ms, 0, i);
  }

  // ---- Splitting history from what is sent ----

  function AttachmentParts(attachments: seq<Attachment>): seq<Part> {
    if attachments == [] then []
    else
      var last := attachments[|attachments| - 1];
      AttachmentParts(attachments[..|attachments| - 1])
      + (if last.data != [] then [InlineData(last.mimeType, last.data)] else [])
  }

  // Where the sent messages start: the trailing run of tool results, or else a final user message.
  ghost predicate BatchStart(ms: seq<Message>, b: nat) {
    && b <= |ms|
    && (ToolRun(ms, b, |ms|) || (b == |ms| - 1 && ms[b].role.User?))
    && (b == |ms| && b > 0 ==> !ms[b - 1].role.Tool? && !ms[b - 1].role.User?)
    && (b < |ms| && ms[b].role.Tool? ==> !IsTool(ms, b - 1))
  }

  /** The split point is unique. */
  lemma BatchStartIsUnique(ms: seq<Message>, a: nat, b: nat)
    requires BatchStart(ms, a) && BatchStart(ms, b)
    ensures a == b
  {
    assert forall i: int :: a <= i < |ms| && ToolRun(ms, a, |ms|) ==> IsTool(ms, i);
    assert forall i: int :: b <= i < |ms| && ToolRun(ms, b, |ms|) ==> IsTool(ms, i);
  }

  method SplitMessagesForChat(messages: seq<Message>, attachments: seq<Attachment>)
    returns (history: seq<Turn>, sendParts: seq<Part>, ghost b: nat)
    ensures BatchStart(messages, b)
    ensures history == History(messages[..b])
    ensures var own := AllParts(messages[b..]) + AttachmentParts(attachments);
      sendParts == if own == [] then [Text(" ")] else own
    ensures sendParts != []
    ensures Flatten(history) + AllParts(messages[b..]) == AllParts(messages)
  {
    var n := |messages|;
    var batchStart := n;
    while batchStart > 0 && messages[batchStart - 1].role.Tool?
      invariant 0 <= batchStart <= n && ToolRun(messages, batchStart, n)
    {
      batchStart := batchStart - 1;
    }
    if batchStart == n && n > 0 && messages[n - 1].role.User? {
      batchStart := n - 1;
    }
    b := batchStart;
    history := ConvertToHistory(messages[..batchStart]);
    sendParts := PartsFrom(messages[batchStart..]);
    SplitConserves(messages[..b], messages[b..]);
    SliceJoin(messages, b, |messages|);
    if |attachments| > 0 {
      var extra := ConvertAttachmentsToParts(attachments);
      sendParts := sendParts + extra;
    }
    if |sendParts| == 0 {
      sendParts := [Text(" ")];
    }
  }

  lemma SplitConserves(front: seq<Message>, back: seq<Message>)
    ensures Flatten(History(front)) + AllParts(back) == AllParts(front + back)
  {
    HistoryConserves(front);
    AllPartsConcat(front, back);
  }

  method PartsFrom(batch: seq<Message>) returns (parts: seq<Part>)
    ensures parts == AllParts(batch)
  {
    parts := [];
    for i := 0 to |batch|
      invariant parts == AllParts(batch[..i])
    {
      AllPartsSnoc(batch[..i], batch[i]);
      SliceSnoc(batch, 0, i);
      parts := parts + BuildMessageParts(batch[i]);
    }
    assert batch[..|batch|] == batch;
  }

  lemma {:induction false} AttachmentsInOrder(a: seq<Attachment>, b: seq<Attachment>)
    ensures AttachmentParts(a + b) == AttachmentParts(a) + AttachmentParts(b)
  {
    if b == [] {
      assert a + b == a;
    } else {
      var front, last := b[..|b| - 1], b[|b| - 1];
      assert (a + b)[..|a + b| - 1] == a + front && (a + b)[|a + b| - 1] == last;
      AttachmentsInOrder(a, front);
      ConcatAssociates(AttachmentParts(a), AttachmentParts(front),
                       if last.data != [] then [InlineData(last.mimeType, last.data)] else []);
    }
  }

  /** One attachment becomes one part with its MIME type and data, or none when it carries no data. */
  lemma AttachmentReads(a: Attachment)
    ensures AttachmentParts([a]) == if a.data == [] then [] else [InlineData(a.mimeType, a.data)]
  {
    assert [a][..0] == [];
  }

  method ConvertAttachmentsToParts(attachments: seq<Attachment>) returns (parts: seq<Part>)
    ensures parts == AttachmentParts(attachments)
  {
    parts := [];
    for i := 0 to |attachments|
      invariant parts == AttachmentParts(attachments[..i])
    {
      if |attachments[i].data| > 0 {
        parts := parts + [InlineData(attachments[i].mimeType, attachments[i].data)];
      }
      assert attachments[..i + 1][..i] == attachments[..i];
    }
    assert attachments[..|attachments|] == attachments;
  }

  // What is left of a split and right of a position before it.
  lemma PrefixParts(before: seq<Message>, run: seq<Message>, after: seq<Message>, split: nat)
    requires |before| + |run| <= split <= |before| + |run| + |after|
    ensures (before + run + after)[..split] == before + run + after[..split - |before| - |run|]
  {
  }

  /** A maximal run of tool results lies wholly on one side of the split: either all of it is sent, or it
      is exactly one turn of the history. */
  lemma RunIsNeverSplit(before: seq<Message>, run: seq<Message>, after: seq<Message>, split: nat)
    requires run != [] && AllTools(run) && !EndsWithTool(before) && !StartsWithTool(after)
    requires BatchStart(before + run + after, split)
    ensures (split == |before| && after == []) || |before| + |run| <= split
    ensures |before| + |run| <= split ==>
      History((before + run + after)[..split]) ==
        History(before) + [Turn(UserTurn, AllParts(run))] + History(after[..split - |before| - |run|])
  {
    var ms, end := before + run + after, |before| + |run|;
    if split < end {
      RunEdges(before, run, after);
      assert ms[end - 1].role.Tool?;
      assert ToolRun(ms, split, |ms|) || split == |ms| - 1;
    } else {
      PrefixParts(before, run, after, split);
      MaximalRunIsOneTurn(before, run, after[..split - end]);
    }
  }

  lemma RunEdges(before: seq<Message>, run: seq<Message>, after: seq<Message>)
    requires run != [] && AllTools(run) && !EndsWithTool(before) && !StartsWithTool(after)
    ensures var ms, end := before + run + after, |before| + |run|;
      ToolRun(ms, |before|, end) && !IsTool(ms, |before| - 1) && !IsTool(ms, end)
  {
  }
}
