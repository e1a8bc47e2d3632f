/** parseSSE as a scan over the decoded events of an upstream stream. */
module Sse {
  import opened Options
  import opened Text

  datatype Event =
    | Message(taskId: string, conversationId: string, messageId: string, answer: string)  // message, agent_message
    | MessageEnd(conversationId: string, messageId: string, totalTokens: int)
    | MessageReplace(answer: string)
    | ErrorEvent(code: string, message: string)
    | Ignored                                                                             // ping, node_started, ...
    | Undecodable

  /** How the scanner stops when no event ended the stream. */
  datatype Tail = EndOfStream | ReadError(deadlineExceeded: bool)

  datatype ChatResult = ChatResult(conversationId: string, messageId: string, totalTokens: int)

  datatype StreamFailure =
    | Replaced(fallback: string)
    | UpstreamReported(code: string)
    | BadEvent
    | ReadFailed(deadlineExceeded: bool)
    | Incomplete

  predicate IsFinal(e: Event) {
    e.MessageEnd? || e.MessageReplace? || e.ErrorEvent? || e.Undecodable?
  }

  /** How many events are read before the one that ends the stream. */
  function Length(events: seq<Event>): (n: nat)
    ensures n <= |events|
    ensures forall i :: 0 <= i < n ==> !IsFinal(events[i])
    ensures n < |events| ==> IsFinal(events[n])
  {
    if events == [] || IsFinal(events[0]) then 0 else 1 + Length(events[1..])
  }

  /** The answers of message events, in order, leaving out empty ones. */
  function Answers(events: seq<Event>): seq<string> {
    if events == [] then []
    else
      var rest := Answers(events[..|events| - 1]);
      var e := events[|events| - 1];
      if e.Message? && e.answer != "" then rest + [e.answer] else rest
  }

  /** The deltas of a stream: the answers before the event that ends it. */
  function Deltas(events: seq<Event>): seq<string> {
    Answers(events[..Length(events)])
  }

  /** The conversation of a stream: that of its message_end if it names one, else
      the first nonempty one among the messages before the end. */
  function FirstConversation(events: seq<Event>): string {
    if events == [] then ""
    else
      var earlier, e := FirstConversation(events[..|events| - 1]), events[|events| - 1];
      if earlier == "" && e.Message? then e.conversationId else earlier
  }

  function FirstMessageId(events: seq<Event>): string {
    if events == [] then ""
    else
      var earlier, e := FirstMessageId(events[..|events| - 1]), events[|events| - 1];
      if earlier == "" && e.Message? then e.messageId else earlier
  }

  /** The task id that onEvent is given: that of the first message event. */
  function FirstTask(events: seq<Event>): Option<string> {
    if events == [] then None
    else
      var earlier, e := FirstTask(events[..|events| - 1]), events[|events| - 1];
      if earlier.None? && e.Message? then Some(e.taskId) else earlier
  }

  predicate EndsWell(events: seq<Event>) {
    Length(events) < |events| && events[Length(events)].MessageEnd?
  }

  function ConversationOf(events: seq<Event>): string {
    var n := Length(events);
    if EndsWell(events) && events[n].conversationId != "" then events[n].conversationId
    else FirstConversation(events[..n])
  }

  /** The message id, chosen among the events in the same way. */
  function MessageIdOf(events: seq<Event>): string {
    var n := Length(events);
    if EndsWell(events) && events[n].messageId != "" then events[n].messageId
    else FirstMessageId(events[..n])
  }

  function FailureOf(events: seq<Event>, tail: Tail): Option<StreamFailure> {
    var n := Length(events);
    if n == |events| then Some(if tail.ReadError? then ReadFailed(tail.deadlineExceeded) else Incomplete)
    else match events[n]
      case MessageEnd(_, _, _) => None
      case MessageReplace(answer) => Some(Replaced(answer))
      case ErrorEvent(code, _) => Some(UpstreamReported(code))
      case _ => Some(BadEvent)
  }

  function TokensOf(events: seq<Event>): int {
    if EndsWell(events) then events[Length(events)].totalTokens else 0
  }

  // ---- what these say about the events ----

  ghost predicate GoesOn(e: Event) {
    e.Message? || e.Ignored?
  }

  /** `e` is the event that ends the stream: the first that is neither a message nor
      ignored. */
  ghost predicate EndsWith(events: seq<Event>, n: nat, e: Event) {
    n < |events| && events[n] == e && !GoesOn(e) && forall i :: 0 <= i < n ==> GoesOn(events[i])
  }

  ghost predicate NeverEnds(events: seq<Event>) {
    forall i :: 0 <= i < |events| ==> GoesOn(events[i])
  }

  /** The stream succeeds exactly if message_end is the event that ends it, and then
      the tokens are that event's. Otherwise there are no tokens, and the error is
      the replacement, the upstream error or the undecodable event that ended it, or
      the reason why nothing did. */
  lemma HowItEnds(events: seq<Event>, tail: Tail)
    ensures forall n, e :: EndsWith(events, n, e) ==>
              match e
              case MessageEnd(_, _, tokens) => FailureOf(events, tail) == None && TokensOf(events) == tokens
              case MessageReplace(answer) => FailureOf(events, tail) == Some(Replaced(answer)) && TokensOf(events) == 0
              case ErrorEvent(code, _) => FailureOf(events, tail) == Some(UpstreamReported(code)) && TokensOf(events) == 0
              case Undecodable => FailureOf(events, tail) == Some(BadEvent) && TokensOf(events) == 0
              case _ => false
    ensures NeverEnds(events) ==>
              && TokensOf(events) == 0
              && FailureOf(events, tail) == Some(if tail == EndOfStream then Incomplete else ReadFailed(tail.deadlineExceeded))
  {
    hide Length;
    forall n, e | EndsWith(events, n, e) ensures Length(events) == n { LengthFrom(events, n); }
    if NeverEnds(events) { LengthFrom(events, |events|); }
  }

  /** `id` is the first nonempty one, by `field`, among the messages of `events`. */
  ghost predicate IsFirst(events: seq<Event>, field: Event -> string, id: string) {
    if id == "" then forall i :: 0 <= i < |events| && events[i].Message? ==> field(events[i]) == ""
    else exists i :: 0 <= i < |events| && events[i].Message? && field(events[i]) == id &&
                     forall j :: 0 <= j < i && events[j].Message? ==> field(events[j]) == ""
  }

  function ConversationField(e: Event): string { if e.Message? || e.MessageEnd? then e.conversationId else "" }

  function MessageField(e: Event): string { if e.Message? || e.MessageEnd? then e.messageId else "" }

  lemma FirstSnoc(events: seq<Event>, e: Event, field: Event -> string, id: string)
    requires IsFirst(events, field, id)
    ensures IsFirst(events + [e], field, if id == "" && e.Message? then field(e) else id)
  {
    var after := events + [e];
    assert forall i :: 0 <= i < |events| ==> after[i] == events[i];
    assert after[|events|] == e;
    if id != "" {
      var i :| 0 <= i < |events| && events[i].Message? && field(events[i]) == id &&
               forall j :: 0 <= j < i && events[j].Message? ==> field(events[j]) == "";
      assert after[i].Message? && field(after[i]) == id;
    }
  }

  lemma {:induction false} FirstIds(events: seq<Event>)
    ensures IsFirst(events, ConversationField, FirstConversation(events))
    ensures IsFirst(events, MessageField, FirstMessageId(events))
  {
    hide IsFirst;
    if events == [] {
      NoFirst(ConversationField);
      NoFirst(MessageField);
    } else {
      var n := |events| - 1;
      FirstIds(events[..n]);
      FirstSnoc(events[..n], events[n], ConversationField, FirstConversation(events[..n]));
      FirstSnoc(events[..n], events[n], MessageField, FirstMessageId(events[..n]));
      assert events[..n] + [events[n]] == events;
    }
  }

  lemma NoFirst(field: Event -> string)
    ensures IsFirst([], field, "")
  {
  }

  /** The ids are those of the message_end that ended the stream where it names
      them, else the first nonempty ones of the messages before the end. */
  lemma WhoseIds(events: seq<Event>)
    ensures var n := Length(events);
            && (n < |events| && events[n].MessageEnd? && events[n].conversationId != "" ==>
                  ConversationOf(events) == events[n].conversationId)
            && (n == |events| || !events[n].MessageEnd? || events[n].conversationId == "" ==>
                  IsFirst(events[..n], ConversationField, ConversationOf(events)))
            && (n < |events| && events[n].MessageEnd? && events[n].messageId != "" ==>
                  MessageIdOf(events) == events[n].messageId)
            && (n == |events| || !events[n].MessageEnd? || events[n].messageId == "" ==>
                  IsFirst(events[..n], MessageField, MessageIdOf(events)))
  {
    hide IsFirst, FirstConversation, FirstMessageId;
    FirstIds(events[..Length(events)]);
  }

  function AnswerField(e: Event): string { if e.Message? then e.answer else "" }

  /** No delta is empty, there is one for each message with an answer, and together
      they are the answers before the end, one after another. */
  lemma DeltasAreAnswers(events: seq<Event>)
    ensures var read := events[..Length(events)];
            && "" !in Deltas(events)
            && |Deltas(events)| == |Answering(read)|
            && Concat(Deltas(events)) == Concat(seq(|read|, i requires 0 <= i < |read| => AnswerField(read[i])))
  {
    AnswersTogether(events[..Length(events)]);
    AnswersCounted(events[..Length(events)]);
  }

  lemma {:induction false} AnswersTogether(events: seq<Event>)
    ensures "" !in Answers(events)
    ensures Concat(Answers(events)) == Concat(seq(|events|, i requires 0 <= i < |events| => AnswerField(events[i])))
  {
    hide Concat;
    var all := seq(|events|, i requires 0 <= i < |events| => AnswerField(events[i]));
    if events == [] {
      assert all == [];
    } else {
      var n := |events| - 1;
      var before := events[..n];
      AnswersTogether(before);
      assert all == seq(n, i requires 0 <= i < n => AnswerField(before[i])) + [AnswerField(events[n])];
      ConcatSnoc(all[..n], AnswerField(events[n]));
      ConcatSnoc(Answers(before), AnswerField(events[n]));
      assert Concat(all[..n]) + "" == Concat(all[..n]);
    }
  }

  /** The positions of the messages with an answer. */
  function Answering(events: seq<Event>): set<nat> {
    set i | 0 <= i < |events| && AnswerField(events[i]) != ""
  }

  lemma AnsweringSnoc(events: seq<Event>, e: Event)
    ensures |Answering(events + [e])| == |Answering(events)| + (if AnswerField(e) != "" then 1 else 0)
  {
    hide AnswerField;
    var after := events + [e];
    assert after[|events|] == e && forall i :: 0 <= i < |events| ==> after[i] == events[i];
    if AnswerField(e) != "" {
      assert Answering(after) == Answering(events) + {|events|};
    } else {
      assert Answering(after) == Answering(events);
    }
  }

  lemma {:induction false} AnswersCounted(events: seq<Event>)
    ensures |Answers(events)| == |Answering(events)|
  {
    hide Answering;
    if events == [] {
      assert Answering([]) == {} by { NobodyAnswers(); }
    } else {
      var n := |events| - 1;
      AnswersCounted(events[..n]);
      AnsweringSnoc(events[..n], events[n]);
      assert events[..n] + [events[n]] == events;
    }
  }

  lemma NobodyAnswers()
    ensures Answering([]) == {}
  {
  }

  /** onEvent is called with the task of the first message, if there is one. */
  lemma {:induction false} FirstTaskMeans(events: seq<Event>)
    ensures FirstTask(events) == None <==> forall i :: 0 <= i < |events| ==> !events[i].Message?
    ensures forall i :: 0 <= i < |events| && events[i].Message? && (forall j :: 0 <= j < i ==> !events[j].Message?) ==>
                          FirstTask(events) == Some(events[i].taskId)
  {
    if events != [] { FirstTaskMeans(events[..|events| - 1]); }
  }

  lemma NothingRead()
    ensures FirstConversation([]) == "" && FirstMessageId([]) == "" && Answers([]) == [] && FirstTask([]).None?
  {
  }

  lemma ReadOne(events: seq<Event>, i: nat)
    requires i < |events|
    ensures var before, after, e := events[..i], events[..i + 1], events[i];
            && FirstConversation(after) == (if FirstConversation(before) == "" && e.Message? then e.conversationId else FirstConversation(before))
            && FirstMessageId(after) == (if FirstMessageId(before) == "" && e.Message? then e.messageId else FirstMessageId(before))
            && FirstTask(after) == (if FirstTask(before).None? && e.Message? then Some(e.taskId) else FirstTask(before))
            && Answers(after) == (if e.Message? && e.answer != "" then Answers(before) + [e.answer] else Answers(before))
  {
    assert events[..i + 1][..i] == events[..i];
  }

  lemma {:induction false} LengthFrom(events: seq<Event>, i: nat)
    requires i <= |events| && forall j :: 0 <= j < i ==> !IsFinal(events[j])
    requires i < |events| ==> IsFinal(events[i])
    ensures Length(events) == i
  {
    if i > 0 { LengthFrom(events[1..], i - 1); }
  }

  /** The scan loop. `deltas` are the calls of onDelta in order and `task` the only
      call of onEvent, both made while scanning. The result has the conversation,
      the message id, the tokens and the error of the stream as a whole, and onDelta saw exactly
      the answers before the first event that ends it. */
  method ParseSSE(events: seq<Event>, tail: Tail)
    returns (result: ChatResult, failure: Option<StreamFailure>, deltas: seq<string>, task: Option<string>)
    ensures deltas == Deltas(events)
    ensures failure == FailureOf(events, tail)
    ensures result == ChatResult(ConversationOf(events), MessageIdOf(events), TokensOf(events))
    ensures task == FirstTask(events[..Length(events)])
  {
    hide FirstConversation, FirstMessageId, FirstTask, Answers, Length;
    NothingRead();
    result := ChatResult("", "", 0);
    deltas, task := [], None;
    var i := 0;
    while i < |events|
      invariant 0 <= i <= |events|
      invariant forall j :: 0 <= j < i ==> !IsFinal(events[j])
      invariant deltas == Answers(events[..i])
      invariant result == ChatResult(FirstConversation(events[..i]), FirstMessageId(events[..i]), 0)
      invariant task == FirstTask(events[..i])
    {
      var e := events[i];
      ReadOne(events, i);
      if IsFinal(e) { LengthFrom(events, i); }
      match e {
        case Message(taskId, conversationId, messageId, answer) =>
          if result.conversationId == "" { result := result.(conversationId := conversationId); }
          if result.messageId == "" { result := result.(messageId := messageId); }
          if task.None? { task := Some(taskId); }
          if answer != "" { deltas := deltas + [answer]; }
        case MessageEnd(conversationId, messageId, totalTokens) =>
          if conversationId != "" { result := result.(conversationId := conversationId); }
          if messageId != "" { result := result.(messageId := messageId); }
          result := result.(totalTokens := totalTokens);
          return result, None, deltas, task;
        case MessageReplace(answer) =>
          return result, Some(Replaced(answer)), deltas, task;
        case ErrorEvent(code, _) =>
          return result, Some(UpstreamReported(code)), deltas, task;
        case Undecodable =>
          return result, Some(BadEvent), deltas, task;
        case Ignored =>
      }
      i := i + 1;
    }
    LengthFrom(events, i);
    assert events[..i] == events;
    failure := Some(if tail.ReadError? then ReadFailed(tail.deadlineExceeded) else Incomplete);
  }
}
