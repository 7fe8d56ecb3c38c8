/**
  The chat window of the book site (`my-book/src/components/ChatInterface/index.tsx`): its
  state (messages, the input box, the loading flag, the session id) and how sending a
  message changes it. The network call is replaced by its outcome, and the clock by the
  times it would read; the requests the window sends are recorded so that their bodies can
  be stated.
 */
module ChatWidget {
  import opened Results
  import opened Text

  const Apology: string := "Sorry, I encountered an error while processing your message. Please try again."
  /** `max_context_docs` in every request body. */
  const MaxContextDocs: int := 5
  const SessionPrefix: string := "session_"
  const SourcesLabel: string := "Sources: "
  /** How many source names a message shows before summarising the rest. */
  const ShownSources: nat := 3

  datatype Sender = User | Bot

  /** A `Message`: `sources` is absent on user messages and on the apology. */
  datatype Message = Message(id: string, sender: Sender, content: string, sentAt: nat, sources: Option<seq<string>>)

  /** The JSON body posted to the chat endpoint. */
  datatype RequestBody = RequestBody(message: string, sessionId: string, maxContextDocs: int)

  /** How a request ends: a successful answer, a non-ok HTTP status, or a thrown error. */
  datatype Outcome = Answered(response: string, sources: seq<string>) | NotOk | Failure

  /** The component state, and the requests sent so far. */
  datatype WidgetState = WidgetState(messages: seq<Message>, input: string, isLoading: bool, sessionId: string, requests: seq<RequestBody>)

  /** `` `session_${Date.now()}_${random}` ``, with `randomPart` the base-36 digits of the draw. */
  function SessionId(now: nat, randomPart: string): (id: string)
    ensures |id| > |SessionPrefix| && id[..|SessionPrefix|] == SessionPrefix
  {
    SessionPrefix + (NatToString(now) + ("_" + randomPart))
  }

  /** The clock reading and the random part can be read back from a session id. */
  lemma SessionIdReadBack(n1: nat, r1: string, n2: nat, r2: string)
    requires SessionId(n1, r1) == SessionId(n2, r2)
    ensures n1 == n2 && r1 == r2
  {
    var t1, t2 := NatToString(n1) + ("_" + r1), NatToString(n2) + ("_" + r2);
    assert t1 == SessionId(n1, r1)[|SessionPrefix|..];
    assert t2 == SessionId(n2, r2)[|SessionPrefix|..];
    NumeralPrefixInjective(n1, n2, "_" + r1, "_" + r2);
    assert r1 == ("_" + r1)[1..] && r2 == ("_" + r2)[1..];
  }

  /** The send button's state: enabled exactly when nothing is loading and the input is not blank. */
  function SendEnabled(isLoading: bool, input: string): (enabled: bool)
    ensures enabled <==> !isLoading && !IsBlank(JavaScript, input)
  {
    StripEmptyIffBlank(JavaScript, input);
    !(isLoading || Strip(JavaScript, input) == [])
  }

  /** `handleKeyPress`'s test: Enter without Shift sends. */
  function ShouldSendOnKey(key: string, shift: bool): bool {
    key == "Enter" && !shift
  }

  /** The part of `sendMessage` before the answer arrives: the user message is shown and the request goes out. */
  function SendStart(s: WidgetState, sentAt: nat): (r: WidgetState)
    ensures r.isLoading && !SendEnabled(r.isLoading, r.input)
  {
    s.(messages := s.messages + [Message(NatToString(sentAt), User, s.input, sentAt, None)],
       input := "",
       isLoading := true,
       requests := s.requests + [RequestBody(s.input, s.sessionId, MaxContextDocs)])
  }

  /** The bot message for an outcome. */
  function BotMessage(outcome: Outcome, answeredAt: nat): (m: Message)
    ensures m.sender == Bot && m.sentAt == answeredAt && m.id == NatToString(answeredAt + 1)
    ensures m.sources.Some? <==> outcome.Answered?
  {
    match outcome
    case Answered(response, sources) => Message(NatToString(answeredAt + 1), Bot, response, answeredAt, Some(sources))
    case _ => Message(NatToString(answeredAt + 1), Bot, Apology, answeredAt, None)
  }

  /** The part after it: the reply is shown, and the `finally` clears the loading flag. */
  function SendFinish(s: WidgetState, outcome: Outcome, answeredAt: nat): (r: WidgetState)
    ensures !r.isLoading
  {
    s.(messages := s.messages + [BotMessage(outcome, answeredAt)], isLoading := false)
  }

  /** `sendMessage` as a whole: nothing for a blank input, otherwise both parts. */
  function SendStep(s: WidgetState, sentAt: nat, answeredAt: nat, outcome: Outcome): (r: WidgetState)
    ensures r == s <==> IsBlank(JavaScript, s.input)
    ensures !IsBlank(JavaScript, s.input) ==> !r.isLoading && |r.requests| == |s.requests| + 1
  {
    StripEmptyIffBlank(JavaScript, s.input);
    if Strip(JavaScript, s.input) == [] then s else SendFinish(SendStart(s, sentAt), outcome, answeredAt)
  }

  /** A blank input sends nothing: no message, no loading, no request. */
  lemma BlankSendIsNoOp(s: WidgetState, sentAt: nat, answeredAt: nat, outcome: Outcome)
    requires IsBlank(JavaScript, s.input)
    ensures SendStep(s, sentAt, answeredAt, outcome) == s
  {
    StripEmptyIffBlank(JavaScript, s.input);
  }

  /**
    Any other input is sent as typed, untrimmed, in one request with the session id and a
    limit of five context docs; the input box is cleared, loading is over, and exactly two
    messages are added after the earlier ones, the user's first.
   */
  lemma SendAppendsTwo(s: WidgetState, sentAt: nat, answeredAt: nat, outcome: Outcome)
    requires !IsBlank(JavaScript, s.input)
    ensures var r := SendStep(s, sentAt, answeredAt, outcome);
      && |r.messages| == |s.messages| + 2
      && r.messages[..|s.messages|] == s.messages
      && r.messages[|s.messages|].sender == User && r.messages[|s.messages|].content == s.input
      && r.messages[|s.messages| + 1] == BotMessage(outcome, answeredAt)
      && r.input == "" && !r.isLoading && r.sessionId == s.sessionId
      && r.requests == s.requests + [RequestBody(s.input, s.sessionId, MaxContextDocs)]
  {
    StripEmptyIffBlank(JavaScript, s.input);
    var r := SendStep(s, sentAt, answeredAt, outcome);
    assert r.messages == s.messages + [Message(NatToString(sentAt), User, s.input, sentAt, None)] + [BotMessage(outcome, answeredAt)];
  }

  /** The reply shows the answer and its sources, or the fixed apology without sources on any failure. */
  lemma ReplyFollowsOutcome(outcome: Outcome, answeredAt: nat)
    ensures var m := BotMessage(outcome, answeredAt);
      && m.sender == Bot
      && (outcome.Answered? ==> m.content == outcome.response && m.sources == Some(outcome.sources))
      && (!outcome.Answered? ==> m.content == Apology && m.sources == None)
  {
  }

  /** `sources.slice(0, 3)`. */
  function ShownNames(names: seq<string>): (shown: seq<string>)
    ensures |shown| == if |names| < ShownSources then |names| else ShownSources
    ensures shown <= names
  {
    if |names| > ShownSources then names[..ShownSources] else names
  }

  /** `` sources.length > 3 && ` and ${sources.length - 3} more` ``, rendered as text. */
  function MoreText(names: seq<string>): (more: string)
    ensures more == "" <==> |names| <= ShownSources
  {
    if |names| > ShownSources then " and " + NatToString(|names| - ShownSources) + " more" else ""
  }

  /** The sources line under a message: absent without sources, otherwise the first three names and a count of the rest. */
  function SourcesSummary(sources: Option<seq<string>>): (line: Option<string>)
    ensures line.Some? <==> sources.Some? && |sources.value| > 0
  {
    if sources.None? || sources.value == [] then None
    else Some(SourcesLabel + Join(", ", ShownNames(sources.value)) + MoreText(sources.value))
  }

  /** Each of the first three names appears in the line, in order, after the label. */
  lemma SummaryNamesFirstSources(names: seq<string>, k: nat)
    requires k < |names| && k < ShownSources
    ensures OccursAt(SourcesSummary(Some(names)).value, names[k], |SourcesLabel| + JoinOffset(", ", ShownNames(names), k))
  {
    var shown := ShownNames(names);
    JoinPlaces(", ", shown, k);
    assert shown[k] == names[k];
    OccursInConcat(SourcesLabel, Join(", ", shown), MoreText(names), names[k], JoinOffset(", ", shown, k));
  }

  /** More than three sources end the line with the number left out. */
  lemma SummaryCountsTheRest(names: seq<string>)
    requires |names| > ShownSources
    ensures EndsWith(SourcesSummary(Some(names)).value, " and " + NatToString(|names| - ShownSources) + " more")
  {
    EndsWithAppend(SourcesLabel + Join(", ", ShownNames(names)), MoreText(names));
  }

  /** Up to three sources are all listed, with no count. */
  lemma SummaryListsFew(names: seq<string>)
    requires 0 < |names| <= ShownSources
    ensures SourcesSummary(Some(names)).value == SourcesLabel + Join(", ", names)
  {
  }

  /** The component. Each method is one handler; `State()` is what React holds. */
  class Widget {
    var messages: seq<Message>
    var input: string
    var isLoading: bool
    var sessionId: string
    var requests: seq<RequestBody>

    function State(): WidgetState
      reads this
    {
      WidgetState(messages, input, isLoading, sessionId, requests)
    }

    /** Mounting: empty history and input, not loading, and the session id made once from the clock and a draw. */
    constructor(now: nat, randomPart: string)
      ensures State() == WidgetState([], "", false, SessionId(now, randomPart), [])
    {
      messages := [];
      input := "";
      isLoading := false;
      sessionId := SessionId(now, randomPart);
      requests := [];
    }

    /** The textarea's `onChange`. */
    method Edit(value: string)
      modifies this
      ensures State() == old(State()).(input := value)
    {
      input := value;
    }

    /** `sendMessage`, with the times the two messages are stamped with and the request's outcome. */
    method SendMessage(sentAt: nat, answeredAt: nat, outcome: Outcome)
      modifies this
      ensures State() == SendStep(old(State()), sentAt, answeredAt, outcome)
    {
      if Strip(JavaScript, input) == [] {
        return;
      }
      var userMessage := Message(NatToString(sentAt), User, input, sentAt, None);
      messages := messages + [userMessage];
      var text := input;
      input := "";
      isLoading := true;
      requests := requests + [RequestBody(text, sessionId, MaxContextDocs)];
      var botMessage;
      match outcome {
        case Answered(response, sources) =>
          botMessage := Message(NatToString(answeredAt + 1), Bot, response, answeredAt, Some(sources));
        case _ =>
          botMessage := Message(NatToString(answeredAt + 1), Bot, Apology, answeredAt, None);
      }
      messages := messages + [botMessage];
      isLoading := false;
    }

    /** `handleKeyPress`: Enter without Shift sends, any other key does nothing here. */
    method HandleKeyPress(key: string, shift: bool, sentAt: nat, answeredAt: nat, outcome: Outcome)
      modifies this
      ensures State() == if ShouldSendOnKey(key, shift) then SendStep(old(State()), sentAt, answeredAt, outcome) else old(State())
    {
      if key == "Enter" && !shift {
        SendMessage(sentAt, answeredAt, outcome);
      }
    }
  }
}
