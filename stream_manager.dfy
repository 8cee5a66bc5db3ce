/**
 * `_ChatStreamManager`: the state machine that serves one chat request. It
 * classifies the message, either answers a request for an email with a fixed
 * text and a mailto link or streams the RAG chain's answer token by token,
 * asks for follow-up suggestions, schedules the conversation log and ends the
 * event stream with exactly one `final` or `error` event.
 *
 * The collaborators it awaits are inputs here: the intent the classifier
 * returns, the chunks the chain streams, the suggestion generator's result,
 * and the point, if any, at which one of them raises.
 */
module StreamManager {
  import opened Wrappers
  import Utils

  /** `UserIntent`. */
  datatype Intent = GeneralInquiry | Recruiter | CreateEmail

  /** The two system prompts, `SYSTEM_PROMPT_TEMPLATE` and `HIRING_MANAGER_SYSTEM_PROMPT_TEMPLATE`. */
  datatype Persona = DefaultPersona | HiringManagerPersona

  /** One item of the chain's stream; only its `answer` key is read. */
  datatype Chunk = Chunk(answer: Option<string>)

  /** Which awaited collaborator raises, if any. A stream that raises does so after the given chunks. */
  datatype Fault = NoFault | ClassifyFault | ChainFault | StreamFault | SuggestionFault

  /** The payload of one server-sent event. */
  datatype Event =
    | Token(text: string)
    | Final(suggestedQuestions: seq<string>, mailto: Option<string>)
    | Error(message: string)
  {
    predicate IsTerminal() {
      Final? || Error?
    }
  }

  /** The arguments of the `_log_conversation` job. */
  datatype LogEntry = LogEntry(sessionId: string, message: string, answer: string,
                               suggestedQuestions: seq<string>, mailto: Option<string>)

  /** The calls the manager makes on its service. */
  datatype Call =
    | ClassifyIntent(message: string)
    | GetRagChain(persona: Persona)
    | GenerateSuggestions(question: string, answer: string)
    | ScheduleLog(entry: LogEntry)

  /** One observable step of a run: an event yielded to the client or a call on the service. */
  datatype Action = Emit(event: Event) | Request(call: Call)

  /** What a run leaves behind: its steps and the manager's final fields. */
  datatype Outcome = Outcome(trace: seq<Action>, fullAnswer: string,
                             suggestedQuestions: Option<seq<string>>, mailtoLink: Option<string>)

  const EmailAck := "Great! I've prepared an email for you. Please click the link to open it in your email client."
  // The three texts of the drafted email. Each is one literal in the source; they are
  // written as concatenations here so that the verifier does not evaluate `quote` on them.
  const ContactAddress := "fadhilhidayat27" + "@gmail.com"
  const EmailSubject := "Job Opportunity" + " Discussion"
  const EmailBody := "Hello Fadhil,\n\n"
                     + "I came across your portfolio and would like to discuss a potential opportunity. "
                     + "Are you available for a brief chat next week?\n\n"
                     + "Best regards,"
  const GenericError := "An error occurred while processing your request."

  /** The link offered to a visitor who asks for an email. */
  function EmailLink(): (r: string)
    ensures |r| > 7 && r[..7] == "mailto:"
  {
    Utils.CreateMailtoLink(ContactAddress, EmailSubject, EmailBody)
  }

  /** Python truthiness of an optional string: present and non-empty. */
  predicate Truthy(s: Option<string>) {
    s.Some? && s.value != ""
  }

  /** The prompt a non-email request is answered with. */
  function PersonaFor(intent: Intent): (p: Persona)
    ensures p == HiringManagerPersona <==> intent == Recruiter
  {
    if intent == Recruiter then HiringManagerPersona else DefaultPersona
  }

  /** `if answer_chunk := chunk.get("answer")`: the chunk carries a non-empty answer. */
  predicate HasAnswer(c: Chunk) {
    c.answer.Some? && c.answer.value != ""
  }

  /** The `token` events `_stream_answer` yields for `chunks`, in order. */
  function TokenEvents(chunks: seq<Chunk>): (r: seq<Event>)
    ensures |r| <= |chunks|
    ensures forall i :: 0 <= i < |r| ==> r[i].Token? && r[i].text != ""
  {
    if chunks == [] then []
    else
      var last := chunks[|chunks| - 1];
      TokenEvents(chunks[..|chunks| - 1]) + (if HasAnswer(last) then [Token(last.answer.value)] else [])
  }

  /** The whole answer the chunks carry: every chunk's answer in order, a missing one counting as empty. */
  function AnswerText(chunks: seq<Chunk>): string {
    if chunks == [] then "" else chunks[0].answer.GetOr("") + AnswerText(chunks[1..])
  }

  /** The text of the token events, concatenated in order. */
  function TokenText(events: seq<Event>): string {
    if events == [] then ""
    else (if events[0].Token? then events[0].text else "") + TokenText(events[1..])
  }

  /** The events of a trace, in order. */
  function Events(t: seq<Action>): seq<Event> {
    if t == [] then [] else (if t[0].Emit? then [t[0].event] else []) + Events(t[1..])
  }

  /** The service calls of a trace, in order. */
  function Calls(t: seq<Action>): seq<Call> {
    if t == [] then [] else (if t[0].Request? then [t[0].call] else []) + Calls(t[1..])
  }

  /** The number of log jobs among `calls`. */
  function LogJobs(calls: seq<Call>): nat {
    if calls == [] then 0 else (if calls[0].ScheduleLog? then 1 else 0) + LogJobs(calls[1..])
  }

  /** Yielding each of `events` in turn. */
  function Emitted(events: seq<Event>): seq<Action> {
    if events == [] then [] else [Emit(events[0])] + Emitted(events[1..])
  }

  /** The `event:` name each kind of event is sent under. */
  function EventName(e: Event): (r: string)
    ensures r == "token" || r == "final" || r == "error"
  {
    match e
    case Token(_) => "token"
    case Final(_, _) => "final"
    case Error(_) => "error"
  }

  /** One server-sent event on the wire; `payload` is the event's JSON encoding. */
  function Frame(e: Event, payload: string): string {
    "event: " + EventName(e) + "\ndata: " + payload + "\n\n"
  }

  /** How a client reads a frame's event name: the rest of its `event: ` line. */
  function FrameName(frame: string): Option<string> {
    if |frame| >= 7 && frame[..7] == "event: " then
      match Utils.IndexOf(frame[7..], '\n')
      case Some(k) => Some(frame[7..][..k])
      case None => None
    else None
  }

  /** The name a frame is sent under is read back from it whatever the payload, and tells the kinds apart. */
  lemma FrameNameRoundTrip(e: Event, payload: string)
    ensures FrameName(Frame(e, payload)) == Some(EventName(e))
    ensures EventName(e) == "token" <==> e.Token?
    ensures EventName(e) == "final" <==> e.Final?
  {
    var name := EventName(e);
    var rest := "data: " + payload + "\n\n";
    var f := Frame(e, payload);
    assert f == "event: " + (name + ['\n'] + rest);
    assert f[..7] == "event: " && f[7..] == name + ['\n'] + rest;
    assert '\n' !in name;
    Utils.IndexOfAfter(name, '\n', rest);
    assert (name + ['\n'] + rest)[..|name|] == name;
  }

  /** Lines 62-81 of `process`: suggestions unless a link exists, then the log job and the `final` event. */
  function Finish(sessionId: string, message: string, trace: seq<Action>, answer: string,
                  link: Option<string>, suggestions: Option<seq<string>>, fault: Fault): (o: Outcome)
    ensures |o.trace| > |trace| && o.trace[..|trace|] == trace
    ensures o.fullAnswer == answer && o.mailtoLink == link
    ensures Truthy(link) ==> o.suggestedQuestions == None
  {
    if !Truthy(link) then
      var asked := trace + [Request(GenerateSuggestions(message, answer))];
      if fault == SuggestionFault then Outcome(asked + [Emit(Error(GenericError))], answer, None, link)
      else Complete(sessionId, message, asked, answer, suggestions, link)
    else
      Complete(sessionId, message, trace, answer, None, link)
  }

  /** Lines 65-81: default the suggestions to `[]`, schedule the log job, yield `final`. */
  function Complete(sessionId: string, message: string, trace: seq<Action>, answer: string,
                    suggested: Option<seq<string>>, link: Option<string>): (o: Outcome)
    ensures |o.trace| == |trace| + 2 && o.trace[..|trace|] == trace
    ensures o.trace[|trace| + 1] == Emit(Final(suggested.GetOr([]), link))
    ensures o.fullAnswer == answer && o.suggestedQuestions == suggested && o.mailtoLink == link
  {
    var questions := suggested.GetOr([]);
    Outcome(trace + [Request(ScheduleLog(LogEntry(sessionId, message, answer, questions, link))),
                     Emit(Final(questions, link))],
            answer, suggested, link)
  }

  /** The steps of a chain-answered run up to the end of the stream. */
  function Streamed(message: string, intent: Intent, chunks: seq<Chunk>): seq<Action> {
    [Request(ClassifyIntent(message)), Request(GetRagChain(PersonaFor(intent)))] + Emitted(TokenEvents(chunks))
  }

  /** The steps of a chain-answered run up to the request for suggestions. */
  function Asked(message: string, intent: Intent, chunks: seq<Chunk>): seq<Action> {
    Streamed(message, intent, chunks) + [Request(GenerateSuggestions(message, AnswerText(chunks)))]
  }

  /** A whole run of `process` on a fresh manager, given what its collaborators return. */
  function Run(sessionId: string, message: string, intent: Intent, chunks: seq<Chunk>,
               suggestions: Option<seq<string>>, fault: Fault): (o: Outcome)
    ensures |o.trace| >= 2 && o.trace[0] == Request(ClassifyIntent(message))
    ensures o.mailtoLink.Some? <==> intent == CreateEmail && fault != ClassifyFault
  {
    if fault == ClassifyFault then
      Outcome([Request(ClassifyIntent(message)), Emit(Error(GenericError))], "", None, None)
    else if intent == CreateEmail then
      Finish(sessionId, message, [Request(ClassifyIntent(message)), Emit(Token(EmailAck))],
             EmailAck, Some(EmailLink()), suggestions, fault)
    else if fault == ChainFault then
      Outcome([Request(ClassifyIntent(message)), Request(GetRagChain(PersonaFor(intent))), Emit(Error(GenericError))],
              "", None, None)
    else if fault == StreamFault then
      Outcome(Streamed(message, intent, chunks) + [Emit(Error(GenericError))], AnswerText(chunks), None, None)
    else
      Finish(sessionId, message, Streamed(message, intent, chunks), AnswerText(chunks), None, suggestions, fault)
  }

  /** Whether the fault is reached: the email path awaits nothing after the classifier. */
  predicate Fails(intent: Intent, fault: Fault) {
    fault == ClassifyFault || (intent != CreateEmail && fault != NoFault)
  }

  /** Whether the chain streams to its end, so that suggestions are asked for. */
  predicate Answered(intent: Intent, fault: Fault) {
    intent != CreateEmail && (fault == NoFault || fault == SuggestionFault)
  }

  /** The shape every event stream has: tokens only, then exactly one terminal event. */
  predicate WellFormedStream(es: seq<Event>) {
    |es| >= 1 && es[|es| - 1].IsTerminal() && forall i :: 0 <= i < |es| - 1 ==> es[i].Token?
  }

  /**
   * The events of `o` are tokens and then one terminal event, which is the generic
   * error exactly when `failed` holds.
   */
  predicate KeepsProtocol(o: Outcome, failed: bool) {
    var es := Events(o.trace);
    && WellFormedStream(es)
    && (es[|es| - 1].Error? <==> failed)
    && (es[|es| - 1].Error? ==> es[|es| - 1].message == GenericError)
  }

  /**
   * The suggestion generator is among the calls of `o` exactly when `answered`
   * holds, and is then asked with the question and `o`'s whole answer.
   */
  predicate KeepsSuggestionRule(o: Outcome, message: string, answered: bool) {
    && (AsksSuggestions(Calls(o.trace)) <==> answered)
    && (answered ==> GenerateSuggestions(message, o.fullAnswer) in Calls(o.trace))
  }

  /** Whether the suggestion generator is awaited among `calls`. */
  predicate AsksSuggestions(calls: seq<Call>) {
    exists i :: 0 <= i < |calls| && calls[i].GenerateSuggestions?
  }

  lemma {:induction false} EventsAppend(a: seq<Action>, b: seq<Action>)
    ensures Events(a + b) == Events(a) + Events(b)
  {
    if a == [] {
      assert a + b == b;
    } else {
      assert (a + b)[0] == a[0] && (a + b)[1..] == a[1..] + b;
      EventsAppend(a[1..], b);
      var head := if a[0].Emit? then [a[0].event] else [];
      calc {
        Events(a + b);
        head + Events(a[1..] + b);
        head + (Events(a[1..]) + Events(b));
        (head + Events(a[1..])) + Events(b);
      }
    }
  }

  lemma {:induction false} CallsAppend(a: seq<Action>, b: seq<Action>)
    ensures Calls(a + b) == Calls(a) + Calls(b)
  {
    if a == [] {
      assert a + b == b;
    } else {
      assert (a + b)[0] == a[0] && (a + b)[1..] == a[1..] + b;
      CallsAppend(a[1..], b);
      var head := if a[0].Request? then [a[0].call] else [];
      calc {
        Calls(a + b);
        head + Calls(a[1..] + b);
        head + (Calls(a[1..]) + Calls(b));
        (head + Calls(a[1..])) + Calls(b);
      }
    }
  }

  /** Both projections distribute over concatenation. */
  lemma {:induction false} TraceAppend(a: seq<Action>, b: seq<Action>)
    ensures Events(a + b) == Events(a) + Events(b)
    ensures Calls(a + b) == Calls(a) + Calls(b)
  {
    EventsAppend(a, b);
    CallsAppend(a, b);
  }

  lemma TraceSingle(a: Action)
    ensures Events([a]) == (if a.Emit? then [a.event] else [])
    ensures Calls([a]) == (if a.Request? then [a.call] else [])
  {
    assert [a][1..] == [];
  }

  lemma ActionsPair(a: Action, b: Action)
    ensures Events([a, b]) == Events([a]) + Events([b]) && Calls([a, b]) == Calls([a]) + Calls([b])
  {
    assert [a, b] == [a] + [b];
    TraceAppend([a], [b]);
  }

  lemma {:induction false} TraceOfEmitted(es: seq<Event>)
    ensures Events(Emitted(es)) == es && Calls(Emitted(es)) == []
  {
    if es != [] {
      TraceOfEmitted(es[1..]);
      TraceAppend([Emit(es[0])], Emitted(es[1..]));
      TraceSingle(Emit(es[0]));
    }
  }

  lemma {:induction false} NoLogJobs(calls: seq<Call>)
    requires forall i :: 0 <= i < |calls| ==> !calls[i].ScheduleLog?
    ensures LogJobs(calls) == 0
  {
    if calls != [] {
      NoLogJobs(calls[1..]);
    }
  }

  /** A call that is not a log job followed by one that is makes one log job. */
  lemma LogJobsPair(c: Call, log: Call)
    requires !c.ScheduleLog? && log.ScheduleLog?
    ensures LogJobs([c, log]) == 1
  {
    assert [log][1..] == [];
    assert LogJobs([log]) == 1 + LogJobs([]);
    assert [c, log][1..] == [log];
  }

  /** Calls other than log jobs in front of `rest` add none; a lone log job counts once. */
  lemma {:induction false} LogJobsOnly(others: seq<Call>, rest: seq<Call>)
    requires forall i :: 0 <= i < |others| ==> !others[i].ScheduleLog?
    requires |rest| <= 1
    ensures LogJobs(others + rest) == (if rest != [] && rest[0].ScheduleLog? then 1 else 0)
  {
    if others == [] {
      assert others + rest == rest;
      if rest != [] {
        assert rest[1..] == [];
      }
    } else {
      assert (others + rest)[1..] == others[1..] + rest;
      LogJobsOnly(others[1..], rest);
    }
  }

  lemma {:induction false} TokenTextAppend(a: seq<Event>, b: seq<Event>)
    ensures TokenText(a + b) == TokenText(a) + TokenText(b)
  {
    if a == [] {
      assert a + b == b;
    } else {
      assert (a + b)[0] == a[0] && (a + b)[1..] == a[1..] + b;
      TokenTextAppend(a[1..], b);
    }
  }

  /** The stream is read front to back: a first chunk's answer comes out first. */
  lemma {:induction false} TokenEventsCons(c: Chunk, chunks: seq<Chunk>)
    ensures TokenEvents([c] + chunks)
         == (if HasAnswer(c) then [Token(c.answer.value)] else []) + TokenEvents(chunks)
    decreases |chunks|
  {
    if chunks != [] {
      var init := chunks[..|chunks| - 1];
      assert ([c] + chunks)[..|chunks|] == [c] + init;
      TokenEventsCons(c, init);
    }
  }

  /** The tokens a client receives spell exactly the answer the manager accumulates. */
  lemma {:induction false} TokenTextIsAnswer(chunks: seq<Chunk>)
    ensures TokenText(TokenEvents(chunks)) == AnswerText(chunks)
  {
    if chunks != [] {
      TokenEventsCons(chunks[0], chunks[1..]);
      assert [chunks[0]] + chunks[1..] == chunks;
      TokenTextIsAnswer(chunks[1..]);
      var head := if HasAnswer(chunks[0]) then [Token(chunks[0].answer.value)] else [];
      var rest := TokenEvents(chunks[1..]);
      if HasAnswer(chunks[0]) {
        assert (head + rest)[1..] == rest;
      } else {
        assert head + rest == rest;
      }
    }
  }

  /** Failing adds the generic `error` event and nothing else. */
  lemma FailTrace(t: seq<Action>)
    ensures Events(t + [Emit(Error(GenericError))]) == Events(t) + [Error(GenericError)]
    ensures Calls(t + [Emit(Error(GenericError))]) == Calls(t)
  {
    TraceAppend(t, [Emit(Error(GenericError))]);
    TraceSingle(Emit(Error(GenericError)));
  }

  /** Finishing a run adds the log job and the `final` event, in that order, at the end. */
  lemma CompleteTrace(sessionId: string, message: string, t: seq<Action>, answer: string,
                      suggested: Option<seq<string>>, link: Option<string>)
    ensures var o := Complete(sessionId, message, t, answer, suggested, link);
      var entry := LogEntry(sessionId, message, answer, suggested.GetOr([]), link);
      && Events(o.trace) == Events(t) + [Final(suggested.GetOr([]), link)]
      && Calls(o.trace) == Calls(t) + [ScheduleLog(entry)]
      && o.trace[|t|..] == [Request(ScheduleLog(entry)), Emit(Final(suggested.GetOr([]), link))]
  {
    var entry := LogEntry(sessionId, message, answer, suggested.GetOr([]), link);
    var log, fin := Request(ScheduleLog(entry)), Emit(Final(suggested.GetOr([]), link));
    assert Complete(sessionId, message, t, answer, suggested, link).trace == t + [log, fin];
    assert Events([log, fin]) == [Final(suggested.GetOr([]), link)] && Calls([log, fin]) == [ScheduleLog(entry)] by {
      ActionsPair(log, fin);
      TraceSingle(log);
      TraceSingle(fin);
    }
    TraceAppend(t, [log, fin]);
  }

  /** A service call put in front of a trace adds no event and one call. */
  lemma RequestThen(c: Call, t: seq<Action>)
    ensures Events([Request(c)] + t) == Events(t) && Calls([Request(c)] + t) == [c] + Calls(t)
  {
    assert ([Request(c)] + t)[0] == Request(c) && ([Request(c)] + t)[1..] == t;
  }

  /** The chain's stream yields its tokens and calls nothing beyond the classifier and the chain. */
  lemma StreamedTrace(message: string, intent: Intent, chunks: seq<Chunk>)
    ensures Events(Streamed(message, intent, chunks)) == TokenEvents(chunks)
    ensures Calls(Streamed(message, intent, chunks)) == [ClassifyIntent(message), GetRagChain(PersonaFor(intent))]
  {
    var tokens := Emitted(TokenEvents(chunks));
    assert Streamed(message, intent, chunks)
        == [Request(ClassifyIntent(message))] + ([Request(GetRagChain(PersonaFor(intent)))] + tokens);
    TraceOfEmitted(TokenEvents(chunks));
    RequestThen(GetRagChain(PersonaFor(intent)), tokens);
    RequestThen(ClassifyIntent(message), [Request(GetRagChain(PersonaFor(intent)))] + tokens);
  }

  /** Asking for suggestions adds that one call to the streamed run. */
  lemma AskedTrace(message: string, intent: Intent, chunks: seq<Chunk>)
    ensures Events(Asked(message, intent, chunks)) == TokenEvents(chunks)
    ensures Calls(Asked(message, intent, chunks))
         == [ClassifyIntent(message), GetRagChain(PersonaFor(intent)), GenerateSuggestions(message, AnswerText(chunks))]
  {
    var ask := Request(GenerateSuggestions(message, AnswerText(chunks)));
    StreamedTrace(message, intent, chunks);
    TraceAppend(Streamed(message, intent, chunks), [ask]);
    TraceSingle(ask);
  }

  /** The tokens, followed by a terminal event, still spell the answer. */
  lemma AnswerSpelled(chunks: seq<Chunk>, last: Event)
    requires !last.Token?
    ensures TokenText(TokenEvents(chunks) + [last]) == AnswerText(chunks)
  {
    TokenTextIsAnswer(chunks);
    TokenTextAppend(TokenEvents(chunks), [last]);
    assert TokenText([last]) == "" by {
      assert [last][1..] == [];
    }
  }

  /** A classifier that raises ends the run at once with the generic error. */
  lemma ClassifyFailedRun(sessionId: string, message: string, intent: Intent, chunks: seq<Chunk>,
                          suggestions: Option<seq<string>>)
    ensures var o := Run(sessionId, message, intent, chunks, suggestions, ClassifyFault);
      && Events(o.trace) == [Error(GenericError)]
      && Calls(o.trace) == [ClassifyIntent(message)]
      && o.fullAnswer == "" && o.suggestedQuestions == None && o.mailtoLink == None
  {
    var c := Request(ClassifyIntent(message));
    FailTrace([c]);
    TraceSingle(c);
  }

  /** Once a link exists the suggestion generator is skipped, so no fault of it can surface. */
  lemma FinishWithLink(sessionId: string, message: string, t: seq<Action>, answer: string,
                       link: Option<string>, suggestions: Option<seq<string>>, fault: Fault)
    requires Truthy(link)
    ensures Finish(sessionId, message, t, answer, link, suggestions, fault)
         == Complete(sessionId, message, t, answer, None, link)
  {
  }

  /**
   * A request for an email is answered with the fixed text and the fixed link,
   * without the chain and without suggestions, and is logged.
   */
  lemma RunEmailShortCircuit(sessionId: string, message: string, chunks: seq<Chunk>,
                             suggestions: Option<seq<string>>, fault: Fault)
    requires fault != ClassifyFault
    ensures var o := Run(sessionId, message, CreateEmail, chunks, suggestions, fault);
      var entry := LogEntry(sessionId, message, EmailAck, [], Some(EmailLink()));
      && Events(o.trace) == [Token(EmailAck), Final([], Some(EmailLink()))]
      && Calls(o.trace) == [ClassifyIntent(message), ScheduleLog(entry)]
      && |o.trace| >= 2
      && o.trace[|o.trace| - 2..] == [Request(ScheduleLog(entry)), Emit(Final([], Some(EmailLink())))]
      && o.fullAnswer == EmailAck && o.suggestedQuestions == None && o.mailtoLink == Some(EmailLink())
  {
    var start := [Request(ClassifyIntent(message)), Emit(Token(EmailAck))];
    assert Run(sessionId, message, CreateEmail, chunks, suggestions, fault)
        == Finish(sessionId, message, start, EmailAck, Some(EmailLink()), suggestions, fault);
    AcknowledgedRun(sessionId, message, EmailLink(), suggestions, fault);
  }

  /** Acknowledging and then finishing with a link sends it and asks for no suggestions. */
  lemma AcknowledgedRun(sessionId: string, message: string, link: string,
                        suggestions: Option<seq<string>>, fault: Fault)
    requires link != ""
    ensures var start := [Request(ClassifyIntent(message)), Emit(Token(EmailAck))];
      var o := Finish(sessionId, message, start, EmailAck, Some(link), suggestions, fault);
      var entry := LogEntry(sessionId, message, EmailAck, [], Some(link));
      && Events(o.trace) == [Token(EmailAck), Final([], Some(link))]
      && Calls(o.trace) == [ClassifyIntent(message), ScheduleLog(entry)]
      && |o.trace| >= 2
      && o.trace[|o.trace| - 2..] == [Request(ScheduleLog(entry)), Emit(Final([], Some(link)))]
      && o.fullAnswer == EmailAck && o.suggestedQuestions == None && o.mailtoLink == Some(link)
  {
    var start := [Request(ClassifyIntent(message)), Emit(Token(EmailAck))];
    FinishWithLink(sessionId, message, start, EmailAck, Some(link), suggestions, fault);
    CompleteTrace(sessionId, message, start, EmailAck, None, Some(link));
    ActionsPair(start[0], start[1]);
    TraceSingle(start[0]);
    TraceSingle(start[1]);
  }

  /** The link offered for an email addresses the owner with the fixed subject and body. */
  lemma EmailLinkFields()
    ensures Utils.ParseMailto(EmailLink()) == Some(Utils.MailtoFields(ContactAddress, EmailSubject, EmailBody))
  {
    assert forall i :: 0 <= i < |ContactAddress| ==> ContactAddress[i] != '?';
    Utils.MailtoRoundTrip(ContactAddress, EmailSubject, EmailBody);
  }

  /** A chain that cannot be built ends the run with the generic error before any token. */
  lemma ChainFailedRun(sessionId: string, message: string, intent: Intent, chunks: seq<Chunk>,
                       suggestions: Option<seq<string>>)
    requires intent != CreateEmail
    ensures var o := Run(sessionId, message, intent, chunks, suggestions, ChainFault);
      && Events(o.trace) == [Error(GenericError)]
      && Calls(o.trace) == [ClassifyIntent(message), GetRagChain(PersonaFor(intent))]
      && o.fullAnswer == "" && o.suggestedQuestions == None && o.mailtoLink == None
  {
    var start := [Request(ClassifyIntent(message)), Request(GetRagChain(PersonaFor(intent)))];
    assert start + [Emit(Error(GenericError))]
        == [Request(ClassifyIntent(message)), Request(GetRagChain(PersonaFor(intent))), Emit(Error(GenericError))];
    FailTrace(start);
    ActionsPair(start[0], start[1]);
    TraceSingle(start[0]);
    TraceSingle(start[1]);
  }

  /** A stream that raises ends with the generic error after the tokens already sent, which the answer keeps. */
  lemma StreamFailedRun(sessionId: string, message: string, intent: Intent, chunks: seq<Chunk>,
                        suggestions: Option<seq<string>>)
    requires intent != CreateEmail
    ensures var o := Run(sessionId, message, intent, chunks, suggestions, StreamFault);
      && Events(o.trace) == TokenEvents(chunks) + [Error(GenericError)]
      && Calls(o.trace) == [ClassifyIntent(message), GetRagChain(PersonaFor(intent))]
      && o.fullAnswer == AnswerText(chunks) && o.suggestedQuestions == None && o.mailtoLink == None
  {
    StreamedTrace(message, intent, chunks);
    FailTrace(Streamed(message, intent, chunks));
  }

  /** A suggestion generator that raises ends the run with the generic error, and nothing is logged. */
  lemma SuggestionFailedRun(sessionId: string, message: string, intent: Intent, chunks: seq<Chunk>,
                            suggestions: Option<seq<string>>)
    requires intent != CreateEmail
    ensures var o := Run(sessionId, message, intent, chunks, suggestions, SuggestionFault);
      && Events(o.trace) == TokenEvents(chunks) + [Error(GenericError)]
      && Calls(o.trace) == [ClassifyIntent(message), GetRagChain(PersonaFor(intent)),
                            GenerateSuggestions(message, AnswerText(chunks))]
      && o.fullAnswer == AnswerText(chunks) && o.suggestedQuestions == None && o.mailtoLink == None
  {
    AskedTrace(message, intent, chunks);
    FailTrace(Asked(message, intent, chunks));
  }

  /**
   * A run without faults that the chain answers: the tokens spell the answer, the
   * suggestions are asked for with the question and that answer, and the log job
   * and the `final` event carry the suggestions (or none) and no link.
   */
  lemma AnsweredRun(sessionId: string, message: string, intent: Intent, chunks: seq<Chunk>,
                    suggestions: Option<seq<string>>)
    requires intent != CreateEmail
    ensures var o := Run(sessionId, message, intent, chunks, suggestions, NoFault);
      var entry := LogEntry(sessionId, message, AnswerText(chunks), suggestions.GetOr([]), None);
      && Events(o.trace) == TokenEvents(chunks) + [Final(suggestions.GetOr([]), None)]
      && TokenText(Events(o.trace)) == o.fullAnswer == AnswerText(chunks)
      && Calls(o.trace) == [ClassifyIntent(message), GetRagChain(PersonaFor(intent)),
                            GenerateSuggestions(message, AnswerText(chunks)), ScheduleLog(entry)]
      && |o.trace| >= 2
      && o.trace[|o.trace| - 2..] == [Request(ScheduleLog(entry)), Emit(Final(suggestions.GetOr([]), None))]
      && o.suggestedQuestions == suggestions && o.mailtoLink == None
  {
    var t := Asked(message, intent, chunks);
    assert Run(sessionId, message, intent, chunks, suggestions, NoFault)
        == Complete(sessionId, message, t, AnswerText(chunks), suggestions, None);
    AskedTrace(message, intent, chunks);
    CompleteTrace(sessionId, message, t, AnswerText(chunks), suggestions, None);
    AnswerSpelled(chunks, Final(suggestions.GetOr([]), None));
  }

  /** Any other request is answered by the chain for the persona its intent selects. */
  lemma RunPersona(sessionId: string, message: string, intent: Intent, chunks: seq<Chunk>,
                   suggestions: Option<seq<string>>, fault: Fault)
    requires intent != CreateEmail && fault != ClassifyFault
    ensures var calls := Calls(Run(sessionId, message, intent, chunks, suggestions, fault).trace);
      |calls| >= 2 && calls[..2] == [ClassifyIntent(message), GetRagChain(PersonaFor(intent))]
    ensures PersonaFor(intent) == HiringManagerPersona <==> intent == Recruiter
  {
    match fault {
      case ChainFault => ChainFailedRun(sessionId, message, intent, chunks, suggestions);
      case StreamFault => StreamFailedRun(sessionId, message, intent, chunks, suggestions);
      case SuggestionFault => SuggestionFailedRun(sessionId, message, intent, chunks, suggestions);
      case NoFault => AnsweredRun(sessionId, message, intent, chunks, suggestions);
    }
  }

  /** Tokens followed by one terminal event form a well-formed stream ending in that event. */
  lemma TokensThen(o: Outcome, tokens: seq<Event>, last: Event)
    requires Events(o.trace) == tokens + [last]
    requires forall i :: 0 <= i < |tokens| ==> tokens[i].Token?
    requires last.IsTerminal() && (last.Error? ==> last == Error(GenericError))
    ensures KeepsProtocol(o, last.Error?)
  {
    var es := tokens + [last];
    assert forall i :: 0 <= i < |es| - 1 ==> es[i] == tokens[i];
    assert es[|es| - 1] == last;
  }

  /**
   * Every run yields tokens only and then exactly one terminal event; the terminal
   * event is the generic error exactly when an awaited collaborator raises.
   */
  lemma RunProtocol(sessionId: string, message: string, intent: Intent, chunks: seq<Chunk>,
                    suggestions: Option<seq<string>>, fault: Fault)
    ensures KeepsProtocol(Run(sessionId, message, intent, chunks, suggestions, fault), Fails(intent, fault))
  {
    var o := Run(sessionId, message, intent, chunks, suggestions, fault);
    if fault == ClassifyFault {
      ClassifyFailedRun(sessionId, message, intent, chunks, suggestions);
      TokensThen(o, [], Error(GenericError));
    } else if intent == CreateEmail {
      RunEmailShortCircuit(sessionId, message, chunks, suggestions, fault);
      TokensThen(o, [Token(EmailAck)], Final([], Some(EmailLink())));
    } else {
      ChainRunProtocol(sessionId, message, intent, chunks, suggestions, fault);
    }
  }

  /** The event protocol on the runs that request the chain. */
  lemma ChainRunProtocol(sessionId: string, message: string, intent: Intent, chunks: seq<Chunk>,
                         suggestions: Option<seq<string>>, fault: Fault)
    requires intent != CreateEmail && fault != ClassifyFault
    ensures KeepsProtocol(Run(sessionId, message, intent, chunks, suggestions, fault), Fails(intent, fault))
  {
    var o := Run(sessionId, message, intent, chunks, suggestions, fault);
    match fault {
      case ChainFault =>
        ChainFailedRun(sessionId, message, intent, chunks, suggestions);
        TokensThen(o, [], Error(GenericError));
      case StreamFault =>
        StreamFailedRun(sessionId, message, intent, chunks, suggestions);
        TokensThen(o, TokenEvents(chunks), Error(GenericError));
      case SuggestionFault =>
        SuggestionFailedRun(sessionId, message, intent, chunks, suggestions);
        TokensThen(o, TokenEvents(chunks), Error(GenericError));
      case NoFault =>
        AnsweredRun(sessionId, message, intent, chunks, suggestions);
        TokensThen(o, TokenEvents(chunks), Final(suggestions.GetOr([]), None));
    }
  }

  /** A successful run schedules exactly one log job; a failed run schedules none. */
  lemma RunLogJobs(sessionId: string, message: string, intent: Intent, chunks: seq<Chunk>,
                   suggestions: Option<seq<string>>, fault: Fault)
    ensures LogJobs(Calls(Run(sessionId, message, intent, chunks, suggestions, fault).trace))
         == (if Fails(intent, fault) then 0 else 1)
  {
    var calls := Calls(Run(sessionId, message, intent, chunks, suggestions, fault).trace);
    if fault == ClassifyFault {
      ClassifyFailedRun(sessionId, message, intent, chunks, suggestions);
      NoLogJobs(calls);
    } else if intent == CreateEmail {
      RunEmailShortCircuit(sessionId, message, chunks, suggestions, fault);
      LogJobsPair(ClassifyIntent(message), ScheduleLog(LogEntry(sessionId, message, EmailAck, [], Some(EmailLink()))));
    } else {
      ChainRunLogJobs(sessionId, message, intent, chunks, suggestions, fault);
    }
  }

  /** The log-job count on the runs that request the chain. */
  lemma ChainRunLogJobs(sessionId: string, message: string, intent: Intent, chunks: seq<Chunk>,
                        suggestions: Option<seq<string>>, fault: Fault)
    requires intent != CreateEmail && fault != ClassifyFault
    ensures LogJobs(Calls(Run(sessionId, message, intent, chunks, suggestions, fault).trace))
         == (if Fails(intent, fault) then 0 else 1)
  {
    var calls := Calls(Run(sessionId, message, intent, chunks, suggestions, fault).trace);
    match fault {
      case ChainFault =>
        ChainFailedRun(sessionId, message, intent, chunks, suggestions);
        NoLogJobs(calls);
      case StreamFault =>
        StreamFailedRun(sessionId, message, intent, chunks, suggestions);
        NoLogJobs(calls);
      case SuggestionFault =>
        SuggestionFailedRun(sessionId, message, intent, chunks, suggestions);
        NoLogJobs(calls);
      case NoFault =>
        AnsweredRun(sessionId, message, intent, chunks, suggestions);
        var first := [ClassifyIntent(message), GetRagChain(PersonaFor(intent)),
                      GenerateSuggestions(message, AnswerText(chunks))];
        var log := ScheduleLog(LogEntry(sessionId, message, AnswerText(chunks), suggestions.GetOr([]), None));
        LogJobsOnly(first, [log]);
        assert first + [log] == calls;
    }
  }

  /**
   * The log job of a successful run is scheduled just before the `final` event and
   * records the answer, suggestions and link the client receives.
   */
  lemma RunLogsWhatIsSent(sessionId: string, message: string, intent: Intent, chunks: seq<Chunk>,
                          suggestions: Option<seq<string>>, fault: Fault)
    requires !Fails(intent, fault)
    ensures var o := Run(sessionId, message, intent, chunks, suggestions, fault);
      && |o.trace| >= 2
      && o.trace[|o.trace| - 1] == Emit(Final(o.suggestedQuestions.GetOr([]), o.mailtoLink))
      && o.trace[|o.trace| - 2]
         == Request(ScheduleLog(LogEntry(sessionId, message, o.fullAnswer, o.suggestedQuestions.GetOr([]), o.mailtoLink)))
  {
    var t := Run(sessionId, message, intent, chunks, suggestions, fault).trace;
    if intent == CreateEmail {
      RunEmailShortCircuit(sessionId, message, chunks, suggestions, fault);
    } else {
      AnsweredRun(sessionId, message, intent, chunks, suggestions);
    }
    assert t[|t| - 2] == t[|t| - 2..][0] && t[|t| - 1] == t[|t| - 2..][1];
  }

  /** No call among those of `o` asks for suggestions. */
  lemma NoSuggestionCall(o: Outcome, message: string, calls: seq<Call>)
    requires Calls(o.trace) == calls
    requires forall i :: 0 <= i < |calls| ==> !calls[i].GenerateSuggestions?
    ensures KeepsSuggestionRule(o, message, false)
  {
  }

  /** Call `k` of `o` asks for suggestions with the question and `o`'s answer. */
  lemma SuggestionCallAt(o: Outcome, message: string, calls: seq<Call>, k: nat)
    requires Calls(o.trace) == calls
    requires k < |calls| && calls[k] == GenerateSuggestions(message, o.fullAnswer)
    ensures KeepsSuggestionRule(o, message, true)
  {
    assert calls[k].GenerateSuggestions?;
  }

  /**
   * Suggestions are asked for, with the question and the complete answer, exactly
   * when the chain has streamed its whole answer; a request for an email never asks.
   */
  lemma RunSuggestions(sessionId: string, message: string, intent: Intent, chunks: seq<Chunk>,
                       suggestions: Option<seq<string>>, fault: Fault)
    ensures KeepsSuggestionRule(Run(sessionId, message, intent, chunks, suggestions, fault), message,
                                Answered(intent, fault))
  {
    var o := Run(sessionId, message, intent, chunks, suggestions, fault);
    if fault == ClassifyFault {
      ClassifyFailedRun(sessionId, message, intent, chunks, suggestions);
      NoSuggestionCall(o, message, [ClassifyIntent(message)]);
    } else if intent == CreateEmail {
      RunEmailShortCircuit(sessionId, message, chunks, suggestions, fault);
      NoSuggestionCall(o, message, [ClassifyIntent(message),
                                    ScheduleLog(LogEntry(sessionId, message, EmailAck, [], Some(EmailLink())))]);
    } else {
      ChainRunSuggestions(sessionId, message, intent, chunks, suggestions, fault);
    }
  }

  /** The suggestion rule on the runs the chain answers. */
  lemma ChainRunSuggestions(sessionId: string, message: string, intent: Intent, chunks: seq<Chunk>,
                            suggestions: Option<seq<string>>, fault: Fault)
    requires intent != CreateEmail && fault != ClassifyFault
    ensures KeepsSuggestionRule(Run(sessionId, message, intent, chunks, suggestions, fault), message,
                                Answered(intent, fault))
  {
    var o := Run(sessionId, message, intent, chunks, suggestions, fault);
    var start := [ClassifyIntent(message), GetRagChain(PersonaFor(intent))];
    var asked := start + [GenerateSuggestions(message, AnswerText(chunks))];
    match fault {
      case ChainFault =>
        ChainFailedRun(sessionId, message, intent, chunks, suggestions);
        NoSuggestionCall(o, message, start);
      case StreamFault =>
        StreamFailedRun(sessionId, message, intent, chunks, suggestions);
        NoSuggestionCall(o, message, start);
      case SuggestionFault =>
        SuggestionFailedRun(sessionId, message, intent, chunks, suggestions);
        SuggestionCallAt(o, message, asked, 2);
      case NoFault =>
        AnsweredRun(sessionId, message, intent, chunks, suggestions);
        var log := ScheduleLog(LogEntry(sessionId, message, AnswerText(chunks), suggestions.GetOr([]), None));
        SuggestionCallAt(o, message, asked + [log], 2);
    }
  }

  /** `_ChatStreamManager`: the per-request state, filled in as `process` runs. */
  class ChatStreamManager {
    const sessionId: string
    const message: string
    var fullAnswer: string
    var suggestedQuestions: Option<seq<string>>
    var mailtoLink: Option<string>

    /** The state of a manager that has not run yet. */
    predicate Unstarted()
      reads this
    {
      fullAnswer == "" && suggestedQuestions == None && mailtoLink == None
    }

    constructor (sessionId: string, message: string)
      ensures this.sessionId == sessionId && this.message == message && Unstarted()
    {
      this.sessionId := sessionId;
      this.message := message;
      fullAnswer := "";
      suggestedQuestions := None;
      mailtoLink := None;
    }

    /** `_stream_answer`: yields a token per non-empty answer and appends it to `fullAnswer`. */
    method StreamAnswer(chunks: seq<Chunk>) returns (tokens: seq<Event>)
      modifies this`fullAnswer
      ensures tokens == TokenEvents(chunks)
      ensures fullAnswer == old(fullAnswer) + AnswerText(chunks)
    {
      tokens := [];
      var i := 0;
      while i < |chunks|
        invariant 0 <= i <= |chunks|
        invariant tokens == TokenEvents(chunks[..i])
        invariant fullAnswer + AnswerText(chunks[i..]) == old(fullAnswer) + AnswerText(chunks)
      {
        var chunk := chunks[i];
        assert chunks[..i + 1][..i] == chunks[..i];
        assert chunks[i..][1..] == chunks[i + 1..];
        if chunk.answer.Some? && chunk.answer.value != "" {
          fullAnswer := fullAnswer + chunk.answer.value;
          tokens := tokens + [Token(chunk.answer.value)];
        }
        i := i + 1;
      }
      assert chunks[..i] == chunks;
    }

    /** `process`: one request from classification to the terminal event. */
    method Process(intent: Intent, chunks: seq<Chunk>, suggestions: Option<seq<string>>, fault: Fault)
      returns (trace: seq<Action>)
      requires Unstarted()
      modifies this
      ensures Run(sessionId, message, intent, chunks, suggestions, fault)
           == Outcome(trace, fullAnswer, suggestedQuestions, mailtoLink)
    {
      trace := [Request(ClassifyIntent(message))];
      if fault == ClassifyFault {
        trace := trace + [Emit(Error(GenericError))];
        assert trace == [Request(ClassifyIntent(message)), Emit(Error(GenericError))];
        return;
      }
      if intent == CreateEmail {
        fullAnswer := EmailAck;
        mailtoLink := Some(EmailLink());
        trace := trace + [Emit(Token(fullAnswer))];
        assert trace == [Request(ClassifyIntent(message)), Emit(Token(EmailAck))];
      } else {
        var persona := if intent == Recruiter then HiringManagerPersona else DefaultPersona;
        trace := trace + [Request(GetRagChain(persona))];
        assert trace == [Request(ClassifyIntent(message)), Request(GetRagChain(PersonaFor(intent)))];
        if fault == ChainFault {
          trace := trace + [Emit(Error(GenericError))];
          assert trace == [Request(ClassifyIntent(message)), Request(GetRagChain(PersonaFor(intent))),
                           Emit(Error(GenericError))];
          return;
        }
        var tokens := StreamAnswer(chunks);
        assert fullAnswer == AnswerText(chunks);
        trace := trace + Emitted(tokens);
        assert trace == Streamed(message, intent, chunks);
        if fault == StreamFault {
          trace := trace + [Emit(Error(GenericError))];
          return;
        }
      }
      ghost var reached := trace;
      if !(mailtoLink.Some? && mailtoLink.value != "") {
        trace := trace + [Request(GenerateSuggestions(message, fullAnswer))];
        if fault == SuggestionFault {
          trace := trace + [Emit(Error(GenericError))];
          assert Finish(sessionId, message, reached, fullAnswer, mailtoLink, suggestions, fault)
              == Outcome(trace, fullAnswer, suggestedQuestions, mailtoLink);
          return;
        }
        suggestedQuestions := suggestions;
      }
      var finalQuestions := if suggestedQuestions.Some? then suggestedQuestions.value else [];
      ghost var logged := trace;
      trace := trace + [Request(ScheduleLog(LogEntry(sessionId, message, fullAnswer, finalQuestions, mailtoLink))),
                        Emit(Final(finalQuestions, mailtoLink))];
      assert Complete(sessionId, message, logged, fullAnswer, suggestedQuestions, mailtoLink)
          == Outcome(trace, fullAnswer, suggestedQuestions, mailtoLink);
    }
  }
}
