/** The OpenAI-style chat backend (Hermes and Ethos): each request carries the
    running history, and only a completed turn extends it, up to a cap. */
module ChatHistory {
  import opened Prelude
  import opened Text
  import opened SseDecoder

  datatype Role = User | Assistant

  datatype Message = Message(role: Role, content: string)

  datatype Pair = Pair(question: string, answer: string)

  const MAX_HISTORY_TURNS := 100

  // ---- the abstract conversation ----------------------------------------------------

  datatype State = State(history: seq<Message>, dropped: nat)

  datatype Act = Send(message: string, result: Result<string, ChatError>) | Clear

  const FRESH := State([], 0)

  /** One call: a success appends its pair and trims the front, a failure only resets
      the dropped count, a clear resets everything. */
  function Apply(s: State, a: Act): State {
    match a
    case Clear => FRESH
    case Send(message, Err(_)) => s.(dropped := 0)
    case Send(message, Ok(text)) =>
      var longer := s.history + [Message(User, message), Message(Assistant, text)];
      var cap := MAX_HISTORY_TURNS * 2;
      if |longer| > cap then State(longer[|longer| - cap..], (|longer| - cap) / 2) else State(longer, 0)
  }

  function Run(acts: seq<Act>): State {
    if acts == [] then FRESH else Apply(Run(acts[..|acts| - 1]), acts[|acts| - 1])
  }

  lemma RunOne(acts: seq<Act>, a: Act)
    ensures Run(acts + [a]) == Apply(Run(acts), a)
  {
    assert (acts + [a])[..|acts|] == acts;
  }

  /** The successful turns since the last clear. */
  function Successes(acts: seq<Act>): seq<Pair> {
    if acts == [] then []
    else
      var before, last := Successes(acts[..|acts| - 1]), acts[|acts| - 1];
      match last
      case Clear => []
      case Send(message, Ok(text)) => before + [Pair(message, text)]
      case Send(_, Err(_)) => before
  }

  /** What the callers were told was dropped, summed since the last clear. */
  function DroppedSince(acts: seq<Act>): nat {
    if acts == [] then 0
    else if acts[|acts| - 1].Clear? then 0
    else DroppedSince(acts[..|acts| - 1]) + Run(acts).dropped
  }

  function Flatten(pairs: seq<Pair>): seq<Message> {
    if pairs == [] then []
    else [Message(User, pairs[0].question), Message(Assistant, pairs[0].answer)] + Flatten(pairs[1..])
  }

  function Kept(pairs: seq<Pair>): seq<Pair> {
    if |pairs| <= MAX_HISTORY_TURNS then pairs else pairs[|pairs| - MAX_HISTORY_TURNS..]
  }

  lemma {:induction false} FlattenConcat(a: seq<Pair>, b: seq<Pair>)
    ensures Flatten(a + b) == Flatten(a) + Flatten(b)
  {
    if a == [] {
      assert a + b == b;
    } else {
      assert (a + b)[1..] == a[1..] + b;
      FlattenConcat(a[1..], b);
    }
  }

  lemma {:induction false} FlattenLength(pairs: seq<Pair>)
    ensures |Flatten(pairs)| == 2 * |pairs|
  {
    if pairs != [] { FlattenLength(pairs[1..]); }
  }

  lemma FlattenOne(p: Pair)
    ensures Flatten([p]) == [Message(User, p.question), Message(Assistant, p.answer)]
  {
    assert [p][1..] == [];
  }

  /** Whatever the calls, the history is exactly the last hundred successful pairs
      since the last clear, and every pair no longer in it was reported as dropped. */
  lemma {:induction false} HistoryConserved(acts: seq<Act>)
    ensures Run(acts).history == Flatten(Kept(Successes(acts)))
    ensures DroppedSince(acts) + |Kept(Successes(acts))| == |Successes(acts)|
    ensures Run(acts).dropped <= 1
  {
    if acts != [] {
      var before, last := acts[..|acts| - 1], acts[|acts| - 1];
      HistoryConserved(before);
      if last.Send? && last.result.Ok? {
        var p := Pair(last.message, last.result.value);
        AppendPair(Successes(before), p);
        assert Run(before).history + [Message(User, last.message), Message(Assistant, last.result.value)]
            == Flatten(Kept(Successes(before)) + [p]) by {
          FlattenConcat(Kept(Successes(before)), [p]);
          FlattenOne(p);
        }
        FlattenLength(Kept(Successes(before)) + [p]);
      }
    }
  }

  /** In figures. */
  lemma HistoryIsLastHundred(acts: seq<Act>)
    ensures var pairs := Successes(acts);
            && (|pairs| <= 100 ==> Run(acts).history == Flatten(pairs) && DroppedSince(acts) == 0)
            && (|pairs| > 100 ==> Run(acts).history == Flatten(pairs[|pairs| - 100..]) && DroppedSince(acts) == |pairs| - 100)
  {
    HistoryConserved(acts);
  }

  /** Keeping the last pairs after adding one drops at most the oldest kept pair. */
  lemma AppendPair(pairs: seq<Pair>, p: Pair)
    ensures var longer := Kept(pairs) + [p];
            var cap := 2 * MAX_HISTORY_TURNS;
            && |Flatten(longer)| == 2 * |longer|
            && (|longer| <= MAX_HISTORY_TURNS ==> Kept(pairs + [p]) == longer)
            && (|longer| > MAX_HISTORY_TURNS ==>
                  && |longer| == MAX_HISTORY_TURNS + 1 && Kept(pairs + [p]) == longer[1..]
                  && Flatten(longer)[2..] == Flatten(longer[1..]))
  {
    var longer := Kept(pairs) + [p];
    FlattenLength(longer);
    FlattenConcat([longer[0]], longer[1..]);
    FlattenOne(longer[0]);
    assert [longer[0]] + longer[1..] == longer;
  }

  predicate Alternates(messages: seq<Message>) {
    forall i :: 0 <= i < |messages| ==> messages[i].role == if i % 2 == 0 then User else Assistant
  }

  lemma {:induction false} FlattenAlternates(pairs: seq<Pair>)
    ensures Alternates(Flatten(pairs)) && |Flatten(pairs)| == 2 * |pairs|
  {
    if pairs != [] {
      FlattenAlternates(pairs[1..]);
      var rest := Flatten(pairs[1..]);
      forall i | 0 <= i < |Flatten(pairs)|
        ensures Flatten(pairs)[i].role == if i % 2 == 0 then User else Assistant
      {
        if i >= 2 { assert Flatten(pairs)[i] == rest[i - 2]; }
      }
    }
  }

  /** Every request starts with a user message, strictly alternates, ends with the new
      user message, and never exceeds the cap plus that message. */
  lemma RequestsWellFormed(acts: seq<Act>, message: string)
    ensures var outgoing := Run(acts).history + [Message(User, message)];
            && Alternates(outgoing) && outgoing[|outgoing| - 1] == Message(User, message)
            && |outgoing| <= 2 * MAX_HISTORY_TURNS + 1
  {
    HistoryConserved(acts);
    FlattenAlternates(Kept(Successes(acts)));
    AlternatesOne(Run(acts).history, message);
  }

  lemma AlternatesOne(messages: seq<Message>, message: string)
    requires Alternates(messages) && |messages| % 2 == 0
    ensures Alternates(messages + [Message(User, message)])
  {
  }

  // ---- the backend ---------------------------------------------------------------------

  datatype Response =
    | ConnectError
    | Timeout
    | HttpError
    | Status(code: int, body: Body)

  /** `Streamed` answers with text/event-stream, `Whole` with anything else: None is
      not JSON, otherwise the sanitised assistant text. */
  datatype Body = Streamed(lines: seq<string>, broken: bool) | Whole(text: Option<string>)

  /** What the caller's callback sees and what the call returns, for each answer. */
  function Exchange(env: Env, response: Response): Outcome {
    match response
    case ConnectError => Outcome([], Err(Unreachable))
    case Timeout => Outcome([], Err(TimedOut))
    case HttpError => Outcome([], Err(Disconnected))
    case Status(code, body) =>
      if code == 401 || code == 403 then Outcome([], Err(Unauthorised))
      else if code >= 400 then Outcome([], Err(HttpStatus(code)))
      else match body
           case Streamed(lines, broken) => Meaning(env, lines, broken)
           case Whole(None) => Outcome([], Err(NotJson))
           case Whole(Some(text)) =>
             if text == "" then Outcome([], Err(MissingContent))
             else Outcome([text], if env.refusesAt == Some(0) then Err(CallbackRaised) else Ok(text))
  }

  /** What each answer comes to: only a good status is read, and then a whole text is heard
      once and returned. */
  lemma ExchangeMeaning(env: Env, code: int, body: Body, text: string)
    ensures Exchange(env, ConnectError) == Outcome([], Err(Unreachable))
    ensures Exchange(env, Timeout) == Outcome([], Err(TimedOut))
    ensures Exchange(env, HttpError) == Outcome([], Err(Disconnected))
    ensures code in {401, 403} ==> Exchange(env, Status(code, body)) == Outcome([], Err(Unauthorised))
    ensures code >= 400 && code !in {401, 403} ==> Exchange(env, Status(code, body)) == Outcome([], Err(HttpStatus(code)))
    ensures code < 400 ==> Exchange(env, Status(code, Whole(None))) == Outcome([], Err(NotJson))
    ensures code < 400 ==> Exchange(env, Status(code, Whole(Some("")))) == Outcome([], Err(MissingContent))
    ensures code < 400 && text != "" && env.refusesAt != Some(0) ==>
              Exchange(env, Status(code, Whole(Some(text)))) == Outcome([text], Ok(text))
    ensures code < 400 && text != "" && env.refusesAt == Some(0) ==>
              Exchange(env, Status(code, Whole(Some(text)))) == Outcome([text], Err(CallbackRaised))
  {
  }

  /** ... and a stream that the server wrote is answered with its deltas joined. */
  lemma StreamedMeaning(env: Env, code: int, events: seq<seq<Item>>, last: seq<Item>, n: nat)
    requires code < 400 && ValidItems(last) && forall i :: 0 <= i < |events| ==> ValidItems(events[i])
    requires var p := EventPayloads(events) + Payload(last);
             n <= |p| && Smooth(env, p, n, []) && (n < |p| ==> p[n] == "[DONE]")
    ensures var heard := Decoded(env, (EventPayloads(events) + Payload(last))[..n]);
            Exchange(env, Status(code, Streamed(Encode(events) + RenderAll(last), false)))
            == Outcome(heard, if Concat(heard) != "" then Ok(Concat(heard)) else Err(MissingContent))
  {
    StreamIsAnswered(env, events, last, n);
  }

  /** A reply is never empty, is what the callback heard, and comes only from a good status. */
  lemma RepliesWereHeard(env: Env, response: Response)
    requires Exchange(env, response).result.Ok?
    ensures var o := Exchange(env, response);
            && o.result.value == Concat(o.deltas) && o.result.value != ""
            && response.Status? && response.code < 400
  {
    if response.body.Streamed? {
      var lines, broken := response.body.lines, response.body.broken;
      ReplyIsDeltas(env, if broken then Complete([], lines) else Payloads(lines), broken, []);
    } else {
      var text := response.body.text.value;
      assert [text][1..] == [];
    }
  }

  class OpenAIChatBackend {
    var connected: bool
    var history: seq<Message>
    var lastSendDroppedTurns: nat
    ghost var acts: seq<Act>

    ghost predicate Valid()
      reads this
    {
      State(history, lastSendDroppedTurns) == Run(acts)
    }

    constructor ()
      ensures Valid() && acts == [] && !connected
    {
      connected, history, lastSendDroppedTurns, acts := false, [], 0, [];
    }

    method Connect()
      modifies this`connected
      ensures connected
    {
      connected := true;
    }

    method Close()
      modifies this`connected
      ensures !connected
    {
      connected := false;
    }

    method ClearHistory()
      requires Valid()
      modifies this
      ensures Valid() && acts == old(acts) + [Clear] && connected == old(connected)
      ensures history == [] && lastSendDroppedTurns == 0
    {
      history, lastSendDroppedTurns, acts := [], 0, acts + [Clear];
    }

    /** `outgoing` is the message list of the request body.  A turn that fails, at any
        stage, leaves the history as it was; a refused call leaves everything. */
    method SendMessage(env: Env, message: string, response: Response)
      returns (outgoing: seq<Message>, deltas: seq<string>, r: Result<string, ChatError>)
      requires Valid()
      modifies this
      ensures Valid() && connected == old(connected)
      ensures !old(connected) ==> r == Err(NotConnected) && acts == old(acts) && outgoing == []
      ensures old(connected) ==> acts == old(acts) + [Send(message, r)]
      ensures old(connected) ==> outgoing == old(history) + [Message(User, message)]
      ensures r.Err? ==> history == old(history)
      ensures old(connected) ==> Outcome(deltas, r) == Exchange(env, response)
    {
      outgoing, deltas := [], [];
      if !connected { return outgoing, deltas, Err(NotConnected); }
      lastSendDroppedTurns := 0;
      outgoing := history + [Message(User, message)];
      deltas, r := Receive(env, response);
      RunOne(acts, Send(message, r));
      acts := acts + [Send(message, r)];
      if r.Err? { return; }
      history := history + [Message(User, message)];
      history := history + [Message(Assistant, r.value)];
      Associate(old(history), [Message(User, message)], [Message(Assistant, r.value)]);
      assert [Message(User, message)] + [Message(Assistant, r.value)] == [Message(User, message), Message(Assistant, r.value)];
      var maxEntries := MAX_HISTORY_TURNS * 2;
      if |history| > maxEntries {
        var overflow := |history| - maxEntries;
        history := history[overflow..];
        lastSendDroppedTurns := overflow / 2;
      }
    }

    /** The exchange itself, statement by statement. */
    method Receive(env: Env, response: Response) returns (deltas: seq<string>, r: Result<string, ChatError>)
      ensures Outcome(deltas, r) == Exchange(env, response)
    {
      deltas := [];
      match response
      case ConnectError => return deltas, Err(Unreachable);
      case Timeout => return deltas, Err(TimedOut);
      case HttpError => return deltas, Err(Disconnected);
      case Status(code, body) =>
        if code == 401 || code == 403 { return deltas, Err(Unauthorised); }
        if code >= 400 { return deltas, Err(HttpStatus(code)); }
        match body
        case Streamed(lines, broken) => deltas, r := ConsumeSse(env, lines, broken);
        case Whole(text) =>
          if text.None? { return deltas, Err(NotJson); }
          if text.value == "" { return deltas, Err(MissingContent); }
          deltas := [text.value];
          if env.refusesAt == Some(0) { return deltas, Err(CallbackRaised); }
          r := Ok(text.value);
    }
  }
}
