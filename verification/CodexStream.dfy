/** The recogniser for one Codex turn: a bounded list of JSON lines is accepted
    only when it tells one complete story. */
module CodexStream {
  import opened Prelude
  import opened Text

  /** An event's item, when it is an object; None is an absent or non-string field. */
  datatype Item = NotAnObject | Item(kind: Option<string>, text: Option<string>)

  /** One decoded line: malformed JSON, JSON that is not an event object with a
      string type, or an event. */
  datatype Line = Malformed | NotAnEvent | Event(kind: string, threadId: Option<string>, item: Item)

  datatype Rejection =
    | EmptyResponse
    | TooManyEvents
    | MalformedLine
    | InvalidEvent
    | AfterCompletion
    | TurnFailed
    | SecondThread
    | BadThreadId
    | ItemBeforeThread
    | BadMessage
    | Incomplete

  datatype Reply = Reply(text: string, threadId: string)

  const MAX_EVENTS := 2048

  predicate ValidThreadId(id: Option<string>) {
    id.Some? && Strip(id.value) != "" && |id.value| <= 256
  }

  predicate IsMessage(e: Line) {
    e.Event? && e.kind == "item.completed" && e.item.Item? && e.item.kind == Some("agent_message")
  }

  // ---- one event at a time -------------------------------------------------------------

  datatype Progress = Progress(threadId: Option<string>, messages: seq<string>, completed: bool)

  const START := Progress(None, [], false)

  function Advance(p: Progress, e: Line): Result<Progress, Rejection> {
    match e
    case Malformed => Err(MalformedLine)
    case NotAnEvent => Err(InvalidEvent)
    case Event(kind, threadId, item) =>
      if p.completed then Err(AfterCompletion)
      else if kind == "turn.failed" || kind == "error" then Err(TurnFailed)
      else if kind == "thread.started" then
        if p.threadId.Some? then Err(SecondThread)
        else if !ValidThreadId(threadId) then Err(BadThreadId)
        else Ok(p.(threadId := threadId))
      else if kind == "item.completed" then
        if p.threadId.None? then Err(ItemBeforeThread)
        else if IsMessage(e) then
          if item.text.None? then Err(BadMessage) else Ok(p.(messages := p.messages + [item.text.value]))
        else Ok(p)
      else if kind == "turn.completed" then Ok(p.(completed := true))
      else Ok(p)
  }

  /** The fold; the first offending event decides the rejection. */
  function AdvanceAll(p: Progress, events: seq<Line>): Result<Progress, Rejection> {
    if events == [] then Ok(p)
    else match AdvanceAll(p, events[..|events| - 1])
         case Err(why) => Err(why)
         case Ok(p') => Advance(p', events[|events| - 1])
  }

  function Conclude(p: Progress): Result<Reply, Rejection> {
    if p.threadId.None? || p.messages == [] || !p.completed then Err(Incomplete)
    else Ok(Reply(Sanitize(JoinLines(p.messages)), p.threadId.value))
  }

  function Recognise(lines: seq<string>, decode: string -> Line): Result<Reply, Rejection> {
    if forall i :: 0 <= i < |lines| ==> Blank(lines[i]) then Err(EmptyResponse)
    else if |lines| > MAX_EVENTS then Err(TooManyEvents)
    else match AdvanceAll(START, Events(lines, decode))
         case Err(why) => Err(why)
         case Ok(p) => Conclude(p)
  }

  function Events(lines: seq<string>, decode: string -> Line): seq<Line> {
    seq(|lines|, i requires 0 <= i < |lines| => decode(lines[i]))
  }

  // ---- the accepted language, declaratively ----------------------------------------------

  predicate Kind(e: Line, kind: string) {
    e.Event? && e.kind == kind
  }

  /** The texts of the agent messages, in order. */
  function Messages(events: seq<Line>): seq<string> {
    if events == [] then []
    else
      var last := events[|events| - 1];
      Messages(events[..|events| - 1]) + if IsMessage(last) && last.item.text.Some? then [last.item.text.value] else []
  }

  /** An event that is acceptable in itself: it reports no failure, starts a thread only
      with a valid id, and is text if it is an agent message. */
  predicate Sound(e: Line) {
    && e.Event? && !Kind(e, "turn.failed") && !Kind(e, "error")
    && (Kind(e, "thread.started") ==> ValidThreadId(e.threadId))
    && (IsMessage(e) ==> e.item.text.Some?)
  }

  /** No event of `events` may be out of place: all are sound, nothing follows a
      completion, a thread starts at most once, and items come after it. */
  ghost predicate Orderly(events: seq<Line>) {
    && (forall i :: 0 <= i < |events| ==> Sound(events[i]))
    && (forall i :: 0 <= i < |events| - 1 ==> !Kind(events[i], "turn.completed"))
    && (forall i, j :: 0 <= i < j < |events| ==> !(Kind(events[i], "thread.started") && Kind(events[j], "thread.started")))
    && (forall j :: 0 <= j < |events| && Kind(events[j], "item.completed") ==>
          exists i :: 0 <= i < j && Kind(events[i], "thread.started"))
  }

  /** A complete turn: orderly, with its thread, at least one message, and a last
      event that completes it. */
  ghost predicate CompleteTurn(events: seq<Line>, threadId: string) {
    && Orderly(events)
    && Messages(events) != []
    && events != [] && Kind(events[|events| - 1], "turn.completed")
    && exists i :: 0 <= i < |events| && Kind(events[i], "thread.started") && events[i].threadId == Some(threadId)
  }

  /** What the fold has gathered, in terms of the events seen. */
  ghost predicate Gathered(p: Progress, events: seq<Line>) {
    && p.messages == Messages(events)
    && (p.completed <==> events != [] && Kind(events[|events| - 1], "turn.completed"))
    && (p.threadId.None? <==> forall i :: 0 <= i < |events| ==> !Kind(events[i], "thread.started"))
    && (p.threadId.Some? ==>
          && ValidThreadId(p.threadId)
          && exists i :: 0 <= i < |events| && Kind(events[i], "thread.started") && events[i].threadId == p.threadId)
  }

  lemma OrderlyPrefix(events: seq<Line>)
    requires events != [] && Orderly(events)
    ensures Orderly(events[..|events| - 1])
    ensures events[..|events| - 1] != [] ==> !Kind(events[|events| - 2], "turn.completed")
  {
    var before := events[..|events| - 1];
    forall j | 0 <= j < |before| && Kind(before[j], "item.completed")
      ensures exists i :: 0 <= i < j && Kind(before[i], "thread.started")
    {
      var i :| 0 <= i < j && Kind(events[i], "thread.started");
      assert Kind(before[i], "thread.started");
    }
  }

  /** One accepted step: the fold goes on exactly when the longer list is still orderly. */
  lemma AdvanceMeaning(p: Progress, before: seq<Line>, e: Line)
    requires Orderly(before) && Gathered(p, before)
    ensures Advance(p, e).Ok? ==> Orderly(before + [e]) && Gathered(Advance(p, e).value, before + [e])
    ensures Orderly(before + [e]) ==> Advance(p, e).Ok?
  {
    var events := before + [e];
    assert events[..|before|] == before && events[|before|] == e;
    if Advance(p, e).Ok? {
      AdvanceKeepsOrder(p, before, e);
      AdvanceGathers(p, before, e);
    }
    if Orderly(events) { OrderlyAdvances(p, before, e); }
  }

  lemma OrderlyAdvances(p: Progress, before: seq<Line>, e: Line)
    requires Gathered(p, before) && Orderly(before + [e])
    ensures Advance(p, e).Ok?
  {
    var events := before + [e];
    assert events[|before|] == e;
    assert before != [] ==> events[|before| - 1] == before[|before| - 1];
    assert !p.completed;
    if Kind(e, "thread.started") {
      forall i | 0 <= i < |before| ensures !Kind(before[i], "thread.started") {
        assert events[i] == before[i];
      }
    }
    if Kind(e, "item.completed") {
      var i :| 0 <= i < |before| && Kind(events[i], "thread.started");
      assert Kind(before[i], "thread.started");
    }
  }

  /** What the fold asks of an event, given what it has gathered. */
  ghost predicate Fits(p: Progress, e: Line) {
    && Sound(e) && !p.completed
    && (Kind(e, "thread.started") ==> p.threadId.None?)
    && (Kind(e, "item.completed") ==> p.threadId.Some?)
  }

  lemma AdvanceFits(p: Progress, e: Line)
    requires Advance(p, e).Ok?
    ensures Fits(p, e)
  {
  }

  lemma ItemsFollowThread(p: Progress, before: seq<Line>, e: Line, j: nat)
    requires Orderly(before) && Gathered(p, before) && Fits(p, e)
    requires j <= |before| && Kind((before + [e])[j], "item.completed")
    ensures exists i :: 0 <= i < j && Kind((before + [e])[i], "thread.started")
  {
    var events := before + [e];
    if j < |before| {
      assert Kind(before[j], "item.completed");
      var i :| 0 <= i < j && Kind(before[i], "thread.started");
      assert Kind(events[i], "thread.started");
    } else {
      var i :| 0 <= i < |before| && Kind(before[i], "thread.started");
      assert Kind(events[i], "thread.started");
    }
  }

  lemma ThreadStartsOnce(p: Progress, before: seq<Line>, e: Line, i: nat, j: nat)
    requires Orderly(before) && Gathered(p, before) && Fits(p, e) && i < j <= |before|
    ensures !(Kind((before + [e])[i], "thread.started") && Kind((before + [e])[j], "thread.started"))
  {
    var events := before + [e];
    assert events[i] == before[i];
    if j < |before| {
      assert events[j] == before[j];
    } else {
      assert events[j] == e;
    }
  }

  lemma FitsKeepsOrder(p: Progress, before: seq<Line>, e: Line)
    requires Orderly(before) && Gathered(p, before) && Fits(p, e)
    ensures Orderly(before + [e])
  {
    var events := before + [e];
    forall i | 0 <= i < |before| ensures events[i] == before[i] && Sound(events[i]) && !Kind(events[i], "turn.completed") {
    }
    forall j | 0 <= j < |events| && Kind(events[j], "item.completed")
      ensures exists i :: 0 <= i < j && Kind(events[i], "thread.started")
    {
      ItemsFollowThread(p, before, e, j);
    }
    forall i, j | 0 <= i < j < |events|
      ensures !(Kind(events[i], "thread.started") && Kind(events[j], "thread.started"))
    {
      ThreadStartsOnce(p, before, e, i, j);
    }
  }

  lemma AdvanceKeepsOrder(p: Progress, before: seq<Line>, e: Line)
    requires Orderly(before) && Gathered(p, before) && Advance(p, e).Ok?
    ensures Orderly(before + [e])
  {
    AdvanceFits(p, e);
    FitsKeepsOrder(p, before, e);
  }

  lemma AdvanceGathers(p: Progress, before: seq<Line>, e: Line)
    requires Gathered(p, before) && Advance(p, e).Ok?
    ensures Gathered(Advance(p, e).value, before + [e])
  {
    var events, p' := before + [e], Advance(p, e).value;
    assert events[..|before|] == before && events[|before|] == e;
    assert Messages(events) == p'.messages;
    if p.threadId.Some? {
      var i :| 0 <= i < |before| && Kind(before[i], "thread.started") && before[i].threadId == p.threadId;
      assert Kind(events[i], "thread.started") && events[i].threadId == p.threadId;
    } else if p'.threadId.Some? {
      assert Kind(events[|before|], "thread.started");
    } else {
      forall i | 0 <= i < |events| ensures !Kind(events[i], "thread.started") {
        if i < |before| { assert !Kind(before[i], "thread.started"); }
      }
    }
  }

  lemma {:induction false} AdvanceAllMeaning(events: seq<Line>)
    ensures AdvanceAll(START, events).Ok? <==> Orderly(events)
    ensures AdvanceAll(START, events).Ok? ==> Gathered(AdvanceAll(START, events).value, events)
  {
    if events != [] {
      var before, e := events[..|events| - 1], events[|events| - 1];
      assert events == before + [e];
      AdvanceAllMeaning(before);
      if Orderly(events) { OrderlyPrefix(events); }
      if AdvanceAll(START, before).Ok? { AdvanceMeaning(AdvanceAll(START, before).value, before, e); }
    }
  }

  /** Exactness: a response is accepted with text and thread id precisely when it is
      not blank, has at most 2048 lines, and is a complete turn of that thread; the
      text is the sanitised join of the agent messages in order. */
  lemma RecogniserExact(lines: seq<string>, decode: string -> Line, reply: Reply)
    ensures Recognise(lines, decode) == Ok(reply)
            <==> && (exists i :: 0 <= i < |lines| && !Blank(lines[i]))
                 && |lines| <= 2048
                 && CompleteTurn(Events(lines, decode), reply.threadId)
                 && reply.text == Sanitize(JoinLines(Messages(Events(lines, decode))))
  {
    var events := Events(lines, decode);
    AdvanceAllMeaning(events);
    if Orderly(events) {
      var p := AdvanceAll(START, events).value;
      if CompleteTurn(events, reply.threadId) {
        var i :| 0 <= i < |events| && Kind(events[i], "thread.started") && events[i].threadId == Some(reply.threadId);
        var j :| 0 <= j < |events| && Kind(events[j], "thread.started") && events[j].threadId == p.threadId;
        assert i == j;
      }
    }
  }

  ghost predicate Seen(events: seq<Line>, kind: string) {
    exists i :: 0 <= i < |events| && Kind(events[i], kind)
  }

  /** What is wrong with `e` after the orderly events `before`. */
  ghost function Fault(before: seq<Line>, e: Line): Rejection {
    if e.Malformed? then MalformedLine
    else if e.NotAnEvent? then InvalidEvent
    else if Seen(before, "turn.completed") then AfterCompletion
    else if e.kind == "turn.failed" || e.kind == "error" then TurnFailed
    else if e.kind == "thread.started" then (if Seen(before, "thread.started") then SecondThread else BadThreadId)
    else if !Seen(before, "thread.started") then ItemBeforeThread
    else BadMessage
  }

  lemma AdvanceFaults(p: Progress, before: seq<Line>, e: Line)
    requires Orderly(before) && Gathered(p, before) && !Orderly(before + [e])
    ensures Advance(p, e) == Err(Fault(before, e))
  {
    AdvanceMeaning(p, before, e);
    if Seen(before, "turn.completed") {
      var i :| 0 <= i < |before| && Kind(before[i], "turn.completed");
      assert i == |before| - 1;
    }
  }

  lemma {:induction false} FaultStays(events: seq<Line>, n: nat)
    requires n <= |events| && AdvanceAll(START, events[..n]).Err?
    ensures AdvanceAll(START, events) == AdvanceAll(START, events[..n])
  {
    if n < |events| {
      assert events[..|events| - 1][..n] == events[..n];
      FaultStays(events[..|events| - 1], n);
    } else {
      assert events[..n] == events;
    }
  }

  /** The first event that is out of order decides the rejection. */
  lemma RejectionExact(lines: seq<string>, decode: string -> Line, n: nat)
    requires (exists i :: 0 <= i < |lines| && !Blank(lines[i])) && n < |lines| <= 2048
    requires Orderly(Events(lines, decode)[..n]) && !Orderly(Events(lines, decode)[..n + 1])
    ensures Recognise(lines, decode) == Err(Fault(Events(lines, decode)[..n], decode(lines[n])))
  {
    var events := Events(lines, decode);
    AdvanceAllMeaning(events[..n]);
    assert events[..n + 1] == events[..n] + [events[n]];
    AdvanceFaults(AdvanceAll(START, events[..n]).value, events[..n], events[n]);
    assert events[..n + 1][..n] == events[..n];
    FaultStays(events, n + 1);
  }

  /** ... and without one: nothing to read, too much to read, or a turn that is not complete. */
  lemma UnfinishedExact(lines: seq<string>, decode: string -> Line)
    ensures (forall i :: 0 <= i < |lines| ==> Blank(lines[i])) ==> Recognise(lines, decode) == Err(EmptyResponse)
    ensures (exists i :: 0 <= i < |lines| && !Blank(lines[i])) && |lines| > 2048 ==>
              Recognise(lines, decode) == Err(TooManyEvents)
    ensures (&& (exists i :: 0 <= i < |lines| && !Blank(lines[i])) && |lines| <= 2048
             && Orderly(Events(lines, decode)) && forall id :: !CompleteTurn(Events(lines, decode), id)) ==>
              Recognise(lines, decode) == Err(Incomplete)
  {
    AdvanceAllMeaning(Events(lines, decode));
    if Recognise(lines, decode).Ok? { RecogniserExact(lines, decode, Recognise(lines, decode).value); }
  }

  /** An accepted thread id is never blank, so it can always be resumed. */
  lemma AcceptedIdIsUsable(lines: seq<string>, decode: string -> Line)
    requires Recognise(lines, decode).Ok?
    ensures Recognise(lines, decode).value.threadId != ""
  {
    AdvanceAllMeaning(Events(lines, decode));
    StripBlank("");
  }

  // ---- the loop ---------------------------------------------------------------------------

  /** `_parse_result`, given the lines of stdout. */
  method ParseResult(lines: seq<string>, decode: string -> Line) returns (r: Result<Reply, Rejection>)
    ensures r == Recognise(lines, decode)
  {
    if forall i :: 0 <= i < |lines| ==> Blank(lines[i]) { return Err(EmptyResponse); }
    if |lines| > MAX_EVENTS { return Err(TooManyEvents); }
    var threadId: Option<string> := None;
    var messages: seq<string> := [];
    var turnCompleted := false;
    ghost var events := Events(lines, decode);
    for i := 0 to |lines|
      invariant AdvanceAll(START, events[..i]) == Ok(Progress(threadId, messages, turnCompleted))
    {
      assert events[..i + 1][..i] == events[..i];
      StopsHere(events, i, Progress(threadId, messages, turnCompleted));
      var event := decode(lines[i]);
      if event.Malformed? { return Err(MalformedLine); }
      if event.NotAnEvent? { return Err(InvalidEvent); }
      if turnCompleted { return Err(AfterCompletion); }
      if event.kind == "turn.failed" || event.kind == "error" { return Err(TurnFailed); }
      if event.kind == "thread.started" {
        if threadId.Some? { return Err(SecondThread); }
        var value := event.threadId;
        if value.None? || Strip(value.value) == "" || |value.value| > 256 { return Err(BadThreadId); }
        threadId := value;
      } else if event.kind == "item.completed" {
        if threadId.None? { return Err(ItemBeforeThread); }
        var item := event.item;
        if item.Item? && item.kind == Some("agent_message") {
          if item.text.None? { return Err(BadMessage); }
          messages := messages + [item.text.value];
        }
      } else if event.kind == "turn.completed" {
        turnCompleted := true;
      }
    }
    assert events[..|lines|] == events;
    if threadId.None? || messages == [] || !turnCompleted { return Err(Incomplete); }
    return Ok(Reply(Sanitize(JoinLines(messages)), threadId.value));
  }

  /** A rejection by event `i` is the rejection of the whole list. */
  lemma {:induction false} StopsHere(events: seq<Line>, i: nat, p: Progress)
    requires i < |events| && AdvanceAll(START, events[..i]) == Ok(p)
    ensures Advance(p, events[i]).Err? ==> AdvanceAll(START, events) == Err(Advance(p, events[i]).error)
  {
    if i == |events| - 1 {
    } else {
      var before := events[..|events| - 1];
      assert before[..i] == events[..i];
      StopsHere(before, i, p);
    }
  }
}
