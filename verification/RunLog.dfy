// What an agent run leaves behind (crates/agent-runtime/src/events.rs, runtime.rs): its
// event log, the effects it began, and how calls of tools are counted in both.

module RunLogs {
  import opened Pointers

  datatype Handler = EngineTool | RuntimeTool

  // A model may give two calls the same identifier and tool.
  datatype Tag = Tag(id: string, tool: string)

  // `parsed` says whether the arguments are a JSON object.
  datatype Call = Call(tag: Tag, arguments: string, parsed: bool)

  // The report of a run is identified with the draft it renders.
  datatype Event =
    | SessionStarted | UserMessageAccepted | PlanningStarted | PlanUpdated
    | ModelStarted(round: nat) | TextDelta(text: string) | ModelTurnEmpty(round: nat, attempt: nat)
    | ToolScheduled(tag: Tag) | ToolStarted(tag: Tag) | ToolCompleted(tag: Tag)
    | EvidenceAdded(tag: Tag) | ToolFailed(tag: Tag)
    | VerificationStarted | VerificationFinding
    | Completed(report: string) | Cancelled | Suspended | Failed

  function Last<T>(s: seq<T>): T
    requires s != []
  {
    s[|s| - 1]
  }

  // ---- Effects ------------------------------------------------------------------------------

  datatype Sort = Selecting | Streaming | Verifying | Calling

  datatype Kind = SelectModel | StreamTurn | VerifyReport | CallTool(tool: string) {
    function Text(): string {
      match this
      case SelectModel => "provider.model.select"
      case StreamTurn => "provider.stream"
      case VerifyReport => "report.verify"
      case CallTool(tool) => "tool." + tool
    }

    function Sort(): Sort {
      match this
      case SelectModel => Selecting
      case StreamTurn => Streaming
      case VerifyReport => Verifying
      case CallTool(_) => Calling
    }
  }

  // An effect is begun under a key made of the run's identifier, the event count and its kind.
  datatype Effect = Effect(seqNo: nat, kind: Kind)

  function IdempotencyKey(run: string, effect: Effect): string {
    run + (":" + (Decimal(effect.seqNo) + (":" + effect.kind.Text())))
  }

  // Effects begun at different event counts have different keys, whatever their kinds.
  lemma KeysDiffer(run: string, a: Effect, b: Effect)
    requires a.seqNo != b.seqNo
    ensures IdempotencyKey(run, a) != IdempotencyKey(run, b)
  {
    KeyTellsCount(run, a);
    KeyTellsCount(run, b);
  }

  lemma KeyTellsCount(run: string, e: Effect)
    ensures var key := IdempotencyKey(run, e);
            |key| > |run| && ReadDecimal(HeadToken(key[|run| + 1..], ':')) == e.seqNo
  {
    hide Decimal, ReadDecimal, HeadToken;
    var text := e.kind.Text();
    DecimalRoundTrip(e.seqNo);
    HeadTokenIs(Decimal(e.seqNo), ":" + text, ':');
    AfterHead(run, Decimal(e.seqNo) + (":" + text));
  }

  lemma AfterHead(head: string, tail: string)
    ensures (head + (":" + tail))[|head| + 1..] == tail
  {
  }

  // Effects of one sort begun so far.
  function Begun(effects: seq<Effect>, sort: Sort): nat {
    if effects == [] then 0
    else Begun(effects[..|effects| - 1], sort) + if Last(effects).kind.Sort() == sort then 1 else 0
  }

  lemma BegunOneMore(effects: seq<Effect>, e: Effect)
    ensures forall sort :: Begun(effects + [e], sort) == Begun(effects, sort) + if e.kind.Sort() == sort then 1 else 0
  {
    assert (effects + [e])[..|effects|] == effects;
  }

  // ---- The event log ------------------------------------------------------------------------

  // How often an event has been told.
  function Told(events: seq<Event>, event: Event): nat {
    if events == [] then 0
    else Told(events[..|events| - 1], event) + if Last(events) == event then 1 else 0
  }

  // Calls started and not yet completed.
  function Open(events: seq<Event>, tag: Tag): int {
    Told(events, ToolStarted(tag)) as int - Told(events, ToolCompleted(tag)) as int
  }

  // Calls the model has been given a result for.
  function Answered(events: seq<Event>, tag: Tag): nat {
    Told(events, ToolCompleted(tag)) + Told(events, ToolFailed(tag))
  }

  // A call starts only if scheduled, completes only if started, and adds evidence only as
  // it completes.
  predicate MayFollow(events: seq<Event>, event: Event) {
    match event
    case ToolStarted(tag) => Told(events, ToolStarted(tag)) < Told(events, ToolScheduled(tag))
    case ToolCompleted(tag) => Open(events, tag) > 0
    case EvidenceAdded(tag) => events != [] && Last(events) == ToolCompleted(tag)
    case _ => true
  }

  predicate WellTold(events: seq<Event>) {
    events == [] || (WellTold(events[..|events| - 1]) && MayFollow(events[..|events| - 1], Last(events)))
  }

  // At every moment no call has completed more often than it was started, nor started more
  // often than it was scheduled.
  lemma {:induction false} ToldInOrder(events: seq<Event>, n: nat, tag: Tag)
    requires WellTold(events) && n <= |events|
    ensures var told := events[..n];
            Told(told, ToolCompleted(tag)) <= Told(told, ToolStarted(tag)) <= Told(told, ToolScheduled(tag))
  {
    if n < |events| {
      ToldInOrder(events[..|events| - 1], n, tag);
      assert events[..|events| - 1][..n] == events[..n];
    } else if events != [] {
      var init := events[..n - 1];
      ToldInOrder(init, n - 1, tag);
      assert events[..n] == events && init[..n - 1] == init;
    }
  }

  lemma TellOneMore(events: seq<Event>, event: Event)
    requires WellTold(events) && MayFollow(events, event)
    ensures WellTold(events + [event])
    ensures forall tag :: Answered(events + [event], tag) == Answered(events, tag) + Answers(event, tag)
    ensures forall tag :: Open(events + [event], tag) == Open(events, tag) + Opens(event, ByTag(tag))
    ensures event.ToolScheduled? ==> MayFollow(events + [event], ToolStarted(event.tag))
  {
    assert (events + [event])[..|events|] == events;
    if event.ToolScheduled? {
      ToldInOrder(events, |events|, event.tag);
      assert events[..|events|] == events;
    }
  }

  function Answers(event: Event, tag: Tag): nat {
    if event == ToolCompleted(tag) || event == ToolFailed(tag) then 1 else 0
  }

  predicate Terminal(event: Event) {
    event.Completed? || event.Cancelled? || event.Suspended? || event.Failed?
  }

  // No terminal event so far.
  predicate Quiet(events: seq<Event>) {
    forall e :: e in events ==> !Terminal(e)
  }

  // Exactly one terminal event, the last: the completed report.
  predicate Closed(events: seq<Event>) {
    events != [] && Last(events).Completed? && Quiet(events[..|events| - 1])
  }

  predicate ClosedWith(events: seq<Event>, report: string) {
    Closed(events) && Last(events).report == report
  }

  // A failed run: at most a completed report before its last event, which is terminal.
  predicate Ended(events: seq<Event>) {
    && events != [] && Terminal(Last(events)) && !Last(events).Completed?
    && (Quiet(events[..|events| - 1]) || Closed(events[..|events| - 1]))
  }

  // The text that the deltas of a stretch of events join to.
  function Streamed(events: seq<Event>): string {
    if events == [] then ""
    else Streamed(events[..|events| - 1]) + if Last(events).TextDelta? then Last(events).text else ""
  }

  lemma StreamedOneMore(events: seq<Event>, text: string)
    ensures Streamed([]) == ""
    ensures Streamed(events + [TextDelta(text)]) == Streamed(events) + text
  {
    assert (events + [TextDelta(text)])[..|events|] == events;
  }

  // Nothing but text was told.
  ghost predicate OnlyText(events: seq<Event>) {
    forall e :: e in events ==> e.TextDelta? && e.text != ""
  }

  // ---- Calls under way ------------------------------------------------------------------------

  // A call and the effect begun for it.
  datatype Started = Started(call: Call, effect: nat)

  // What a started call uses up: one opening of its tag, and its effect.
  datatype Key = ByTag(tag: Tag) | ByEffect(effect: nat)

  predicate Uses(started: Started, key: Key) {
    key == ByTag(started.call.tag) || key == ByEffect(started.effect)
  }

  // What an event opens or closes.
  function Opens(event: Event, key: Key): int {
    if !key.ByTag? then 0
    else if event == ToolStarted(key.tag) then 1
    else if event == ToolCompleted(key.tag) then -1
    else 0
  }

  // How many more calls may still use a key: calls of the tag that are open, or 1 for an
  // effect begun and not completed.
  function RoomIn(events: seq<Event>, begun: nat, outcomes: seq<nat>, key: Key): int {
    match key
    case ByTag(tag) => Open(events, tag)
    case ByEffect(effect) => if effect < begun && effect !in outcomes then 1 else 0
  }

  // Most events may come at any moment and open, close and answer nothing.
  lemma Following()
    ensures forall events, event: Event :: !event.ToolStarted? && !event.ToolCompleted? && !event.EvidenceAdded? ==>
              MayFollow(events, event)
    ensures forall events, begun, outcomes, tag :: RoomIn(events, begun, outcomes, ByTag(tag)) > 0 ==>
              MayFollow(events, ToolCompleted(tag))
    ensures forall events, tag :: MayFollow(events + [ToolCompleted(tag)], EvidenceAdded(tag))
    ensures forall event: Event, key :: !event.ToolStarted? && !event.ToolCompleted? ==> Opens(event, key) == 0
    ensures forall tag, key :: Opens(ToolStarted(tag), key) == if key == ByTag(tag) then 1 else 0
    ensures forall tag, key :: Opens(ToolCompleted(tag), key) == if key == ByTag(tag) then -1 else 0
    ensures forall event: Event, tag :: !event.ToolCompleted? && !event.ToolFailed? ==> Answers(event, tag) == 0
    ensures forall told, tag :: Answers(ToolCompleted(told), tag) == if told == tag then 1 else 0
    ensures forall told, tag :: Answers(ToolFailed(told), tag) == if told == tag then 1 else 0
  {
    hide Told, Open;
  }

  // Calls of a tag in a list.
  function Named(calls: seq<Call>, tag: Tag): nat {
    if calls == [] then 0 else Named(calls[..|calls| - 1], tag) + if Last(calls).tag == tag then 1 else 0
  }

  // Calls that use a key.
  function Using(calls: seq<Started>, key: Key): nat {
    if calls == [] then 0 else Using(calls[..|calls| - 1], key) + if Uses(Last(calls), key) then 1 else 0
  }

  lemma NamedNone()
    ensures forall tag :: Named([], tag) == 0
  {
  }

  lemma NamedNext(calls: seq<Call>, i: nat)
    requires i < |calls|
    ensures forall tag :: Named(calls[..i + 1], tag) == Named(calls[..i], tag) + if calls[i].tag == tag then 1 else 0
  {
    assert calls[..i + 1][..i] == calls[..i];
  }

  lemma UsingNone()
    ensures forall key :: Using([], key) == 0
  {
  }

  lemma UsingOneMore(calls: seq<Started>, call: Started)
    ensures forall key :: Using(calls + [call], key) == Using(calls, key) + if Uses(call, key) then 1 else 0
  {
    assert (calls + [call])[..|calls|] == calls;
  }

  lemma {:induction false} UsingWithout(calls: seq<Started>, k: nat, key: Key)
    requires k < |calls|
    ensures Using(calls, key) == Using(calls[..k] + calls[k + 1..], key) + if Uses(calls[k], key) then 1 else 0
  {
    hide Uses;
    var n := |calls| - 1;
    if k == n {
      assert calls[..k] + calls[k + 1..] == calls[..n];
    } else {
      UsingWithout(calls[..n], k, key);
      var rest := calls[..k] + calls[k + 1..];
      assert rest[..n - 1] == calls[..n][..k] + calls[..n][k + 1..];
    }
  }

  lemma UsingTaken(calls: seq<Started>, k: nat)
    requires k < |calls|
    ensures forall key :: Using(calls, key)
                          == Using(calls[..k] + calls[k + 1..], key) + if Uses(calls[k], key) then 1 else 0
  {
    hide Using, Uses;
    forall key {
      UsingWithout(calls, k, key);
    }
  }

  lemma Taken(calls: seq<Started>, k: nat)
    requires k < |calls|
    ensures multiset(calls) == multiset(calls[..k] + calls[k + 1..]) + multiset{calls[k]}
  {
    assert calls == calls[..k] + [calls[k]] + calls[k + 1..];
  }

  lemma UsingRest(calls: seq<Started>, i: nat)
    requires i < |calls|
    ensures forall key :: Using(calls[i..], key) == Using(calls[i + 1..], key) + if Uses(calls[i], key) then 1 else 0
  {
    hide Using, Uses;
    UsingTaken(calls[i..], 0);
    assert calls[i..][..0] + calls[i..][1..] == calls[i + 1..];
  }

  // ---- Selections -------------------------------------------------------------------------------

  predicate Acceptable(call: Call, tools: map<string, Handler>) {
    call.tag.tool in tools && call.parsed
  }

  // The calls that go on, in order.
  function Accepted(calls: seq<Call>, tools: map<string, Handler>): (r: seq<Call>)
    ensures |r| <= |calls| && forall c :: c in r <==> c in calls && Acceptable(c, tools)
  {
    if calls == [] then []
    else Accepted(calls[..|calls| - 1], tools) + if Acceptable(Last(calls), tools) then [Last(calls)] else []
  }

  lemma AcceptedNext(calls: seq<Call>, i: nat, tools: map<string, Handler>)
    requires i < |calls|
    ensures Accepted(calls[..i + 1], tools)
         == Accepted(calls[..i], tools) + if Acceptable(calls[i], tools) then [calls[i]] else []
  {
    assert calls[..i + 1][..i] == calls[..i];
  }

  function CallsOf(started: seq<Started>): (calls: seq<Call>)
    ensures |calls| == |started| && forall i :: 0 <= i < |started| ==> calls[i] == started[i].call
  {
    if started == [] then [] else CallsOf(started[..|started| - 1]) + [Last(started).call]
  }

  lemma CallsOfOneMore(started: seq<Started>, call: Started)
    ensures CallsOf(started + [call]) == CallsOf(started) + [call.call]
  {
    assert (started + [call])[..|started|] == started;
  }

  predicate HandledBy(started: Started, tools: map<string, Handler>, handler: Handler) {
    started.call.tag.tool in tools && tools[started.call.tag.tool] == handler
  }

  function Select(calls: seq<Started>, tools: map<string, Handler>, handler: Handler): (r: seq<Started>)
    ensures |r| <= |calls| && forall c :: c in r <==> c in calls && HandledBy(c, tools, handler)
  {
    if calls == [] then []
    else
      var init, last := calls[..|calls| - 1], Last(calls);
      Select(init, tools, handler) + if HandledBy(last, tools, handler) then [last] else []
  }

  // Moving the boundary of two lists over an element, and leaving the element out.
  lemma Boundary<T>(a: seq<T>, b: seq<T>)
    requires b != []
    ensures (a + b)[|a|] == b[0] && a + b == (a + [b[0]]) + b[1..]
    ensures (a + b)[..|a|] + (a + b)[|a| + 1..] == a + b[1..]
  {
  }

  lemma SelectNothing(tools: map<string, Handler>)
    ensures forall h :: Select([], tools, h) == []
  {
  }

  lemma SelectOneMore(seen: seq<Started>, call: Started, tools: map<string, Handler>)
    ensures forall h :: Select(seen + [call], tools, h)
                        == Select(seen, tools, h) + if HandledBy(call, tools, h) then [call] else []
  {
    assert (seen + [call])[..|seen|] == seen;
  }

  lemma {:induction false} SelectionsUse(calls: seq<Started>, tools: map<string, Handler>, key: Key)
    requires forall c :: c in calls ==> c.call.tag.tool in tools
    ensures Using(Select(calls, tools, EngineTool), key) + Using(Select(calls, tools, RuntimeTool), key)
         == Using(calls, key)
  {
    hide Using, Select, Uses;
    SelectNothing(tools);
    UsingNone();
    if calls != [] {
      var init, call := calls[..|calls| - 1], Last(calls);
      assert calls == init + [call];
      SelectionsUse(init, tools, key);
      SelectOneMore(init, call, tools);
      UsingOneMore(init, call);
      UsingOneMore(Select(init, tools, EngineTool), call);
      UsingOneMore(Select(init, tools, RuntimeTool), call);
      assert forall h :: Select(init, tools, h) + [] == Select(init, tools, h);
    }
  }

  lemma {:induction false} SelectionsLength(calls: seq<Started>, tools: map<string, Handler>)
    requires forall c :: c in calls ==> c.call.tag.tool in tools
    ensures |Select(calls, tools, EngineTool)| + |Select(calls, tools, RuntimeTool)| == |calls|
  {
    if calls != [] {
      SelectionsLength(calls[..|calls| - 1], tools);
    }
  }

  lemma SelectionsShare(calls: seq<Started>, tools: map<string, Handler>)
    requires forall c :: c in calls ==> c.call.tag.tool in tools
    ensures var engine, runtime := Select(calls, tools, EngineTool), Select(calls, tools, RuntimeTool);
            && |engine| + |runtime| == |calls|
            && forall key :: Using(engine, key) + Using(runtime, key) == Using(calls, key)
  {
    hide Using, Select;
    SelectionsLength(calls, tools);
    forall key {
      SelectionsUse(calls, tools, key);
    }
  }

  lemma AcceptedAreKnown(prepared: seq<Started>, calls: seq<Call>, tools: map<string, Handler>)
    requires CallsOf(prepared) == Accepted(calls, tools)
    ensures forall c :: c in prepared ==> c.call.tag.tool in tools
  {
    forall i | 0 <= i < |prepared| ensures prepared[i].call.tag.tool in tools {
      assert prepared[i].call in CallsOf(prepared);
    }
  }
}
