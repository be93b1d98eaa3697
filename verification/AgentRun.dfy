// One agent run as a step machine (crates/agent-runtime/src/runtime.rs). What the provider,
// the tools, the verifier, the store and the user do is nondeterministic; every reply that
// the program handles can occur at every step.

module Ledger {

  datatype Reason = BudgetSpent | NoProgress

  datatype Verdict =
    | Retry(attempt: nat, remaining: nat, identical: bool)
    | Exhausted(attempt: nat, reason: Reason)

  function Count(history: seq<string>, x: string): nat {
    if history == [] then 0
    else Count(history[..|history| - 1], x) + if history[|history| - 1] == x then 1 else 0
  }

  // The answer to one more rejected submission, given those rejected before.
  function Judge(maxAttempts: nat, history: seq<string>, fingerprint: string): Verdict {
    var attempt, repeats := |history| + 1, Count(history, fingerprint) + 1;
    if repeats > 2 then Exhausted(attempt, NoProgress)
    else if attempt >= maxAttempts then Exhausted(attempt, BudgetSpent)
    else Retry(attempt, maxAttempts - attempt, repeats > 1)
  }

  // A verdict to retry leaves budget.
  lemma RetryLeavesBudget(maxAttempts: nat, history: seq<string>)
    requires history != []
    requires Judge(maxAttempts, history[..|history| - 1], history[|history| - 1]).Retry?
    ensures |history| < maxAttempts
  {
  }

  lemma {:induction false} CountTells(history: seq<string>, x: string)
    ensures Count(history, x) >= 1 <==> x in history
    ensures Count(history, x) >= 2 <==> exists i, j :: 0 <= i < j < |history| && history[i] == history[j] == x
  {
    if history != [] {
      var n := |history| - 1;
      CountTells(history[..n], x);
      if history[n] == x && x in history[..n] {
        var i :| 0 <= i < n && history[..n][i] == x;
        assert history[i] == history[n] == x;
      }
      if Count(history[..n], x) >= 2 {
        var i, j :| 0 <= i < j < n && history[..n][i] == history[..n][j] == x;
        assert history[i] == history[j] == x;
      }
      if i, j :| 0 <= i < j < |history| && history[i] == history[j] == x {
        assert history[..n][i] == x && (j < n ==> history[..n][j] == x);
      }
    }
  }

  // The verdict on a submission: to stop for want of progress once it had been rejected twice,
  // for want of budget once this attempt is the last, and otherwise to try again, with as many
  // attempts as remain and a word on whether it was rejected before.
  lemma VerdictTells(maxAttempts: nat, history: seq<string>, x: string)
    ensures var verdict := Judge(maxAttempts, history, x);
            var twice := exists i, j :: 0 <= i < j < |history| && history[i] == history[j] == x;
            && verdict.attempt == |history| + 1
            && (verdict.Exhausted? && verdict.reason == NoProgress <==> twice)
            && (verdict.Exhausted? && verdict.reason == BudgetSpent <==> !twice && |history| + 1 >= maxAttempts)
            && (verdict.Retry? ==>
                  verdict.attempt + verdict.remaining == maxAttempts && (verdict.identical <==> x in history))
  {
    hide Count;
    CountTells(history, x);
  }

  class FinalizationLedger {
    const maxAttempts: nat
    var attempts: nat
    var seen: map<string, nat>
    ghost var history: seq<string>

    ghost predicate Valid()
      reads this
    {
      && maxAttempts >= 1 && attempts == |history|
      && forall x :: Count(history, x) == if x in seen then seen[x] else 0
    }

    constructor (maxAttempts: nat)
      ensures Valid() && history == [] && this.maxAttempts == if maxAttempts == 0 then 1 else maxAttempts
    {
      this.maxAttempts := if maxAttempts == 0 then 1 else maxAttempts;
      attempts, seen, history := 0, map[], [];
    }

    method RecordRejection(fingerprint: string) returns (verdict: Verdict)
      requires Valid()
      modifies this
      ensures Valid() && history == old(history) + [fingerprint]
      ensures verdict == Judge(maxAttempts, old(history), fingerprint)
    {
      attempts := attempts + 1;
      var repeats := 1 + if fingerprint in seen then seen[fingerprint] else 0;
      seen := seen[fingerprint := repeats];
      assert (history + [fingerprint])[..|history|] == history;
      history := history + [fingerprint];
      if repeats > 2 {
        return Exhausted(attempts, NoProgress);
      }
      if attempts >= maxAttempts {
        return Exhausted(attempts, BudgetSpent);
      }
      verdict := Retry(attempts, maxAttempts - attempts, repeats > 1);
    }
  }

  // As long as every answer was to retry, budget is left and no draft was rejected more
  // than twice; and the answer is to stop exactly when the budget or that tolerance ends.
  lemma {:induction false} RetriesAreBounded(maxAttempts: nat, history: seq<string>)
    requires maxAttempts >= 1
    requires forall i :: 0 <= i < |history| ==> Judge(maxAttempts, history[..i], history[i]).Retry?
    ensures |history| < maxAttempts && forall x :: Count(history, x) <= 2
    ensures forall x :: Judge(maxAttempts, history, x).Exhausted?
                        <==> |history| + 1 == maxAttempts || Count(history, x) == 2
  {
    if history != [] {
      var n := |history| - 1;
      var init := history[..n];
      forall i | 0 <= i < n ensures Judge(maxAttempts, init[..i], init[i]).Retry? {
        assert init[..i] == history[..i];
      }
      RetriesAreBounded(maxAttempts, init);
      assert Judge(maxAttempts, init, history[n]).Retry?;
    }
  }
}

module AgentRuns {
  import opened Ledger
  import opened RunLogs
  import opened Results
  import opened Wrappers

  datatype Config = Config(
    maxModelRounds: nat, maxFinalizationAttempts: nat, maxEmptyTurnRetries: nat, maxModelChunksPerRound: nat,
    maxVisibleCharsPerRound: nat, maxToolCallsPerRound: nat, maxUnknownToolRejections: nat, verifyReports: bool)

  // The problems found in a submitted draft, and the verifier's answer on it.
  datatype Review = Review(draft: string, problems: nat, passed: bool)

  ghost predicate Reviewed(reviews: seq<Review>, draft: string) {
    Review(draft, 0, true) in reviews
  }

  ghost predicate OnlyReviewed(events: seq<Event>, reviews: seq<Review>) {
    forall e :: e in events && e.Completed? ==> Reviewed(reviews, e.report)
  }

  datatype RunError =
    | CancelledByUser | StoreFailed | ProviderFailed(mayResume: bool) | MalformedStream | EmptyModelTurn
    | UnknownTool(name: string) | VerificationFailed | ModelRoundLimit | EncodingFailed

  datatype Chunk = Delta(text: string) | ToolDelta(index: nat, valid: bool) | Finish

  // What one wait on the provider's stream yields.
  datatype Next = Item(chunk: Chunk) | StreamError(mayResume: bool) | EndOfStream | IdleTimeout | CancelledWait

  datatype Connection = Connected | ConnectionError(mayResume: bool) | ConnectTimeout | ConnectCancelled

  datatype Turn = Turn(text: string, calls: seq<Call>, effect: nat)

  datatype Finalization = Published(draft: string) | Repair | SpentOut

  datatype Served = Handled | Spent | Final(report: string)

  datatype Batch = Batch(published: Option<string>, exhausted: bool)

  datatype ToolReply = Value(evidence: nat, oversized: bool) | Unencodable | ToolError | TimedOut

  const MAX_REPORTED_PROBLEMS := 40

  // The effects a run may begin: the program's own, and calls of registered tools.
  predicate Permitted(tools: map<string, Handler>, kind: Kind) {
    kind.CallTool? ==> kind.tool in tools
  }

  ghost predicate InOrder(tools: map<string, Handler>, effects: seq<Effect>, seqNo: nat) {
    && (forall i, j :: 0 <= i < j < |effects| ==> effects[i].seqNo < effects[j].seqNo)
    && (forall i :: 0 <= i < |effects| ==> effects[i].seqNo <= seqNo && Permitted(tools, effects[i].kind))
  }

  // Only begun effects are completed, and each at most once.
  ghost predicate CompletedOnce(outcomes: seq<nat>, begun: nat) {
    && (forall i :: 0 <= i < |outcomes| ==> outcomes[i] < begun)
    && (forall i, j :: 0 <= i < j < |outcomes| ==> outcomes[i] != outcomes[j])
  }

  function TerminalFor(error: RunError): Event {
    match error
    case CancelledByUser => Cancelled
    case ProviderFailed(true) => Suspended
    case _ => Failed
  }

  function Largest(a: nat, b: nat): nat {
    if a < b then b else a
  }

  function Attempts(config: Config): (n: nat)
    ensures n >= 1
  {
    if config.maxFinalizationAttempts == 0 then 1 else config.maxFinalizationAttempts
  }

  // Effects of a sort that one round may begin, and those begun before the first.
  function PerRound(config: Config, sort: Sort): nat {
    match sort
    case Selecting => 0
    case Streaming => config.maxEmptyTurnRetries + 1
    case Verifying => config.maxToolCallsPerRound
    case Calling => config.maxToolCallsPerRound
  }

  function Limit(config: Config, sort: Sort, rounds: nat): nat {
    (if sort == Selecting then 1 else 0) + rounds * PerRound(config, sort)
  }

  lemma LimitGrows(config: Config, round: nat)
    requires 1 <= round <= config.maxModelRounds
    ensures forall sort :: Limit(config, sort, round - 1) + PerRound(config, sort) == Limit(config, sort, round)
    ensures forall sort :: Limit(config, sort, round) <= Limit(config, sort, config.maxModelRounds)
  {
    forall sort
      ensures Limit(config, sort, round - 1) + PerRound(config, sort) == Limit(config, sort, round)
      ensures Limit(config, sort, round) <= Limit(config, sort, config.maxModelRounds)
    {
      ProductGrows(round, config.maxModelRounds, PerRound(config, sort));
    }
  }

  lemma ProductGrows(round: nat, rounds: nat, perRound: nat)
    requires round <= rounds
    ensures (round - 1) * perRound + perRound == round * perRound <= rounds * perRound
  {
    assert (rounds - round) * perRound >= 0;
  }

  predicate OneMore<T(==)>(before: seq<T>, after: seq<T>) {
    after != [] && after[..|after| - 1] == before
  }

  class RunState {
    const task: string
    const config: Config
    const tools: map<string, Handler>
    const isWhitespace: char -> bool
    const ledger: FinalizationLedger
    var seqNo: nat
    var unknownToolCalls: nat
    // What the store holds of the run, in order: events, effects begun, effects completed.
    var events: seq<Event>
    var effects: seq<Effect>
    var outcomes: seq<nat>
    ghost var reviews: seq<Review>

    ghost predicate Valid()
      reads this`seqNo, this`events, this`effects, this`outcomes, this`reviews, ledger
    {
      && ledger.Valid() && ledger.maxAttempts == Attempts(config)
      && InOrder(tools, effects, seqNo) && CompletedOnce(outcomes, |effects|)
      && (config.verifyReports ==> OnlyReviewed(events, reviews))
      && WellTold(events)
    }

    // Something was recorded since the last effect.
    ghost predicate Ready()
      reads this`seqNo, this`effects
    {
      effects == [] || Last(effects).seqNo < seqNo
    }

    ghost function Room(key: Key): int
      reads this`events, this`effects, this`outcomes
    {
      RoomIn(events, |effects|, outcomes, key)
    }

    constructor (task: string, config: Config, tools: map<string, Handler>, isWhitespace: char -> bool)
      ensures Valid() && fresh(ledger) && this.task == task && this.config == config && this.tools == tools
      ensures events == [] && effects == [] && outcomes == [] && reviews == [] && ledger.history == []
      ensures unknownToolCalls == 0
    {
      this.task, this.config, this.tools, this.isWhitespace := task, config, tools, isWhitespace;
      ledger := new FinalizationLedger(config.maxFinalizationAttempts);
      seqNo, unknownToolCalls, events, effects, outcomes, reviews := 0, 0, [], [], [], [];
    }

    // Count the event, then append, checkpoint and send it; each of these may fail.
    method Record(event: Event) returns (r: Outcome<RunError>)
      requires Valid()
      requires event.Completed? && config.verifyReports ==> Reviewed(reviews, event.report)
      requires MayFollow(events, event)
      modifies this`seqNo, this`events
      ensures Valid() && Ready() && seqNo == old(seqNo) + 1
      ensures events == old(events) + [event] || (r.Fail? && events == old(events))
      ensures old(Quiet(events)) && !Terminal(event) ==> Quiet(events)
      ensures r.Pass? ==> forall key :: Room(key) == old(Room(key)) + Opens(event, key)
      ensures r.Pass? ==> forall tag :: Answered(events, tag) == old(Answered(events, tag)) + Answers(event, tag)
      ensures r.Pass? && event.ToolScheduled? ==> MayFollow(events, ToolStarted(event.tag))
    {
      hide FinalizationLedger.Valid, CompletedOnce, Open, MayFollow, Answers, Answered, WellTold, Reviewed, InOrder;
      TellOneMore(events, event);
      TimePasses();
      seqNo := seqNo + 1;
      var stored: bool, checkpointed: bool, received: bool := *, *, *;
      if !stored {
        return Fail(StoreFailed);
      }
      events := events + [event];
      if !checkpointed {
        return Fail(StoreFailed);
      }
      r := if received then Pass else Fail(CancelledByUser);
    }

    lemma TimePasses()
      requires Valid()
      ensures InOrder(tools, effects, seqNo + 1)
      ensures effects == [] || Last(effects).seqNo < seqNo + 1
    {
    }

    lemma RoomNonNegative()
      requires Valid()
      ensures forall key :: Room(key) >= 0
    {
      hide FinalizationLedger.Valid, CompletedOnce, WellTold, Reviewed, InOrder;
      forall tag {
        ToldInOrder(events, |events|, tag);
      }
      assert events[..|events|] == events;
    }

    method BeginEffect(kind: Kind) returns (r: Result<nat, RunError>)
      requires Valid() && Ready() && Permitted(tools, kind)
      modifies this`effects
      ensures Valid() && effects == old(effects) + [Effect(seqNo, kind)]
      ensures r.Success? ==> r.value == |old(effects)|
      ensures forall sort :: Begun(effects, sort) == old(Begun(effects, sort)) + if kind.Sort() == sort then 1 else 0
      ensures forall key :: Room(key) == old(Room(key)) + if key == ByEffect(|old(effects)|) then 1 else 0
    {
      hide FinalizationLedger.Valid, OnlyReviewed, Permitted, Open, WellTold, Begun;
      BegunOneMore(effects, Effect(seqNo, kind));
      var id := |effects|;
      effects := effects + [Effect(seqNo, kind)];
      assert id !in outcomes;
      :- StoreReply();
      r := Success(id);
    }

    // Store how an effect came out. Each effect is completed at most once.
    method CompleteEffect(effect: nat) returns (r: Outcome<RunError>)
      requires Valid() && Room(ByEffect(effect)) > 0
      modifies this`outcomes
      ensures Valid() && outcomes == old(outcomes) + [effect]
      ensures forall key :: Room(key) == old(Room(key)) - if key == ByEffect(effect) then 1 else 0
    {
      hide FinalizationLedger.Valid, OnlyReviewed, Open, WellTold, InOrder;
      outcomes := outcomes + [effect];
      r := StoreReply();
    }

    // Effects begun and not completed.
    ghost function Unfinished(): int
      reads this`effects, this`outcomes
    {
      |effects| - |outcomes|
    }

    method StoreReply() returns (r: Outcome<RunError>) {
      var stored: bool := *;
      r := if stored then Pass else Fail(StoreFailed);
    }

    method EnsureActive() returns (r: Outcome<RunError>) {
      var cancelled: bool := *;
      r := if cancelled then Fail(CancelledByUser) else Pass;
    }

    // Make messages of results; a result may have no JSON form.
    method Encode() returns (r: Outcome<RunError>) {
      var encoded: bool := *;
      r := if encoded then Pass else Fail(EncodingFailed);
    }

    method Reject(fingerprint: string) returns (verdict: Verdict)
      requires Valid()
      modifies ledger
      ensures Valid() && ledger.history == old(ledger.history) + [fingerprint]
      ensures verdict == Judge(Attempts(config), old(ledger.history), fingerprint)
    {
      verdict := ledger.RecordRejection(fingerprint);
    }

    ghost method Log(review: Review)
      requires Valid()
      modifies this`reviews
      ensures Valid() && reviews == old(reviews) + [review]
    {
      reviews := reviews + [review];
    }

    method RecordFindings(count: nat) returns (r: Result<(), RunError>)
      requires Valid() && Quiet(events)
      modifies this`seqNo, this`events
      ensures Valid() && Quiet(events)
      ensures r.Success? ==> forall key :: Room(key) == old(Room(key))
      ensures r.Success? ==> forall tag :: Answered(events, tag) == old(Answered(events, tag))
    {
      hide Valid, Ready, Quiet, RoomIn, MayFollow, Opens, Answered, Answers;
      Following();
      var reported := if count < MAX_REPORTED_PROBLEMS then count else MAX_REPORTED_PROBLEMS;
      for k := 0 to reported
        invariant Valid() && Quiet(events)
        invariant forall key :: Room(key) == old(Room(key))
        invariant forall tag :: Answered(events, tag) == old(Answered(events, tag))
      {
        :- Record(VerificationFinding);
      }
      r := Success(());
    }

    // One submission: published only when it has no problems and the verifier passed it;
    // otherwise rejected once, and to be repaired only while the ledger allows a retry.
    method FinalizeReport(arguments: string) returns (r: Result<Finalization, RunError>)
      requires Valid() && Quiet(events)
      modifies this`seqNo, this`events, this`effects, this`outcomes, this`reviews, ledger
      ensures Valid() && Quiet(events)
      ensures forall sort :: Begun(effects, sort) <= old(Begun(effects, sort)) + if sort == Verifying then 1 else 0
      ensures ledger.history == old(ledger.history) || OneMore(old(ledger.history), ledger.history)
      ensures r.Success? && r.value.Published? ==>
                Reviewed(reviews, r.value.draft) && ledger.history == old(ledger.history)
      ensures r.Success? && !r.value.Published? ==>
                && OneMore(old(ledger.history), ledger.history)
                && (r.value.SpentOut? <==>
                    Judge(Attempts(config), old(ledger.history), Last(ledger.history)).Exhausted?)
      ensures r.Success? ==> Unfinished() == old(Unfinished()) && forall key :: Room(key) >= old(Room(key))
      ensures r.Success? ==> forall tag :: Answered(events, tag) == old(Answered(events, tag))
    {
      hide Valid, Ready, Quiet, Begun, Judge, RoomIn, MayFollow, Opens, Answered, Answers;
      Following();
      var decoded: Option<string> := *;
      if !decoded.Some? {
        var verdict := Reject("undecodable:" + arguments);
        return Success(if verdict.Exhausted? then SpentOut else Repair);
      }
      var draft := decoded.value;
      var problems: nat := *;
      if problems > 0 {
        Log(Review(draft, problems, false));
        var verdict := Reject(draft);
        var _ :- RecordFindings(problems);
        return Success(if verdict.Exhausted? then SpentOut else Repair);
      }
      :- Record(VerificationStarted);
      var passed :- Verify();
      Log(Review(draft, 0, passed));
      if passed {
        return Success(Published(draft));
      }
      var findings: nat := *;
      var _ :- RecordFindings(findings);
      var verdict := Reject(draft);
      r := Success(if verdict.Exhausted? then SpentOut else Repair);
    }

    method Verify() returns (r: Result<bool, RunError>)
      requires Valid() && Ready()
      modifies this`effects, this`outcomes
      ensures Valid()
      ensures forall sort :: Begun(effects, sort) == old(Begun(effects, sort)) + if sort == Verifying then 1 else 0
      ensures r.Success? ==> Unfinished() == old(Unfinished()) && forall key :: Room(key) == old(Room(key))
    {
      hide Valid, Ready, Begun, RoomIn;
      RoomNonNegative();
      var effect :- BeginEffect(VerifyReport);
      var passed: Option<bool> := *;
      :- CompleteEffect(effect);
      r := if passed.Some? then Success(passed.value) else Failure(VerificationFailed);
    }

    // Refuse an unknown tool or malformed arguments, and answer so; begin one effect for any
    // other call and start it.
    method PrepareCall(call: Call) returns (r: Result<Option<Started>, RunError>)
      requires Valid() && Quiet(events) && unknownToolCalls <= config.maxUnknownToolRejections
      modifies this`seqNo, this`unknownToolCalls, this`events, this`effects
      ensures Valid() && Quiet(events)
      ensures unknownToolCalls == old(unknownToolCalls) + if call.tag.tool in tools then 0 else 1
      ensures unknownToolCalls > config.maxUnknownToolRejections ==> r == Failure(UnknownTool(call.tag.tool))
      ensures !Acceptable(call, tools) ==> effects == old(effects)
      ensures Acceptable(call, tools) ==>
                effects == old(effects)
                    || (OneMore(old(effects), effects) && Last(effects).kind == CallTool(call.tag.tool))
      ensures forall sort :: Begun(effects, sort) <= old(Begun(effects, sort)) + if sort == Calling then 1 else 0
      ensures r.Success? ==>
                if Acceptable(call, tools)
                then r.value == Some(Started(call, |old(effects)|)) && OneMore(old(effects), effects)
                else r.value == None
      ensures r.Success? ==>
                forall tag :: Answered(events, tag)
                              == old(Answered(events, tag)) + if r.value == None && tag == call.tag then 1 else 0
      ensures r.Success? ==>
                forall key :: Room(key) == old(Room(key)) + if r.value.Some? && Uses(r.value.value, key) then 1 else 0
    {
      hide Valid, Ready, Quiet, Begun, RoomIn, MayFollow, Opens, Answered, Answers;
      Following();
      if call.tag.tool !in tools {
        unknownToolCalls := unknownToolCalls + 1;
        if unknownToolCalls > config.maxUnknownToolRejections {
          return Failure(UnknownTool(call.tag.tool));
        }
        :- Record(ToolFailed(call.tag));
        return Success(None);
      }
      if !call.parsed {
        :- Record(ToolFailed(call.tag));
        return Success(None);
      }
      :- Record(ToolScheduled(call.tag));
      var effect :- BeginEffect(CallTool(call.tag.tool));
      :- Record(ToolStarted(call.tag));
      r := Success(Some(Started(call, effect)));
    }

    // Exactly the acceptable calls go on, in order; each other one has been answered.
    method PrepareCalls(calls: seq<Call>) returns (r: Result<seq<Started>, RunError>)
      requires Valid() && Quiet(events) && unknownToolCalls <= config.maxUnknownToolRejections
      modifies this`seqNo, this`unknownToolCalls, this`events, this`effects
      ensures Valid() && Quiet(events) && unknownToolCalls <= config.maxUnknownToolRejections + 1
      ensures unknownToolCalls > config.maxUnknownToolRejections ==> r.Failure? && r.error.UnknownTool?
      ensures forall sort :: Begun(effects, sort) <= old(Begun(effects, sort)) + if sort == Calling then |calls| else 0
      ensures r.Success? ==>
                CallsOf(r.value) == Accepted(calls, tools) && Unfinished() == old(Unfinished()) + |r.value|
      ensures r.Success? ==> forall key :: Room(key) >= Using(r.value, key)
      ensures r.Success? ==>
                forall tag :: Answered(events, tag) + Using(r.value, ByTag(tag))
                              == old(Answered(events, tag)) + Named(calls, tag)
    {
      hide Valid, Ready, Quiet, Begun, RoomIn, Answered, Named, Using, Accepted, Acceptable, CallsOf;
      var prepared: seq<Started> := [];
      RoomNonNegative();
      NamedNone();
      UsingNone();
      assert calls[..0] == [] && CallsOf([]) == Accepted([], tools);
      for i := 0 to |calls|
        invariant Valid() && Quiet(events) && unknownToolCalls <= config.maxUnknownToolRejections
        invariant forall sort :: Begun(effects, sort) <= old(Begun(effects, sort)) + if sort == Calling then i else 0
        invariant CallsOf(prepared) == Accepted(calls[..i], tools)
        invariant Unfinished() == old(Unfinished()) + |prepared|
        invariant forall key :: Room(key) >= Using(prepared, key)
        invariant forall tag :: Answered(events, tag) + Using(prepared, ByTag(tag))
                                == old(Answered(events, tag)) + Named(calls[..i], tag)
      {
        NamedNext(calls, i);
        AcceptedNext(calls, i, tools);
        var admitted :- PrepareCall(calls[i]);
        if admitted.Some? {
          UsingOneMore(prepared, admitted.value);
          CallsOfOneMore(prepared, admitted.value);
          prepared := prepared + [admitted.value];
        }
      }
      assert calls[..|calls|] == calls;
      r := Success(prepared);
    }

    // Take the calls the runtime serves itself out of the list, keeping both orders.
    method SplitCalls(calls: seq<Started>) returns (engine: seq<Started>, runtime: seq<Started>)
      requires forall c :: c in calls ==> c.call.tag.tool in tools
      ensures engine == Select(calls, tools, EngineTool) && runtime == Select(calls, tools, RuntimeTool)
    {
      hide Select;
      engine, runtime := calls, [];
      var index := 0;
      ghost var seen, kept, rest := [], [], calls;
      SelectNothing(tools);
      while index < |engine|
        invariant calls == seen + rest && engine == kept + rest && index == |kept|
        invariant kept == Select(seen, tools, EngineTool) && runtime == Select(seen, tools, RuntimeTool)
        decreases |engine| - index
      {
        Boundary(seen, rest);
        Boundary(kept, rest);
        var call := engine[index];
        assert call in calls;
        SelectOneMore(seen, call, tools);
        if tools[call.call.tag.tool] == RuntimeTool {
          runtime := runtime + [call];
          engine := engine[..index] + engine[index + 1..];
        } else {
          index := index + 1;
          kept := kept + [call];
        }
        seen, rest := seen + [call], rest[1..];
      }
      assert rest == [] && seen == calls && kept == engine;
    }

    // The answer to one engine call: its effect is completed and its result recorded.
    method AnswerCall(started: Started) returns (r: Result<(), RunError>)
      requires Valid() && Quiet(events)
      requires Room(ByTag(started.call.tag)) > 0 && Room(ByEffect(started.effect)) > 0
      modifies this`seqNo, this`events, this`outcomes
      ensures Valid() && Quiet(events)
      ensures r.Success? ==> outcomes == old(outcomes) + [started.effect]
      ensures r.Success? ==>
                forall tag :: Answered(events, tag)
                              == old(Answered(events, tag)) + if tag == started.call.tag then 1 else 0
      ensures r.Success? ==> forall key :: Room(key) >= old(Room(key)) - if Uses(started, key) then 1 else 0
    {
      hide Valid, Ready, Quiet, RoomIn, MayFollow, Opens, Answered, Answers;
      Following();
      var tag := started.call.tag;
      :- EnsureActive();
      var reply: ToolReply := *;
      if reply.Unencodable? {
        return Failure(EncodingFailed);
      }
      :- CompleteEffect(started.effect);
      if reply.Value? && !reply.oversized {
        :- Record(ToolCompleted(tag));
        if reply.evidence > 0 {
          :- Record(EvidenceAdded(tag));
        }
      } else {
        :- Record(ToolFailed(tag));
      }
      r := Success(());
    }

    // Engine calls run in parallel and are answered in any order, each exactly once; the
    // calls for later stay under way.
    method RunEngineCalls(calls: seq<Started>, ghost later: seq<Started>) returns (r: Result<seq<Started>, RunError>)
      requires Valid() && Quiet(events)
      requires forall key :: Room(key) >= Using(calls, key) + Using(later, key)
      modifies this`seqNo, this`events, this`outcomes
      ensures Valid() && Quiet(events)
      ensures r.Success? ==> multiset(r.value) == multiset(calls)
      ensures r.Success? ==>
                forall tag :: Answered(events, tag) == old(Answered(events, tag)) + Using(calls, ByTag(tag))
      ensures r.Success? ==> |outcomes| == |old(outcomes)| + |calls| && forall c :: c in calls ==> c.effect in outcomes
      ensures r.Success? ==> forall key :: Room(key) >= Using(later, key)
    {
      hide Valid, Ready, Quiet, RoomIn, Answered, Using;
      var pending, completed := calls, [];
      UsingNone();
      while pending != []
        invariant Valid() && Quiet(events) && multiset(pending) + multiset(completed) == multiset(calls)
        invariant forall key :: Room(key) >= Using(pending, key) + Using(later, key)
        invariant forall tag :: Answered(events, tag) + Using(pending, ByTag(tag))
                                == old(Answered(events, tag)) + Using(calls, ByTag(tag))
        invariant |outcomes| == |old(outcomes)| + |completed| && |pending| + |completed| == |calls|
        invariant forall c :: c in completed ==> c.effect in outcomes
        decreases |pending|
      {
        var pick: nat := *;
        var k := pick % |pending|;
        var call := pending[k];
        Taken(pending, k);
        UsingTaken(pending, k);
        pending := pending[..k] + pending[k + 1..];
        var _ :- AnswerCall(call);
        completed := completed + [call];
      }
      assert multiset(completed) == multiset(calls);
      forall c | c in calls ensures c.effect in outcomes {
        assert c in multiset(calls);
      }
      r := Success(completed);
    }

    method CompleteRun(report: string) returns (r: Result<string, RunError>)
      requires Valid() && Quiet(events)
      requires config.verifyReports ==> Reviewed(reviews, report)
      modifies this`seqNo, this`events
      ensures Valid()
      ensures if r.Success? then r.value == report && ClosedWith(events, report) else Quiet(events) || Closed(events)
      ensures r.Success? ==> forall tag :: Answered(events, tag) == old(Answered(events, tag))
    {
      hide Valid, Ready, RoomIn, MayFollow, Opens, Answered, Answers;
      Following();
      var before := events;
      var recorded := Record(Completed(report));
      assert events != before ==> events[..|events| - 1] == before;
      if recorded.Fail? {
        return Failure(recorded.error);
      }
      r := Success(report);
    }

    // One call that the runtime serves itself.
    method ServeCall(started: Started) returns (r: Result<Served, RunError>)
      requires Valid() && Quiet(events)
      requires Room(ByTag(started.call.tag)) > 0 && Room(ByEffect(started.effect)) > 0
      modifies this`seqNo, this`events, this`effects, this`outcomes, this`reviews, ledger
      ensures Valid()
      ensures forall sort :: Begun(effects, sort) <= old(Begun(effects, sort)) + if sort == Verifying then 1 else 0
      ensures |ledger.history| <= old(|ledger.history|) + 1
      ensures r.Failure? ==> Quiet(events) || Closed(events)
      ensures r.Success? && r.value.Final? ==> ClosedWith(events, r.value.report)
      ensures r.Success? ==> started.effect in outcomes && Unfinished() == old(Unfinished()) - 1
      ensures r.Success? && !r.value.Final? ==>
                && Quiet(events)
                && forall key :: Room(key) >= old(Room(key)) - if Uses(started, key) then 1 else 0
      ensures r.Success? ==>
                forall tag :: Answered(events, tag)
                              == old(Answered(events, tag)) + if tag == started.call.tag then 1 else 0
      ensures r.Success? && r.value.Handled? ==>
                ledger.history == old(ledger.history) || |ledger.history| < Attempts(config)
    {
      hide Valid, Ready, Quiet, Closed, ClosedWith, Begun, RoomIn, Judge, MayFollow, Opens, Answered, Answers;
      Following();
      var tag := started.call.tag;
      :- EnsureActive();
      if tag.tool == "search_evidence" {
        :- CompleteEffect(started.effect);
        :- Record(ToolCompleted(tag));
        return Success(Handled);
      }
      if tag.tool != "submit_report" {
        return Failure(UnknownTool(tag.tool));
      }
      var outcome :- FinalizeReport(started.call.arguments);
      :- CompleteEffect(started.effect);
      match outcome {
        case Published(draft) =>
          assert Room(ByTag(tag)) > 0;
          :- Record(ToolCompleted(tag));
          var report :- CompleteRun(draft);
          r := Success(Final(report));
        case Repair =>
          RetryLeavesBudget(Attempts(config), ledger.history);
          :- Record(ToolFailed(tag));
          r := Success(Handled);
        case SpentOut =>
          :- Record(ToolFailed(tag));
          r := Success(Spent);
      }
    }

    // The calls the runtime serves, in call order. A publication ends the batch; a spent
    // budget does not.
    method RunRuntimeCalls(calls: seq<Started>) returns (r: Result<Batch, RunError>)
      requires Valid() && Quiet(events) && |ledger.history| < Attempts(config)
      requires forall key :: Room(key) >= Using(calls, key)
      modifies this`seqNo, this`events, this`effects, this`outcomes, this`reviews, ledger
      ensures Valid()
      ensures forall sort ::
                Begun(effects, sort) <= old(Begun(effects, sort)) + if sort == Verifying then |calls| else 0
      ensures |ledger.history| <= old(|ledger.history|) + |calls|
      ensures r.Failure? ==> Quiet(events) || Closed(events)
      ensures r.Success? && r.value.published.Some? ==> ClosedWith(events, r.value.published.value)
      ensures r.Success? && r.value.published.None? ==>
                Quiet(events) && (!r.value.exhausted ==> |ledger.history| < Attempts(config))
      ensures r.Success? && r.value.published.None? ==>
                && Unfinished() == old(Unfinished()) - |calls|
                && forall tag :: Answered(events, tag) == old(Answered(events, tag)) + Using(calls, ByTag(tag))
    {
      hide Valid, Ready, Quiet, Closed, ClosedWith, Begun, RoomIn, Answered, Using;
      var exhausted := false;
      assert calls[0..] == calls;
      for i := 0 to |calls|
        invariant Valid() && Quiet(events) && Unfinished() == old(Unfinished()) - i
        invariant forall sort :: Begun(effects, sort) <= old(Begun(effects, sort)) + if sort == Verifying then i else 0
        invariant |ledger.history| <= old(|ledger.history|) + i
        invariant !exhausted ==> |ledger.history| < Attempts(config)
        invariant forall key :: Room(key) >= Using(calls[i..], key)
        invariant forall tag :: Answered(events, tag) + Using(calls[i..], ByTag(tag))
                                == old(Answered(events, tag)) + Using(calls, ByTag(tag))
      {
        UsingRest(calls, i);
        var served :- ServeCall(calls[i]);
        match served {
          case Handled =>
          case Spent => exhausted := true;
          case Final(report) => return Success(Batch(Some(report), exhausted));
        }
        :- Encode();
      }
      UsingNone();
      assert calls[|calls|..] == [];
      r := Success(Batch(None, exhausted));
    }

    // A batch of calls: unless it publishes or fails, every call has been answered exactly
    // once, refused ones included, and every effect begun for it has been completed.
    method ExecuteTools(calls: seq<Call>) returns (r: Result<Batch, RunError>)
      requires Valid() && Quiet(events) && |ledger.history| < Attempts(config)
      requires unknownToolCalls <= config.maxUnknownToolRejections
      modifies this, ledger
      ensures Valid() && unknownToolCalls <= config.maxUnknownToolRejections + 1
      ensures unknownToolCalls > config.maxUnknownToolRejections ==> r.Failure? && r.error.UnknownTool?
      ensures forall sort ::
                Begun(effects, sort)
                <= old(Begun(effects, sort)) + if sort == Verifying || sort == Calling then |calls| else 0
      ensures |ledger.history| <= old(|ledger.history|) + |calls|
      ensures r.Failure? ==> Quiet(events) || Closed(events)
      ensures r.Success? && r.value.published.Some? ==> ClosedWith(events, r.value.published.value)
      ensures r.Success? && r.value.published.None? ==>
                Quiet(events) && (!r.value.exhausted ==> |ledger.history| < Attempts(config))
      ensures r.Success? && r.value.published.None? ==>
                && Unfinished() == old(Unfinished())
                && forall tag :: Answered(events, tag) == old(Answered(events, tag)) + Named(calls, tag)
    {
      hide Valid, Ready, Quiet, Closed, ClosedWith, Begun, Select, RoomIn, Answered, Named, Using, Accepted, CallsOf,
           Acceptable, HandledBy;
      var prepared :- PrepareCalls(calls);
      AcceptedAreKnown(prepared, calls, tools);
      var engine, runtime := SplitCalls(prepared);
      SelectionsShare(prepared, tools);
      var _ :- RunEngineCalls(engine, runtime);
      :- Encode();
      r := RunRuntimeCalls(runtime);
    }

    // One streamed attempt at a turn. It records nothing but text, at most one event a chunk,
    // and the text of the turn is what those events join to.
    method StreamTurn() returns (r: Result<Turn, RunError>)
      requires Valid() && Ready() && Quiet(events)
      modifies this`seqNo, this`events, this`effects, this`outcomes
      ensures Valid() && Quiet(events)
      ensures forall sort :: Begun(effects, sort) == old(Begun(effects, sort)) + if sort == Streaming then 1 else 0
      ensures |events| <= |old(events)| + config.maxModelChunksPerRound
      ensures old(events) <= events && OnlyText(events[|old(events)|..])
      ensures r.Success? ==> r.value.text == Streamed(events[|old(events)|..])
      ensures r.Success? ==>
                && |r.value.calls| <= config.maxToolCallsPerRound && |r.value.text| <= config.maxVisibleCharsPerRound
                && Room(ByEffect(r.value.effect)) > 0 && Unfinished() == old(Unfinished()) + 1
    {
      hide Valid, Ready, Quiet, Begun, RoomIn, MayFollow, Opens, Answered, Answers, Streamed, OnlyText;
      Following();
      RoomNonNegative();
      NothingTold(events);
      var effect :- BeginEffect(Kind.StreamTurn);
      var connection: Connection := *;
      if !connection.Connected? {
        :- CompleteEffect(effect);
        return Failure(match connection
                       case ConnectionError(mayResume) => ProviderFailed(mayResume)
                       case ConnectTimeout => ProviderFailed(true)
                       case _ => CancelledByUser);
      }
      var text, chunkCount := "", 0;
      var partial: set<nat> := {};
      while true
        invariant Valid() && Quiet(events) && Room(ByEffect(effect)) > 0 && Unfinished() == old(Unfinished()) + 1
        invariant forall sort :: Begun(effects, sort) == old(Begun(effects, sort)) + if sort == Streaming then 1 else 0
        invariant chunkCount <= config.maxModelChunksPerRound && |events| <= |old(events)| + chunkCount
        invariant old(events) <= events && OnlyText(events[|old(events)|..])
        invariant text == Streamed(events[|old(events)|..])
        invariant |partial| <= config.maxToolCallsPerRound && |text| <= config.maxVisibleCharsPerRound
        decreases config.maxModelChunksPerRound - chunkCount
      {
        :- EnsureActive();
        var next: Next := *;
        match next {
          case Item(chunk) =>
            chunkCount := chunkCount + 1;
            if chunkCount > config.maxModelChunksPerRound {
              :- CompleteEffect(effect);
              return Failure(MalformedStream);
            }
            match chunk {
              case Delta(delta) =>
                if delta != "" {
                  if |text| + |delta| > config.maxVisibleCharsPerRound {
                    :- CompleteEffect(effect);
                    return Failure(MalformedStream);
                  }
                  text := text + delta;
                  ghost var told := events[|old(events)|..];
                  StreamedOneMore(told, delta);
                  TextOneMore(old(events), events, delta);
                  :- Record(TextDelta(delta));
                }
              case ToolDelta(index, valid) =>
                if (index !in partial && |partial| >= config.maxToolCallsPerRound) || !valid {
                  :- CompleteEffect(effect);
                  return Failure(MalformedStream);
                }
                partial := partial + {index};
              case Finish =>
            }
          case EndOfStream =>
            break;
          case CancelledWait =>
            :- CompleteEffect(effect);
            return Failure(CancelledByUser);
          case IdleTimeout =>
            :- CompleteEffect(effect);
            return Failure(ProviderFailed(true));
          case StreamError(resumable) =>
            :- CompleteEffect(effect);
            return Failure(ProviderFailed(resumable));
        }
      }
      var finished: nat -> Call, complete: bool := *, *;
      if !complete {
        :- CompleteEffect(effect);
        return Failure(MalformedStream);
      }
      r := Success(Turn(text, seq(|partial|, finished), effect));
    }

    lemma NothingTold(before: seq<Event>)
      ensures before[|before|..] == [] && OnlyText([]) && Streamed([]) == ""
    {
    }

    lemma TextOneMore(before: seq<Event>, now: seq<Event>, text: string)
      requires before <= now && OnlyText(now[|before|..]) && text != ""
      ensures (now + [TextDelta(text)])[|before|..] == now[|before|..] + [TextDelta(text)]
      ensures OnlyText(now[|before|..] + [TextDelta(text)])
    {
    }

    // A turn with neither text nor a call is replayed, a bounded number of times.
    method ModelTurn(round: nat) returns (r: Result<Turn, RunError>)
      requires Valid() && Ready() && Quiet(events)
      modifies this`seqNo, this`events, this`effects, this`outcomes
      ensures Valid() && Quiet(events)
      ensures forall sort ::
                Begun(effects, sort)
                <= old(Begun(effects, sort)) + if sort == Streaming then config.maxEmptyTurnRetries + 1 else 0
      ensures r.Success? ==> |r.value.calls| <= config.maxToolCallsPerRound && Unfinished() == old(Unfinished())
      ensures r.Success? ==>
                r.value.calls != [] || exists k :: 0 <= k < |r.value.text| && !isWhitespace(r.value.text[k])
      ensures r.Success? ==>
                exists n :: && |old(events)| <= n <= |events|
                            && r.value.text == Streamed(events[n..]) && OnlyText(events[n..])
    {
      hide Valid, Ready, Quiet, Begun, RoomIn, MayFollow, Opens, Answered, Answers, Streamed, OnlyText;
      Following();
      var emptyTurns := 0;
      while true
        invariant Valid() && Ready() && Quiet(events) && emptyTurns <= config.maxEmptyTurnRetries
        invariant Unfinished() == old(Unfinished()) && |old(events)| <= |events|
        invariant forall sort ::
                    Begun(effects, sort) == old(Begun(effects, sort)) + if sort == Streaming then emptyTurns else 0
        decreases config.maxEmptyTurnRetries - emptyTurns
      {
        var turn :- StreamTurn();
        :- CompleteEffect(turn.effect);
        if turn.calls != [] || exists k :: 0 <= k < |turn.text| && !isWhitespace(turn.text[k]) {
          return Success(turn);
        }
        emptyTurns := emptyTurns + 1;
        :- Record(ModelTurnEmpty(round, emptyTurns));
        if emptyTurns > config.maxEmptyTurnRetries {
          return Failure(EmptyModelTurn);
        }
      }
    }

    method Start() returns (r: Result<(), RunError>)
      requires Valid() && Quiet(events)
      modifies this`seqNo, this`events, this`effects, this`outcomes
      ensures Valid() && Quiet(events)
      ensures forall sort :: Begun(effects, sort) <= old(Begun(effects, sort)) + if sort == Selecting then 1 else 0
      ensures r.Success? ==> Unfinished() == old(Unfinished())
    {
      hide Valid, Ready, Quiet, Begun, RoomIn, MayFollow, Opens, Answered, Answers;
      Following();
      :- Record(SessionStarted);
      :- Record(UserMessageAccepted);
      :- Record(PlanningStarted);
      :- Record(PlanUpdated);
      RoomNonNegative();
      var effect :- BeginEffect(SelectModel);
      var cancelled: bool, selected: bool, mayResume: bool := *, *, *;
      :- CompleteEffect(effect);
      if cancelled {
        return Failure(CancelledByUser);
      }
      r := if selected then Success(()) else Failure(ProviderFailed(mayResume));
    }

    ghost predicate Fresh()
      reads this, ledger
    {
      events == [] && effects == [] && outcomes == [] && ledger.history == [] && unknownToolCalls == 0
    }

    ghost predicate WithinLimits()
      reads this`effects, this`unknownToolCalls, ledger
    {
      && (forall sort :: Begun(effects, sort) <= Limit(config, sort, config.maxModelRounds))
      && |ledger.history| <= Attempts(config) - 1 + Largest(1, config.maxToolCallsPerRound)
      && unknownToolCalls <= config.maxUnknownToolRejections + 1
    }

    // One round: a model turn, and what becomes of it. A value ends the run with a report.
    method ExecuteRound(round: nat) returns (r: Result<Option<string>, RunError>)
      requires Valid() && Quiet(events) && |ledger.history| < Attempts(config)
      requires unknownToolCalls <= config.maxUnknownToolRejections
      modifies this, ledger
      ensures Valid() && unknownToolCalls <= config.maxUnknownToolRejections + 1
      ensures unknownToolCalls > config.maxUnknownToolRejections ==> r.Failure? && r.error.UnknownTool?
      ensures forall sort :: Begun(effects, sort) <= old(Begun(effects, sort)) + PerRound(config, sort)
      ensures |ledger.history| <= old(|ledger.history|) + Largest(1, config.maxToolCallsPerRound)
      ensures r.Failure? ==> Quiet(events) || Closed(events)
      ensures r.Success? && r.value.Some? ==> ClosedWith(events, r.value.value)
      ensures r.Success? && r.value.None? ==> Quiet(events) && |ledger.history| < Attempts(config)
    {
      hide Valid, Ready, Quiet, Closed, ClosedWith, Begun, Judge, RoomIn, MayFollow, Opens, Answered, Answers, Named;
      Following();
      :- EnsureActive();
      :- Record(ModelStarted(round));
      var turn :- ModelTurn(round);
      if turn.calls != [] {
        var batch :- ExecuteTools(turn.calls);
        if batch.published.None? && batch.exhausted {
          return Failure(VerificationFailed);
        }
        return Success(batch.published);
      }
      if !config.verifyReports {
        var report :- CompleteRun(turn.text);
        return Success(Some(report));
      }
      var verdict := Reject("free-form-turn:" + if |turn.text| <= 512 then turn.text else turn.text[..512]);
      if verdict.Exhausted? {
        return Failure(VerificationFailed);
      }
      RetryLeavesBudget(Attempts(config), ledger.history);
      r := Success(None);
    }

    method ExecuteLoop() returns (r: Result<string, RunError>)
      requires Valid() && Fresh()
      modifies this, ledger
      ensures Valid() && WithinLimits()
      ensures unknownToolCalls > config.maxUnknownToolRejections ==> r.Failure? && r.error.UnknownTool?
      ensures if r.Success? then ClosedWith(events, r.value) else Quiet(events) || Closed(events)
    {
      hide Valid, Ready, Closed, ClosedWith, Limit, PerRound, Begun;
      NothingBegun();
      var _ :- Start();
      for round := 1 to config.maxModelRounds + 1
        invariant Valid() && Quiet(events) && |ledger.history| < Attempts(config)
        invariant unknownToolCalls <= config.maxUnknownToolRejections
        invariant forall sort :: Begun(effects, sort) <= Limit(config, sort, round - 1)
      {
        LimitGrows(config, round);
        var report :- ExecuteRound(round);
        if report.Some? {
          return Success(report.value);
        }
      }
      r := Failure(ModelRoundLimit);
    }

    lemma NothingBegun()
      ensures forall sort :: Begun([], sort) == 0
      ensures forall sort :: Limit(config, sort, 0) == if sort == Selecting then 1 else 0
      ensures forall sort :: Limit(config, sort, 0) <= Limit(config, sort, config.maxModelRounds)
    {
      forall sort ensures Limit(config, sort, 0) <= Limit(config, sort, config.maxModelRounds) {
        ProductGrows(0, config.maxModelRounds, PerRound(config, sort));
      }
    }

    lemma LimitsTell()
      requires WithinLimits()
      ensures Begun(effects, Selecting) <= 1
      ensures Begun(effects, Streaming) <= config.maxModelRounds * (config.maxEmptyTurnRetries + 1)
      ensures Begun(effects, Verifying) <= config.maxModelRounds * config.maxToolCallsPerRound
      ensures Begun(effects, Calling) <= config.maxModelRounds * config.maxToolCallsPerRound
      ensures var attempts := if config.maxFinalizationAttempts == 0 then 1 else config.maxFinalizationAttempts;
              |ledger.history| < attempts + if config.maxToolCallsPerRound == 0 then 1 else config.maxToolCallsPerRound
      ensures unknownToolCalls <= config.maxUnknownToolRejections + 1
    {
      hide Begun;
    }

    // The whole run. A failed run records one more terminal event, if the store takes it.
    method ExecuteTask() returns (r: Result<string, RunError>)
      requires Valid() && Fresh()
      modifies this, ledger
      ensures forall i, j :: 0 <= i < j < |effects| ==>
                IdempotencyKey(task, effects[i]) != IdempotencyKey(task, effects[j])
      ensures forall i :: 0 <= i < |effects| && effects[i].kind.CallTool? ==> effects[i].kind.tool in tools
      ensures CompletedOnce(outcomes, |effects|)
      ensures Begun(effects, Selecting) <= 1
      ensures Begun(effects, Streaming) <= config.maxModelRounds * (config.maxEmptyTurnRetries + 1)
      ensures Begun(effects, Verifying) <= config.maxModelRounds * config.maxToolCallsPerRound
      ensures Begun(effects, Calling) <= config.maxModelRounds * config.maxToolCallsPerRound
      ensures var attempts := if config.maxFinalizationAttempts == 0 then 1 else config.maxFinalizationAttempts;
              |ledger.history| < attempts + if config.maxToolCallsPerRound == 0 then 1 else config.maxToolCallsPerRound
      ensures unknownToolCalls <= config.maxUnknownToolRejections + 1
      ensures unknownToolCalls > config.maxUnknownToolRejections ==> r.Failure? && r.error.UnknownTool?
      ensures config.verifyReports ==> OnlyReviewed(events, reviews)
      ensures WellTold(events)
      ensures if r.Success? then ClosedWith(events, r.value) else Quiet(events) || Closed(events) || Ended(events)
      ensures Ended(events) ==>
                && r.Failure?
                && (Last(events) == Cancelled <==> r.error == CancelledByUser)
                && (Last(events) == Suspended <==> r.error == ProviderFailed(true))
    {
      hide Begun, FinalizationLedger.Valid, OnlyReviewed, Reviewed, IdempotencyKey, WellTold,
           CompletedOnce, WithinLimits, RoomIn, MayFollow, Opens, Answered, Answers;
      Following();
      r := ExecuteLoop();
      LimitsTell();
      if r.Failure? {
        var before := events;
        var _ := Record(TerminalFor(r.error));
        assert events != before ==> events[..|events| - 1] == before;
      }
      forall i, j | 0 <= i < j < |effects|
        ensures IdempotencyKey(task, effects[i]) != IdempotencyKey(task, effects[j])
      {
        KeysDiffer(task, effects[i], effects[j]);
      }
    }
  }
}
