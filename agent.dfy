/** The content script's agent state `WCA_STATE` and the code that updates it in
    place: `collectSnapshot`, the `runLoop` with its batch of actions, and the
    `RUN_TASK` / `STOP_TASK` message handler. Each method is proved to leave the
    state the functions of `Snapshot` and `Controller` describe. */
module Agent {
  import opened Wrappers
  import opened Text
  import opened Dom
  import opened Protocol
  import opened Snapshot
  import opened Risk
  import opened DomainGuard
  import opened Executor
  import opened Controller

  /** The rest of a batch, after the events already recorded. */
  function AfterEvents(events: seq<ActionEvent>, rest: BatchResult): BatchResult {
    BatchResult(rest.state, events + rest.events)
  }

  /** The run parameters `RUN_TASK` takes from the message, with the handler's defaults
      (`||`) for a missing or falsy task, step budget or safety policy. */
  function Configured(msg: RunTaskMessage, current: SafetyPolicy): Config {
    Config(msg.task.GetOr(""),
      if msg.maxSteps.None? || msg.maxSteps == Some(0) then 25 else msg.maxSteps.value,
      msg.demoMode, msg.safety.GetOr(current))
  }

  /** What is left of the batch from action `k` in state `st`: the `Batch` the loop of
      `Agent.RunBatch` keeps track of. */
  ghost function RemainingBatch(cfg: Config, env: Env, doc: Document, m: map<string, nat>, n: nat, actions: seq<Action>, k: nat, st: LoopState): BatchResult
    requires MapInDocument(m, doc) && k <= |actions|
  {
    Batch(cfg, env, doc, m, n, actions, k, st)
  }

  /** The rest of a run, after the iterations already recorded. */
  function AfterTrace(trace: seq<IterationRecord>, rest: RunResult): RunResult {
    RunResult(rest.state, rest.outcome, trace + rest.trace)
  }

  lemma AfterTraceAppend(earlier: seq<IterationRecord>, later: seq<IterationRecord>, rest: RunResult)
    ensures AfterTrace(earlier, AfterTrace(later, rest)) == AfterTrace(earlier + later, rest)
  {
    assert earlier + (later + rest.trace) == (earlier + later) + rest.trace;
  }

  /** What is left of a run from iteration `n` in state `st`, up to iteration `fuel`:
      the `Run` the loop of `Agent.Cycle` keeps track of. */
  ghost function Remaining(cfg: Config, env: Env, see: nat -> Observed, st: LoopState, n: nat, fuel: nat): RunResult {
    Run(cfg, env, see, st, n, fuel)
  }



  class Agent {
    var running: bool
    var stopRequested: bool
    var stepMode: bool
    var task: string
    var maxSteps: int
    var stepCount: nat
    var demoMode: bool
    var allowlist: seq<string>
    var denylist: seq<string>
    var safety: SafetyPolicy
    var elementMap: map<string, nat>
    var urlAtStart: string

    /** The initial `WCA_STATE`, on a page at `url`. */
    constructor (url: string)
      ensures !running && !stopRequested && !stepMode && task == "" && maxSteps == 25 && stepCount == 0
      ensures !demoMode && allowlist == [] && denylist == [] && safety == SafetyPolicy(Some(true))
      ensures elementMap == map[] && urlAtStart == url
    {
      running := false;
      stopRequested := false;
      stepMode := false;
      task := "";
      maxSteps := 25;
      stepCount := 0;
      demoMode := false;
      allowlist := [];
      denylist := [];
      safety := SafetyPolicy(Some(true));
      elementMap := map[];
      urlAtStart := url;
    }

    /** The fields the run loop reads and writes. */
    function State(): LoopState
      reads this`running, this`stopRequested, this`stepCount, this`urlAtStart, this`elementMap
    {
      LoopState(running, stopRequested, stepCount, urlAtStart, elementMap)
    }

    /** The fields `RUN_TASK` sets and the run loop only reads. */
    function Parameters(): Config
      reads this`task, this`maxSteps, this`demoMode, this`safety
    {
      Config(task, maxSteps, demoMode, safety)
    }

    /** `STOP_TASK`: ask the loop to stop, and mark the agent as not running. */
    method Stop()
      modifies this`stopRequested, this`running
      ensures State() == Deliver(old(State()))
    {
      stopRequested := true;
      running := false;
    }

    /** The descriptor object `collectSnapshot` builds for node `j` once the nodes `inc`
        have been numbered: the one `DescribeAll` appends for it. */
    static method DescribeNext(doc: Document, ghost inc: seq<nat>, k: nat, j: nat, escape: string -> string)
      returns (d: Descriptor)
      requires InDocument(doc, inc) && k == |inc| && j < |doc.nodes|
      ensures InDocument(doc, inc + [j])
      ensures DescribeAll(doc, inc + [j], escape) == DescribeAll(doc, inc, escape) + [d]
    {
      var e := doc.nodes[j].element;
      var selector := GenerateSelector(doc, j, escape);
      d := Descriptor(ElementId(k), Lower(e.tagName), e.role, ElementText(e), e.placeholder, e.name,
        e.typeAttr, e.ariaLabel, selector, e.rect, true, !e.disabled);
      DescribeAllAppend(doc, inc, j, escape);
    }

    /** One pass of the `forEach` of `collectSnapshot`, on candidate `i`: a visible one is
        described with the next id, which the element map then binds to it. */
    method DescribePass(doc: Document, candidates: seq<nat>, i: nat, ghost included: seq<nat>,
                        elements: seq<Descriptor>, escape: string -> string)
      returns (described: seq<Descriptor>, ghost extended: seq<nat>)
      requires InDocument(doc, candidates) && i < |candidates|
      requires included == VisibleAmong(doc, candidates[..i])
      requires elements == DescribeAll(doc, included, escape) && elementMap == IdMap(included)
      modifies this`elementMap
      ensures extended == VisibleAmong(doc, candidates[..i + 1])
      ensures described == DescribeAll(doc, extended, escape) && elementMap == IdMap(extended)
    {
      var j := candidates[i];
      VisibleAmongStep(doc, candidates, i);
      if IsVisible(doc.nodes[j].element) {
        var count := |elements|;
        var d := DescribeNext(doc, included, count, j, escape);
        IdMapAppend(included, j);
        described := elements + [d];
        elementMap := elementMap[ElementId(count) := j];
        extended := included + [j];
      } else {
        described, extended := elements, included;
      }
    }

    /** The `forEach` of `collectSnapshot`: clears the element map, then numbers the
        visible candidates in document order, describing each and binding its id. */
    method DescribeVisible(doc: Document, escape: string -> string) returns (elements: seq<Descriptor>)
      modifies this`elementMap
      ensures elements == DescribeAll(doc, Included(doc), escape) && elementMap == IdMap(Included(doc))
    {
      elements := [];
      elementMap := map[];
      var candidates := Candidates(doc);
      ghost var included: seq<nat> := [];
      var i := 0;
      while i < |candidates|
        invariant i <= |candidates|
        invariant included == VisibleAmong(doc, candidates[..i])
        invariant elements == DescribeAll(doc, included, escape)
        invariant elementMap == IdMap(included)
      {
        elements, included := DescribePass(doc, candidates, i, included, elements, escape);
        i := i + 1;
      }
      assert candidates[..i] == candidates;
    }

    /** `collectSnapshot`: the page's URL, title and visible text, and the descriptors of
        the visible candidates, whose ids the element map now binds. */
    method CollectSnapshot(page: Page, escape: string -> string) returns (snapshot: PageSnapshot)
      modifies this`elementMap
      ensures snapshot == SnapshotOf(page, escape) && elementMap == IdMap(Included(page.document))
    {
      var elements := DescribeVisible(page.document, escape);
      var bodyText := NormalizeText(page.bodyText);
      snapshot := PageSnapshot(page.url, page.title, Take(bodyText, VisibleTextLimit), elements);
    }

    /** One action of the batch once the stop check has passed: a wait is executed and
        skipped; a risky action is put to the modal when the policy asks for it; anything
        else is executed and, when that returns normally, counted as a step. */
    method HandleAction(env: Env, n: nat, k: nat, doc: Document, action: Action) returns (event: ActionEvent)
      requires MapInDocument(elementMap, doc)
      modifies this`stepCount
      ensures event == ActionEventOf(Parameters(), env, doc, n, k, action, elementMap)
      ensures stepCount == old(stepCount) + Counted(event)
    {
      if action.kind == Wait {
        return Waited;
      }
      var element := TargetOf(action, elementMap, doc);
      if ConfirmationRequired(safety) && IsRiskyAction(action, element) {
        var approved := env.approve(n, k);
        if !approved {
          return Declined;
        }
      }
      var result := ExecuteAction(action, elementMap, doc, env.fault(n, k));
      if result.Err? {
        return Failed(result.error);
      }
      stepCount := stepCount + 1;
      event := Performed(result.value);
    }

    /** One pass of the `for` loop over the actions of iteration `n`: the stop request
        that may arrive before action `k`, then, unless one is pending, the action. */
    method BatchPass(env: Env, n: nat, doc: Document, actions: seq<Action>, k: nat, next: nat)
      returns (stop: bool, events: seq<ActionEvent>)
      requires MapInDocument(elementMap, doc) && k < |actions| && next == k + 1
      modifies this`stepCount, this`stopRequested, this`running
      ensures stop ==>
        RemainingBatch(Parameters(), env, doc, elementMap, n, actions, k, old(State())) == BatchResult(State(), [])
      ensures !stop ==>
        RemainingBatch(Parameters(), env, doc, elementMap, n, actions, k, old(State()))
          == AfterEvents(events, RemainingBatch(Parameters(), env, doc, elementMap, n, actions, next, State()))
    {
      if env.stopAt(ActionCheck(n, k)) {
        Stop();
      }
      if stopRequested {
        return true, [];
      }
      ghost var st1 := State();
      var event := HandleAction(env, n, k, doc, actions[k]);
      ghost var rest := Batch(Parameters(), env, doc, elementMap, n, actions, k + 1, State());
      assert Act(Parameters(), env, doc, elementMap, n, actions, k, st1) == BatchResult(rest.state, [event] + rest.events);
      stop, events := false, [event];
    }

    /** The `for` loop over the actions of iteration `n`: before each action a stop
        request may arrive and ends the batch; otherwise the action is handled. */
    method RunBatch(env: Env, n: nat, doc: Document, actions: seq<Action>) returns (events: seq<ActionEvent>)
      requires MapInDocument(elementMap, doc)
      modifies this`stepCount, this`stopRequested, this`running
      ensures BatchResult(State(), events) == Batch(Parameters(), env, doc, elementMap, n, actions, 0, old(State()))
    {
      ghost var cfg := Parameters();
      ghost var whole := RemainingBatch(cfg, env, doc, elementMap, n, actions, 0, State());
      events := [];
      var k := 0;
      while k < |actions|
        invariant k <= |actions|
        invariant whole == AfterEvents(events, RemainingBatch(cfg, env, doc, elementMap, n, actions, k, State()))
      {
        var next := k + 1;
        var stop, more := BatchPass(env, n, doc, actions, k, next);
        if stop {
          return;
        }
        ghost var rest := RemainingBatch(cfg, env, doc, elementMap, n, actions, next, State());
        assert events + (more + rest.events) == (events + more) + rest.events;
        events := events + more;
        k := next;
      }
    }

    /** The rest of an iteration once `collectSnapshot` has observed `o`: ask the model,
        leave on an error, a missing response or `done`, otherwise run the batch and
        re-observe the URL. */
    method Respond(env: Env, n: nat, ghost o: Observed, doc: Document, snapshot: PageSnapshot)
      returns (exit: Option<Outcome>, record: IterationRecord)
      requires doc == o.document && snapshot == o.snapshot && elementMap == o.elementMap
      modifies this`stepCount, this`stopRequested, this`running, this`urlAtStart
      ensures IterationResult(State(), exit, record) == Iterate(Parameters(), env, o, old(State()), n)
    {
      var request := ModelRequest(task, snapshot, stepCount, maxSteps, demoMode);
      var reply := env.reply(n, request);
      exit := ExitOf(reply);
      if exit.Some? {
        record := IterationRecord(request, reply, []);
        return;
      }
      var events := RunBatch(env, n, doc, ActionsOf(reply));
      record := IterationRecord(request, reply, events);
      var url := env.urlAfter(n);
      if url != urlAtStart {
        urlAtStart := url;
      }
    }

    /** One pass of the `while` loop of `runLoop` once its checks have passed: snapshot,
        ask the model, leave on an error, a missing response or `done`, otherwise run
        the batch and re-observe the URL. */
    method RunIteration(env: Env, n: nat) returns (exit: Option<Outcome>, record: IterationRecord)
      modifies this`elementMap, this`stepCount, this`stopRequested, this`running, this`urlAtStart
      ensures IterationResult(State(), exit, record)
        == Iterate(Parameters(), env, ObservationOf(env.pages(n), env.escape), old(State()), n)
    {
      var page := env.pages(n);
      ghost var before := State();
      var snapshot := CollectSnapshot(page, env.escape);
      ghost var o := ObservationOf(page, env.escape);
      assert o == Observation(page.document, snapshot, elementMap);
      assert before.(elementMap := o.elementMap) == State();
      exit, record := Respond(env, n, o, page.document, snapshot);
    }

    /** One pass of the `while` loop's body: the stop check, the bound on iterations, the
        iteration and, when the loop goes on, the stop request that may arrive before the
        next check. When the pass leaves the loop, `exit` is the outcome and the agent
        stops running. */
    method RunPass(env: Env, n: nat, next: nat, ghost see: nat -> Observed, fuel: nat)
      returns (exit: Option<Outcome>, records: seq<IterationRecord>)
      requires running && stepCount < maxSteps && next == n + 1
      requires forall m :: SeesPage(env, see, m)
      modifies this`elementMap, this`stepCount, this`stopRequested, this`running, this`urlAtStart
      ensures exit.Some? ==> Remaining(Parameters(), env, see, old(State()), n, fuel) == RunResult(State(), exit.value, records)
      ensures exit.None? ==> n < fuel
      ensures exit.None? ==>
        Remaining(Parameters(), env, see, old(State()), n, fuel) == AfterTrace(records, Remaining(Parameters(), env, see, State(), next, fuel))
    {
      if stopRequested {
        running := false;
        return Some(Stopped), [];
      }
      if n >= fuel {
        return Some(OutOfFuel), [];
      }
      ghost var st := State();
      assert SeesPage(env, see, n);
      assert Run(Parameters(), env, see, st, n, fuel) == Pass(Parameters(), env, see, st, n, fuel);
      var record;
      exit, record := RunIteration(env, n);
      records := [record];
      if exit.Some? {
        running := false;
        return;
      }
      if env.stopAt(IterationCheck(n + 1)) {
        Stop();
      }
    }

    /** The `while` loop of `runLoop` up to iteration `fuel` at most, where `see(n)` is what
        the snapshot of iteration `n` observes. */
    method Cycle(env: Env, fuel: nat, ghost see: nat -> Observed) returns (outcome: Outcome, trace: seq<IterationRecord>)
      requires forall m :: SeesPage(env, see, m)
      modifies this`elementMap, this`stepCount, this`stopRequested, this`running, this`urlAtStart
      ensures RunResult(State(), outcome, trace) == Run(Parameters(), env, see, old(State()), 0, fuel)
    {
      ghost var cfg := Parameters();
      ghost var whole := Remaining(cfg, env, see, State(), 0, fuel);
      trace := [];
      var n := 0;
      while running && stepCount < maxSteps
        invariant whole == AfterTrace(trace, Remaining(cfg, env, see, State(), n, fuel))
        decreases fuel - n
      {
        var next := n + 1;
        var exit, records := RunPass(env, n, next, see, fuel);
        if exit.Some? {
          return exit.value, trace + records;
        }
        AfterTraceAppend(trace, records, Remaining(cfg, env, see, State(), next, fuel));
        trace := trace + records;
        n := next;
      }
      outcome := if !running then Stopped else BudgetReached;
      running := false;
    }

    /** `runLoop`, for at most `fuel` iterations: it starts with no steps, no stop request,
        running and the current URL, and ends with the state, the outcome and the
        iterations `RunLoopOf` gives. */
    method RunLoop(env: Env, fuel: nat) returns (outcome: Outcome, trace: seq<IterationRecord>)
      modifies this`elementMap, this`stepCount, this`stopRequested, this`running, this`urlAtStart
      ensures RunResult(State(), outcome, trace) == RunLoopOf(Parameters(), env, old(elementMap), fuel)
    {
      stepCount := 0;
      stopRequested := false;
      running := true;
      urlAtStart := env.pages(0).url;
      outcome, trace := Cycle(env, fuel, Observe(env));
    }

    /** The fields `RUN_TASK` sets from the message before the domain check. */
    method Configure(msg: RunTaskMessage)
      modifies this`task, this`stepMode, this`demoMode, this`maxSteps, this`safety, this`allowlist, this`denylist
      ensures Parameters() == Configured(msg, old(safety))
      ensures stepMode == (msg.mode == "step")
      ensures allowlist == msg.allowlist.GetOr([]) && denylist == msg.denylist.GetOr([])
    {
      task := msg.task.GetOr("");
      stepMode := msg.mode == "step";
      demoMode := msg.demoMode;
      maxSteps := if msg.maxSteps.None? || msg.maxSteps == Some(0) then 25 else msg.maxSteps.value;
      safety := msg.safety.GetOr(safety);
      allowlist := msg.allowlist.GetOr([]);
      denylist := msg.denylist.GetOr([]);
    }

    /** `RUN_TASK`: take the run parameters from the message, then refuse the host or
        run the loop. */
    method RunTask(msg: RunTaskMessage, hostname: string, env: Env, fuel: nat) returns (ok: bool, outcome: Option<Outcome>)
      modifies this
      ensures Parameters() == Configured(msg, old(safety))
      ensures stepMode == (msg.mode == "step")
      ensures allowlist == msg.allowlist.GetOr([]) && denylist == msg.denylist.GetOr([])
      ensures ok == CheckDomainAccess(allowlist, denylist, hostname)
      ensures !ok ==> outcome == None && State() == old(State())
      ensures ok ==> var r := RunLoopOf(Parameters(), env, old(elementMap), fuel);
        outcome == Some(r.outcome) && State() == r.state
    {
      Configure(msg);
      if !CheckDomainAccess(allowlist, denylist, hostname) {
        return false, None;
      }
      var result, _ := RunLoop(env, fuel);
      return true, Some(result);
    }
  }
}
