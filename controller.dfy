/** The run loop of the content script as a function of its inputs: the pages it
    observes, the replies of the model, the answers at the confirmation modal,
    faults while acting, the moments a stop request arrives and the URL after
    each batch. `Agent.Agent.RunLoop` is the loop itself, proved equal to `Run`. */
module Controller {
  import opened Wrappers
  import opened Dom
  import opened Protocol
  import opened Snapshot
  import opened Risk
  import opened Executor

  /** The points where the loop reads `stopRequested` or `running`: before action
      `index` of the batch of iteration `iteration`, and at the top of an iteration. */
  datatype Checkpoint = ActionCheck(iteration: nat, index: nat) | IterationCheck(iteration: nat)

  /** Everything the loop learns from outside, indexed by iteration (and action). */
  datatype Env = Env(
    pages: nat -> Page,                             // the page seen by `collectSnapshot` in iteration n
    reply: (nat, ModelRequest) -> Option<Reply>,    // the answer to `MODEL_NEXT_ACTION`; None: no response
    approve: (nat, nat) -> bool,                    // the button pressed at the confirmation modal
    fault: (nat, nat) -> bool,                      // the browser throws while acting, or rejects the URL
    stopAt: Checkpoint -> bool,                     // a `STOP_TASK` message arrived before this check
    urlAfter: nat -> string,                        // `location.href` after the batch of iteration n
    escape: string -> string)                       // `CSS.escape`

  /** The run parameters `RUN_TASK` leaves in the agent state. */
  datatype Config = Config(task: string, maxSteps: int, demoMode: bool, safety: SafetyPolicy)

  /** The agent state fields the loop reads and writes. */
  datatype LoopState = LoopState(
    running: bool,
    stopRequested: bool,
    stepCount: nat,
    urlAtStart: string,
    elementMap: map<string, nat>)

  /** What became of one action of a batch. */
  datatype ActionEvent = Waited | Declined | Performed(effects: seq<Effect>) | Failed(error: ExecError)

  datatype IterationRecord = IterationRecord(request: ModelRequest, reply: Option<Reply>, events: seq<ActionEvent>)

  /** Why the loop ended; `OutOfFuel` is the bound of this model, not an exit of the loop. */
  datatype Outcome = Stopped | BudgetReached | ModelError(message: string) | Completed(message: string) | OutOfFuel

  /** The `STOP_TASK` handler. */
  function Deliver(st: LoopState): (r: LoopState)
    ensures r.stopRequested && !r.running
    ensures r.stepCount == st.stepCount && r.urlAtStart == st.urlAtStart && r.elementMap == st.elementMap
  {
    st.(stopRequested := true, running := false)
  }

  predicate MapInDocument(m: map<string, nat>, doc: Document) {
    forall id :: id in m ==> m[id] < |doc.nodes|
  }

  /** `action.targetElementId ? elementMap.get(action.targetElementId) : null`. */
  function TargetOf(action: Action, m: map<string, nat>, doc: Document): Option<Element>
    requires MapInDocument(m, doc)
  {
    if action.targetElementId != "" && action.targetElementId in m then Some(doc.nodes[m[action.targetElementId]].element)
    else None
  }

  /** One action of a batch once the stop check has passed: a wait is executed and
      skipped, a risky action needs approval when the policy asks for it, anything
      else is executed. */
  function ActionEventOf(cfg: Config, env: Env, doc: Document, n: nat, k: nat, action: Action, m: map<string, nat>): ActionEvent
    requires MapInDocument(m, doc)
  {
    if action.kind == Wait then Waited
    else if ConfirmationRequired(cfg.safety) && IsRiskyAction(action, TargetOf(action, m, doc)) && !env.approve(n, k) then Declined
    else
      match ExecuteAction(action, m, doc, env.fault(n, k))
      case Ok(effects) => Performed(effects)
      case Err(e) => Failed(e)
  }

  function Counted(ev: ActionEvent): nat {
    if ev.Performed? then 1 else 0
  }

  function PerformedCount(evs: seq<ActionEvent>): nat {
    if evs == [] then 0 else Counted(evs[0]) + PerformedCount(evs[1..])
  }

  datatype BatchResult = BatchResult(state: LoopState, events: seq<ActionEvent>)

  /** The `for` loop over the decision's actions of iteration `n`, from action `k` on:
      before each action a stop request may arrive, and a pending one ends the batch;
      otherwise the action is handled and counted when performed (`Act`). */
  function Batch(cfg: Config, env: Env, doc: Document, m: map<string, nat>, n: nat, actions: seq<Action>, k: nat, st: LoopState): BatchResult
    requires MapInDocument(m, doc) && k <= |actions|
    decreases |actions| - k, 1
  {
    if k == |actions| then BatchResult(st, [])
    else
      var st1 := if env.stopAt(ActionCheck(n, k)) then Deliver(st) else st;
      if st1.stopRequested then BatchResult(st1, []) else Act(cfg, env, doc, m, n, actions, k, st1)
  }

  /** Action `k` of the batch once the check before it has passed, then the rest of the batch. */
  function Act(cfg: Config, env: Env, doc: Document, m: map<string, nat>, n: nat, actions: seq<Action>, k: nat, st: LoopState): BatchResult
    requires MapInDocument(m, doc) && k < |actions|
    decreases |actions| - k, 0
  {
    var ev := ActionEventOf(cfg, env, doc, n, k, actions[k], m);
    var rest := Batch(cfg, env, doc, m, n, actions, k + 1, st.(stepCount := st.stepCount + Counted(ev)));
    BatchResult(rest.state, [ev] + rest.events)
  }

  /** The exits right after the reply: no response or an error, and `done`. */
  function ExitOf(reply: Option<Reply>): Option<Outcome> {
    match reply
    case None => Some(ModelError("No response from model"))
    case Some(Failure(e)) => if e != "" then Some(ModelError(e)) else None
    case Some(Answer(d)) =>
      if d.done then Some(Completed(if d.finalMessage != "" then d.finalMessage else "Task complete")) else None
  }

  /** `response.actions || []`. */
  function ActionsOf(reply: Option<Reply>): seq<Action> {
    match reply
    case Some(Answer(d)) => d.actions
    case _ => []
  }

  lemma IdMapInDocument(inc: seq<nat>, doc: Document)
    requires InDocument(doc, inc)
    ensures MapInDocument(IdMap(inc), doc)
  {
    IdMapKeys(inc);
    IdMapValues(inc);
  }

  datatype IterationResult = IterationResult(state: LoopState, exit: Option<Outcome>, record: IterationRecord)

  /** What `collectSnapshot` hands the loop in one iteration: the document it walked,
      the snapshot it built and the element map it left, whose nodes are in the document. */
  datatype Observation = Observation(document: Document, snapshot: PageSnapshot, elementMap: map<string, nat>)

  type Observed = o: Observation | MapInDocument(o.elementMap, o.document)
    witness Observation(Arena([]), PageSnapshot("", "", "", []), map[])

  /** The element map `collectSnapshot` leaves for a page. */
  function MapFor(page: Page): (m: map<string, nat>)
    ensures MapInDocument(m, page.document)
  {
    var inc := Included(page.document);
    IdMapInDocument(inc, page.document);
    IdMap(inc)
  }

  /** `collectSnapshot` on one page: its document, its snapshot and the identity map of
      its visible candidates. */
  function ObservationOf(page: Page, escape: string -> string): Observed {
    Observation(page.document, SnapshotOf(page, escape), MapFor(page))
  }

  /** `collectSnapshot` on the page of each iteration. */
  function Observe(env: Env): nat -> Observed {
    (n: nat) => ObservationOf(env.pages(n), env.escape)
  }

  /** `see` observes, at iteration `n`, what `collectSnapshot` collects on that iteration's page. */
  ghost predicate SeesPage(env: Env, see: nat -> Observed, n: nat) {
    see(n) == ObservationOf(env.pages(n), env.escape)
  }

  /** The `MODEL_NEXT_ACTION` request of an iteration. */
  function RequestFor(cfg: Config, snapshot: PageSnapshot, st: LoopState): ModelRequest {
    ModelRequest(cfg.task, snapshot, st.stepCount, cfg.maxSteps, cfg.demoMode)
  }

  /** `if (location.href !== urlAtStart) urlAtStart = location.href`. */
  function Reobserve(st: LoopState, url: string): LoopState {
    if url != st.urlAtStart then st.(urlAtStart := url) else st
  }

  /** The body of the `while` loop for iteration `n`, given what `collectSnapshot` saw
      in it: snapshot, ask, exit or act, then re-observe the URL. */
  function Iterate(cfg: Config, env: Env, o: Observation, st: LoopState, n: nat): IterationResult
    requires MapInDocument(o.elementMap, o.document)
  {
    var st1 := st.(elementMap := o.elementMap);
    var request := RequestFor(cfg, o.snapshot, st1);
    var reply := env.reply(n, request);
    var exit := ExitOf(reply);
    if exit.Some? then IterationResult(st1, exit, IterationRecord(request, reply, []))
    else
      var b := Batch(cfg, env, o.document, o.elementMap, n, ActionsOf(reply), 0, st1);
      IterationResult(Reobserve(b.state, env.urlAfter(n)), None, IterationRecord(request, reply, b.events))
  }

  datatype RunResult = RunResult(state: LoopState, outcome: Outcome, trace: seq<IterationRecord>)

  /** The `while` loop from iteration `n`, up to iteration `fuel` at most, with `see`
      giving what `collectSnapshot` observes in each: the checks at its top, then the
      iteration and the rest of the run (`Pass`). */
  function Run(cfg: Config, env: Env, see: nat -> Observed, st: LoopState, n: nat, fuel: nat): RunResult
    decreases fuel - n, 1
  {
    if !st.running || st.stepCount >= cfg.maxSteps then
      RunResult(st.(running := false), if !st.running then Stopped else BudgetReached, [])
    else if st.stopRequested then RunResult(st.(running := false), Stopped, [])
    else if n >= fuel then RunResult(st, OutOfFuel, [])
    else Pass(cfg, env, see, st, n, fuel)
  }

  /** Iteration `n` once the checks at the top of the loop have passed; a stop request
      may arrive before the next check. */
  function Pass(cfg: Config, env: Env, see: nat -> Observed, st: LoopState, n: nat, fuel: nat): RunResult
    requires n < fuel
    decreases fuel - n, 0
  {
    var it := Iterate(cfg, env, see(n), st, n);
    if it.exit.Some? then RunResult(it.state.(running := false), it.exit.value, [it.record])
    else
      var next := if env.stopAt(IterationCheck(n + 1)) then Deliver(it.state) else it.state;
      var rest := Run(cfg, env, see, next, n + 1, fuel);
      RunResult(rest.state, rest.outcome, [it.record] + rest.trace)
  }

  /** `runLoop` for a run with these parameters and inputs. */
  function RunLoopOf(cfg: Config, env: Env, elementMap: map<string, nat>, fuel: nat): RunResult {
    Run(cfg, env, Observe(env), Start(env, elementMap), 0, fuel)
  }

  /** The state `runLoop` starts from: no steps, no stop request, running, and the
      current URL; the element map is still the previous one. */
  function Start(env: Env, elementMap: map<string, nat>): LoopState {
    LoopState(true, false, 0, env.pages(0).url, elementMap)
  }

  // ---------------------------------------------------------------- what counts as a step

  /** An action counts as a step exactly when it is not a wait, was not declined at the
      modal, and `executeAction` returned normally. */
  lemma StepCountsSuccessOnly(cfg: Config, env: Env, doc: Document, n: nat, k: nat, action: Action, m: map<string, nat>)
    requires MapInDocument(m, doc)
    ensures var ev := ActionEventOf(cfg, env, doc, n, k, action, m);
      (ev.Performed? <==>
        && action.kind != Wait
        && !(ConfirmationRequired(cfg.safety) && IsRiskyAction(action, TargetOf(action, m, doc)) && !env.approve(n, k))
        && ExecuteAction(action, m, doc, env.fault(n, k)).Ok?)
      && (action.kind == Wait ==> ev == Waited)
  {
  }

  /** An action whose target id is not in the element map is never sent to the modal
      and fails with "not found"; it does not count as a step. */
  lemma MissingTargetFails(cfg: Config, env: Env, doc: Document, n: nat, k: nat, action: Action, m: map<string, nat>)
    requires MapInDocument(m, doc)
    requires TargetsElement(action.kind) && action.targetElementId !in m
    ensures ActionEventOf(cfg, env, doc, n, k, action, m) == Failed(ElementNotFound(action.targetElementId))
  {
    assert TargetOf(action, m, doc).None?;
  }

  /** A batch leaves the URL and the element map alone. */
  lemma {:induction false} BatchFrame(cfg: Config, env: Env, doc: Document, m: map<string, nat>, n: nat, actions: seq<Action>, k: nat, st: LoopState)
    requires MapInDocument(m, doc) && k <= |actions|
    ensures var r := Batch(cfg, env, doc, m, n, actions, k, st);
      r.state.urlAtStart == st.urlAtStart && r.state.elementMap == st.elementMap
    decreases |actions| - k
  {
    if k < |actions| {
      var st1 := if env.stopAt(ActionCheck(n, k)) then Deliver(st) else st;
      if !st1.stopRequested {
        var a := Act(cfg, env, doc, m, n, actions, k, st1);
        var ev := ActionEventOf(cfg, env, doc, n, k, actions[k], m);
        BatchFrame(cfg, env, doc, m, n, actions, k + 1, st1.(stepCount := st1.stepCount + Counted(ev)));
      }
    }
  }

  /** A batch adds to `stepCount` the number of performed actions. */
  lemma {:induction false} BatchSteps(cfg: Config, env: Env, doc: Document, m: map<string, nat>, n: nat, actions: seq<Action>, k: nat, st: LoopState)
    requires MapInDocument(m, doc) && k <= |actions|
    ensures var r := Batch(cfg, env, doc, m, n, actions, k, st);
      r.state.stepCount == st.stepCount + PerformedCount(r.events)
    decreases |actions| - k
  {
    if k < |actions| {
      var st1 := if env.stopAt(ActionCheck(n, k)) then Deliver(st) else st;
      if !st1.stopRequested {
        var a := Act(cfg, env, doc, m, n, actions, k, st1);
        var ev := ActionEventOf(cfg, env, doc, n, k, actions[k], m);
        var st2 := st1.(stepCount := st1.stepCount + Counted(ev));
        BatchSteps(cfg, env, doc, m, n, actions, k + 1, st2);
        var rest := Batch(cfg, env, doc, m, n, actions, k + 1, st2);
        assert ([ev] + rest.events)[1..] == rest.events;
      }
    }
  }

  /** A batch handles the actions in turn, each as `ActionEventOf` says, and at most all of them. */
  lemma {:induction false} BatchEvents(cfg: Config, env: Env, doc: Document, m: map<string, nat>, n: nat, actions: seq<Action>, k: nat, st: LoopState)
    requires MapInDocument(m, doc) && k <= |actions|
    ensures var r := Batch(cfg, env, doc, m, n, actions, k, st);
      && |r.events| <= |actions| - k
      && (forall i :: 0 <= i < |r.events| ==> r.events[i] == ActionEventOf(cfg, env, doc, n, k + i, actions[k + i], m))
    decreases |actions| - k
  {
    if k < |actions| {
      var st1 := if env.stopAt(ActionCheck(n, k)) then Deliver(st) else st;
      if !st1.stopRequested {
        var a := Act(cfg, env, doc, m, n, actions, k, st1);
        var ev := ActionEventOf(cfg, env, doc, n, k, actions[k], m);
        var st2 := st1.(stepCount := st1.stepCount + Counted(ev));
        BatchEvents(cfg, env, doc, m, n, actions, k + 1, st2);
        var rest := Batch(cfg, env, doc, m, n, actions, k + 1, st2);
        var evs := [ev] + rest.events;
        forall i | 0 <= i < |evs|
          ensures evs[i] == ActionEventOf(cfg, env, doc, n, k + i, actions[k + i], m)
        {
          if i > 0 {
            assert evs[i] == rest.events[i - 1];
            assert k + 1 + (i - 1) == k + i;
          }
        }
      }
    }
  }

  /** A batch stops before its end only for a stop request, which it leaves pending with
      `running` false; without one it leaves `running` as it was. */
  lemma {:induction false} BatchStopFlags(cfg: Config, env: Env, doc: Document, m: map<string, nat>, n: nat, actions: seq<Action>, k: nat, st: LoopState)
    requires MapInDocument(m, doc) && k <= |actions|
    ensures var r := Batch(cfg, env, doc, m, n, actions, k, st);
      && (|r.events| < |actions| - k ==> r.state.stopRequested && (!r.state.running || st.running))
      && (!r.state.stopRequested ==> r.state.running == st.running && !st.stopRequested)
      && (r.state.stopRequested && !st.stopRequested ==> !r.state.running)
    decreases |actions| - k
  {
    if k < |actions| {
      var st1 := if env.stopAt(ActionCheck(n, k)) then Deliver(st) else st;
      if !st1.stopRequested {
        var a := Act(cfg, env, doc, m, n, actions, k, st1);
        var ev := ActionEventOf(cfg, env, doc, n, k, actions[k], m);
        BatchStopFlags(cfg, env, doc, m, n, actions, k + 1, st1.(stepCount := st1.stepCount + Counted(ev)));
      }
    }
  }

  /** Once a stop request is seen, no further action of the batch is handled: none if it
      was already pending, and none from the first action whose check sees it. */
  lemma {:induction false} BatchHonoursStop(cfg: Config, env: Env, doc: Document, m: map<string, nat>, n: nat, actions: seq<Action>, k: nat, st: LoopState)
    requires MapInDocument(m, doc) && k <= |actions|
    ensures var r := Batch(cfg, env, doc, m, n, actions, k, st);
      && (st.stopRequested ==> r.events == [])
      && (forall j :: k <= j < |actions| && env.stopAt(ActionCheck(n, j)) ==> |r.events| <= j - k)
    decreases |actions| - k
  {
    if k < |actions| {
      var st1 := if env.stopAt(ActionCheck(n, k)) then Deliver(st) else st;
      if !st1.stopRequested {
        var a := Act(cfg, env, doc, m, n, actions, k, st1);
        var ev := ActionEventOf(cfg, env, doc, n, k, actions[k], m);
        BatchHonoursStop(cfg, env, doc, m, n, actions, k + 1, st1.(stepCount := st1.stepCount + Counted(ev)));
      }
    }
  }

  /** With no stop request during the batch, the batch leaves `running` and
      `stopRequested` as they were. */
  lemma {:induction false} BatchWithoutStop(cfg: Config, env: Env, doc: Document, m: map<string, nat>, n: nat, actions: seq<Action>, k: nat, st: LoopState)
    requires MapInDocument(m, doc) && k <= |actions|
    requires forall j :: k <= j < |actions| ==> !env.stopAt(ActionCheck(n, j))
    ensures var r := Batch(cfg, env, doc, m, n, actions, k, st);
      r.state.running == st.running && r.state.stopRequested == st.stopRequested
    decreases |actions| - k
  {
    if k < |actions| && !st.stopRequested {
      var a := Act(cfg, env, doc, m, n, actions, k, st);
      var ev := ActionEventOf(cfg, env, doc, n, k, actions[k], m);
      BatchWithoutStop(cfg, env, doc, m, n, actions, k + 1, st.(stepCount := st.stepCount + Counted(ev)));
    }
  }

  lemma {:induction false} PerformedCountBound(evs: seq<ActionEvent>)
    ensures PerformedCount(evs) <= |evs|
  {
    if evs != [] {
      PerformedCountBound(evs[1..]);
    }
  }

  /** Waits are not performed actions. */
  lemma {:induction false} WaitsPerformNothing(evs: seq<ActionEvent>)
    requires forall i :: 0 <= i < |evs| ==> evs[i] == Waited
    ensures PerformedCount(evs) == 0
  {
    if evs != [] {
      WaitsPerformNothing(evs[1..]);
    }
  }

  /** `maxSteps` is not consulted inside a batch: the batch is the same whatever the
      budget, so one batch can take `stepCount` past `maxSteps`. */
  lemma {:induction false} BatchIgnoresBudget(cfg: Config, env: Env, doc: Document, m: map<string, nat>, n: nat, actions: seq<Action>, k: nat, st: LoopState, budget: int)
    requires MapInDocument(m, doc) && k <= |actions|
    ensures Batch(cfg, env, doc, m, n, actions, k, st) == Batch(cfg.(maxSteps := budget), env, doc, m, n, actions, k, st)
    decreases |actions| - k
  {
    if k < |actions| {
      var st1 := if env.stopAt(ActionCheck(n, k)) then Deliver(st) else st;
      if !st1.stopRequested {
        var a := Act(cfg, env, doc, m, n, actions, k, st1);
        var b := Act(cfg.(maxSteps := budget), env, doc, m, n, actions, k, st1);
        var ev := ActionEventOf(cfg, env, doc, n, k, actions[k], m);
        assert ev == ActionEventOf(cfg.(maxSteps := budget), env, doc, n, k, actions[k], m);
        BatchIgnoresBudget(cfg, env, doc, m, n, actions, k + 1, st1.(stepCount := st1.stepCount + Counted(ev)), budget);
      }
    }
  }

  // ---------------------------------------------------------------- one iteration

  /** An iteration: the element map is replaced by the one of the observation and the
      request carries its snapshot and the current `stepCount`; an error, a missing
      response or `done` ends the run before any action of the batch; otherwise
      `stepCount` grows by the number of performed actions, at most the batch length,
      and `urlAtStart` becomes the URL after the batch. */
  lemma IterationSummary(cfg: Config, env: Env, o: Observed, st: LoopState, n: nat)
    ensures var it := Iterate(cfg, env, o, st, n);
      var reply := it.record.reply;
      && it.record.request == ModelRequest(cfg.task, o.snapshot, st.stepCount, cfg.maxSteps, cfg.demoMode)
      && reply == env.reply(n, it.record.request)
      && it.state.elementMap == o.elementMap
      && it.exit == ExitOf(reply)
      && it.exit != Some(BudgetReached)
      && (it.exit.Some? ==> it.record.events == [] && it.state == st.(elementMap := o.elementMap))
      && (it.exit.None? ==>
            && it.state.stepCount == st.stepCount + PerformedCount(it.record.events)
            && it.state.stepCount <= st.stepCount + |ActionsOf(reply)|
            && it.state.urlAtStart == env.urlAfter(n))
  {
    var it := Iterate(cfg, env, o, st, n);
    var st1 := st.(elementMap := o.elementMap);
    if it.exit.None? {
      var actions := ActionsOf(it.record.reply);
      BatchFrame(cfg, env, o.document, o.elementMap, n, actions, 0, st1);
      BatchSteps(cfg, env, o.document, o.elementMap, n, actions, 0, st1);
      BatchEvents(cfg, env, o.document, o.elementMap, n, actions, 0, st1);
      PerformedCountBound(it.record.events);
    }
  }

  /** The events of an iteration that goes on are its actions, each handled as
      `ActionEventOf` says for the observed document and element map. */
  lemma IterationEvents(cfg: Config, env: Env, o: Observed, st: LoopState, n: nat)
    ensures var it := Iterate(cfg, env, o, st, n);
      var actions := ActionsOf(it.record.reply);
      it.exit.None? ==>
        && |it.record.events| <= |actions|
        && forall i :: 0 <= i < |it.record.events| ==>
             it.record.events[i] == ActionEventOf(cfg, env, o.document, n, i, actions[i], o.elementMap)
  {
    var it := Iterate(cfg, env, o, st, n);
    if it.exit.None? {
      var actions := ActionsOf(it.record.reply);
      var b := Batch(cfg, env, o.document, o.elementMap, n, actions, 0, st.(elementMap := o.elementMap));
      BatchEvents(cfg, env, o.document, o.elementMap, n, actions, 0, st.(elementMap := o.elementMap));
      assert it.record.events == b.events;
      forall i | 0 <= i < |b.events|
        ensures b.events[i] == ActionEventOf(cfg, env, o.document, n, i, actions[i], o.elementMap)
      {
        assert b.events[i] == ActionEventOf(cfg, env, o.document, n, 0 + i, actions[0 + i], o.elementMap);
      }
    }
  }

  /** An iteration never lowers `stepCount`, and sets `running` to false or raises
      `stopRequested` only for a stop request before one of its actions. */
  lemma IterationFlags(cfg: Config, env: Env, o: Observed, st: LoopState, n: nat)
    ensures var it := Iterate(cfg, env, o, st, n);
      && it.state.stepCount >= st.stepCount
      && it.exit != Some(BudgetReached)
      && ((forall k :: !env.stopAt(ActionCheck(n, k))) ==>
            it.state.running == st.running && it.state.stopRequested == st.stopRequested)
  {
    IterationSummary(cfg, env, o, st, n);
    var it := Iterate(cfg, env, o, st, n);
    if it.exit.None? && forall k :: !env.stopAt(ActionCheck(n, k)) {
      BatchWithoutStop(cfg, env, o.document, o.elementMap, n, ActionsOf(it.record.reply), 0, st.(elementMap := o.elementMap));
    }
  }

  // ---------------------------------------------------------------- the whole run

  /** Whatever ends the run, `running` is false afterwards (the fuel bound aside). */
  lemma {:induction false} RunEndsIdle(cfg: Config, env: Env, see: nat -> Observed, st: LoopState, n: nat, fuel: nat)
    ensures var r := Run(cfg, env, see, st, n, fuel);
      r.outcome != OutOfFuel ==> !r.state.running
    decreases fuel - n
  {
    if st.running && st.stepCount < cfg.maxSteps && !st.stopRequested && n < fuel {
      var p := Pass(cfg, env, see, st, n, fuel);
      var it := Iterate(cfg, env, see(n), st, n);
      if it.exit.None? {
        var next := if env.stopAt(IterationCheck(n + 1)) then Deliver(it.state) else it.state;
        RunEndsIdle(cfg, env, see, next, n + 1, fuel);
      }
    }
  }

  /** The run never lowers `stepCount`, and ends with `BudgetReached` only once
      `stepCount` has reached `maxSteps`. */
  lemma {:induction false} RunBudget(cfg: Config, env: Env, see: nat -> Observed, st: LoopState, n: nat, fuel: nat)
    ensures var r := Run(cfg, env, see, st, n, fuel);
      && r.state.stepCount >= st.stepCount
      && (r.outcome == BudgetReached ==> r.state.stepCount >= cfg.maxSteps)
    decreases fuel - n
  {
    if st.running && st.stepCount < cfg.maxSteps && !st.stopRequested && n < fuel {
      var p := Pass(cfg, env, see, st, n, fuel);
      var it := Iterate(cfg, env, see(n), st, n);
      IterationFlags(cfg, env, see(n), st, n);
      if it.exit.None? {
        var next := if env.stopAt(IterationCheck(n + 1)) then Deliver(it.state) else it.state;
        RunBudget(cfg, env, see, next, n + 1, fuel);
      }
    }
  }

  /** `runLoop` ends with `running` false, and with `BudgetReached` only when
      `stepCount` has reached `maxSteps` (the fuel bound aside). */
  lemma RunLoopEnds(cfg: Config, env: Env, elementMap: map<string, nat>, fuel: nat)
    ensures var r := RunLoopOf(cfg, env, elementMap, fuel);
      && (r.outcome != OutOfFuel ==> !r.state.running)
      && (r.outcome == BudgetReached ==> r.state.stepCount >= cfg.maxSteps)
  {
    RunEndsIdle(cfg, env, Observe(env), Start(env, elementMap), 0, fuel);
    RunBudget(cfg, env, Observe(env), Start(env, elementMap), 0, fuel);
  }

  /** The model answers every request with a batch of waits and is never done. */
  ghost predicate WaitsForever(env: Env) {
    forall n, request :: env.reply(n, request).Some? && env.reply(n, request).value.Answer?
      && !env.reply(n, request).value.decision.done
      && forall i :: 0 <= i < |env.reply(n, request).value.decision.actions| ==>
           env.reply(n, request).value.decision.actions[i].kind == Wait
  }

  /** An iteration whose batch is all waits performs nothing. */
  lemma WaitIterationNoStep(cfg: Config, env: Env, o: Observed, st: LoopState, n: nat)
    requires WaitsForever(env)
    ensures var it := Iterate(cfg, env, o, st, n);
      it.exit.None? && it.state.stepCount == st.stepCount
  {
    IterationSummary(cfg, env, o, st, n);
    IterationEvents(cfg, env, o, st, n);
    var it := Iterate(cfg, env, o, st, n);
    var events := it.record.events;
    forall i | 0 <= i < |events|
      ensures events[i] == Waited
    {
    }
    WaitsPerformNothing(events);
  }

  /** From a running state below the budget, with the model only ever asking to wait
      and no stop request, every allowed iteration goes on and takes no step. */
  lemma {:induction false} RunOfWaits(cfg: Config, env: Env, see: nat -> Observed, st: LoopState, n: nat, fuel: nat)
    requires WaitsForever(env) && forall cp :: !env.stopAt(cp)
    requires st.running && !st.stopRequested && st.stepCount < cfg.maxSteps && n <= fuel
    ensures var r := Run(cfg, env, see, st, n, fuel);
      r.outcome == OutOfFuel && r.state.stepCount == st.stepCount && |r.trace| == fuel - n
    decreases fuel - n
  {
    if n < fuel {
      var p := Pass(cfg, env, see, st, n, fuel);
      WaitIterationNoStep(cfg, env, see(n), st, n);
      IterationFlags(cfg, env, see(n), st, n);
      RunOfWaits(cfg, env, see, Iterate(cfg, env, see(n), st, n).state, n + 1, fuel);
    }
  }

  /** Waits are not steps: if the model only ever asks to wait and nobody stops the run,
      `stepCount` stays 0 and the budget never ends the run, however many iterations are
      allowed. */
  lemma WaitsNeverEndRun(cfg: Config, env: Env, elementMap: map<string, nat>, fuel: nat)
    requires WaitsForever(env) && forall cp :: !env.stopAt(cp)
    requires cfg.maxSteps > 0
    ensures var r := RunLoopOf(cfg, env, elementMap, fuel);
      r.outcome == OutOfFuel && r.state.stepCount == 0 && |r.trace| == fuel
  {
    RunOfWaits(cfg, env, Observe(env), Start(env, elementMap), 0, fuel);
  }
}
