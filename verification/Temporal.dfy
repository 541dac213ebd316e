/** The durable-workflow wrapper around the executor
    (workspace-template/builtin_tools/temporal_workflow.py): its in-process registry and its
    fallback paths.  A run is one call of the executor's `execute`; an activity attempt is
    one execution of `llm_call`, which Temporal may repeat, or start late.  An execution of
    the core emits one terminal message or, if the message cannot be read, raises without
    any (module Streaming). */
module Temporal {
  import opened Basics
  import Regex
  import Streaming

  type TaskId = string
  type RunId = nat

  /** What a run is given: its task id, whether its message can be read, and whether
      extracting the history raises. */
  datatype Context = Context(task: TaskId, readable: bool, historyRaises: bool)

  /** `Direct`: `execute` awaits the core.  `Rescue`: the wrapper awaits it because it could
      not extract its input.  `Fallback`: the wrapper awaits it after a failed workflow. */
  datatype Pc = Direct | Rescue | InWorkflow | Fallback | Finished

  /** `invocations` and `messages` count, for this run's queue, core executions begun and
      terminal messages emitted; `served` is set once an `llm_call` of its workflow has
      returned, with a result of either kind. */
  datatype Run = Run(context: Context, available: bool, pc: Pc, invocations: nat, messages: nat, served: bool)

  /** A core execution inside an activity: whose workflow, and whose queue it writes to. */
  datatype Call = Call(workflow: RunId, owner: RunId)

  datatype State = State(registry: map<TaskId, RunId>, runs: map<RunId, Run>, calls: seq<Call>)

  datatype Step =
    | Begin(r: RunId, context: Context, available: bool)
    | LlmCall(r: RunId)
    | LlmReturns(k: nat)
    | WorkflowReturns(r: RunId)
    | WorkflowRaises(r: RunId)
    | CoreReturns(r: RunId)

  predicate Is(s: State, r: RunId, pc: Pc) {
    r in s.runs && s.runs[r].pc == pc
  }

  predicate Registered(pc: Pc) { pc.InWorkflow? || pc.Fallback? }
  predicate AwaitsCore(pc: Pc) { pc.Direct? || pc.Rescue? || pc.Fallback? }

  /** The run gets a workflow. */
  predicate Durable(context: Context, available: bool) {
    available && context.readable && !context.historyRaises
  }

  /** The workflow ends normally only after an `llm_call` of it has returned. */
  predicate Enabled(s: State, a: Step) {
    match a
    case Begin(r, _, _) => r !in s.runs
    case LlmCall(r) => r in s.runs && Durable(s.runs[r].context, s.runs[r].available)
    case LlmReturns(k) => k < |s.calls| && s.calls[k].workflow in s.runs && s.calls[k].owner in s.runs
    case WorkflowReturns(r) => Is(s, r, InWorkflow) && s.runs[r].served
    case WorkflowRaises(r) => Is(s, r, InWorkflow)
    case CoreReturns(r) => r in s.runs && AwaitsCore(s.runs[r].pc)
  }

  /** A step is free unless it registers a task id that is registered already. */
  predicate Free(s: State, a: Step) {
    a.Begin? && Durable(a.context, a.available) ==> a.context.task !in s.registry
  }

  function Put(s: State, r: RunId, run: Run): State {
    s.(runs := s.runs[r := run])
  }

  function One(b: bool): nat {
    if b then 1 else 0
  }

  function Do(s: State, a: Step): State
    requires Enabled(s, a)
  {
    match a
    case Begin(r, c, available) =>
      if !available then Put(s, r, Run(c, available, Direct, 1, 0, false))
      else if !Durable(c, available) then Put(s, r, Run(c, available, Rescue, 1, 0, false))
      else Put(s, r, Run(c, available, InWorkflow, 0, 0, false)).(registry := s.registry[c.task := r])
    case LlmCall(r) =>
      var task := s.runs[r].context.task;
      if task in s.registry && s.registry[task] in s.runs then
        var o := s.registry[task];
        Put(s, o, s.runs[o].(invocations := s.runs[o].invocations + 1)).(calls := s.calls + [Call(r, o)])
      else Put(s, r, s.runs[r].(served := true))
    case LlmReturns(k) =>
      var c := s.calls[k];
      var o := s.runs[c.owner];
      var s1 := Put(s, c.owner, o.(messages := o.messages + One(o.context.readable)));
      Put(s1, c.workflow, s1.runs[c.workflow].(served := true)).(calls := s.calls[..k] + s.calls[k + 1..])
    case WorkflowReturns(r) =>
      Put(s, r, s.runs[r].(pc := Finished)).(registry := s.registry - {s.runs[r].context.task})
    case WorkflowRaises(r) =>
      Put(s, r, s.runs[r].(pc := Fallback, invocations := s.runs[r].invocations + 1))
    case CoreReturns(r) =>
      var run := s.runs[r];
      // An exception that leaves the wrapper makes `execute` run the core itself.
      if !run.context.readable && run.pc.Rescue? then Put(s, r, run.(pc := Direct, invocations := run.invocations + 1))
      else
        Put(s, r, run.(pc := Finished, messages := run.messages + One(run.context.readable)))
          .(registry := if run.pc.Fallback? then s.registry - {run.context.task} else s.registry)
  }

  const Empty := State(map[], map[], [])

  // ---- counting

  /** Core executions in activities that write to this run's queue. */
  function Owned(calls: seq<Call>, o: RunId): nat {
    if calls == [] then 0 else One(calls[0].owner == o) + Owned(calls[1..], o)
  }

  /** Core executions in progress for this run. */
  function InProgress(s: State, r: RunId): nat
    requires r in s.runs
  {
    Owned(s.calls, r) + One(AwaitsCore(s.runs[r].pc))
  }

  lemma {:induction false} OwnedAppend(a: seq<Call>, b: seq<Call>, o: RunId)
    ensures Owned(a + b, o) == Owned(a, o) + Owned(b, o)
  {
    if a == [] {
      assert a + b == b;
    } else {
      assert (a + b)[1..] == a[1..] + b;
      OwnedAppend(a[1..], b, o);
    }
  }

  lemma OwnedWithout(calls: seq<Call>, k: nat, o: RunId)
    requires k < |calls|
    ensures Owned(calls[..k] + calls[k + 1..], o) + One(calls[k].owner == o) == Owned(calls, o)
  {
    assert calls == calls[..k] + ([calls[k]] + calls[k + 1..]);
    OwnedAppend(calls[..k], [calls[k]] + calls[k + 1..], o);
    OwnedAppend([calls[k]], calls[k + 1..], o);
    OwnedAppend(calls[..k], calls[k + 1..], o);
  }

  lemma {:induction false} NotOwned(calls: seq<Call>, r: RunId)
    requires forall c :: c in calls ==> c.owner != r
    ensures Owned(calls, r) == 0
  {
    if calls != [] { NotOwned(calls[1..], r); }
  }

  // ---- what holds in every reachable state

  /** How many core executions a run has begun whose message cannot be read. */
  predicate Tried(run: Run) {
    match run.pc
    case Rescue => run.available && run.invocations == 1
    case Direct => run.invocations == if run.available then 2 else 1
    case Finished => run.invocations == if run.available then 2 else 1
    case _ => false
  }

  predicate Answered(run: Run) {
    && (run.pc.Finished? ==> run.messages > 0)
    && (run.pc.InWorkflow? && run.served ==> run.messages > 0)
  }

  ghost predicate RunInv(s: State, r: RunId)
    requires r in s.runs
  {
    var run := s.runs[r];
    && (if run.context.readable then run.messages + InProgress(s, r) == run.invocations && Answered(run)
        else run.messages == 0 && Tried(run))
    && (Durable(run.context, run.available) ==> !run.pc.Direct? && !run.pc.Rescue?)
    && (Registered(run.pc) ==>
          Durable(run.context, run.available) && run.context.task in s.registry && s.registry[run.context.task] == r)
  }

  ghost predicate EntriesAgree(s: State) {
    forall t :: t in s.registry ==>
      s.registry[t] in s.runs && s.runs[s.registry[t]].context.task == t && Registered(s.runs[s.registry[t]].pc)
  }

  /** A call writes to a queue whose run could be read; while its workflow runs, to the
      queue of that very run. */
  ghost predicate CallAgrees(s: State, c: Call) {
    && c.workflow in s.runs && c.owner in s.runs && s.runs[c.owner].context.readable
    && (s.runs[c.workflow].pc.InWorkflow? ==> c.owner == c.workflow)
  }

  ghost predicate Inv(s: State) {
    match s
    case State(registry, runs, calls) =>
      && (forall r :: r in runs ==> RunInv(s, r))
      && EntriesAgree(s)
      && (forall c :: c in calls ==> CallAgrees(s, c))
  }

  /** A run may begin unless it would register an id that is registered. */
  lemma BeginKeepsInv(s: State, r: RunId, c: Context, available: bool)
    requires Inv(s) && r !in s.runs && Free(s, Begin(r, c, available))
    ensures Inv(Do(s, Begin(r, c, available)))
  {
    var s' := Do(s, Begin(r, c, available));
    forall x | x in s.calls ensures x.owner != r && CallAgrees(s', x) { assert CallAgrees(s, x); }
    NotOwned(s.calls, r);
    forall x | x in s'.runs ensures RunInv(s', x) {
      if x != r { assert RunInv(s, x); }
    }
  }

  lemma LlmCallKeepsInv(s: State, r: RunId)
    requires Inv(s) && Enabled(s, LlmCall(r))
    ensures Inv(Do(s, LlmCall(r)))
  {
    var s' := Do(s, LlmCall(r));
    var task := s.runs[r].context.task;
    assert RunInv(s, r);
    if task in s.registry {
      forall x | x in s'.runs ensures RunInv(s', x) { CallKeepsRunInv(s, r, x); }
      forall c | c in s'.calls ensures CallAgrees(s', c) {
        assert c in s.calls ==> CallAgrees(s, c);
        assert RunInv(s, s.registry[task]);
      }
    } else {
      forall x | x in s'.runs ensures RunInv(s', x) { assert RunInv(s, x); }
      forall c | c in s'.calls ensures CallAgrees(s', c) { assert CallAgrees(s, c); }
    }
  }

  lemma CallKeepsRunInv(s: State, r: RunId, x: RunId)
    requires Inv(s) && Enabled(s, LlmCall(r)) && s.runs[r].context.task in s.registry && x in s.runs
    ensures RunInv(Do(s, LlmCall(r)), x)
  {
    var o := s.registry[s.runs[r].context.task];
    OwnedAppend(s.calls, [Call(r, o)], x);
    assert Owned([Call(r, o)], x) == One(x == o);
    assert RunInv(s, x) && RunInv(s, o);
  }

  lemma LlmReturnsKeepsInv(s: State, k: nat)
    requires Inv(s) && Enabled(s, LlmReturns(k))
    ensures Inv(Do(s, LlmReturns(k)))
  {
    var s' := Do(s, LlmReturns(k));
    forall x | x in s'.runs ensures RunInv(s', x) { ReturnKeepsRunInv(s, k, x); }
    forall d | d in s'.calls ensures CallAgrees(s', d) { ReturnKeepsCall(s, k, d); }
  }

  lemma ReturnKeepsCall(s: State, k: nat, d: Call)
    requires Inv(s) && Enabled(s, LlmReturns(k)) && d in Do(s, LlmReturns(k)).calls
    ensures CallAgrees(Do(s, LlmReturns(k)), d)
  {
    assert d in s.calls && CallAgrees(s, d);
  }

  lemma ReturnKeepsRunInv(s: State, k: nat, x: RunId)
    requires Inv(s) && Enabled(s, LlmReturns(k)) && x in s.runs
    ensures RunInv(Do(s, LlmReturns(k)), x)
  {
    OwnedWithout(s.calls, k, x);
    assert RunInv(s, x) && s.calls[k] in s.calls && CallAgrees(s, s.calls[k]);
  }

  lemma EndKeepsInv(s: State, a: Step)
    requires Inv(s) && Enabled(s, a) && (a.WorkflowReturns? || a.WorkflowRaises? || a.CoreReturns?)
    ensures Inv(Do(s, a))
  {
    var s' := Do(s, a);
    forall x | x in s'.runs ensures RunInv(s', x) { EndKeepsRunInv(s, a, x); }
    forall c | c in s'.calls ensures CallAgrees(s', c) { assert CallAgrees(s, c); }
    EndKeepsEntries(s, a);
  }

  lemma EndKeepsRunInv(s: State, a: Step, x: RunId)
    requires Inv(s) && Enabled(s, a) && (a.WorkflowReturns? || a.WorkflowRaises? || a.CoreReturns?) && x in s.runs
    ensures RunInv(Do(s, a), x)
  {
    assert RunInv(s, a.r) && RunInv(s, x);
  }

  lemma EndKeepsEntries(s: State, a: Step)
    requires Inv(s) && Enabled(s, a) && (a.WorkflowReturns? || a.WorkflowRaises? || a.CoreReturns?)
    ensures EntriesAgree(Do(s, a))
  {
    assert RunInv(s, a.r);
  }

  lemma StepKeepsInv(s: State, a: Step)
    requires Inv(s) && Enabled(s, a) && Free(s, a)
    ensures Inv(Do(s, a))
  {
    match a
    case Begin(r, c, available) => BeginKeepsInv(s, r, c, available);
    case LlmCall(r) => LlmCallKeepsInv(s, r);
    case LlmReturns(k) => LlmReturnsKeepsInv(s, k);
    case _ => EndKeepsInv(s, a);
  }

  /** Steps that can be taken one after the other, whatever ids they register. */
  ghost predicate Runs(s: State, steps: seq<Step>)
    decreases |steps|
  {
    steps != [] ==> Enabled(s, steps[0]) && Runs(Do(s, steps[0]), steps[1..])
  }

  ghost function After(s: State, steps: seq<Step>): State
    requires Runs(s, steps)
    decreases |steps|
  {
    if steps == [] then s else After(Do(s, steps[0]), steps[1..])
  }

  /** No step registers an id that is registered. */
  ghost predicate AllFree(s: State, steps: seq<Step>)
    requires Runs(s, steps)
    decreases |steps|
  {
    steps != [] ==> Free(s, steps[0]) && AllFree(Do(s, steps[0]), steps[1..])
  }

  lemma {:induction false} RunsKeepInv(s: State, steps: seq<Step>)
    requires Inv(s) && Runs(s, steps) && AllFree(s, steps)
    ensures Inv(After(s, steps))
    decreases |steps|
  {
    if steps != [] {
      StepKeepsInv(s, steps[0]);
      RunsKeepInv(Do(s, steps[0]), steps[1..]);
    }
  }

  /** While no run registers an id that is registered, in every reachable state: the
      registry's keys are the task ids of the runs between registration and return; a run
      that returned got a message if and only if its request's message can be read; it then
      got one for each core execution begun for it, less those still in progress; and if
      not, the core was tried once, or twice with the wrapper in between. */
  lemma EveryRunIsAnswered(steps: seq<Step>)
    requires Runs(Empty, steps) && AllFree(Empty, steps)
    ensures var s := After(Empty, steps);
            && s.registry.Keys == (set r | r in s.runs && Registered(s.runs[r].pc) :: s.runs[r].context.task)
            && (forall r :: r in s.runs && s.runs[r].context.readable ==>
                  s.runs[r].messages + InProgress(s, r) == s.runs[r].invocations)
            && (forall r :: Is(s, r, Finished) ==> (s.runs[r].messages >= 1 <==> s.runs[r].context.readable))
            && (forall r :: Is(s, r, Finished) && !s.runs[r].context.readable ==>
                  s.runs[r].messages == 0 && s.runs[r].invocations == if s.runs[r].available then 2 else 1)
  {
    var s := After(Empty, steps);
    assert Inv(Empty);
    RunsKeepInv(Empty, steps);
    forall r | r in s.runs
      ensures s.runs[r].context.readable ==> s.runs[r].messages + InProgress(s, r) == s.runs[r].invocations
      ensures Registered(s.runs[r].pc) ==> s.runs[r].context.task in s.registry
      ensures s.runs[r].pc.Finished? ==> (s.runs[r].messages >= 1 <==> s.runs[r].context.readable)
      ensures s.runs[r].pc.Finished? && !s.runs[r].context.readable ==>
                s.runs[r].messages == 0 && s.runs[r].invocations == if s.runs[r].available then 2 else 1
    {
      assert RunInv(s, r);
    }
    var tasks := set r | r in s.runs && Registered(s.runs[r].pc) :: s.runs[r].context.task;
    forall t ensures t in s.registry <==> t in tasks {
      if t in s.registry { assert s.registry[t] in s.runs; }
    }
  }

  /** In every reachable state an `llm_call` for a run that has not returned finds that very
      run's queue; one that comes too late serves nobody, unless a later run has registered
      the same id. */
  lemma CallsFindTheirRun(steps: seq<Step>, r: RunId)
    requires Runs(Empty, steps) && AllFree(Empty, steps) && Enabled(After(Empty, steps), LlmCall(r))
    ensures var s := After(Empty, steps);
            var s' := Do(s, LlmCall(r));
            var task := s.runs[r].context.task;
            if !s.runs[r].pc.Finished? then s'.calls == s.calls + [Call(r, r)]
            else if task !in s.registry then s'.calls == s.calls && s'.registry == s.registry
                   && forall o :: o in s.runs ==> s'.runs[o].(served := false) == s.runs[o].(served := false)
            else s'.calls == s.calls + [Call(r, s.registry[task])] && s.registry[task] != r
  {
    var s := After(Empty, steps);
    assert Inv(Empty);
    RunsKeepInv(Empty, steps);
    assert RunInv(s, r);
  }

  // ---- the registry test is exact

  /** The run returned, its queue has no message, and no core execution will send one. */
  ghost predicate Lost(s: State, r: RunId) {
    Is(s, r, Finished) && s.runs[r].messages == 0 && Owned(s.calls, r) == 0
  }

  ghost predicate LosesBy(s: State, r: RunId, steps: seq<Step>) {
    Runs(s, steps) && Lost(After(s, steps), r)
  }

  ghost predicate LosesFreelyBy(s: State, r: RunId, steps: seq<Step>) {
    LosesBy(s, r, steps) && AllFree(s, steps)
  }

  /** As long as no later run registers an id that is registered: a run whose message can be
      read and that gets a workflow may return without any message if and only if its task
      id is registered when it begins. */
  lemma LosesIffRegistered(s: State, r: RunId, c: Context)
    requires Inv(s) && r !in s.runs && Durable(c, true)
    ensures (exists steps :: LosesFreelyBy(Do(s, Begin(r, c, true)), r, steps)) <==> c.task in s.registry
  {
    var s1 := Do(s, Begin(r, c, true));
    if c.task in s.registry {
      var steps := LosingSteps(s, r, c);
      NoBeginIsFree(s1, steps);
      assert LosesFreelyBy(s1, r, steps);
    } else {
      BeginKeepsInv(s, r, c, true);
      forall steps ensures !LosesFreelyBy(s1, r, steps) {
        if LosesFreelyBy(s1, r, steps) {
          RunsKeepInv(s1, steps);
          KeepsContext(s1, steps, r);
          FinishedIsAnswered(After(s1, steps), r);
        }
      }
    }
  }

  lemma {:induction false} NoBeginIsFree(s: State, steps: seq<Step>)
    requires Runs(s, steps) && forall a :: a in steps ==> !a.Begin?
    ensures AllFree(s, steps)
    decreases |steps|
  {
    if steps != [] { NoBeginIsFree(Do(s, steps[0]), steps[1..]); }
  }

  lemma FinishedIsAnswered(s: State, r: RunId)
    requires Inv(s) && Is(s, r, Finished) && s.runs[r].context.readable
    ensures !Lost(s, r)
  {
    assert RunInv(s, r);
  }

  lemma {:induction false} KeepsContext(s: State, steps: seq<Step>, r: RunId)
    requires Runs(s, steps) && r in s.runs
    ensures r in After(s, steps).runs && After(s, steps).runs[r].context == s.runs[r].context
    decreases |steps|
  {
    if steps != [] { KeepsContext(Do(s, steps[0]), steps[1..], r); }
  }

  /** The return of the run that had the id takes the new run's entry away; its call then
      finds none, and its workflow returns. */
  lemma LosingSteps(s: State, r: RunId, c: Context) returns (steps: seq<Step>)
    requires Inv(s) && r !in s.runs && Durable(c, true) && c.task in s.registry
    ensures LosesBy(Do(s, Begin(r, c, true)), r, steps) && forall a :: a in steps ==> !a.Begin?
  {
    var s1 := Do(s, Begin(r, c, true));
    var o := s.registry[c.task];
    assert RunInv(s, o);
    forall d | d in s.calls ensures d.owner != r { assert CallAgrees(s, d); }
    NotOwned(s.calls, r);
    var s2;
    if s.runs[o].pc.InWorkflow? {
      steps, s2 := Lead(s1, [], s1, WorkflowRaises(o));
    } else {
      steps, s2 := [], s1;
    }
    steps, s2 := Lead(s1, steps, s2, CoreReturns(o));
    steps, s2 := LeadMissed(s1, steps, s2, r);
  }

  /** A run whose id is not registered makes its call in vain and returns. */
  lemma LeadMissed(s0: State, steps: seq<Step>, s: State, r: RunId) returns (steps': seq<Step>, s': State)
    requires Led(s0, steps, s) && Is(s, r, InWorkflow) && Durable(s.runs[r].context, s.runs[r].available)
    requires s.runs[r].context.task !in s.registry
    ensures Led(s0, steps', s') && steps' == steps + [LlmCall(r), WorkflowReturns(r)]
    ensures Is(s', r, Finished) && s'.runs[r].messages == s.runs[r].messages && s'.calls == s.calls
  {
    steps', s' := Lead(s0, steps, s, LlmCall(r));
    steps', s' := Lead(s0, steps', s', WorkflowReturns(r));
  }

  // ---- a run alone on its id

  /** No run with this id is between registration and return. */
  ghost predicate Idle(s: State, task: TaskId) {
    forall q :: q in s.runs && s.runs[q].context.task == task ==> !Registered(s.runs[q].pc)
  }

  /** In a state that free steps reach, that is the registry test. */
  lemma IdleIffUnregistered(s: State, task: TaskId)
    requires Inv(s)
    ensures Idle(s, task) <==> task !in s.registry
  {
    if task in s.registry { assert s.registry[task] in s.runs; }
    forall q | q in s.runs && s.runs[q].context.task == task && Registered(s.runs[q].pc) ensures task in s.registry {
      assert RunInv(s, q);
    }
  }

  ghost predicate CallsKnown(s: State) {
    forall c :: c in s.calls ==> c.workflow in s.runs && c.owner in s.runs
  }

  /** Until `r` has returned, no other run registers its id. */
  ghost predicate Undisturbed(s: State, steps: seq<Step>, r: RunId)
    requires Runs(s, steps) && r in s.runs
    decreases |steps|
  {
    steps != [] ==>
      && (!s.runs[r].pc.Finished? ==> !Registers(steps[0], s.runs[r].context.task))
      && Undisturbed(Do(s, steps[0]), steps[1..], r)
  }

  predicate Registers(a: Step, task: TaskId) {
    a.Begin? && Durable(a.context, a.available) && a.context.task == task
  }

  /** What holds of a run alone on its id, whatever runs with other ids do. */
  ghost predicate Alone(s: State, r: RunId) {
    && r in s.runs && Durable(s.runs[r].context, s.runs[r].available)
    && Answered(s.runs[r]) && !s.runs[r].pc.Direct? && !s.runs[r].pc.Rescue?
    && (!s.runs[r].pc.Finished? ==> Holds(s, r))
  }

  /** The registry's entry for the id is that of `r`, and so are the calls of its workflow. */
  ghost predicate Holds(s: State, r: RunId)
    requires r in s.runs
  {
    && s.runs[r].context.task in s.registry && s.registry[s.runs[r].context.task] == r
    && (forall q :: q in s.runs && q != r && s.runs[q].context.task == s.runs[r].context.task ==>
          !Registered(s.runs[q].pc))
    && (forall c :: c in s.calls && c.workflow == r ==> c.owner == r)
  }

  lemma StepKeepsAlone(s: State, a: Step, r: RunId)
    requires Alone(s, r) && Enabled(s, a)
    requires !s.runs[r].pc.Finished? ==> !Registers(a, s.runs[r].context.task)
    ensures Alone(Do(s, a), r)
  {
    var s' := Do(s, a);
    if a.LlmReturns? { assert s.calls[a.k] in s.calls; }
    if !s.runs[r].pc.Finished? {
      forall c | c in s'.calls && c.workflow == r && !s'.runs[r].pc.Finished? ensures c.owner == r {
        if c !in s.calls { assert a.LlmCall?; }
      }
    }
  }

  lemma {:induction false} AloneStaysAlone(s: State, steps: seq<Step>, r: RunId)
    requires Alone(s, r) && Runs(s, steps) && Undisturbed(s, steps, r)
    ensures Alone(After(s, steps), r)
    decreases |steps|
  {
    if steps != [] {
      StepKeepsAlone(s, steps[0], r);
      AloneStaysAlone(Do(s, steps[0]), steps[1..], r);
    }
  }

  lemma {:induction false} RunsKnowCalls(s: State, steps: seq<Step>)
    requires CallsKnown(s) && Runs(s, steps)
    ensures CallsKnown(After(s, steps))
    decreases |steps|
  {
    if steps != [] { RunsKnowCalls(Do(s, steps[0]), steps[1..]); }
  }

  /** Whatever other ids are registered, twice or not, before and after: a run with a
      workflow that shares the time of its flight with no other such run of its id has a
      message when it returns. */
  lemma AloneIsAnswered(before: seq<Step>, r: RunId, c: Context, after: seq<Step>)
    requires Runs(Empty, before) && r !in After(Empty, before).runs
    requires Durable(c, true) && Idle(After(Empty, before), c.task)
    requires var s := Do(After(Empty, before), Begin(r, c, true)); Runs(s, after) && Undisturbed(s, after, r)
    ensures var s := After(Do(After(Empty, before), Begin(r, c, true)), after);
            Is(s, r, Finished) ==> s.runs[r].messages >= 1
  {
    RunsKnowCalls(Empty, before);
    AloneStaysAlone(Do(After(Empty, before), Begin(r, c, true)), after, r);
  }

  // ---- a run overtaken by another one of its id

  /** A message sent stays, and a core execution in progress will send one. */
  ghost predicate WillHaveMessage(s: State, r: RunId) {
    r in s.runs && s.runs[r].context.readable && (s.runs[r].messages > 0 || Owned(s.calls, r) > 0)
  }

  lemma StepKeepsMessage(s: State, a: Step, r: RunId)
    requires WillHaveMessage(s, r) && Enabled(s, a)
    ensures WillHaveMessage(Do(s, a), r)
  {
    match a
    case LlmCall(q) =>
      var task := s.runs[q].context.task;
      if task in s.registry { OwnedAppend(s.calls, [Call(q, s.registry[task])], r); }
    case LlmReturns(k) => OwnedWithout(s.calls, k, r);
    case _ =>
  }

  lemma {:induction false} RunsKeepMessage(s: State, steps: seq<Step>, r: RunId)
    requires WillHaveMessage(s, r) && Runs(s, steps)
    ensures WillHaveMessage(After(s, steps), r)
    decreases |steps|
  {
    if steps != [] {
      StepKeepsMessage(s, steps[0], r);
      RunsKeepMessage(Do(s, steps[0]), steps[1..], r);
    }
  }

  /** A second run `q` that registers the id of a run `r` in its workflow can make `r` return
      without a message if and only if `r` has none yet and no core execution for it is in
      progress. */
  lemma OvertakenLosesIff(s: State, r: RunId, q: RunId, c: Context)
    requires Is(s, r, InWorkflow) && Durable(s.runs[r].context, s.runs[r].available)
    requires q !in s.runs && Durable(c, true) && c.task == s.runs[r].context.task
    ensures (exists steps :: LosesBy(Do(s, Begin(q, c, true)), r, steps)) <==>
            s.runs[r].messages == 0 && Owned(s.calls, r) == 0
  {
    var s1 := Do(s, Begin(q, c, true));
    if s.runs[r].messages == 0 && Owned(s.calls, r) == 0 {
      var steps := OvertakingSteps(s, r, q, c);
      assert LosesBy(s1, r, steps);
    } else {
      forall steps ensures !LosesBy(s1, r, steps) {
        if Runs(s1, steps) { RunsKeepMessage(s1, steps, r); }
      }
    }
  }

  /** The second run's workflow fails, as when the server refuses a second one of that id;
      its return takes the entry away. */
  lemma OvertakingSteps(s: State, r: RunId, q: RunId, c: Context) returns (steps: seq<Step>)
    requires Is(s, r, InWorkflow) && Durable(s.runs[r].context, s.runs[r].available)
    requires q !in s.runs && Durable(c, true) && c.task == s.runs[r].context.task
    requires s.runs[r].messages == 0 && Owned(s.calls, r) == 0
    ensures LosesBy(Do(s, Begin(q, c, true)), r, steps)
  {
    var s1 := Do(s, Begin(q, c, true));
    var s2;
    steps, s2 := Lead(s1, [], s1, WorkflowRaises(q));
    steps, s2 := Lead(s1, steps, s2, CoreReturns(q));
    steps, s2 := LeadMissed(s1, steps, s2, r);
  }

  // ---- steps one after the other

  lemma {:induction false} OneStepMore(s: State, steps: seq<Step>, a: Step)
    requires Runs(s, steps) && Enabled(After(s, steps), a)
    ensures Runs(s, steps + [a]) && After(s, steps + [a]) == Do(After(s, steps), a)
    decreases |steps|
  {
    if steps == [] {
      assert steps + [a] == [a] && [a][1..] == [];
    } else {
      assert (steps + [a])[1..] == steps[1..] + [a] && (steps + [a])[0] == steps[0];
      OneStepMore(Do(s, steps[0]), steps[1..], a);
    }
  }

  /** `steps` lead from `s0` to `s`. */
  ghost predicate Led(s0: State, steps: seq<Step>, s: State) {
    match s0
    case State(_, _, _) => Runs(s0, steps) && s == After(s0, steps)
  }

  lemma Lead(s0: State, steps: seq<Step>, s: State, a: Step) returns (steps': seq<Step>, s': State)
    requires Led(s0, steps, s) && Enabled(s, a)
    ensures s' == Do(s, a) && Led(s0, steps', s') && steps' == steps + [a]
  {
    steps', s' := steps + [a], Do(s, a);
    OneStepMore(s0, steps, a);
  }

  /** One execution of `llm_call` that finds its entry and is answered before anything else
      happens. */
  lemma LeadCall(s0: State, steps: seq<Step>, s: State, r: RunId) returns (steps': seq<Step>, s': State)
    requires Led(s0, steps, s) && Is(s, r, InWorkflow) && Durable(s.runs[r].context, s.runs[r].available)
    requires s.runs[r].context.task in s.registry && s.registry[s.runs[r].context.task] == r
    ensures Led(s0, steps', s')
    ensures var run := s.runs[r];
            s' == Put(s, r, run.(invocations := run.invocations + 1, messages := run.messages + 1, served := true))
  {
    steps', s' := Lead(s0, steps, s, LlmCall(r));
    var calls := s.calls + [Call(r, r)];
    assert s'.calls == calls && calls[..|s.calls|] + calls[|s.calls| + 1..] == s.calls;
    steps', s' := Lead(s0, steps', s', LlmReturns(|s.calls|));
  }

  /** The end of a workflow, with the fallback if it raised. */
  lemma LeadHome(s0: State, steps: seq<Step>, s: State, r: RunId, raises: bool) returns (steps': seq<Step>, s': State)
    requires Led(s0, steps, s) && Is(s, r, InWorkflow) && s.runs[r].context.readable && (!raises ==> s.runs[r].served)
    ensures Led(s0, steps', s') && Is(s', r, Finished) && s'.registry == s.registry - {s.runs[r].context.task}
    ensures s'.runs[r].messages == s.runs[r].messages + One(raises) && s'.runs[r].context == s.runs[r].context
  {
    if raises {
      steps', s' := Lead(s0, steps, s, WorkflowRaises(r));
      steps', s' := Lead(s0, steps', s', CoreReturns(r));
    } else {
      steps', s' := Lead(s0, steps, s, WorkflowReturns(r));
    }
  }

  // ---- the code of one run

  /** What an activity needs of a run, kept in this process. */
  datatype Entry = Entry(run: RunId, request: Streaming.Request, queue: Streaming.EventQueue)

  ghost function RunIds(registry: map<TaskId, Entry>): map<TaskId, RunId> {
    map t | t in registry :: registry[t].run
  }

  /** The id a run registers and, on its return, removes, whoever registered it before. */
  function RegisteredBy(task: TaskId, request: Streaming.Request, historyRaises: bool, available: bool): set<TaskId> {
    if Durable(Context(task, Streaming.Readable(request.parts), historyRaises), available) then {task} else {}
  }

  /** The terminal messages a queue has got. */
  ghost function Sent(queue: Streaming.EventQueue): nat
    reads queue
  {
    Streaming.Terminals(queue.events)
  }

  lemma CoreSends(u: Regex.Unicode, request: Streaming.Request, guarded: bool, before: seq<Streaming.QueueEvent>)
    ensures Streaming.Terminals(before + Streaming.Emitted(u, request, guarded)) ==
            Streaming.Terminals(before) + One(Streaming.Readable(request.parts))
  {
    Streaming.OneTerminalMessage(u, request, guarded);
    Streaming.TerminalsAppend(before, Streaming.Emitted(u, request, guarded));
  }

  /** The module's `_task_registry`, the wrapper, and the executor that asks it. */
  class TemporalWorkflowWrapper {
    var available: bool
    var taskRegistry: map<TaskId, Entry>

    constructor (connected: bool)
      ensures available == connected && taskRegistry == map[]
    {
      available, taskRegistry := connected, map[];
    }

    /** `llm_call`: one execution of the core on the queue that the registry has for the
        task; a miss touches no queue. */
    method LlmCallActivity(u: Regex.Unicode, guarded: bool, task: TaskId) returns (success: bool, final: string)
      modifies if task in taskRegistry then {taskRegistry[task].queue} else {}
      ensures task in taskRegistry ==>
                var e := taskRegistry[task];
                && e.queue.events == old(e.queue.events) + Streaming.Emitted(u, e.request, guarded)
                && success == Streaming.Readable(e.request.parts)
                && final == Streaming.Returned(u, e.request, guarded)
      ensures task !in taskRegistry ==> !success && final == ""
    {
      if task !in taskRegistry {
        return false, "";
      }
      var entry := taskRegistry[task];
      success, final := Streaming.CoreExecute(u, entry.request, guarded, entry.queue);
    }

    /** `run` on a connected wrapper while no other run moves: it takes the steps of the
        state machine, whichever fallback fires, and leaves the registry without its id.  The
        workflow executes `llm_call` the given number of times and then returns or raises.
        `ok` is false if an exception leaves it. */
    method RunTask(u: Regex.Unicode, guarded: bool, ghost s0: State, r: RunId, task: TaskId, request: Streaming.Request,
                   historyRaises: bool, activities: nat, raises: bool, queue: Streaming.EventQueue)
      returns (ok: bool, ghost steps: seq<Step>, ghost s: State)
      requires available && RunIds(taskRegistry) == s0.registry && r !in s0.runs
      requires activities > 0 || raises
      modifies this, queue
      ensures available && taskRegistry == old(taskRegistry) - RegisteredBy(task, request, historyRaises, true)
      ensures Led(s0, steps, s) && s.registry == RunIds(taskRegistry)
      ensures if ok then Is(s, r, Finished) else Is(s, r, Direct) && !s.runs[r].context.readable
      ensures ok == Streaming.Readable(request.parts) && s.runs[r].context == Context(task, ok, historyRaises)
      ensures Sent(queue) == old(Sent(queue)) + s.runs[r].messages
    {
      ghost var context := Context(task, Streaming.Readable(request.parts), historyRaises);
      steps, s := Lead(s0, [], s0, Begin(r, context, true));
      var text := Streaming.MessageText(u, request.parts);
      if text.None? || historyRaises {
        ok, steps, s := RunWithoutInput(u, guarded, s0, steps, s, r, request, queue);
        return;
      }
      taskRegistry := taskRegistry[task := Entry(r, request, queue)];
      steps, s := AwaitWorkflow(u, guarded, s0, steps, s, r, task, request, activities, raises, queue);
      taskRegistry := taskRegistry - {task};
      ok := true;
    }

    /** The fallback when the input could not be extracted. */
    method RunWithoutInput(u: Regex.Unicode, guarded: bool, ghost s0: State, ghost steps0: seq<Step>, ghost s1: State,
                           r: RunId, request: Streaming.Request, queue: Streaming.EventQueue)
      returns (ok: bool, ghost steps: seq<Step>, ghost s: State)
      requires Led(s0, steps0, s1) && Is(s1, r, Rescue) && s1.runs[r].messages == 0
      requires s1.runs[r].context.readable == Streaming.Readable(request.parts)
      modifies queue
      ensures Led(s0, steps, s) && s.registry == s1.registry && ok == Streaming.Readable(request.parts)
      ensures (if ok then Is(s, r, Finished) else Is(s, r, Direct)) && s.runs[r].context == s1.runs[r].context
      ensures Sent(queue) == old(Sent(queue)) + s.runs[r].messages
    {
      CoreSends(u, request, guarded, queue.events);
      var final;
      ok, final := Streaming.CoreExecute(u, request, guarded, queue);
      steps, s := Lead(s0, steps0, s1, CoreReturns(r));
    }

    /** The workflow, and the fallback after it. */
    method AwaitWorkflow(u: Regex.Unicode, guarded: bool, ghost s0: State, ghost steps0: seq<Step>, ghost s1: State,
                         r: RunId, task: TaskId, request: Streaming.Request, activities: nat, raises: bool,
                         queue: Streaming.EventQueue)
      returns (ghost steps: seq<Step>, ghost s: State)
      requires task in taskRegistry && taskRegistry[task] == Entry(r, request, queue)
      requires (activities > 0 || raises) && Streaming.Readable(request.parts)
      requires Led(s0, steps0, s1) && task in s1.registry && s1.registry[task] == r && r in s1.runs
      requires exists c :: Durable(c, true) && c.task == task && s1.runs[r] == Run(c, true, InWorkflow, 0, 0, false)
      modifies queue
      ensures Led(s0, steps, s) && Is(s, r, Finished) && s.registry == s1.registry - {task}
      ensures s.runs[r].context == s1.runs[r].context
      ensures Sent(queue) == old(Sent(queue)) + s.runs[r].messages
    {
      steps, s := steps0, s1;
      ghost var context := s1.runs[r].context;
      for i := 0 to activities
        invariant Led(s0, steps, s) && s.registry == s1.registry
        invariant r in s.runs && s.runs[r] == Run(context, true, InWorkflow, i, i, i > 0)
        invariant Sent(queue) == old(Sent(queue)) + i
      {
        CoreSends(u, request, guarded, queue.events);
        var success, final := LlmCallActivity(u, guarded, task);
        steps, s := LeadCall(s0, steps, s, r);
      }
      steps, s := LeadHome(s0, steps, s, r, raises);
      if raises {
        CoreSends(u, request, guarded, queue.events);
        var done, final := Streaming.CoreExecute(u, request, guarded, queue);
      }
    }

    /** `execute` while no other run moves; `ok` is false if an exception leaves it. */
    method Execute(u: Regex.Unicode, guarded: bool, ghost s0: State, r: RunId, task: TaskId, request: Streaming.Request,
                   historyRaises: bool, activities: nat, raises: bool, queue: Streaming.EventQueue)
      returns (ok: bool, ghost steps: seq<Step>, ghost s: State)
      requires RunIds(taskRegistry) == s0.registry && r !in s0.runs
      requires activities > 0 || raises
      modifies this, queue
      ensures available == old(available)
      ensures taskRegistry == old(taskRegistry) - RegisteredBy(task, request, historyRaises, available)
      ensures Led(s0, steps, s) && s.registry == RunIds(taskRegistry) && Is(s, r, Finished)
      ensures ok == Streaming.Readable(request.parts) == s.runs[r].context.readable
      ensures Sent(queue) == old(Sent(queue)) + s.runs[r].messages
    {
      if available {
        ok, steps, s := RunTask(u, guarded, s0, r, task, request, historyRaises, activities, raises, queue);
        if ok {
          return;
        }
      } else {
        steps, s := Lead(s0, [], s0, Begin(r, Context(task, Streaming.Readable(request.parts), historyRaises), false));
      }
      CoreSends(u, request, guarded, queue.events);
      var final;
      ok, final := Streaming.CoreExecute(u, request, guarded, queue);
      steps, s := Lead(s0, steps, s, CoreReturns(r));
    }
  }
}
