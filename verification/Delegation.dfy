/** The background tasks that work on the delegation store
    (workspace-template/builtin_tools/delegation.py).  A step is what happens between two
    awaits; steps of different tasks interleave in any way. */
module Delegation {
  import opened Basics
  import opened TaskStore
  import Strings = Text

  // ---- background tasks

  /** A text part of a reply; a part whose text is not a string makes joining fail. */
  datatype Part = Text(text: string) | NotAString

  datatype Discovery = HttpStatus(code: string) | NoUrl | Url | DiscoveryRaised(message: string)

  /** What posting to the peer comes to.  `Reply` is status 200 with a JSON "result", whose
      text parts and whole rendering are given; `NoAnswer` is any other status, or JSON
      with neither "result" nor "error". */
  datatype Post =
    | InvalidJson
    | Reply(parts: seq<Part>, whole: string)
    | ErrorReply(message: string)
    | NoAnswer
    | ConnectOrTimeout(message: string)
    | OtherException

  /** Where the coroutine waits; `Crashed` is after an exception left it. */
  datatype Pc =
    | Start
    | Recording
    | Discovering
    | Posting(attempt: nat)
    | Sleeping(attempt: nat)
    | Notifying
    | Updating
    | Done
    | Crashed

  /** `slept` is counted in units of the retry delay. */
  datatype Background = Background(pc: Pc, lastError: Option<string>, posts: nat, slept: nat, notices: nat)

  /** `dispatched` is the history of all ids, `peak` the most tasks ever unfinished at once. */
  datatype System = System(store: seq<Task>, background: map<TaskId, Background>, dispatched: seq<TaskId>, peak: nat)

  datatype Config = Config(attempts: nat, delay: real)

  datatype Step =
    | Dispatch(id: TaskId, workspace: string, task: string)
    | Begin(id: TaskId)
    | Recorded(id: TaskId)
    | Discovered(id: TaskId, discovery: Discovery)
    | Posted(id: TaskId, post: Post)
    | Woke(id: TaskId)
    | Notified(id: TaskId)
    | Updated(id: TaskId)

  /** The texts of a reply, one to a line. */
  function Join(parts: seq<Part>): string
    requires forall p :: p in parts ==> p.Text?
  {
    Strings.Glue(Texts(parts), "\n")
  }

  function Texts(parts: seq<Part>): seq<string>
    requires forall p :: p in parts ==> p.Text?
  {
    seq(|parts|, i requires 0 <= i < |parts| => parts[i].text)
  }

  function NewTask(id: TaskId, workspace: string, task: string): Task {
    Task(id, workspace, if |task| <= 200 then task else task[..200], Pending, None, None)
  }

  function DoDispatch(s: System, id: TaskId, workspace: string, task: string): System {
    var store := Evicted(s.store + [NewTask(id, workspace, task)]);
    System(store, s.background[id := Background(Start, None, 0, 0, 0)], s.dispatched + [id],
           Max(s.peak, Unfinished(store)))
  }

  function Move(s: System, b: Background, id: TaskId, status: Status, result: Option<string>,
                error: Option<string>): System {
    s.(store := Write(s.store, id, status, result, error), background := s.background[id := b])
  }

  function Wait(s: System, id: TaskId, b: Background): System {
    s.(background := s.background[id := b])
  }

  /** The lines after the retry loop. */
  function GiveUp(s: System, id: TaskId, b: Background): System {
    Move(s, b.(pc := Notifying), id, Failed, None, Some(if b.lastError.Some? then b.lastError.value else "None"))
  }

  function NextAttempt(c: Config, s: System, id: TaskId, b: Background, attempt: nat): System {
    if attempt < c.attempts then Wait(s, id, b.(pc := Posting(attempt))) else GiveUp(s, id, b)
  }

  /** After a connection failure that leaves attempts: the next one follows a sleep of
      the delay times the number of attempts made. */
  function Asleep(b: Background, attempt: nat, message: string): Background {
    b.(pc := Sleeping(attempt), lastError := Some(message), slept := b.slept + (attempt + 1))
  }

  function AfterPost(c: Config, s: System, id: TaskId, b: Background, attempt: nat, post: Post): System {
    match post
    case InvalidJson => Move(s, b.(pc := Done), id, Failed, None, Some("Invalid JSON response"))
    case Reply(parts, whole) =>
      if parts == [] then Move(s, b.(pc := Notifying), id, Completed, Some(whole), None)
      else if forall p :: p in parts ==> p.Text? then
        Move(s, b.(pc := Notifying), id, Completed, Some(Join(parts)), None)
      else Move(s, b.(pc := Crashed), id, Completed, None, None)
    case ErrorReply(m) => GiveUp(s, id, b.(lastError := Some(m)))
    case NoAnswer => NextAttempt(c, s, id, b, attempt + 1)
    case ConnectOrTimeout(m) =>
      if attempt + 1 < c.attempts then Wait(s, id, Asleep(b, attempt, m))
      else GiveUp(s, id, b.(lastError := Some(m)))
    case OtherException => Wait(s, id, b.(pc := Crashed))
  }

  predicate At(s: System, id: TaskId, pc: Pc) {
    id in s.background && s.background[id].pc == pc
  }

  predicate Enabled(s: System, a: Step) {
    match a
    case Dispatch(id, _, _) => id !in s.dispatched
    case Begin(id) => At(s, id, Start)
    case Recorded(id) => At(s, id, Recording)
    case Discovered(id, _) => At(s, id, Discovering)
    case Posted(id, _) => id in s.background && s.background[id].pc.Posting?
    case Woke(id) => id in s.background && s.background[id].pc.Sleeping?
    case Notified(id) => At(s, id, Notifying)
    case Updated(id) => At(s, id, Updating)
  }

  function Do(c: Config, s: System, a: Step): System
    requires Enabled(s, a)
  {
    match a
    case Dispatch(id, w, t) => DoDispatch(s, id, w, t)
    case Begin(id) =>
      var b := s.background[id];
      if Lookup(s.store, id).None? then Wait(s, id, b.(pc := Crashed))
      else Move(s, b.(pc := Recording), id, InProgress, None, None)
    case Recorded(id) => Wait(s, id, s.background[id].(pc := Discovering))
    case Discovered(id, d) =>
      var b := s.background[id];
      (match d
       case HttpStatus(code) => Move(s, b.(pc := Done), id, Failed, None, Some("Discovery failed: HTTP " + code))
       case NoUrl => Move(s, b.(pc := Done), id, Failed, None, Some("No URL for workspace"))
       case DiscoveryRaised(m) => Move(s, b.(pc := Done), id, Failed, None, Some("Discovery error: " + m))
       case Url => NextAttempt(c, s, id, b, 0))
    case Posted(id, post) =>
      var b := s.background[id];
      AfterPost(c, s, id, b.(posts := b.posts + 1), b.pc.attempt, post)
    case Woke(id) =>
      var b := s.background[id];
      Wait(s, id, b.(pc := Posting(b.pc.attempt + 1)))
    case Notified(id) =>
      var b := s.background[id];
      Wait(s, id, b.(pc := Updating, notices := b.notices + 1))
    case Updated(id) => Wait(s, id, s.background[id].(pc := Done))
  }

  const Empty := System([], map[], [], 0)

  // ---- what holds in every reachable state

  function Before(n: nat): nat { if n == 0 then 0 else n - 1 }

  /** The units slept after the first `n` attempts: 1 + 2 + ... + n. */
  function Pauses(n: nat): nat {
    if n == 0 then 0 else Pauses(n - 1) + n
  }

  /** The store agrees with where the coroutine is: a task not yet done has an entry. */
  ghost predicate StoreAgrees(store: seq<Task>, id: TaskId, b: Background) {
    var t := Lookup(store, id);
    match b.pc
    case Start => t.Some? && t.value.status.Pending?
    case Recording => t.Some? && t.value.status.InProgress?
    case Discovering => t.Some? && t.value.status.InProgress?
    case Posting(_) => t.Some? && t.value.status.InProgress?
    case Sleeping(_) => t.Some? && t.value.status.InProgress?
    case Crashed => t.Some? ==> t.value.status.InProgress? || (t.value.status.Completed? && t.value.result.None?)
    case _ => t.Some? ==> Finished(t.value) && (t.value.status.Completed? ==> t.value.result.Some?)
  }

  ghost predicate FieldsAgree(t: Task) {
    && (t.result.Some? ==> t.status.Completed?)
    && (t.status.Failed? <==> t.error.Some?)
  }

  /** How many posts and how much sleep lie behind each point of the coroutine. */
  ghost predicate WithinBudget(c: Config, b: Background) {
    && b.notices <= 1 && (b.notices == 1 ==> b.pc.Updating? || b.pc.Done?)
    && match b.pc
       case Posting(a) => a < c.attempts && b.posts == a && b.slept <= Pauses(a)
       case Sleeping(a) => a + 1 < c.attempts && b.posts == a + 1 && b.slept <= Pauses(a + 1)
       case Start => b.posts == 0 && b.slept == 0
       case Recording => b.posts == 0 && b.slept == 0
       case Discovering => b.posts == 0 && b.slept == 0
       case _ => b.posts <= c.attempts &&
                 b.slept <= Pauses(Before(c.attempts))
  }

  ghost predicate Inv(c: Config, s: System) {
    match s
    case System(store, background, dispatched, peak) =>
      && Distinct(dispatched) && DistinctIds(store)
      && (forall id :: id in background <==> id in dispatched)
      && (forall t :: t in store ==> t.id in dispatched && FieldsAgree(t))
      && Ids(store) == Restrict(dispatched, set t | t in store :: t.id)
      && (forall id :: id in background ==>
            StoreAgrees(store, id, background[id]) && WithinBudget(c, background[id]))
      && Unfinished(store) <= peak
      && |store| <= Max(MAX_DELEGATION_HISTORY, peak)
  }

  // ---- every step keeps the invariant

  lemma WaitKeepsInv(c: Config, s: System, id: TaskId, b: Background)
    requires Inv(c, s) && id in s.background
    requires StoreAgrees(s.store, id, b) && WithinBudget(c, b)
    ensures Inv(c, Wait(s, id, b))
  {
  }

  /** Where the coroutine goes after it wrote a status. */
  ghost predicate Fits(pc: Pc, status: Status, result: Option<string>) {
    match pc
    case Crashed => status.Completed? && result.None?
    case Recording => status.InProgress?
    case Notifying => status.Failed? || (status.Completed? && result.Some?)
    case Done => status.Failed?
    case _ => false
  }

  lemma MoveKeepsInv(c: Config, s: System, b: Background, id: TaskId, status: Status, result: Option<string>,
                     error: Option<string>)
    requires Inv(c, s) && id in s.background && WithinBudget(c, b)
    requires Lookup(s.store, id).Some? && !Finished(Lookup(s.store, id).value)
    requires (result.Some? ==> status.Completed?) && (status.Failed? <==> error.Some?)
    requires Fits(b.pc, status, result)
    ensures Inv(c, Move(s, b, id, status, result, error))
  {
    LookupFinds(s.store, id);
    WriteFacts(s.store, id, status, result, error);
    WriteCount(s.store, id, status, result, error);
    var w := Write(s.store, id, status, result, error);
    forall t | t in w ensures t.id in s.dispatched && FieldsAgree(t) {
      assert t.id in set x | x in w :: x.id;
    }
    var background := s.background[id := b];
    forall o | o in background ensures StoreAgrees(w, o, background[o]) && WithinBudget(c, background[o]) {
      if o != id { assert StoreAgrees(s.store, o, s.background[o]); }
    }
  }

  lemma DispatchStore(c: Config, s: System, t: Task)
    requires Inv(c, s) && t.id !in s.dispatched
    ensures DistinctIds(s.store + [t])
    ensures Ids(s.store + [t]) == Restrict(s.dispatched + [t.id], set x | x in s.store + [t] :: x.id)
  {
    var K := set x | x in s.store :: x.id;
    var K' := set x | x in s.store + [t] :: x.id;
    assert K' == K + {t.id} by {
      assert forall x :: x in s.store + [t] <==> x in s.store || x == t;
    }
    RestrictAppend(s.dispatched, [t.id], K');
    RestrictIgnores(s.dispatched, K, t.id);
    assert Ids(s.store + [t]) == Ids(s.store) + [t.id];
    forall i | 0 <= i < |s.store| ensures s.store[i].id != t.id { assert s.store[i] in s.store; }
  }

  /** A dispatch adds its task and makes others disappear only if they were finished. */
  lemma DispatchLookup(c: Config, s: System, t: Task, o: TaskId)
    requires Inv(c, s) && t.id !in s.dispatched && !Finished(t)
    ensures var left := Evicted(s.store + [t]);
            if o == t.id then Lookup(left, o) == Some(t)
            else Lookup(left, o) == Lookup(s.store, o) ||
                 (Lookup(left, o).None? && Lookup(s.store, o).Some? && Finished(Lookup(s.store, o).value))
  {
    var full := s.store + [t];
    DispatchStore(c, s, t);
    EvictedFacts(full);
    assert forall x :: x in full <==> x in s.store || x == t;
    LookupFinds(s.store, o);
    LookupFinds(Evicted(full), o);
  }

  lemma DispatchOrder(c: Config, s: System, t: Task)
    requires Inv(c, s) && t.id !in s.dispatched
    ensures var left := Evicted(s.store + [t]);
            && DistinctIds(left)
            && Ids(left) == Restrict(s.dispatched + [t.id], set x | x in left :: x.id)
  {
    var full := s.store + [t];
    DispatchStore(c, s, t);
    EvictedFacts(full);
    RestrictTwice(s.dispatched + [t.id], set x | x in full :: x.id, set x | x in Evicted(full) :: x.id);
  }

  lemma DispatchKeepsInv(c: Config, s: System, id: TaskId, workspace: string, task: string)
    requires Inv(c, s) && id !in s.dispatched
    ensures Inv(c, DoDispatch(s, id, workspace, task))
  {
    var t := NewTask(id, workspace, task);
    var full := s.store + [t];
    var left := Evicted(full);
    DispatchOrder(c, s, t);
    EvictedSize(full);
    forall o | o in s.background && o != id ensures StoreAgrees(left, o, s.background[o]) {
      DispatchLookup(c, s, t, o);
      assert StoreAgrees(s.store, o, s.background[o]);
    }
    DispatchLookup(c, s, t, id);
    forall x | x in left ensures x.id in s.dispatched + [id] && FieldsAgree(x) {
      DispatchStore(c, s, t);
      EvictedFacts(full);
      assert x in s.store || x == t;
    }
    DispatchAssembles(c, s, t, left);
  }

  lemma DispatchAssembles(c: Config, s: System, t: Task, left: seq<Task>)
    requires Inv(c, s) && t.id !in s.dispatched
    requires DistinctIds(left) && Ids(left) == Restrict(s.dispatched + [t.id], set x | x in left :: x.id)
    requires |left| <= MAX_DELEGATION_HISTORY || |left| == Unfinished(left)
    requires forall x :: x in left ==> x.id in s.dispatched + [t.id] && FieldsAgree(x)
    requires forall o :: o in s.background && o != t.id ==> StoreAgrees(left, o, s.background[o])
    requires Lookup(left, t.id).Some? && Lookup(left, t.id).value.status.Pending?
    ensures Inv(c, System(left, s.background[t.id := Background(Start, None, 0, 0, 0)], s.dispatched + [t.id],
                          Max(s.peak, Unfinished(left))))
  {
    var dispatched := s.dispatched + [t.id];
    var background := s.background[t.id := Background(Start, None, 0, 0, 0)];
    DispatchedOneMore(s, t.id, background[t.id]);
    forall o | o in background ensures StoreAgrees(left, o, background[o]) && WithinBudget(c, background[o]) {
      if o != t.id { assert WithinBudget(c, s.background[o]); }
    }
    assert |left| <= Max(MAX_DELEGATION_HISTORY, Max(s.peak, Unfinished(left)));
  }

  lemma DispatchedOneMore(s: System, id: TaskId, b: Background)
    requires Distinct(s.dispatched) && id !in s.dispatched
    requires forall o :: o in s.background <==> o in s.dispatched
    ensures Distinct(s.dispatched + [id])
    ensures forall o :: o in s.background[id := b] <==> o in s.dispatched + [id]
  {
  }

  lemma {:induction false} PausesGrow(a: nat, n: nat)
    requires a <= n
    ensures Pauses(a) <= Pauses(n)
  {
    if a < n { PausesGrow(a, n - 1); }
  }

  lemma {:induction false} PausesSum(n: nat)
    ensures 2 * Pauses(n) == n * (n + 1)
  {
    if n > 0 {
      PausesSum(n - 1);
      assert n * (n + 1) == (n - 1) * n + 2 * n;
    }
  }

  lemma GiveUpKeepsInv(c: Config, s: System, id: TaskId, b: Background)
    requires Inv(c, s) && id in s.background && Lookup(s.store, id).Some? && !Finished(Lookup(s.store, id).value)
    requires WithinBudget(c, b.(pc := Notifying))
    ensures Inv(c, GiveUp(s, id, b))
  {
    MoveKeepsInv(c, s, b.(pc := Notifying), id, Failed, None,
                 Some(if b.lastError.Some? then b.lastError.value else "None"));
  }

  lemma NextAttemptKeepsInv(c: Config, s: System, id: TaskId, b: Background, attempt: nat)
    requires Inv(c, s) && id in s.background && b.notices == 0
    requires Lookup(s.store, id).Some? && Lookup(s.store, id).value.status.InProgress?
    requires attempt <= c.attempts && b.posts == attempt
    requires b.slept <= Pauses(Before(attempt))
    ensures Inv(c, NextAttempt(c, s, id, b, attempt))
  {
    if attempt < c.attempts {
      PausesGrow(Before(attempt), attempt);
      WaitKeepsInv(c, s, id, b.(pc := Posting(attempt)));
    } else {
      GiveUpKeepsInv(c, s, id, b);
    }
  }

  lemma ReplyKeepsInv(c: Config, s: System, id: TaskId, b: Background, attempt: nat, parts: seq<Part>, whole: string)
    requires Inv(c, s) && id in s.background && Lookup(s.store, id).Some? && !Finished(Lookup(s.store, id).value)
    requires WithinBudget(c, b.(pc := Notifying)) && b.notices == 0
    ensures Inv(c, AfterPost(c, s, id, b, attempt, Reply(parts, whole)))
  {
    if parts == [] {
      MoveKeepsInv(c, s, b.(pc := Notifying), id, Completed, Some(whole), None);
    } else if forall p :: p in parts ==> p.Text? {
      MoveKeepsInv(c, s, b.(pc := Notifying), id, Completed, Some(Join(parts)), None);
    } else {
      MoveKeepsInv(c, s, b.(pc := Crashed), id, Completed, None, None);
    }
  }

  lemma AsleepWithinBudget(c: Config, b: Background, attempt: nat, m: string)
    requires attempt + 1 < c.attempts && b.posts == attempt + 1 && b.slept <= Pauses(attempt) && b.notices == 0
    ensures WithinBudget(c, Asleep(b, attempt, m))
  {
  }

  lemma TimeoutKeepsInv(c: Config, s: System, id: TaskId, b: Background, attempt: nat, m: string)
    requires Inv(c, s) && id in s.background && b.notices == 0
    requires Lookup(s.store, id).Some? && Lookup(s.store, id).value.status.InProgress?
    requires attempt < c.attempts && b.posts == attempt + 1 && b.slept <= Pauses(attempt)
    ensures Inv(c, AfterPost(c, s, id, b, attempt, ConnectOrTimeout(m)))
  {
    if attempt + 1 < c.attempts {
      AsleepWithinBudget(c, b, attempt, m);
      WaitKeepsInv(c, s, id, Asleep(b, attempt, m));
    } else {
      GiveUpKeepsInv(c, s, id, b.(lastError := Some(m)));
    }
  }

  lemma PostKeepsInv(c: Config, s: System, id: TaskId, b: Background, a: nat, post: Post)
    requires Inv(c, s) && id in s.background && b.notices == 0
    requires Lookup(s.store, id).Some? && Lookup(s.store, id).value.status.InProgress?
    requires a < c.attempts && b.posts == a + 1 && b.slept <= Pauses(a)
    ensures Inv(c, AfterPost(c, s, id, b, a, post))
  {
    PausesGrow(a, c.attempts - 1);
    match post
    case InvalidJson =>
      MoveKeepsInv(c, s, b.(pc := Done), id, Failed, None, Some("Invalid JSON response"));
    case Reply(parts, whole) => ReplyKeepsInv(c, s, id, b, a, parts, whole);
    case ErrorReply(m) => GiveUpKeepsInv(c, s, id, b.(lastError := Some(m)));
    case NoAnswer => NextAttemptKeepsInv(c, s, id, b, a + 1);
    case ConnectOrTimeout(m) => TimeoutKeepsInv(c, s, id, b, a, m);
    case OtherException => CrashKeepsInv(c, s, id, b);
  }

  lemma CrashKeepsInv(c: Config, s: System, id: TaskId, b: Background)
    requires Inv(c, s) && id in s.background && b.notices == 0
    requires Lookup(s.store, id).Some? && Lookup(s.store, id).value.status.InProgress?
    requires b.posts <= c.attempts && b.slept <= Pauses(Before(c.attempts))
    ensures Inv(c, Wait(s, id, b.(pc := Crashed)))
  {
    WaitKeepsInv(c, s, id, b.(pc := Crashed));
  }

  lemma PostedKeepsInv(c: Config, s: System, id: TaskId, post: Post)
    requires Inv(c, s) && id in s.background && s.background[id].pc.Posting?
    ensures Inv(c, Do(c, s, Posted(id, post)))
  {
    var b := s.background[id];
    assert StoreAgrees(s.store, id, b) && WithinBudget(c, b);
    var b' := b.(posts := b.posts + 1);
    assert Do(c, s, Posted(id, post)) == AfterPost(c, s, id, b', b.pc.attempt, post) by {}
    PostKeepsInv(c, s, id, b', b.pc.attempt, post);
  }

  lemma DiscoveryKeepsInv(c: Config, s: System, id: TaskId, d: Discovery)
    requires Inv(c, s) && At(s, id, Discovering)
    ensures Inv(c, Do(c, s, Discovered(id, d)))
  {
    var b := s.background[id];
    assert StoreAgrees(s.store, id, b) && WithinBudget(c, b);
    PausesGrow(0, Before(c.attempts));
    match d
    case Url => NextAttemptKeepsInv(c, s, id, b, 0);
    case HttpStatus(code) =>
      MoveKeepsInv(c, s, b.(pc := Done), id, Failed, None, Some("Discovery failed: HTTP " + code));
    case NoUrl => MoveKeepsInv(c, s, b.(pc := Done), id, Failed, None, Some("No URL for workspace"));
    case DiscoveryRaised(m) => MoveKeepsInv(c, s, b.(pc := Done), id, Failed, None, Some("Discovery error: " + m));
  }

  /** A step that only moves the coroutine on. */
  lemma PlainStepKeepsInv(c: Config, s: System, a: Step)
    requires Inv(c, s) && Enabled(s, a) && (a.Recorded? || a.Woke? || a.Notified? || a.Updated?)
    ensures Inv(c, Do(c, s, a))
  {
    var b := s.background[a.id];
    assert StoreAgrees(s.store, a.id, b) && WithinBudget(c, b);
    match a
    case Recorded(id) => WaitKeepsInv(c, s, id, b.(pc := Discovering));
    case Woke(id) => WokeKeepsInv(c, s, id);
    case Notified(id) => WaitKeepsInv(c, s, id, b.(pc := Updating, notices := b.notices + 1));
    case Updated(id) => WaitKeepsInv(c, s, id, b.(pc := Done));
  }

  lemma WokeKeepsInv(c: Config, s: System, id: TaskId)
    requires Inv(c, s) && Enabled(s, Woke(id))
    ensures Inv(c, Do(c, s, Woke(id)))
  {
    var b := s.background[id];
    assert StoreAgrees(s.store, id, b) && WithinBudget(c, b);
    AwakeAgrees(c, s, id, b);
    WaitKeepsInv(c, s, id, b.(pc := Posting(b.pc.attempt + 1)));
  }

  lemma AwakeAgrees(c: Config, s: System, id: TaskId, b: Background)
    requires StoreAgrees(s.store, id, b) && WithinBudget(c, b) && b.pc.Sleeping?
    ensures var b' := b.(pc := Posting(b.pc.attempt + 1));
            StoreAgrees(s.store, id, b') && WithinBudget(c, b')
  {
  }

  lemma StepKeepsInv(c: Config, s: System, a: Step)
    requires Inv(c, s) && Enabled(s, a)
    ensures Inv(c, Do(c, s, a))
  {
    match a
    case Dispatch(id, w, t) => DispatchKeepsInv(c, s, id, w, t);
    case Begin(id) =>
      assert StoreAgrees(s.store, id, s.background[id]) && WithinBudget(c, s.background[id]);
      MoveKeepsInv(c, s, s.background[id].(pc := Recording), id, InProgress, None, None);
    case Discovered(id, d) => DiscoveryKeepsInv(c, s, id, d);
    case Posted(id, post) =>
      PostedKeepsInv(c, s, id, post);
    case _ => PlainStepKeepsInv(c, s, a);
  }

  // ---- what follows for users of the tool

  ghost predicate Runs(c: Config, s: System, steps: seq<Step>)
    decreases |steps|
  {
    steps != [] ==> Enabled(s, steps[0]) && Runs(c, Do(c, s, steps[0]), steps[1..])
  }

  ghost function After(c: Config, s: System, steps: seq<Step>): System
    requires Runs(c, s, steps)
    decreases |steps|
  {
    if steps == [] then s else After(c, Do(c, s, steps[0]), steps[1..])
  }

  lemma {:induction false} RunKeepsInv(c: Config, s: System, steps: seq<Step>)
    requires Inv(c, s) && Runs(c, s, steps)
    ensures Inv(c, After(c, s, steps))
    decreases |steps|
  {
    if steps != [] {
      StepKeepsInv(c, s, steps[0]);
      RunKeepsInv(c, Do(c, s, steps[0]), steps[1..]);
    }
  }

  /** In every reachable state the first thing a background task does, looking its
      delegation up, succeeds, and finds it pending. */
  lemma LookupSucceeds(c: Config, steps: seq<Step>, id: TaskId)
    requires Runs(c, Empty, steps) && Enabled(After(c, Empty, steps), Begin(id))
    ensures var t := Lookup(After(c, Empty, steps).store, id);
            t.Some? && t.value.status.Pending?
  {
    assert Inv(c, Empty);
    RunKeepsInv(c, Empty, steps);
    var s := After(c, Empty, steps);
    assert StoreAgrees(s.store, id, s.background[id]);
  }

  /** In every run from the empty store: at most 100 tasks are kept, or as many as were
      ever unfinished at once; the store lists them in dispatch order; a failed task has
      an error; a completed one has a result unless its coroutine crashed. */
  lemma StoreInEveryRun(c: Config, steps: seq<Step>)
    requires Runs(c, Empty, steps)
    ensures var s := After(c, Empty, steps);
            && |s.store| <= Max(MAX_DELEGATION_HISTORY, s.peak)
            && Distinct(s.dispatched)
            && Ids(s.store) == Restrict(s.dispatched, set t | t in s.store :: t.id)
            && (forall t :: t in s.store ==> t.id in s.background && (t.status.Failed? <==> t.error.Some?))
            && (forall t :: t in s.store && t.status.Completed? ==>
                  (t.result.Some? <==> !s.background[t.id].pc.Crashed?))
  {
    var s := After(c, Empty, steps);
    assert Inv(c, Empty);
    RunKeepsInv(c, Empty, steps);
    forall t | t in s.store ensures Lookup(s.store, t.id) == Some(t) { LookupFinds(s.store, t.id); }
    forall t | t in s.store && t.status.Completed?
      ensures t.id in s.background && (t.result.Some? <==> !s.background[t.id].pc.Crashed?)
    {
      assert StoreAgrees(s.store, t.id, s.background[t.id]);
    }
  }

  /** A dispatch of `t` that leaves `left` takes no task while the store has fewer than 100;
      otherwise it leaves 100, or as many as are unfinished; and it takes exactly the finished
      tasks up to place `age` of the store, which lists the tasks in dispatch order. */
  ghost predicate TakesOldest(s: System, t: Task, left: seq<Task>, age: nat) {
    var full := s.store + [t];
    && Ids(full) == Restrict(s.dispatched + [t.id], set x | x in full :: x.id)
    && (|s.store| < MAX_DELEGATION_HISTORY ==> left == full)
    && (|s.store| >= MAX_DELEGATION_HISTORY ==> |left| == Max(MAX_DELEGATION_HISTORY, Unfinished(s.store) + 1))
    && forall i :: 0 <= i < |full| ==> (full[i] in left <==> i >= age || !Finished(full[i]))
  }

  lemma DispatchTakesOldest(c: Config, s: System, t: Task) returns (age: nat)
    requires Inv(c, s) && t.id !in s.dispatched && !Finished(t)
    ensures TakesOldest(s, t, Evicted(s.store + [t]), age)
  {
    var full := s.store + [t];
    DispatchStore(c, s, t);
    EvictedSize(full);
    UnfinishedAppend(s.store, t);
    age := EvictsOldest(full);
  }

  /** In every run, so does every dispatch: each finished task that goes is older than each
      that stays. */
  lemma DispatchEvicts(c: Config, steps: seq<Step>, id: TaskId, workspace: string, task: string) returns (age: nat)
    requires Runs(c, Empty, steps) && Enabled(After(c, Empty, steps), Dispatch(id, workspace, task))
    ensures var s := After(c, Empty, steps);
            TakesOldest(s, NewTask(id, workspace, task), Do(c, s, Dispatch(id, workspace, task)).store, age)
  {
    assert Inv(c, Empty);
    RunKeepsInv(c, Empty, steps);
    age := DispatchTakesOldest(c, After(c, Empty, steps), NewTask(id, workspace, task));
  }

  /** In every run a background task posts at most as often as it may attempt, sleeps at
      most delay * N(N-1)/2 in all, and sends at most one completion notice. */
  lemma BudgetInEveryRun(c: Config, steps: seq<Step>, id: TaskId)
    requires c.delay >= 0.0 && Runs(c, Empty, steps) && id in After(c, Empty, steps).background
    ensures var b := After(c, Empty, steps).background[id];
            && b.posts <= c.attempts && b.notices <= 1
            && c.delay * b.slept as real <= c.delay * (c.attempts * Before(c.attempts) / 2) as real
  {
    assert Inv(c, Empty);
    RunKeepsInv(c, Empty, steps);
    var b := After(c, Empty, steps).background[id];
    SleptAtMost(c, b);
    TimesDelay(c.delay, b.slept, c.attempts * Before(c.attempts) / 2);
  }

  lemma TimesDelay(delay: real, a: nat, b: nat)
    requires delay >= 0.0 && a <= b
    ensures delay * a as real <= delay * b as real
  {
  }

  lemma SleptAtMost(c: Config, b: Background)
    requires WithinBudget(c, b)
    ensures b.posts <= c.attempts && b.slept <= c.attempts * Before(c.attempts) / 2
  {
    var n := Before(c.attempts);
    PausesSum(n);
    PausesGrow(0, n);
    match b.pc
    case Posting(a) => PausesGrow(a, n);
    case Sleeping(a) => PausesGrow(a + 1, n);
    case _ =>
  }

  /** Nothing about any other task differs. */
  ghost predicate OnlyTouches(s: System, s': System, id: TaskId) {
    forall o :: o != id ==>
      && Lookup(s'.store, o) == Lookup(s.store, o)
      && (o in s'.background <==> o in s.background)
      && (o in s.background ==> s'.background[o] == s.background[o])
  }

  lemma MoveOnlyTouches(s: System, b: Background, id: TaskId, status: Status, result: Option<string>,
                        error: Option<string>)
    ensures OnlyTouches(s, Move(s, b, id, status, result, error), id)
  {
    forall o | o != id ensures Lookup(Write(s.store, id, status, result, error), o) == Lookup(s.store, o) {
      LookupWrite(s.store, id, status, result, error, o);
    }
  }

  lemma GiveUpOnlyTouches(s: System, id: TaskId, b: Background)
    ensures OnlyTouches(s, GiveUp(s, id, b), id)
  {
    MoveOnlyTouches(s, b.(pc := Notifying), id, Failed, None,
                    Some(if b.lastError.Some? then b.lastError.value else "None"));
  }

  lemma PostOnlyTouches(c: Config, s: System, id: TaskId, b: Background, attempt: nat, post: Post)
    ensures OnlyTouches(s, AfterPost(c, s, id, b, attempt, post), id)
  {
    match post
    case InvalidJson => MoveOnlyTouches(s, b.(pc := Done), id, Failed, None, Some("Invalid JSON response"));
    case Reply(parts, whole) =>
      if parts == [] {
        MoveOnlyTouches(s, b.(pc := Notifying), id, Completed, Some(whole), None);
      } else if forall p :: p in parts ==> p.Text? {
        MoveOnlyTouches(s, b.(pc := Notifying), id, Completed, Some(Join(parts)), None);
      } else {
        MoveOnlyTouches(s, b.(pc := Crashed), id, Completed, None, None);
      }
    case ErrorReply(m) => GiveUpOnlyTouches(s, id, b.(lastError := Some(m)));
    case NoAnswer => GiveUpOnlyTouches(s, id, b);
    case ConnectOrTimeout(m) => GiveUpOnlyTouches(s, id, b.(lastError := Some(m)));
    case OtherException =>
  }

  lemma DiscoveryOnlyTouches(c: Config, s: System, id: TaskId, d: Discovery)
    requires At(s, id, Discovering)
    ensures OnlyTouches(s, Do(c, s, Discovered(id, d)), id)
  {
    var b := s.background[id];
    match d
    case Url => GiveUpOnlyTouches(s, id, b);
    case HttpStatus(code) =>
      MoveOnlyTouches(s, b.(pc := Done), id, Failed, None, Some("Discovery failed: HTTP " + code));
    case NoUrl => MoveOnlyTouches(s, b.(pc := Done), id, Failed, None, Some("No URL for workspace"));
    case DiscoveryRaised(m) => MoveOnlyTouches(s, b.(pc := Done), id, Failed, None, Some("Discovery error: " + m));
  }

  /** A step of one background task changes nothing about any other task. */
  lemma StepOnlyTouches(c: Config, s: System, a: Step)
    requires Enabled(s, a) && !a.Dispatch?
    ensures OnlyTouches(s, Do(c, s, a), a.id)
  {
    match a
    case Begin(id) => MoveOnlyTouches(s, s.background[id].(pc := Recording), id, InProgress, None, None);
    case Discovered(id, d) => DiscoveryOnlyTouches(c, s, id, d);
    case Posted(id, post) => PostedOnlyTouches(c, s, id, post);
    case _ =>
  }

  lemma PostedOnlyTouches(c: Config, s: System, id: TaskId, post: Post)
    requires id in s.background && s.background[id].pc.Posting?
    ensures OnlyTouches(s, Do(c, s, Posted(id, post)), id)
  {
    var b := s.background[id];
    PostOnlyTouches(c, s, id, b.(posts := b.posts + 1), b.pc.attempt, post);
  }

  ghost predicate Forward(t: Task, t': Task) {
    && t'.id == t.id && t'.workspace == t.workspace && t'.description == t.description
    && (t' == t || (t.status.Pending? && t'.status.InProgress?) || (t.status.InProgress? && Finished(t')))
  }

  /** One step moves a status forward or not at all, changes nothing about a finished
      task, and lets only finished tasks disappear. */
  lemma StepMovesForward(c: Config, s: System, a: Step, id: TaskId)
    requires Inv(c, s) && Enabled(s, a) && Lookup(s.store, id).Some?
    ensures var t, t' := Lookup(s.store, id).value, Lookup(Do(c, s, a).store, id);
            if t'.Some? then Forward(t, t'.value) else Finished(t)
  {
    LookupFinds(s.store, id);
    if a.Dispatch? {
      DispatchLookup(c, s, NewTask(a.id, a.workspace, a.task), id);
    } else if a.id != id {
      StepOnlyTouches(c, s, a);
    } else {
      OwnStepMovesForward(c, s, a);
    }
  }

  function Rank(s: Status): nat {
    match s case Pending => 0 case InProgress => 1 case _ => 2
  }

  /** The same task, as far or further on; once finished, unchanged in every field. */
  ghost predicate Later(t: Task, t': Task) {
    && t'.id == t.id && t'.workspace == t.workspace && t'.description == t.description
    && Rank(t'.status) >= Rank(t.status) && (Finished(t) ==> t' == t)
  }

  /** In some state along the steps the task is stored and finished. */
  ghost predicate Finishes(c: Config, s: System, steps: seq<Step>, id: TaskId)
    requires Runs(c, s, steps)
    decreases |steps|
  {
    || (Lookup(s.store, id).Some? && Finished(Lookup(s.store, id).value))
    || (steps != [] && Finishes(c, Do(c, s, steps[0]), steps[1..], id))
  }

  /** A dispatched task that is not stored never comes back. */
  lemma GoneStaysGone(c: Config, s: System, a: Step, id: TaskId)
    requires Inv(c, s) && Enabled(s, a) && id in s.background && Lookup(s.store, id).None?
    ensures Lookup(Do(c, s, a).store, id).None? && id in Do(c, s, a).background
  {
    if a.Dispatch? {
      DispatchLookup(c, s, NewTask(a.id, a.workspace, a.task), id);
    } else if a.id != id {
      StepOnlyTouches(c, s, a);
    } else {
      assert StoreAgrees(s.store, id, s.background[id]);
    }
  }

  lemma {:induction false} GoneForEver(c: Config, s: System, steps: seq<Step>, id: TaskId)
    requires Inv(c, s) && Runs(c, s, steps) && id in s.background && Lookup(s.store, id).None?
    ensures Lookup(After(c, s, steps).store, id).None?
    decreases |steps|
  {
    if steps != [] {
      StepKeepsInv(c, s, steps[0]);
      GoneStaysGone(c, s, steps[0], id);
      GoneForEver(c, Do(c, s, steps[0]), steps[1..], id);
    }
  }

  lemma {:induction false} MovesForwardFrom(c: Config, s: System, steps: seq<Step>, id: TaskId)
    requires Inv(c, s) && Runs(c, s, steps) && Lookup(s.store, id).Some?
    ensures var t, t' := Lookup(s.store, id).value, Lookup(After(c, s, steps).store, id);
            if t'.Some? then Later(t, t'.value) else Finishes(c, s, steps, id)
    decreases |steps|
  {
    if steps != [] {
      var s1 := Do(c, s, steps[0]);
      StepMovesForward(c, s, steps[0], id);
      StepKeepsInv(c, s, steps[0]);
      if Lookup(s1.store, id).Some? {
        MovesForwardFrom(c, s1, steps[1..], id);
      } else {
        LookupFinds(s.store, id);
        assert id in s.dispatched && id in s.background;
        StepKeepsBackground(c, s, steps[0], id);
        GoneForEver(c, s1, steps[1..], id);
      }
    }
  }

  lemma StepKeepsBackground(c: Config, s: System, a: Step, id: TaskId)
    requires Enabled(s, a) && id in s.background
    ensures id in Do(c, s, a).background
  {
  }

  lemma {:induction false} RunsSplit(c: Config, s: System, a: seq<Step>, b: seq<Step>)
    requires Runs(c, s, a + b)
    ensures Runs(c, s, a) && Runs(c, After(c, s, a), b) && After(c, s, a + b) == After(c, After(c, s, a), b)
    decreases |a|
  {
    if a == [] {
      assert a + b == b;
    } else {
      assert (a + b)[1..] == a[1..] + b && (a + b)[0] == a[0];
      RunsSplit(c, Do(c, s, a[0]), a[1..], b);
    }
  }

  /** In every run, between any two of its states: a status only moves from pending to in
      progress to completed or failed; a finished task keeps every field; and a task that
      is gone was finished in between. */
  lemma StatusInEveryRun(c: Config, before: seq<Step>, after: seq<Step>, id: TaskId)
    requires Runs(c, Empty, before + after)
    ensures Runs(c, Empty, before) && Runs(c, After(c, Empty, before), after)
    ensures var s := After(c, Empty, before);
            var t, t' := Lookup(s.store, id), Lookup(After(c, Empty, before + after).store, id);
            t.Some? ==> if t'.Some? then Later(t.value, t'.value) else Finishes(c, s, after, id)
  {
    RunsSplit(c, Empty, before, after);
    assert Inv(c, Empty);
    RunKeepsInv(c, Empty, before);
    if Lookup(After(c, Empty, before).store, id).Some? {
      MovesForwardFrom(c, After(c, Empty, before), after, id);
    }
  }

  lemma OwnStepMovesForward(c: Config, s: System, a: Step)
    requires Inv(c, s) && Enabled(s, a) && !a.Dispatch? && Lookup(s.store, a.id).Some?
    ensures var t' := Lookup(Do(c, s, a).store, a.id);
            t'.Some? && Forward(Lookup(s.store, a.id).value, t'.value)
  {
    var b := s.background[a.id];
    assert StoreAgrees(s.store, a.id, b);
    match a
    case Begin(o) => LookupWrite(s.store, o, InProgress, None, None, o);
    case Discovered(o, d) => DiscoveryMovesForward(c, s, o, d);
    case Posted(o, post) => PostedMovesForward(c, s, o, post);
    case _ =>
  }

  lemma PostedMovesForward(c: Config, s: System, id: TaskId, post: Post)
    requires id in s.background && s.background[id].pc.Posting?
    requires Lookup(s.store, id).Some? && Lookup(s.store, id).value.status.InProgress?
    ensures var t' := Lookup(Do(c, s, Posted(id, post)).store, id);
            t'.Some? && Forward(Lookup(s.store, id).value, t'.value)
  {
    var b := s.background[id];
    PostMovesForward(c, s, id, b.(posts := b.posts + 1), b.pc.attempt, post);
  }

  lemma MoveMovesForward(s: System, b: Background, id: TaskId, status: Status, result: Option<string>,
                         error: Option<string>)
    requires Lookup(s.store, id).Some? && Lookup(s.store, id).value.status.InProgress?
    requires status.Completed? || status.Failed?
    ensures var t' := Lookup(Move(s, b, id, status, result, error).store, id);
            t'.Some? && Forward(Lookup(s.store, id).value, t'.value)
  {
    LookupWrite(s.store, id, status, result, error, id);
  }

  lemma GiveUpMovesForward(s: System, id: TaskId, b: Background)
    requires Lookup(s.store, id).Some? && Lookup(s.store, id).value.status.InProgress?
    ensures var t' := Lookup(GiveUp(s, id, b).store, id);
            t'.Some? && Forward(Lookup(s.store, id).value, t'.value)
  {
    MoveMovesForward(s, b.(pc := Notifying), id, Failed, None,
                     Some(if b.lastError.Some? then b.lastError.value else "None"));
  }

  lemma DiscoveryMovesForward(c: Config, s: System, id: TaskId, d: Discovery)
    requires At(s, id, Discovering) && Lookup(s.store, id).Some? && Lookup(s.store, id).value.status.InProgress?
    ensures var t' := Lookup(Do(c, s, Discovered(id, d)).store, id);
            t'.Some? && Forward(Lookup(s.store, id).value, t'.value)
  {
    var b := s.background[id];
    match d
    case Url => GiveUpMovesForward(s, id, b);
    case HttpStatus(code) =>
      MoveMovesForward(s, b.(pc := Done), id, Failed, None, Some("Discovery failed: HTTP " + code));
    case NoUrl => MoveMovesForward(s, b.(pc := Done), id, Failed, None, Some("No URL for workspace"));
    case DiscoveryRaised(m) => MoveMovesForward(s, b.(pc := Done), id, Failed, None, Some("Discovery error: " + m));
  }

  lemma PostMovesForward(c: Config, s: System, id: TaskId, b: Background, attempt: nat, post: Post)
    requires Lookup(s.store, id).Some? && Lookup(s.store, id).value.status.InProgress?
    ensures var t' := Lookup(AfterPost(c, s, id, b, attempt, post).store, id);
            t'.Some? && Forward(Lookup(s.store, id).value, t'.value)
  {
    match post
    case InvalidJson => MoveMovesForward(s, b.(pc := Done), id, Failed, None, Some("Invalid JSON response"));
    case Reply(parts, whole) =>
      if parts == [] {
        MoveMovesForward(s, b.(pc := Notifying), id, Completed, Some(whole), None);
      } else if forall p :: p in parts ==> p.Text? {
        MoveMovesForward(s, b.(pc := Notifying), id, Completed, Some(Join(parts)), None);
      } else {
        MoveMovesForward(s, b.(pc := Crashed), id, Completed, None, None);
      }
    case ErrorReply(m) => GiveUpMovesForward(s, id, b.(lastError := Some(m)));
    case NoAnswer => GiveUpMovesForward(s, id, b);
    case ConnectOrTimeout(m) => GiveUpMovesForward(s, id, b.(lastError := Some(m)));
    case OtherException =>
  }

  /** A completed reply carries a result exactly when it has no text part or all its text
      parts are strings; otherwise the task is left completed without one. */
  lemma ReplyOutcome(c: Config, s: System, id: TaskId, parts: seq<Part>, whole: string)
    requires Inv(c, s) && id in s.background && s.background[id].pc.Posting?
    ensures var t := Lookup(Do(c, s, Posted(id, Reply(parts, whole))).store, id);
            && t.Some? && t.value.status.Completed?
            && (t.value.result.Some? <==> forall p :: p in parts ==> p.Text?)
  {
    assert StoreAgrees(s.store, id, s.background[id]);
    ReplyWrites(c, s, id, parts, whole);
  }

  lemma ReplyWrites(c: Config, s: System, id: TaskId, parts: seq<Part>, whole: string)
    requires id in s.background && s.background[id].pc.Posting? && Lookup(s.store, id).Some?
    ensures var t := Lookup(Do(c, s, Posted(id, Reply(parts, whole))).store, id);
            && t.Some? && t.value.status.Completed?
            && (t.value.result.Some? <==> forall p :: p in parts ==> p.Text?)
  {
    if parts == [] {
      LookupWrite(s.store, id, Completed, Some(whole), None, id);
    } else if forall p :: p in parts ==> p.Text? {
      LookupWrite(s.store, id, Completed, Some(Join(parts)), None, id);
    } else {
      LookupWrite(s.store, id, Completed, None, None, id);
    }
  }

  /** The task is stored as completed, without a result. */
  ghost predicate Resultless(s: System, id: TaskId) {
    var t := Lookup(s.store, id);
    t.Some? && t.value.status.Completed? && t.value.result.None?
  }

  /** A reply for the task with a text part that is not a string. */
  predicate IsBadReply(a: Step, id: TaskId) {
    a.Posted? && a.id == id && a.post.Reply? && exists p :: p in a.post.parts && !p.Text?
  }

  lemma StepResultlessIff(c: Config, s: System, a: Step, id: TaskId)
    requires Inv(c, s) && Enabled(s, a) && !Resultless(s, id)
    ensures Resultless(Do(c, s, a), id) <==> IsBadReply(a, id)
  {
    if a.Dispatch? {
      DispatchLookup(c, s, NewTask(a.id, a.workspace, a.task), id);
    } else if a.id != id {
      StepOnlyTouches(c, s, a);
    } else {
      assert StoreAgrees(s.store, id, s.background[id]);
      OwnStepResultlessIff(c, s, a);
    }
  }

  lemma OwnStepResultlessIff(c: Config, s: System, a: Step)
    requires Enabled(s, a) && !a.Dispatch? && !Resultless(s, a.id) && StoreAgrees(s.store, a.id, s.background[a.id])
    ensures Resultless(Do(c, s, a), a.id) <==> IsBadReply(a, a.id)
  {
    match a
    case Begin(id) => LookupWrite(s.store, id, InProgress, None, None, id);
    case Discovered(id, d) => DiscoveryHasNoResult(c, s, id, d);
    case Posted(id, post) => PostedResultlessIff(c, s, id, post);
    case _ =>
  }

  lemma FailingHasNoResult(s: System, b: Background, id: TaskId, error: string)
    requires Lookup(s.store, id).Some?
    ensures !Resultless(Move(s, b, id, Failed, None, Some(error)), id)
  {
    LookupWrite(s.store, id, Failed, None, Some(error), id);
  }

  lemma DiscoveryHasNoResult(c: Config, s: System, id: TaskId, d: Discovery)
    requires At(s, id, Discovering) && Lookup(s.store, id).Some? && Lookup(s.store, id).value.status.InProgress?
    ensures !Resultless(Do(c, s, Discovered(id, d)), id)
  {
    DiscoveryMovesForward(c, s, id, d);
    var b := s.background[id];
    match d
    case Url => FailingHasNoResult(s, b.(pc := Notifying), id, if b.lastError.Some? then b.lastError.value else "None");
    case HttpStatus(code) => FailingHasNoResult(s, b.(pc := Done), id, "Discovery failed: HTTP " + code);
    case NoUrl => FailingHasNoResult(s, b.(pc := Done), id, "No URL for workspace");
    case DiscoveryRaised(m) => FailingHasNoResult(s, b.(pc := Done), id, "Discovery error: " + m);
  }

  lemma PostedResultlessIff(c: Config, s: System, id: TaskId, post: Post)
    requires id in s.background && s.background[id].pc.Posting?
    requires Lookup(s.store, id).Some? && Lookup(s.store, id).value.status.InProgress?
    ensures Resultless(Do(c, s, Posted(id, post)), id) <==> IsBadReply(Posted(id, post), id)
  {
    if post.Reply? {
      ReplyWrites(c, s, id, post.parts, post.whole);
    } else {
      var b := s.background[id].(posts := s.background[id].posts + 1);
      PostWithoutReply(c, s, id, b, b.pc.attempt, post);
    }
  }

  lemma PostWithoutReply(c: Config, s: System, id: TaskId, b: Background, attempt: nat, post: Post)
    requires !post.Reply? && Lookup(s.store, id).Some? && Lookup(s.store, id).value.status.InProgress?
    ensures !Resultless(AfterPost(c, s, id, b, attempt, post), id)
  {
    var e := if post.ErrorReply? || post.ConnectOrTimeout? then b.(lastError := Some(post.message)) else b;
    FailingHasNoResult(s, b.(pc := Done), id, "Invalid JSON response");
    FailingHasNoResult(s, e.(pc := Notifying), id, if e.lastError.Some? then e.lastError.value else "None");
  }

  ghost predicate SomeBadReply(steps: seq<Step>, id: TaskId) {
    exists a :: a in steps && IsBadReply(a, id)
  }

  lemma BadReplyFirstOrLater(steps: seq<Step>, id: TaskId)
    requires steps != []
    ensures SomeBadReply(steps, id) <==> IsBadReply(steps[0], id) || SomeBadReply(steps[1..], id)
  {
    assert steps == [steps[0]] + steps[1..];
  }

  lemma {:induction false} ResultlessFromIff(c: Config, s: System, steps: seq<Step>, id: TaskId)
    requires Inv(c, s) && Runs(c, s, steps) && !Resultless(s, id)
    ensures var t := Lookup(After(c, s, steps).store, id);
            t.Some? && t.value.status.Completed? ==> (t.value.result.None? <==> SomeBadReply(steps, id))
    decreases |steps|
  {
    if steps != [] {
      var s1, rest := Do(c, s, steps[0]), steps[1..];
      BadReplyFirstOrLater(steps, id);
      StepKeepsInv(c, s, steps[0]);
      StepResultlessIff(c, s, steps[0], id);
      if IsBadReply(steps[0], id) { MovesForwardFrom(c, s1, rest, id); } else { ResultlessFromIff(c, s1, rest, id); }
    }
  }

  /** In every run, a stored completed task lacks its result if and only if a reply with a
      text part that is not a string was posted for it. */
  lemma ResultlessIff(c: Config, steps: seq<Step>, id: TaskId)
    requires Runs(c, Empty, steps)
    ensures var t := Lookup(After(c, Empty, steps).store, id);
            t.Some? && t.value.status.Completed? ==> (t.value.result.None? <==> SomeBadReply(steps, id))
  {
    assert Inv(c, Empty);
    ResultlessFromIff(c, Empty, steps, id);
  }

  ghost predicate Abandoned(s: System, id: TaskId) {
    At(s, id, Crashed) && Lookup(s.store, id).Some? && Lookup(s.store, id).value.status.InProgress?
  }

  /** No step is about a coroutine that is dead, and no dispatch evicts its task. */
  lemma AbandonedStays(c: Config, s: System, id: TaskId, a: Step)
    requires Inv(c, s) && Abandoned(s, id) && Enabled(s, a)
    ensures Abandoned(Do(c, s, a), id)
  {
    if a.Dispatch? {
      DispatchLookup(c, s, NewTask(a.id, a.workspace, a.task), id);
    } else {
      StepOnlyTouches(c, s, a);
    }
  }

  /** A step leaves a task in progress with nobody to finish it if and only if it is a post
      that raised an exception other than a connection failure or a timeout. */
  lemma OtherExceptionAbandons(c: Config, s: System, id: TaskId, a: Step)
    requires Inv(c, s) && Enabled(s, a) && !Abandoned(s, id)
    ensures Abandoned(Do(c, s, a), id) <==> a == Posted(id, OtherException)
  {
    if a.Dispatch? {
      NewTaskIsNotAbandoned(c, s, a, id);
    } else if a.id != id {
      StepOnlyTouches(c, s, a);
    } else {
      OwnStepAbandonsIff(c, s, a);
    }
  }

  lemma NewTaskIsNotAbandoned(c: Config, s: System, a: Step, id: TaskId)
    requires Inv(c, s) && Enabled(s, a) && a.Dispatch? && !Abandoned(s, id)
    ensures !Abandoned(Do(c, s, a), id)
  {
    DispatchLookup(c, s, NewTask(a.id, a.workspace, a.task), id);
  }

  lemma OwnStepAbandonsIff(c: Config, s: System, a: Step)
    requires Inv(c, s) && Enabled(s, a) && !a.Dispatch?
    ensures Abandoned(Do(c, s, a), a.id) <==> a == Posted(a.id, OtherException)
  {
    var b := s.background[a.id];
    assert StoreAgrees(s.store, a.id, b);
    if a.Posted? { PostedAbandonsIff(c, s, a.id, a.post); }
  }

  lemma PostedAbandonsIff(c: Config, s: System, id: TaskId, post: Post)
    requires id in s.background && s.background[id].pc.Posting?
    requires Lookup(s.store, id).Some? && Lookup(s.store, id).value.status.InProgress?
    ensures Abandoned(Do(c, s, Posted(id, post)), id) <==> post.OtherException?
  {
    var b := s.background[id];
    PostAbandonsIff(c, s, id, b.(posts := b.posts + 1), b.pc.attempt, post);
  }

  lemma PostAbandonsIff(c: Config, s: System, id: TaskId, b: Background, attempt: nat, post: Post)
    requires Lookup(s.store, id).Some? && Lookup(s.store, id).value.status.InProgress?
    ensures Abandoned(AfterPost(c, s, id, b, attempt, post), id) <==> post.OtherException?
  {
    if post.Reply? && post.parts != [] && exists p :: p in post.parts && !p.Text? {
      LookupWrite(s.store, id, Completed, None, None, id);
    }
  }

  /** And so it stays, in the store, for ever. */
  lemma {:induction false} AbandonedForEver(c: Config, s: System, id: TaskId, steps: seq<Step>)
    requires Inv(c, s) && Abandoned(s, id) && Runs(c, s, steps)
    ensures Abandoned(After(c, s, steps), id)
    decreases |steps|
  {
    if steps != [] {
      StepKeepsInv(c, s, steps[0]);
      AbandonedStays(c, s, id, steps[0]);
      AbandonedForEver(c, Do(c, s, steps[0]), id, steps[1..]);
    }
  }

  lemma {:induction false} AbandonedFromIff(c: Config, s: System, id: TaskId, steps: seq<Step>)
    requires Inv(c, s) && Runs(c, s, steps) && !Abandoned(s, id)
    ensures Abandoned(After(c, s, steps), id) <==> Posted(id, OtherException) in steps
    decreases |steps|
  {
    if steps != [] {
      var s1 := Do(c, s, steps[0]);
      assert steps == [steps[0]] + steps[1..];
      StepKeepsInv(c, s, steps[0]);
      OtherExceptionAbandons(c, s, id, steps[0]);
      if Abandoned(s1, id) {
        AbandonedForEver(c, s1, id, steps[1..]);
      } else {
        AbandonedFromIff(c, s1, id, steps[1..]);
      }
    }
  }

  /** In every run, a task whose coroutine has ended is unfinished if and only if one of its
      posts raised such an exception. */
  lemma AbandonedIff(c: Config, steps: seq<Step>, id: TaskId)
    requires Runs(c, Empty, steps) && id in After(c, Empty, steps).background
    requires var pc := After(c, Empty, steps).background[id].pc; pc.Done? || pc.Crashed?
    ensures var t := Lookup(After(c, Empty, steps).store, id);
            (t.Some? && !Finished(t.value)) <==> Posted(id, OtherException) in steps
  {
    assert Inv(c, Empty);
    RunKeepsInv(c, Empty, steps);
    AbandonedFromIff(c, Empty, id, steps);
    var s := After(c, Empty, steps);
    assert StoreAgrees(s.store, id, s.background[id]);
  }

  // ---- the code of one background task

  lemma {:induction false} OneStepMore(c: Config, s: System, steps: seq<Step>, a: Step)
    requires Runs(c, s, steps) && Enabled(After(c, s, steps), a)
    ensures Runs(c, s, steps + [a]) && After(c, s, steps + [a]) == Do(c, After(c, s, steps), a)
    decreases |steps|
  {
    if steps == [] {
      assert steps + [a] == [a] && [a][1..] == [];
    } else {
      assert (steps + [a])[1..] == steps[1..] + [a] && (steps + [a])[0] == steps[0];
      OneStepMore(c, Do(c, s, steps[0]), steps[1..], a);
    }
  }

  /** The discoveries and the posts that steps report. */
  function Reports(steps: seq<Step>): (seq<Discovery>, seq<Post>) {
    if steps == [] then ([], [])
    else
      var (ds, ps) := Reports(steps[..|steps| - 1]);
      match steps[|steps| - 1]
      case Discovered(_, d) => (ds + [d], ps)
      case Posted(_, p) => (ds, ps + [p])
      case _ => (ds, ps)
  }

  /** `steps` lead one background task, alone, from `s0` to `s`, on these answers. */
  ghost predicate Led(c: Config, s0: System, steps: seq<Step>, s: System, id: TaskId, ds: seq<Discovery>,
                      ps: seq<Post>) {
    match s0
    case System(_, _, _, _) =>
      && Runs(c, s0, steps) && s == After(c, s0, steps)
      && (forall a :: a in steps ==> !a.Dispatch? && a.id == id)
      && Reports(steps) == (ds, ps)
  }

  lemma Lead(c: Config, s0: System, steps: seq<Step>, s: System, id: TaskId, ds: seq<Discovery>, ps: seq<Post>, a: Step)
    returns (steps': seq<Step>, s': System)
    requires Led(c, s0, steps, s, id, ds, ps) && Enabled(s, a) && !a.Dispatch? && a.id == id
    ensures s' == Do(c, s, a)
    ensures Led(c, s0, steps', s', id, if a.Discovered? then ds + [a.discovery] else ds,
                if a.Posted? then ps + [a.post] else ps)
  {
    steps', s' := steps + [a], Do(c, s, a);
    OneStepMore(c, s0, steps, a);
    assert steps'[..|steps|] == steps;
  }

  /** `str(last_error)` */
  function ErrorText(lastError: Option<string>): string {
    if lastError.Some? then lastError.value else "None"
  }

  /** The state machine has already given up, and the code has yet to write that. */
  ghost predicate GaveUp(s: System, store: seq<Task>, id: TaskId, lastError: Option<string>) {
    At(s, id, Notifying) && s.store == Write(store, id, Failed, None, Some(ErrorText(lastError)))
  }

  /** At the head of the retry loop. */
  ghost predicate AtAttempt(c: Config, s: System, store: seq<Task>, id: TaskId, attempt: nat,
                            lastError: Option<string>) {
    if attempt < c.attempts then
      At(s, id, Posting(attempt)) && s.store == store && s.background[id].lastError == lastError
    else GaveUp(s, store, id, lastError)
  }

  lemma NextIsAtAttempt(c: Config, s: System, id: TaskId, b: Background, attempt: nat)
    ensures AtAttempt(c, NextAttempt(c, s, id, b, attempt), s.store, id, attempt, b.lastError)
  {
  }

  /** One post and its answer; after a failed one that leaves attempts, the sleep too. */
  lemma LeadPost(c: Config, s0: System, steps: seq<Step>, s: System, id: TaskId, d: Discovery, posts: seq<Post>, k: nat)
    returns (steps': seq<Step>, s': System)
    requires k < |posts| && k < c.attempts && Led(c, s0, steps, s, id, [d], posts[..k]) && At(s, id, Posting(k))
    ensures Led(c, s0, steps', s', id, [d], posts[..k + 1])
    ensures match posts[k]
            case InvalidJson =>
              At(s', id, Done) && s'.store == Write(s.store, id, Failed, None, Some("Invalid JSON response"))
            case Reply(parts, whole) =>
              if parts == [] || forall p :: p in parts ==> p.Text? then
                At(s', id, Notifying)
                && s'.store == Write(s.store, id, Completed, Some(if parts == [] then whole else Join(parts)), None)
              else At(s', id, Crashed) && s'.store == Write(s.store, id, Completed, None, None)
            case ErrorReply(m) => GaveUp(s', s.store, id, Some(m))
            case NoAnswer => AtAttempt(c, s', s.store, id, k + 1, s.background[id].lastError)
            case ConnectOrTimeout(m) => AtAttempt(c, s', s.store, id, k + 1, Some(m))
            case OtherException => At(s', id, Crashed) && s'.store == s.store
  {
    var b := s.background[id].(posts := s.background[id].posts + 1);
    steps', s' := Lead(c, s0, steps, s, id, [d], posts[..k], Posted(id, posts[k]));
    assert posts[..k] + [posts[k]] == posts[..k + 1];
    if posts[k].NoAnswer? { NextIsAtAttempt(c, s, id, b, k + 1); }
    if posts[k].ConnectOrTimeout? && k + 1 < c.attempts {
      steps', s' := Lead(c, s0, steps', s', id, [d], posts[..k + 1], Woke(id));
    }
  }

  /** Up to the answer of the discovery. */
  lemma LeadToDiscovery(c: Config, s0: System, id: TaskId, d: Discovery) returns (steps: seq<Step>, s: System)
    requires id in s0.background && s0.background[id] == Background(Start, None, 0, 0, 0) && Lookup(s0.store, id).Some?
    ensures Led(c, s0, steps, s, id, [d], [])
    ensures var w := Write(s0.store, id, InProgress, None, None);
            match d
            case HttpStatus(code) =>
              At(s, id, Done) && s.store == Write(w, id, Failed, None, Some("Discovery failed: HTTP " + code))
            case NoUrl => At(s, id, Done) && s.store == Write(w, id, Failed, None, Some("No URL for workspace"))
            case DiscoveryRaised(m) =>
              At(s, id, Done) && s.store == Write(w, id, Failed, None, Some("Discovery error: " + m))
            case Url => AtAttempt(c, s, w, id, 0, None)
  {
    steps, s := Lead(c, s0, [], s0, id, [], [], Begin(id));
    steps, s := Lead(c, s0, steps, s, id, [], [], Recorded(id));
    var was := s;
    steps, s := Lead(c, s0, steps, s, id, [], [], Discovered(id, d));
    assert [] + [d] == [d];
    if d.Url? { NextIsAtAttempt(c, was, id, was.background[id], 0); }
  }

  /** The two calls after a final status: the completion notice and the platform update. */
  lemma LeadHome(c: Config, s0: System, steps: seq<Step>, s: System, id: TaskId, ds: seq<Discovery>, ps: seq<Post>)
    returns (steps': seq<Step>, s': System)
    requires Led(c, s0, steps, s, id, ds, ps) && At(s, id, Notifying)
    ensures Led(c, s0, steps', s', id, ds, ps) && At(s', id, Done) && s'.store == s.store
  {
    steps', s' := Lead(c, s0, steps, s, id, ds, ps, Notified(id));
    steps', s' := Lead(c, s0, steps', s', id, ds, ps, Updated(id));
  }

  class DelegationStore {
    var delegations: seq<Task>

    constructor ()
      ensures delegations == []
    {
      delegations := [];
    }

    /** The ids of the completed and failed tasks, oldest first. */
    method ListFinished() returns (ids: seq<TaskId>)
      ensures ids == FinishedIds(delegations)
    {
      ids := [];
      assert delegations[0..] == delegations;
      for i := 0 to |delegations|
        invariant ids + FinishedIds(delegations[i..]) == FinishedIds(delegations)
      {
        FinishedIdsFrom(delegations, i, ids);
        if Finished(delegations[i]) {
          ids := ids + [delegations[i].id];
        }
      }
      assert ids + [] == ids;
    }

    /** `_evict_old_delegations`: collect the finished ids, then delete the first of them. */
    method EvictOldDelegations()
      requires DistinctIds(delegations)
      modifies this
      ensures delegations == Evicted(old(delegations))
      ensures |delegations| == if |old(delegations)| <= MAX_DELEGATION_HISTORY then |old(delegations)|
                               else Max(MAX_DELEGATION_HISTORY, Unfinished(old(delegations)))
    {
      if |delegations| <= MAX_DELEGATION_HISTORY {
        return;
      }
      var removable := ListFinished();
      var excess := |delegations| - MAX_DELEGATION_HISTORY;
      var n := if excess < |removable| then excess else |removable|;
      ghost var before := delegations;
      DropNone(before);
      for i := 0 to n
        invariant delegations == DropFinished(before, i)
      {
        DeleteNext(before, i);
        delegations := Delete(delegations, removable[i]);
      }
      if n < excess { DropTooMany(before, excess); }
      EvictedSize(before);
    }

    method Assign(taskId: TaskId, status: Status, result: Option<string>, error: Option<string>)
      modifies this
      ensures delegations == Write(old(delegations), taskId, status, result, error)
    {
      delegations := Write(delegations, taskId, status, result, error);
    }

    /** `_execute_delegation` while no other task runs: it takes the steps of the state
        machine on these answers, from the first to the last. */
    method ExecuteDelegation(c: Config, ghost s0: System, taskId: TaskId, discovery: Discovery, posts: seq<Post>)
      returns (ghost steps: seq<Step>, ghost s: System, ghost asked: nat)
      requires taskId in s0.background && s0.background[taskId] == Background(Start, None, 0, 0, 0)
      requires s0.store == delegations && |posts| >= c.attempts
      modifies this
      ensures s.store == delegations && asked <= c.attempts
      ensures At(s, taskId, Done) || At(s, taskId, Crashed)
      ensures Led(c, s0, steps, s, taskId, if Lookup(s0.store, taskId).Some? then [discovery] else [], posts[..asked])
    {
      asked := 0;
      if Lookup(delegations, taskId).None? {
        steps, s := Lead(c, s0, [], s0, taskId, [], [], Begin(taskId));
        return;
      }
      steps, s := LeadToDiscovery(c, s0, taskId, discovery);
      Assign(taskId, InProgress, None, None);
      match discovery {
        case HttpStatus(code) => Assign(taskId, Failed, None, Some("Discovery failed: HTTP " + code));
        case NoUrl => Assign(taskId, Failed, None, Some("No URL for workspace"));
        case DiscoveryRaised(m) => Assign(taskId, Failed, None, Some("Discovery error: " + m));
        case Url => steps, s, asked := SendWithRetry(c, s0, steps, s, taskId, posts);
      }
    }

    /** The retry loop and the lines after it. */
    method SendWithRetry(c: Config, ghost s0: System, ghost steps0: seq<Step>, ghost s1: System, taskId: TaskId,
                         posts: seq<Post>)
      returns (ghost steps: seq<Step>, ghost s: System, ghost asked: nat)
      requires |posts| >= c.attempts
      requires Led(c, s0, steps0, s1, taskId, [Url], []) && AtAttempt(c, s1, delegations, taskId, 0, None)
      modifies this
      ensures s.store == delegations && asked <= c.attempts
      ensures At(s, taskId, Done) || At(s, taskId, Crashed)
      ensures Led(c, s0, steps, s, taskId, [Url], posts[..asked])
    {
      steps, s, asked := steps0, s1, 0;
      var lastError: Option<string> := None;
      var attempt := 0;
      while attempt < c.attempts
        invariant attempt == asked <= c.attempts
        invariant Led(c, s0, steps, s, taskId, [Url], posts[..asked])
        invariant AtAttempt(c, s, delegations, taskId, attempt, lastError)
      {
        steps, s := LeadPost(c, s0, steps, s, taskId, Url, posts, attempt);
        asked := asked + 1;
        match posts[attempt] {
          case InvalidJson =>
            Assign(taskId, Failed, None, Some("Invalid JSON response"));
            return;
          case Reply(parts, whole) =>
            if forall p :: p in parts ==> p.Text? {
              Assign(taskId, Completed, Some(if parts == [] then whole else Join(parts)), None);
              steps, s := LeadHome(c, s0, steps, s, taskId, [Url], posts[..asked]);
            } else {
              Assign(taskId, Completed, None, None);
            }
            return;
          case ErrorReply(m) =>
            lastError := Some(m);
            break;
          case NoAnswer =>
          case ConnectOrTimeout(m) =>
            lastError := Some(m);
          case OtherException => return;
        }
        attempt := attempt + 1;
      }
      Assign(taskId, Failed, None, Some(ErrorText(lastError)));
      steps, s := LeadHome(c, s0, steps, s, taskId, [Url], posts[..asked]);
    }

    /** The synchronous part of `delegate_to_workspace` that touches the store. */
    method Store(taskId: TaskId, workspace: string, task: string)
      requires DistinctIds(delegations) && forall t :: t in delegations ==> t.id != taskId
      modifies this
      ensures delegations == Evicted(old(delegations) + [NewTask(taskId, workspace, task)])
    {
      var preview := if |task| <= 200 then task else task[..200];
      delegations := delegations + [Task(taskId, workspace, preview, Pending, None, None)];
      EvictOldDelegations();
    }
  }
}
