/** How finished delegations get into prompts: the heartbeat's poll
    (workspace-template/heartbeat.py) writes them to a file, and the executor reads and
    removes that file (workspace-template/executor_helpers.py). */
module Delivery {
  import opened Basics

  type Id = string

  const MAX_SEEN_DELEGATION_IDS := 200
  const SELF_MESSAGE_COOLDOWN := 60.0

  /** A JSON value a row may hold for a text.  Cutting it to length works for a string or a
      list (`Sliceable`, with its text), and raises for anything else: `Falsy` is null,
      false, zero or an empty object, `Opaque` is true, another number or another object. */
  datatype Field = Sliceable(text: string) | Falsy | Opaque

  datatype Details = Details(summary: Field, preview: Field, error: Field)

  /** One element of the platform's list; reading a field of a malformed one raises. */
  datatype Item = Row(id: Id, status: string, details: Details) | Malformed

  datatype Record = Record(id: Id, status: string, details: Details)

  /** `seen` is the loop's memory, `file` the results file, if it exists, and `last` the time
      of the last self-message.  The rest is history: records put into prompts, records as
      first collected, records that an exception destroyed, and the times of all
      self-messages. */
  datatype State = State(seen: set<Id>, file: Option<seq<Record>>, last: real, prompted: seq<Record>,
                         collected: seq<Record>, destroyed: seq<Record>, sentAt: seq<real>)

  const Initial := State({}, None, 0.0, [], [], [], [])

  predicate IsFinished(i: Item) {
    i.Row? && i.id != "" && (i.status == "completed" || i.status == "failed")
  }

  /** The collecting loop: the ids seen afterwards, the new records, and whether the loop
      got through without meeting a malformed item. */
  function Collect(items: seq<Item>, seen: set<Id>): (set<Id>, seq<Record>, bool) {
    if items == [] then (seen, [], true)
    else if items[0].Malformed? then (seen, [], false)
    else if !IsFinished(items[0]) || items[0].id in seen then Collect(items[1..], seen)
    else
      var r := Collect(items[1..], seen + {items[0].id});
      (r.0, [Record(items[0].id, items[0].status, items[0].details)] + r.1, r.2)
  }

  function InFile(s: State): seq<Record> {
    if s.file.Some? then s.file.value else []
  }

  function IdsOf(rs: seq<Record>): set<Id> {
    set r | r in rs :: r.id
  }

  /** What eviction may leave of the ids seen: all of them, or all but a hundred. */
  ghost predicate MayKeep(seen: set<Id>, kept: set<Id>) {
    if |seen| <= MAX_SEEN_DELEGATION_IDS then kept == seen
    else kept <= seen && |kept| == |seen| - MAX_SEEN_DELEGATION_IDS / 2
  }

  /** What becomes of the records a poll collected: written to the file, or destroyed. */
  function Stored(s: State, recs: seq<Record>, ok: bool): State {
    if recs == [] then s
    else if ok then s.(file := Some(InFile(s) + recs), collected := s.collected + recs)
    else s.(collected := s.collected + recs, destroyed := s.destroyed + recs)
  }

  /** A line of the summary message: the summary is cut to length in any case, the other two
      texts unless they are falsy. */
  predicate Summarised(r: Record) {
    r.details.summary.Sliceable? && !r.details.preview.Opaque? && !r.details.error.Opaque?
  }

  /** A poll sends a self-message: it wrote new records, can summarise them all, and the
      cool-down is over. */
  predicate Sends(s: State, items: seq<Item>, writes: bool, clock: real) {
    var c := Collect(items, s.seen);
    c.1 != [] && c.2 && writes && (forall r :: r in c.1 ==> Summarised(r)) && clock - s.last >= SELF_MESSAGE_COOLDOWN
  }

  /** One poll of a listing; `writes` says whether the file could be written, `clock` is what
      the clock reads when a self-message is due.  A malformed item ends the poll before it
      writes or evicts anything. */
  ghost predicate Poll(s: State, items: seq<Item>, writes: bool, clock: real, s': State) {
    var c := Collect(items, s.seen);
    var sends := Sends(s, items, writes, clock);
    && (if c.2 then MayKeep(c.0, s'.seen) else s'.seen == c.0)
    && s' == Stored(s, c.1, c.2 && writes)
               .(seen := s'.seen, last := if sends then clock else s.last,
                 sentAt := if sends then s.sentAt + [clock] else s.sentAt)
  }

  datatype ReadOutcome = ReadOk | RenameFailed | ReadFailed

  /** The prompt's lines can be made of these records: previews are cut to length. */
  predicate Formats(rs: seq<Record>) {
    forall r :: r in rs ==> !r.details.preview.Opaque?
  }

  /** `read_delegation_results`: rename, read, delete, format. */
  function Read(s: State, o: ReadOutcome): State {
    if s.file.None? || o.RenameFailed? then s
    else if o.ReadFailed? || !Formats(s.file.value) then s.(file := None, destroyed := s.destroyed + s.file.value)
    else s.(file := None, prompted := s.prompted + s.file.value)
  }

  datatype Event = Polling(items: seq<Item>, writes: bool, clock: real) | Reading(outcome: ReadOutcome)

  ghost predicate Step(s: State, e: Event, s': State) {
    match e
    case Polling(items, writes, clock) => Poll(s, items, writes, clock, s')
    case Reading(o) => s' == Read(s, o)
  }

  /** `run[0]` is the initial state and event k leads from `run[k]` to `run[k+1]`. */
  ghost predicate IsRun(run: seq<State>, events: seq<Event>) {
    && |run| == |events| + 1 && run[0] == Initial
    && forall k :: 0 <= k < |events| ==> Step(run[k], events[k], run[k + 1])
  }

  function FinishedIn(items: seq<Item>): set<Id> {
    set i | i in items && IsFinished(i) :: i.id
  }

  function Shown(e: Event): set<Id> {
    if e.Polling? then FinishedIn(e.items) else {}
  }

  /** All ids that some listing among the first `k` events shows as finished. */
  function Listed(events: seq<Event>, k: nat): set<Id>
    requires k <= |events|
  {
    if k == 0 then {} else Listed(events, k - 1) + Shown(events[k - 1])
  }

  /** The items before the first malformed one. */
  function Front(items: seq<Item>): seq<Item> {
    if items == [] || items[0].Malformed? then [] else [items[0]] + Front(items[1..])
  }

  /** The ids of finished rows not seen before that stand before any malformed item. */
  function FreshIn(items: seq<Item>, seen: set<Id>): set<Id> {
    FinishedIn(Front(items)) - seen
  }

  /** No exception: a listing without malformed items, with finished rows whose preview can
      be formatted, and a file that can be written; or a read that gets its text (or fails
      before it takes the file). */
  ghost predicate Smooth(e: Event) {
    match e
    case Polling(items, writes, _) =>
      writes && Malformed !in items && forall i :: i in items && IsFinished(i) ==> !i.details.preview.Opaque?
    case Reading(o) => !o.ReadFailed?
  }

  /** The step destroys records: a poll that raises after it met a fresh row, or a read that
      raises after it took a file that is not empty. */
  ghost predicate Destroys(s: State, e: Event) {
    match e
    case Polling(items, writes, _) => FreshIn(items, s.seen) != {} && (Malformed in items || !writes)
    case Reading(o) => InFile(s) != [] && !o.RenameFailed? && (o.ReadFailed? || !Formats(InFile(s)))
  }

  // ---- the collecting loop

  ghost predicate DistinctRecords(rs: seq<Record>) {
    forall i, j :: 0 <= i < j < |rs| ==> rs[i].id != rs[j].id
  }

  lemma {:induction false} CollectFacts(items: seq<Item>, seen: set<Id>)
    ensures var c := Collect(items, seen);
            && c.0 == seen + IdsOf(c.1) && IdsOf(c.1) !! seen
            && DistinctRecords(c.1) && IdsOf(c.1) <= FinishedIn(items)
            && (c.2 <==> Malformed !in items)
            && (c.2 ==> FinishedIn(items) <= c.0)
    decreases |items|
  {
    if items != [] && !items[0].Malformed? {
      var rest := items[1..];
      assert items == [items[0]] + rest;
      var unseen := IsFinished(items[0]) && items[0].id !in seen;
      var seen' := if unseen then seen + {items[0].id} else seen;
      CollectFacts(rest, seen');
      var c := Collect(rest, seen');
      assert FinishedIn(items) == FinishedIn(rest) + if IsFinished(items[0]) then {items[0].id} else {};
      if unseen {
        var r := Record(items[0].id, items[0].status, items[0].details);
        IdsOfCons(r, c.1);
      }
    }
  }

  /** What the loop collects are the fresh rows of the listing. */
  lemma {:induction false} CollectsFresh(items: seq<Item>, seen: set<Id>)
    ensures IdsOf(Collect(items, seen).1) == FreshIn(items, seen)
    ensures Collect(items, seen).1 == [] <==> FreshIn(items, seen) == {}
    decreases |items|
  {
    if items != [] && !items[0].Malformed? {
      var rest := items[1..];
      var unseen := IsFinished(items[0]) && items[0].id !in seen;
      var seen' := if unseen then seen + {items[0].id} else seen;
      CollectsFresh(rest, seen');
      FinishedInCons(items[0], Front(rest));
      if unseen {
        IdsOfCons(Record(items[0].id, items[0].status, items[0].details), Collect(rest, seen').1);
        assert items[0].id in FreshIn(items, seen);
      }
    }
  }

  lemma FinishedInCons(i: Item, items: seq<Item>)
    ensures FinishedIn([i] + items) == FinishedIn(items) + if IsFinished(i) then {i.id} else {}
  {
    assert forall x :: x in [i] + items <==> x == i || x in items;
  }

  lemma {:induction false} FrontOfWhole(items: seq<Item>)
    requires Malformed !in items
    ensures Front(items) == items
  {
    if items != [] { FrontOfWhole(items[1..]); }
  }

  lemma {:induction false} CollectedRows(items: seq<Item>, seen: set<Id>)
    ensures forall r :: r in Collect(items, seen).1 ==>
              exists i :: i in items && IsFinished(i) && r == Record(i.id, i.status, i.details)
    decreases |items|
  {
    if items != [] && !items[0].Malformed? {
      var unseen := IsFinished(items[0]) && items[0].id !in seen;
      CollectedRows(items[1..], if unseen then seen + {items[0].id} else seen);
    }
  }

  function RecordOf(i: Item): Record
    requires i.Row?
  {
    Record(i.id, i.status, i.details)
  }

  /** At place `i` stands a finished row with an id not seen before, no earlier finished row
      has that id, and no malformed item stands before it. */
  ghost predicate FirstFresh(items: seq<Item>, seen: set<Id>, i: int) {
    && 0 <= i < |items| && IsFinished(items[i]) && items[i].id !in seen
    && forall j :: 0 <= j < i ==> items[j].Row? && (IsFinished(items[j]) ==> items[j].id != items[i].id)
  }

  /** The records are those of the first fresh rows, in the order of the listing. */
  ghost predicate InListingOrder(items: seq<Item>, seen: set<Id>, at: seq<nat>, recs: seq<Record>) {
    Increasing(at) && AreFresh(items, seen, at) && StandAt(items, at, recs)
  }

  ghost predicate AreFresh(items: seq<Item>, seen: set<Id>, at: seq<nat>) {
    forall i: nat :: i in at <==> FirstFresh(items, seen, i)
  }

  ghost predicate StandAt(items: seq<Item>, at: seq<nat>, recs: seq<Record>) {
    && |at| == |recs|
    && forall k :: 0 <= k < |at| ==> at[k] < |items| && items[at[k]].Row? && recs[k] == RecordOf(items[at[k]])
  }

  lemma FirstFreshBehind(items: seq<Item>, seen: set<Id>, i: nat)
    requires items != [] && items[0].Row?
    ensures var unseen := IsFinished(items[0]) && items[0].id !in seen;
            && (FirstFresh(items, seen, 0) <==> unseen)
            && (FirstFresh(items, seen, i + 1) <==>
                FirstFresh(items[1..], if unseen then seen + {items[0].id} else seen, i))
  {
    if i < |items[1..]| {
      assert items[1..][i] == items[i + 1];
      forall j | 0 <= j < i ensures items[1..][j] == items[j + 1] {}
    }
  }

  lemma FreshBehind(items: seq<Item>, seen: set<Id>, rest: seq<nat>)
    requires items != [] && items[0].Row?
    requires var unseen := IsFinished(items[0]) && items[0].id !in seen;
             AreFresh(items[1..], if unseen then seen + {items[0].id} else seen, rest)
    ensures AreFresh(items, seen, if IsFinished(items[0]) && items[0].id !in seen then [0] + Shifted(rest, 1)
                                  else Shifted(rest, 1))
  {
    var unseen := IsFinished(items[0]) && items[0].id !in seen;
    var at := if unseen then [0] + Shifted(rest, 1) else Shifted(rest, 1);
    forall i: nat ensures i in at <==> FirstFresh(items, seen, i) {
      ShiftedHas(rest, 1, i);
      FirstFreshBehind(items, seen, if i > 0 then i - 1 else 0);
    }
  }

  lemma StandBehind(items: seq<Item>, rest: seq<nat>, recs: seq<Record>)
    requires items != [] && items[0].Row? && StandAt(items[1..], rest, recs)
    ensures StandAt(items, Shifted(rest, 1), recs)
    ensures StandAt(items, [0] + Shifted(rest, 1), [RecordOf(items[0])] + recs)
  {
    forall k | 0 <= k < |rest| ensures items[rest[k] + 1] == items[1..][rest[k]] {}
  }

  /** The loop collects the first fresh rows, in the order of the listing. */
  lemma {:induction false} CollectsInOrder(items: seq<Item>, seen: set<Id>) returns (at: seq<nat>)
    ensures InListingOrder(items, seen, at, Collect(items, seen).1)
    decreases |items|
  {
    if items == [] || items[0].Malformed? {
      at := [];
      forall i: nat ensures !FirstFresh(items, seen, i) {}
    } else {
      var unseen := IsFinished(items[0]) && items[0].id !in seen;
      var seen' := if unseen then seen + {items[0].id} else seen;
      var rest := CollectsInOrder(items[1..], seen');
      IncreasingBehind(rest);
      FreshBehind(items, seen, rest);
      StandBehind(items, rest, Collect(items[1..], seen').1);
      at := if unseen then [0] + Shifted(rest, 1) else Shifted(rest, 1);
    }
  }

  lemma {:induction false} CollectAppend(a: seq<Item>, b: seq<Item>, seen: set<Id>)
    requires Malformed !in a
    ensures var c, d := Collect(a, seen), Collect(b, Collect(a, seen).0);
            var all := Collect(a + b, seen);
            c.2 && all.0 == d.0 && all.1 == c.1 + d.1 && all.2 == d.2
    decreases |a|
  {
    if a == [] {
      assert a + b == b;
    } else {
      assert (a + b)[1..] == a[1..] + b;
      var unseen := IsFinished(a[0]) && a[0].id !in seen;
      var seen' := if unseen then seen + {a[0].id} else seen;
      CollectAppend(a[1..], b, seen');
      if unseen {
        var c, d := Collect(a[1..], seen').1, Collect(b, Collect(a, seen).0).1;
        assert [RecordOf(a[0])] + (c + d) == ([RecordOf(a[0])] + c) + d;
      }
    }
  }

  lemma IdsOfCons(r: Record, rs: seq<Record>)
    ensures IdsOf([r] + rs) == {r.id} + IdsOf(rs)
  {
    assert forall x :: x in [r] + rs <==> x == r || x in rs;
  }

  lemma IdsOfAppend(a: seq<Record>, b: seq<Record>)
    ensures IdsOf(a + b) == IdsOf(a) + IdsOf(b)
  {
    assert forall x :: x in a + b <==> x in a || x in b;
  }

  // ---- nothing is lost unless an exception destroys it, nothing comes twice

  /** The records whose id is not among `gone`. */
  function Surviving(rs: seq<Record>, gone: set<Id>): seq<Record> {
    if rs == [] then []
    else if rs[0].id in gone then Surviving(rs[1..], gone)
    else [rs[0]] + Surviving(rs[1..], gone)
  }

  lemma {:induction false} SurvivingAppend(a: seq<Record>, b: seq<Record>, gone: set<Id>)
    ensures Surviving(a + b, gone) == Surviving(a, gone) + Surviving(b, gone)
  {
    if a == [] {
      assert a + b == b;
    } else {
      assert (a + b)[1..] == a[1..] + b;
      SurvivingAppend(a[1..], b, gone);
    }
  }

  lemma {:induction false} SurvivingAll(rs: seq<Record>, gone: set<Id>)
    requires IdsOf(rs) !! gone
    ensures Surviving(rs, gone) == rs
  {
    if rs != [] {
      assert rs[0].id in IdsOf(rs);
      assert IdsOf(rs[1..]) <= IdsOf(rs);
      SurvivingAll(rs[1..], gone);
    }
  }

  lemma {:induction false} SurvivingNone(rs: seq<Record>, gone: set<Id>)
    requires IdsOf(rs) <= gone
    ensures Surviving(rs, gone) == []
  {
    if rs != [] {
      assert rs[0].id in IdsOf(rs);
      assert IdsOf(rs[1..]) <= IdsOf(rs);
      SurvivingNone(rs[1..], gone);
    }
  }

  lemma {:induction false} SurvivingTwice(rs: seq<Record>, a: set<Id>, b: set<Id>)
    ensures Surviving(Surviving(rs, a), b) == Surviving(rs, a + b)
  {
    if rs != [] {
      SurvivingTwice(rs[1..], a, b);
    }
  }

  lemma {:induction false} SurvivingSubset(rs: seq<Record>, gone: set<Id>)
    ensures IdsOf(Surviving(rs, gone)) == IdsOf(rs) - gone
    ensures DistinctRecords(rs) ==> DistinctRecords(Surviving(rs, gone))
  {
    if rs != [] {
      var rest := Surviving(rs[1..], gone);
      SurvivingSubset(rs[1..], gone);
      assert rs == [rs[0]] + rs[1..];
      IdsOfCons(rs[0], rs[1..]);
      IdsOfCons(rs[0], rest);
      if DistinctRecords(rs) {
        forall r | r in rest ensures r.id != rs[0].id {
          assert r.id in IdsOf(rest);
          var x :| x in rs[1..] && x.id == r.id;
        }
      }
    }
  }

  /** The ids whose record an exception destroyed. */
  function Lost(s: State): set<Id> {
    IdsOf(s.destroyed)
  }

  /** While nothing was evicted: the loop remembers exactly what it collected, each id
      once, and what was prompted followed by what waits in the file is what was
      collected, in order, except the records exceptions destroyed. */
  ghost predicate Accounted(s: State) {
    && s.seen == IdsOf(s.collected) && DistinctRecords(s.collected)
    && s.prompted + InFile(s) == Surviving(s.collected, Lost(s))
    && Lost(s) <= s.seen
  }

  /** A poll collects records with ids not collected before. */
  lemma CollectedStaysDistinct(s: State, items: seq<Item>)
    requires Accounted(s)
    ensures var recs := Collect(items, s.seen).1;
            && DistinctRecords(s.collected + recs) && IdsOf(s.collected + recs) == s.seen + IdsOf(recs)
            && IdsOf(recs) !! Lost(s) && IdsOf(recs) !! s.seen && Collect(items, s.seen).0 == s.seen + IdsOf(recs)
  {
    var recs := Collect(items, s.seen).1;
    CollectFacts(items, s.seen);
    IdsOfAppend(s.collected, recs);
    forall r, n | r in s.collected && n in recs ensures r.id != n.id {
      assert r.id in IdsOf(s.collected) && n.id in IdsOf(recs);
    }
  }

  /** New records survive if they are written and do not if they are lost. */
  lemma SurvivingGrows(old': seq<Record>, recs: seq<Record>, lost: set<Id>)
    requires IdsOf(recs) !! lost && IdsOf(recs) !! IdsOf(old')
    ensures Surviving(old' + recs, lost) == Surviving(old', lost) + recs
    ensures Surviving(old' + recs, lost + IdsOf(recs)) == Surviving(old', lost)
  {
    SurvivingAppend(old', recs, lost);
    SurvivingAll(recs, lost);
    SurvivingAppend(old', recs, lost + IdsOf(recs));
    SurvivingNone(recs, lost + IdsOf(recs));
    SurvivingTwice(old', lost, IdsOf(recs));
    SurvivingSubset(old', lost);
    SurvivingAll(Surviving(old', lost), IdsOf(recs));
  }

  lemma StoredAccounts(s: State, recs: seq<Record>, ok: bool)
    requires Accounted(s) && IdsOf(recs) !! s.seen && DistinctRecords(s.collected + recs)
    requires IdsOf(s.collected + recs) == s.seen + IdsOf(recs)
    ensures Accounted(Stored(s, recs, ok).(seen := s.seen + IdsOf(recs)))
  {
    SurvivingGrows(s.collected, recs, Lost(s));
    IdsOfAppend(s.destroyed, recs);
    if recs == [] {
      assert IdsOf(recs) == {};
    } else if ok {
      assert s.prompted + (InFile(s) + recs) == (s.prompted + InFile(s)) + recs;
    }
  }

  lemma PollAccounts(s: State, items: seq<Item>, writes: bool, clock: real, s': State)
    requires Accounted(s) && Poll(s, items, writes, clock, s') && |Collect(items, s.seen).0| <= MAX_SEEN_DELEGATION_IDS
    ensures Accounted(s') && s'.seen == s.seen + IdsOf(Collect(items, s.seen).1)
  {
    CollectedStaysDistinct(s, items);
    StoredAccounts(s, Collect(items, s.seen).1, Collect(items, s.seen).2 && writes);
    TimeIsNoAccount(Stored(s, Collect(items, s.seen).1, Collect(items, s.seen).2 && writes).(seen := s'.seen), s');
  }

  lemma TimeIsNoAccount(s: State, s': State)
    requires Accounted(s) && s' == s.(last := s'.last, sentAt := s'.sentAt)
    ensures Accounted(s')
  {
  }

  /** Without the records of the file only those prompted survive. */
  lemma FileIsDestroyed(collected: seq<Record>, lost: set<Id>, prompted: seq<Record>, f: seq<Record>)
    requires DistinctRecords(collected) && prompted + f == Surviving(collected, lost)
    ensures Surviving(collected, lost + IdsOf(f)) == prompted
    ensures IdsOf(f) <= IdsOf(collected)
  {
    SurvivingSubset(collected, lost);
    SurvivingTwice(collected, lost, IdsOf(f));
    SurvivingAppend(prompted, f, IdsOf(f));
    SurvivingNone(f, IdsOf(f));
    IdsOfAppend(prompted, f);
    FrontIsOther(prompted, f);
    SurvivingAll(prompted, IdsOf(f));
    assert prompted + [] == prompted;
  }

  lemma FrontIsOther(a: seq<Record>, b: seq<Record>)
    requires DistinctRecords(a + b)
    ensures IdsOf(a) !! IdsOf(b)
  {
    forall r, n | r in a && n in b ensures r.id != n.id {
      var i :| 0 <= i < |a| && a[i] == r;
      var j :| 0 <= j < |b| && b[j] == n;
      assert (a + b)[i] == r && (a + b)[|a| + j] == n;
    }
  }

  lemma ReadAccounts(s: State, o: ReadOutcome)
    requires Accounted(s)
    ensures Accounted(Read(s, o))
  {
    if s.file.Some? && !o.RenameFailed? && (o.ReadFailed? || !Formats(s.file.value)) {
      IdsOfAppend(s.destroyed, s.file.value);
      FileIsDestroyed(s.collected, Lost(s), s.prompted, s.file.value);
      assert s.prompted + [] == s.prompted;
    }
  }

  lemma StepAccounts(s: State, e: Event, s': State, past: set<Id>)
    requires Accounted(s) && Step(s, e, s')
    requires s.seen <= past && |past + Shown(e)| <= MAX_SEEN_DELEGATION_IDS
    ensures Accounted(s') && s'.seen <= past + Shown(e)
    ensures s.seen == past && Smooth(e) ==> s'.seen == past + Shown(e)
  {
    match e
    case Polling(items, writes, clock) =>
      CollectFacts(items, s.seen);
      SubsetSize(Collect(items, s.seen).0, past + Shown(e));
      PollAccounts(s, items, writes, clock, s');
    case Reading(o) => ReadAccounts(s, o);
  }

  /** At most 200 distinct finished ids: then nothing is ever evicted, whatever fails. */
  lemma {:induction false} RunAccounts(run: seq<State>, events: seq<Event>, k: nat)
    requires IsRun(run, events) && k <= |events| && |Listed(events, k)| <= MAX_SEEN_DELEGATION_IDS
    ensures Accounted(run[k]) && run[k].seen <= Listed(events, k)
    ensures (forall i :: 0 <= i < k ==> Smooth(events[i])) ==> run[k].seen == Listed(events, k)
    decreases k
  {
    if k > 0 {
      SubsetSize(Listed(events, k - 1), Listed(events, k));
      RunAccounts(run, events, k - 1);
      var s, e, s' := run[k - 1], events[k - 1], run[k - 1 + 1];
      assert Step(s, e, s');
      StepAccounts(s, e, s', Listed(events, k - 1));
    }
  }

  lemma {:induction false} SubsetSize(a: set<Id>, b: set<Id>)
    requires a <= b
    ensures |a| <= |b|
  {
    if a != {} {
      var x :| x in a;
      SubsetSize(a - {x}, b - {x});
    }
  }

  /** Over smooth steps the previews in the file can be formatted. */
  lemma {:induction false} FileFormats(run: seq<State>, events: seq<Event>, k: nat)
    requires IsRun(run, events) && k <= |events| && forall i :: 0 <= i < k ==> Smooth(events[i])
    ensures Formats(InFile(run[k]))
    decreases k
  {
    if k > 0 {
      FileFormats(run, events, k - 1);
      var s, e, s' := run[k - 1], events[k - 1], run[k - 1 + 1];
      assert Step(s, e, s');
      if e.Polling? { CollectedRows(e.items, s.seen); }
    }
  }

  /** A step destroys records if and only if it is a poll that found fresh rows and then met
      a malformed item or could not write the file, or a read that took a file with records
      and could not read it or met a preview it cannot cut to length. */
  lemma LosesIff(s: State, e: Event, s': State)
    requires Step(s, e, s')
    ensures |s.destroyed| <= |s'.destroyed| && (s'.destroyed != s.destroyed <==> Destroys(s, e))
  {
    if e.Polling? {
      CollectFacts(e.items, s.seen);
      CollectsFresh(e.items, s.seen);
    }
  }

  ghost predicate NoneDestroys(run: seq<State>, events: seq<Event>, k: nat)
    requires k <= |events| && k <= |run|
  {
    k == 0 || (NoneDestroys(run, events, k - 1) && !Destroys(run[k - 1], events[k - 1]))
  }

  lemma {:induction false} NoneDestroysMeans(run: seq<State>, events: seq<Event>, k: nat)
    requires k <= |events| && k <= |run|
    ensures NoneDestroys(run, events, k) <==> forall i :: 0 <= i < k ==> !Destroys(run[i], events[i])
  {
    if k > 0 { NoneDestroysMeans(run, events, k - 1); }
  }

  lemma {:induction false} NothingLostUpTo(run: seq<State>, events: seq<Event>, k: nat)
    requires IsRun(run, events) && k <= |events|
    ensures run[k].destroyed == [] <==> NoneDestroys(run, events, k)
    decreases k
  {
    if k > 0 {
      NothingLostUpTo(run, events, k - 1);
      LosesAt(run, events, k - 1, k);
    }
  }

  lemma LosesAt(run: seq<State>, events: seq<Event>, i: nat, k: nat)
    requires IsRun(run, events) && k == i + 1 <= |events|
    ensures |run[i].destroyed| <= |run[k].destroyed| &&
            (run[k].destroyed != run[i].destroyed <==> Destroys(run[i], events[i]))
  {
    assert Step(run[i], events[i], run[i + 1]);
    LosesIff(run[i], events[i], run[i + 1]);
  }

  /** Over any run: no record is ever destroyed if and only if no step is of a destroying
      kind. */
  lemma NothingLostIff(run: seq<State>, events: seq<Event>, k: nat)
    requires IsRun(run, events) && k <= |events|
    ensures run[k].destroyed == [] <==> forall i :: 0 <= i < k ==> !Destroys(run[i], events[i])
  {
    NothingLostUpTo(run, events, k);
    NoneDestroysMeans(run, events, k);
  }

  lemma SmoothDestroysNothing(run: seq<State>, events: seq<Event>, i: nat)
    requires IsRun(run, events) && i < |events| && forall k :: 0 <= k <= i ==> Smooth(events[k])
    ensures !Destroys(run[i], events[i])
  {
    FileFormats(run, events, i);
  }

  /** All the listings among the first `k` events, one after the other. */
  function AllItems(events: seq<Event>, k: nat): seq<Item>
    requires k <= |events|
  {
    if k == 0 then []
    else AllItems(events, k - 1) + if events[k - 1].Polling? then events[k - 1].items else []
  }

  /** The loop remembers and has collected what one poll of these items would. */
  ghost predicate LikeOne(s: State, items: seq<Item>) {
    Malformed !in items && Collect(items, {}).0 == s.seen && Collect(items, {}).1 == s.collected
  }

  lemma StepLikeOne(s: State, e: Event, s': State, items: seq<Item>, all: set<Id>)
    requires Step(s, e, s') && Smooth(e) && LikeOne(s, items)
    requires s.seen <= all && Shown(e) <= all && |all| <= MAX_SEEN_DELEGATION_IDS
    ensures LikeOne(s', items + if e.Polling? then e.items else [])
  {
    if e.Polling? {
      CollectAppend(items, e.items, {});
      CollectFacts(e.items, s.seen);
      SubsetSize(Collect(e.items, s.seen).0, all);
    } else {
      assert items + [] == items;
    }
  }

  /** Over smooth steps and at most 200 finished ids, so it is with all listings so far. */
  lemma {:induction false} CollectedLikeOne(run: seq<State>, events: seq<Event>, k: nat)
    requires IsRun(run, events) && k <= |events| && |Listed(events, k)| <= MAX_SEEN_DELEGATION_IDS
    requires forall i :: 0 <= i < k ==> Smooth(events[i])
    ensures LikeOne(run[k], AllItems(events, k))
    decreases k
  {
    if k > 0 {
      var i, all := k - 1, Listed(events, k);
      SubsetSize(Listed(events, i), all);
      CollectedLikeOne(run, events, i);
      RunAccounts(run, events, i);
      assert Step(run[i], events[i], run[i + 1]);
      StepLikeOne(run[i], events[i], run[i + 1], AllItems(events, i), all);
    }
  }

  /** Exactly one prompt for each finished delegation.  Over any interleaving of polls and
      reads without exceptions and with at most 200 distinct finished ids, the records
      prompted followed by those in the file are the records as first collected: one for
      each finished id ever listed, each once; they stand at the places `at` of all listings
      put together, in that order, which are those where a finished id is first shown. */
  lemma ExactlyOnce(run: seq<State>, events: seq<Event>) returns (at: seq<nat>)
    requires IsRun(run, events) && |Listed(events, |events|)| <= MAX_SEEN_DELEGATION_IDS
    requires forall i :: 0 <= i < |events| ==> Smooth(events[i])
    ensures var s := run[|events|];
            && s.prompted + InFile(s) == s.collected
            && DistinctRecords(s.collected) && IdsOf(s.collected) == Listed(events, |events|)
            && InListingOrder(AllItems(events, |events|), {}, at, s.collected)
  {
    RunAccounts(run, events, |events|);
    forall i | 0 <= i < |events| ensures !Destroys(run[i], events[i]) { SmoothDestroysNothing(run, events, i); }
    NothingLostIff(run, events, |events|);
    CleanAccount(run[|events|]);
    CollectedLikeOne(run, events, |events|);
    at := CollectsInOrder(AllItems(events, |events|), {});
  }

  /** In any run, each poll adds the records of the listing's first fresh rows to those
      collected, in the order of the listing, and a read adds none. */
  lemma PollCollectsInOrder(run: seq<State>, events: seq<Event>, k: nat) returns (recs: seq<Record>, at: seq<nat>)
    requires IsRun(run, events) && k < |events|
    ensures run[k + 1].collected == run[k].collected + recs
    ensures if events[k].Polling? then InListingOrder(events[k].items, run[k].seen, at, recs) else recs == []
  {
    assert Step(run[k], events[k], run[k + 1]);
    at, recs := [], [];
    if events[k].Polling? {
      recs := Collect(events[k].items, run[k].seen).1;
      at := CollectsInOrder(events[k].items, run[k].seen);
    }
  }

  /** In any run, a step sends a self-message if and only if it is a poll without malformed
      items that finds a fresh row, can write the file and can summarise every first fresh
      row, and the last self-message is at least 60 seconds old. */
  lemma SendsIff(run: seq<State>, events: seq<Event>, k: nat)
    requires IsRun(run, events) && k < |events|
    ensures var s, e, s' := run[k], events[k], run[k + 1];
            && (s'.sentAt != s.sentAt <==>
                && e.Polling? && e.writes && Malformed !in e.items && (exists i :: FirstFresh(e.items, s.seen, i))
                && (forall i :: FirstFresh(e.items, s.seen, i) ==>
                      var d := e.items[i].details;
                      d.summary.Sliceable? && !d.preview.Opaque? && !d.error.Opaque?)
                && e.clock - s.last >= SELF_MESSAGE_COOLDOWN)
            && (s'.sentAt != s.sentAt ==> s'.sentAt == s.sentAt + [e.clock])
  {
    var s, e := run[k], events[k];
    assert Step(s, e, run[k + 1]);
    if e.Polling? {
      CollectFacts(e.items, s.seen);
      var at := CollectsInOrder(e.items, s.seen);
      FreshRows(e.items, s.seen, at, Collect(e.items, s.seen).1);
    }
  }

  lemma FreshRows(items: seq<Item>, seen: set<Id>, at: seq<nat>, recs: seq<Record>)
    requires InListingOrder(items, seen, at, recs)
    ensures recs == [] <==> forall i :: !FirstFresh(items, seen, i)
    ensures (forall r :: r in recs ==> Summarised(r)) <==>
            forall i :: FirstFresh(items, seen, i) ==> Summarised(RecordOf(items[i]))
  {
    forall i | FirstFresh(items, seen, i) ensures recs != [] && RecordOf(items[i]) in recs {
      assert i in at;
      var k :| 0 <= k < |at| && at[k] == i;
      assert recs[k] == RecordOf(items[i]);
    }
    if recs != [] { assert at[0] in at; }
    if forall i :: FirstFresh(items, seen, i) ==> Summarised(RecordOf(items[i])) {
      forall r | r in recs ensures Summarised(r) {
        var k :| 0 <= k < |recs| && recs[k] == r;
        assert at[k] in at;
        assert FirstFresh(items, seen, at[k]);
      }
    }
  }

  lemma CleanAccount(s: State)
    requires Accounted(s) && s.destroyed == []
    ensures s.prompted + InFile(s) == s.collected && IdsOf(s.collected) == s.seen
  {
    assert Lost(s) == {};
    SurvivingAll(s.collected, {});
  }

  // ---- beyond 200 ids

  /** Every id the loop remembers has been written. */
  ghost predicate Delivered(s: State) {
    s.seen <= IdsOf(s.prompted + InFile(s))
  }

  /** Even with evictions nothing is missed: without exceptions every finished delegation
      a poll lists has been prompted or is in the file.  (It may come again once evicted.) */
  lemma {:induction false} AtLeastOnce(run: seq<State>, events: seq<Event>, k: nat)
    requires IsRun(run, events) && k <= |events| && forall i :: 0 <= i < k ==> Smooth(events[i])
    ensures Delivered(run[k]) && Listed(events, k) <= IdsOf(run[k].prompted + InFile(run[k]))
    decreases k
  {
    if k > 0 {
      AtLeastOnce(run, events, k - 1);
      FileFormats(run, events, k - 1);
      var s, e, s' := run[k - 1], events[k - 1], run[k - 1 + 1];
      assert Step(s, e, s');
      SmoothStepDelivers(s, e, s');
    }
  }

  lemma SmoothStepDelivers(s: State, e: Event, s': State)
    requires Delivered(s) && Smooth(e) && Formats(InFile(s)) && Step(s, e, s')
    ensures Delivered(s') && IdsOf(s.prompted + InFile(s)) <= IdsOf(s'.prompted + InFile(s'))
    ensures e.Polling? ==> FinishedIn(e.items) <= IdsOf(s'.prompted + InFile(s'))
  {
    match e
    case Polling(items, writes, clock) =>
      CollectFacts(items, s.seen);
      var recs := Collect(items, s.seen).1;
      var all := s.prompted + InFile(s);
      assert s.prompted + (InFile(s) + recs) == all + recs;
      IdsOfAppend(all, recs);
      if recs == [] { assert all + recs == all; }
      assert s'.prompted + InFile(s') == all + recs;
    case Reading(o) =>
      assert s'.prompted + InFile(s') == s.prompted + InFile(s);
  }

  ghost predicate Repeats(s: State, e: Event) {
    e.Polling? && !(FreshIn(e.items, s.seen) !! IdsOf(s.collected))
  }

  /** A finished delegation is collected a second time if and only if a poll lists it, before
      any malformed item, after the loop has forgotten it. */
  lemma ForgottenComesAgain(s: State, e: Event, s': State)
    requires DistinctRecords(s.collected) && Step(s, e, s')
    ensures DistinctRecords(s'.collected) <==> !Repeats(s, e)
  {
    if e.Polling? {
      var recs := Collect(e.items, s.seen).1;
      CollectFacts(e.items, s.seen);
      CollectsFresh(e.items, s.seen);
      DistinctAppend(s.collected, recs);
      if recs == [] { assert s.collected + recs == s.collected; }
    }
  }

  lemma DistinctAppend(a: seq<Record>, b: seq<Record>)
    requires DistinctRecords(a) && DistinctRecords(b)
    ensures DistinctRecords(a + b) <==> IdsOf(a) !! IdsOf(b)
  {
    if id :| id in IdsOf(a) && id in IdsOf(b) {
      var x :| x in a && x.id == id;
      var y :| y in b && y.id == id;
      var i :| 0 <= i < |a| && a[i] == x;
      var j :| 0 <= j < |b| && b[j] == y;
      assert (a + b)[i] == x && (a + b)[|a| + j] == y;
    } else {
      forall x, y | x in a && y in b ensures x.id != y.id {
        assert x.id in IdsOf(a) && y.id in IdsOf(b);
      }
    }
  }

  lemma CollectedGrows(s: State, e: Event, s': State)
    requires Step(s, e, s')
    ensures |s.collected| <= |s'.collected| && s'.collected[..|s.collected|] == s.collected
  {
  }

  lemma {:induction false} NoRepeatsIff(run: seq<State>, events: seq<Event>, k: nat)
    requires IsRun(run, events) && k <= |events|
    ensures DistinctRecords(run[k].collected) <==> forall i :: 0 <= i < k ==> !Repeats(run[i], events[i])
    decreases k
  {
    if k > 0 {
      NoRepeatsIff(run, events, k - 1);
      var s, e, s' := run[k - 1], events[k - 1], run[k - 1 + 1];
      assert Step(s, e, s');
      if DistinctRecords(s.collected) {
        ForgottenComesAgain(s, e, s');
      } else {
        CollectedGrows(s, e, s');
        var i, j :| 0 <= i < j < |s.collected| && s.collected[i].id == s.collected[j].id;
        assert s'.collected[..|s.collected|][i] == s'.collected[i] &&
            s'.collected[..|s.collected|][j] == s'.collected[j];
      }
    }
  }

  /** It does happen: whatever hundred ids the first eviction takes, any well-formed listing
      of more than 200 finished delegations, polled twice, brings some a second time. */
  lemma LongListComesAgain(run: seq<State>, items: seq<Item>, first: real, second: real)
    requires IsRun(run, [Polling(items, true, first), Polling(items, true, second)])
    requires Malformed !in items && |FinishedIn(items)| > MAX_SEEN_DELEGATION_IDS
    ensures !DistinctRecords(run[2].collected)
  {
    var events := [Polling(items, true, first), Polling(items, true, second)];
    assert Step(run[0], events[0], run[0 + 1]) && Step(run[1], events[1], run[1 + 1]);
    FrontOfWhole(items);
    CollectFacts(items, {});
    CollectsFresh(items, {});
    var s := run[1];
    assert s.collected == Collect(items, {}).1;
    assert IdsOf(s.collected) == FinishedIn(items);
    assert |s.seen| < |FinishedIn(items)| && s.seen <= FinishedIn(items);
    var id := MissedBy(FinishedIn(items), s.seen);
    assert id in FreshIn(items, s.seen) && id in IdsOf(s.collected);
    assert Repeats(run[1], events[1]);
    NoRepeatsIff(run, events, 2);
  }

  lemma MissedBy(a: set<Id>, b: set<Id>) returns (id: Id)
    requires |b| < |a|
    ensures id in a && id !in b
  {
    if a <= b { SubsetSize(a, b); }
    id :| id in a && id !in b;
  }

  /** Nothing makes the half that stays the most recent one: whenever a poll with at most a
      hundred fresh rows makes the loop evict, it may forget exactly those rows. */
  lemma EvictionMayForgetTheNewest(s: State, items: seq<Item>, writes: bool, clock: real) returns (s': State)
    requires Malformed !in items && 0 < |FreshIn(items, s.seen)| <= MAX_SEEN_DELEGATION_IDS / 2
    requires |s.seen + FreshIn(items, s.seen)| > MAX_SEEN_DELEGATION_IDS
    ensures Poll(s, items, writes, clock, s') && s'.seen !! FreshIn(items, s.seen)
    ensures FreshIn(items, s'.seen) >= FreshIn(items, s.seen)
  {
    CollectFacts(items, s.seen);
    CollectsFresh(items, s.seen);
    var news, c := FreshIn(items, s.seen), Collect(items, s.seen);
    var more := SubsetOfSize(s.seen, MAX_SEEN_DELEGATION_IDS / 2 - |news|);
    var kept := s.seen - more;
    assert c.0 == s.seen + news && s.seen !! news;
    var sends := Sends(s, items, writes, clock);
    s' := Stored(s, c.1, c.2 && writes)
            .(seen := kept, last := if sends then clock else s.last,
              sentAt := if sends then s.sentAt + [clock] else s.sentAt);
  }

  lemma {:induction false} SubsetOfSize(s: set<Id>, n: nat) returns (t: set<Id>)
    requires n <= |s|
    ensures t <= s && |t| == n
    decreases n
  {
    if n == 0 {
      t := {};
    } else {
      var x :| x in s;
      var r := SubsetOfSize(s - {x}, n - 1);
      t := r + {x};
    }
  }

  // ---- how much the loop remembers

  /** What a poll would have the loop remember before it evicts. */
  function Met(s: State, items: seq<Item>): nat {
    |s.seen| + |FreshIn(items, s.seen)|
  }

  /** After the poll the loop remembers more than 200 ids. */
  predicate Overfills(s: State, e: Event) {
    e.Polling? && Met(s, e.items) > if Malformed in e.items then MAX_SEEN_DELEGATION_IDS
                                    else MAX_SEEN_DELEGATION_IDS + MAX_SEEN_DELEGATION_IDS / 2
  }

  /** A poll leaves more than 200 ids if and only if it meets more than 300, or more than 200
      and a malformed item, which ends it before it evicts. */
  lemma LeavesTooManyIff(s: State, e: Event, s': State)
    requires Step(s, e, s') && |s.seen| <= MAX_SEEN_DELEGATION_IDS
    ensures |s'.seen| > MAX_SEEN_DELEGATION_IDS <==> Overfills(s, e)
  {
    if e.Polling? {
      CollectFacts(e.items, s.seen);
      CollectsFresh(e.items, s.seen);
      assert Collect(e.items, s.seen).0 == s.seen + FreshIn(e.items, s.seen);
    }
  }

  /** Over every run: the loop never remembers more than 200 ids if and only if no poll
      overfills it. */
  lemma {:induction false} SeenStaysBounded(run: seq<State>, events: seq<Event>, k: nat)
    requires IsRun(run, events) && k <= |events|
    ensures (forall i :: 0 <= i <= k ==> |run[i].seen| <= MAX_SEEN_DELEGATION_IDS) <==>
            (forall i :: 0 <= i < k ==> !Overfills(run[i], events[i]))
    decreases k
  {
    if k > 0 {
      SeenStaysBounded(run, events, k - 1);
      var s, e, s' := run[k - 1], events[k - 1], run[k - 1 + 1];
      assert Step(s, e, s');
      if |s.seen| <= MAX_SEEN_DELEGATION_IDS { LeavesTooManyIff(s, e, s'); }
    }
  }

  /** So it is when every listing is well-formed and brings at most 100 fresh ids. */
  lemma HundredAtATime(run: seq<State>, events: seq<Event>, k: nat)
    requires IsRun(run, events) && k <= |events|
    requires forall i :: 0 <= i < k && events[i].Polling? ==>
               Malformed !in events[i].items && |FreshIn(events[i].items, run[i].seen)| <= MAX_SEEN_DELEGATION_IDS / 2
    ensures |run[k].seen| <= MAX_SEEN_DELEGATION_IDS
    decreases k
  {
    if k > 0 {
      HundredAtATime(run, events, k - 1);
      var s, e, s' := run[k - 1], events[k - 1], run[k - 1 + 1];
      assert Step(s, e, s');
      LeavesTooManyIff(s, e, s');
    }
  }

  /** Without the first premise there is no bound: `n` polls, each of one fresh row and a
      malformed item, make the loop remember `n` ids. */
  lemma MalformedTailsFill(n: nat) returns (run: seq<State>, events: seq<Event>)
    ensures IsRun(run, events) && |events| == n && |run[n].seen| == n
    ensures NoneFrom(run[n].seen, n) && forall i :: 0 <= i < n ==> events[i] == NamePoll(i)
    decreases n
  {
    if n == 0 {
      run, events := [Initial], [];
    } else {
      var run', events' := MalformedTailsFill(n - 1);
      var s' := OneMoreName(run'[n - 1], n - 1);
      run, events := run' + [s'], events' + [NamePoll(n - 1)];
    }
  }

  function NamePoll(k: nat): Event {
    Polling([Named(k), Malformed], true, 0.0)
  }

  ghost predicate NoneFrom(seen: set<Id>, n: nat) {
    forall i :: i >= n ==> Name(i) !in seen
  }

  lemma OneMoreName(s: State, n: nat) returns (s': State)
    requires |s.seen| == n && NoneFrom(s.seen, n)
    ensures Step(s, NamePoll(n), s') && |s'.seen| == n + 1 && NoneFrom(s'.seen, n + 1)
  {
    OneThenMalformed(n, s.seen);
    s' := Stored(s, [Record(Name(n), "completed", Blank)], false).(seen := s.seen + {Name(n)});
    forall i | i >= n + 1 ensures Name(i) !in s'.seen { NamesDiffer(i, n); }
  }

  lemma OneThenMalformed(k: nat, seen: set<Id>)
    requires Name(k) !in seen
    ensures Collect([Named(k), Malformed], seen) == (seen + {Name(k)}, [Record(Name(k), "completed", Blank)], false)
  {
    var items := [Named(k), Malformed];
    assert items[1..] == [Malformed];
    assert Collect([Malformed], seen + {Name(k)}) == (seen + {Name(k)}, [], false);
    var r := Record(Name(k), "completed", Blank);
    assert [r] + [] == [r];
  }

  const Blank := Details(Sliceable(""), Sliceable(""), Sliceable(""))

  function Name(k: nat): Id {
    seq(k + 1, _ => 'x')
  }

  function Named(k: nat): Item {
    Row(Name(k), "completed", Blank)
  }

  lemma NamesDiffer(i: nat, j: nat)
    requires i != j
    ensures Name(i) != Name(j)
  {
    assert |Name(i)| != |Name(j)|;
  }

  // ---- the cool-down between self-messages

  /** The last self-message is the last one noted, and any two are as far apart as the
      cool-down times the number of steps between them. */
  ghost predicate Apart(s: State) {
    && s.last == (if s.sentAt == [] then 0.0 else s.sentAt[|s.sentAt| - 1])
    && forall i, j :: 0 <= i <= j < |s.sentAt| ==> s.sentAt[j] - s.sentAt[i] >= SELF_MESSAGE_COOLDOWN * (j - i) as real
  }

  /** Over every run, whatever the clock does, self-messages i and j are at least 60 (j - i)
      seconds apart. */
  lemma {:induction false} SentBetween(run: seq<State>, events: seq<Event>, k: nat)
    requires IsRun(run, events) && k <= |events|
    ensures Apart(run[k])
    decreases k
  {
    if k > 0 {
      SentBetween(run, events, k - 1);
      var s, e, s' := run[k - 1], events[k - 1], run[k - 1 + 1];
      assert Step(s, e, s');
      if s'.sentAt != s.sentAt { OneMessageMore(s, s', e.clock); }
    }
  }

  lemma OneMessageMore(s: State, s': State, clock: real)
    requires Apart(s) && clock - s.last >= SELF_MESSAGE_COOLDOWN
    requires s'.sentAt == s.sentAt + [clock] && s'.last == clock
    ensures Apart(s')
  {
    var n := |s.sentAt|;
    forall i, j | 0 <= i <= j < |s'.sentAt|
      ensures s'.sentAt[j] - s'.sentAt[i] >= SELF_MESSAGE_COOLDOWN * (j - i) as real
    {
      if i < j == n {
        assert s.sentAt[n - 1] - s.sentAt[i] >= SELF_MESSAGE_COOLDOWN * (n - 1 - i) as real;
        assert (j - i) as real == (n - 1 - i) as real + 1.0;
      }
    }
  }

  /** Over every run, the self-messages i to j inside a window of w seconds are at most
      floor(w/60) + 1. */
  lemma WindowHoldsFew(run: seq<State>, events: seq<Event>, k: nat, i: nat, j: nat, from: real, w: real)
    requires IsRun(run, events) && k <= |events|
    requires i <= j < |run[k].sentAt| && w >= 0.0
    requires from <= run[k].sentAt[i] && run[k].sentAt[j] <= from + w
    ensures j - i + 1 <= (w / SELF_MESSAGE_COOLDOWN).Floor + 1
  {
    SentBetween(run, events, k);
    assert (j - i) as real <= w / SELF_MESSAGE_COOLDOWN;
  }

  // ---- the code

  /** Python's `list(s)`: the elements in some order. */
  method ListOf(s: set<Id>) returns (l: seq<Id>)
    ensures Distinct(l) && |l| == |s| && forall x :: x in l <==> x in s
  {
    l := [];
    var rest := s;
    while rest != {}
      invariant rest <= s && |l| + |rest| == |s| && Distinct(l)
      invariant forall x :: x in l <==> x in s && x !in rest
      decreases |rest|
    {
      var x :| x in rest;
      l, rest := l + [x], rest - {x};
    }
  }

  lemma {:induction false} DistinctSize(l: seq<Id>)
    requires Distinct(l)
    ensures |set x | x in l| == |l|
  {
    var s := set x | x in l;
    if l != [] {
      DistinctSize(l[1..]);
      assert l == [l[0]] + l[1..];
      assert s == (set x | x in l[1..]) + {l[0]};
    } else {
      assert s == {};
    }
  }

  class HeartbeatLoop {
    var seenDelegationIds: set<Id>
    var lastSelfMessageTime: real
    var resultsFile: Option<seq<Record>>
    ghost var prompted: seq<Record>
    ghost var collected: seq<Record>
    ghost var destroyed: seq<Record>
    ghost var sentAt: seq<real>

    ghost function View(): State
      reads this
    {
      State(seenDelegationIds, resultsFile, lastSelfMessageTime, prompted, collected, destroyed, sentAt)
    }

    constructor ()
      ensures View() == Initial
    {
      seenDelegationIds, lastSelfMessageTime, resultsFile := {}, 0.0, None;
      prompted, collected, destroyed, sentAt := [], [], [], [];
    }

    /** The loop of `_check_delegations`; `ok` is false if an item raised. */
    method CollectNew(delegations: seq<Item>) returns (newResults: seq<Record>, ok: bool)
      modifies this`seenDelegationIds
      ensures (seenDelegationIds, newResults, ok) == Collect(delegations, old(seenDelegationIds))
      ensures exists at :: InListingOrder(delegations, old(seenDelegationIds), at, newResults)
      ensures ok <==> Malformed !in delegations
    {
      ghost var places := CollectsInOrder(delegations, seenDelegationIds);
      CollectFacts(delegations, seenDelegationIds);
      ghost var c := Collect(delegations, seenDelegationIds);
      newResults := [];
      assert delegations[0..] == delegations;
      for i := 0 to |delegations|
        invariant Collect(delegations[i..], seenDelegationIds).0 == c.0
        invariant newResults + Collect(delegations[i..], seenDelegationIds).1 == c.1
        invariant Collect(delegations[i..], seenDelegationIds).2 == c.2
      {
        var d := delegations[i];
        assert delegations[i..][0] == d && delegations[i..][1..] == delegations[i + 1..];
        if d.Malformed? {
          assert newResults + [] == newResults;
          return newResults, false;
        }
        if d.id == "" || d.id in seenDelegationIds {
          continue;
        }
        if d.status == "completed" || d.status == "failed" {
          seenDelegationIds := seenDelegationIds + {d.id};
          newResults := newResults + [Record(d.id, d.status, d.details)];
        }
      }
      assert newResults + [] == newResults;
      return newResults, true;
    }

    /** Keeps the ids, or all but a hundred of them when they are more than 200. */
    method EvictSeen()
      modifies this`seenDelegationIds
      ensures MayKeep(old(seenDelegationIds), seenDelegationIds)
    {
      if |seenDelegationIds| > MAX_SEEN_DELEGATION_IDS {
        var ids := ListOf(seenDelegationIds);
        DistinctSize(ids[MAX_SEEN_DELEGATION_IDS / 2..]);
        seenDelegationIds := set x | x in ids[MAX_SEEN_DELEGATION_IDS / 2..];
      }
    }

    /** `_check_delegations` on a listing; `clock` is read when a self-message is due.  The
        result says whether one goes out. */
    method CheckDelegations(delegations: seq<Item>, writes: bool, clock: real) returns (sends: bool)
      modifies this
      ensures Poll(old(View()), delegations, writes, clock, View())
      ensures sends == Sends(old(View()), delegations, writes, clock)
    {
      var newResults, ok := CollectNew(delegations);
      if |newResults| > 0 {
        collected := collected + newResults;
        if !ok || !writes { destroyed := destroyed + newResults; }
      }
      if !ok {
        return false;
      }
      EvictSeen();
      if |newResults| == 0 || !writes {
        return false;
      }
      resultsFile := Some((if resultsFile.Some? then resultsFile.value else []) + newResults);
      for i := 0 to |newResults|
        invariant forall r :: r in newResults[..i] ==> Summarised(r)
      {
        // The summary's line for this record.
        if !Summarised(newResults[i]) {
          return false;
        }
      }
      if clock - lastSelfMessageTime < SELF_MESSAGE_COOLDOWN {
        return false;
      }
      lastSelfMessageTime := clock;
      sentAt := sentAt + [clock];
      return true;
    }

    /** `read_delegation_results`: the records that go into the prompt; `ok` is false if
        formatting them raises. */
    method ReadDelegationResults(outcome: ReadOutcome) returns (ok: bool, records: seq<Record>)
      modifies this
      ensures View() == Read(old(View()), outcome)
      ensures prompted == old(prompted) + records
      ensures ok <==> !(old(resultsFile).Some? && outcome.ReadOk? && !Formats(old(resultsFile).value))
    {
      if resultsFile.None? || outcome.RenameFailed? {
        return true, [];
      }
      var consumed := resultsFile.value;
      resultsFile := None;
      if outcome.ReadFailed? {
        destroyed := destroyed + consumed;
        return true, [];
      }
      records := [];
      for i := 0 to |consumed|
        invariant records == consumed[..i] && Formats(records)
      {
        assert consumed[..i + 1] == consumed[..i] + [consumed[i]];
        if consumed[i].details.preview.Opaque? {
          destroyed := destroyed + consumed;
          return false, [];
        }
        records := records + [consumed[i]];
      }
      assert consumed[..|consumed|] == consumed;
      prompted := prompted + consumed;
      return true, records;
    }
  }
}
