/** What becomes of a delegation as a function of what was reported for it: over every run,
    its posts, sleeps, notices, error and result follow from the steps alone. */
module DelegationHistory {
  import opened Basics
  import opened TaskStore
  import opened Delegation
  import Strings = Text

  function PostsIn(steps: seq<Step>, id: TaskId): nat
    decreases |steps|
  {
    if steps == [] then 0
    else
      var last := steps[|steps| - 1];
      PostsIn(steps[..|steps| - 1], id) + if last.Posted? && last.id == id then 1 else 0
  }

  function NoticesIn(steps: seq<Step>, id: TaskId): nat
    decreases |steps|
  {
    if steps == [] then 0
    else NoticesIn(steps[..|steps| - 1], id) + if steps[|steps| - 1] == Notified(id) then 1 else 0
  }

  /** After the k-th post failed to connect and was not the last allowed, the pause is k. */
  function SleptIn(c: Config, steps: seq<Step>, id: TaskId): nat
    decreases |steps|
  {
    if steps == [] then 0
    else
      var last, k := steps[|steps| - 1], PostsIn(steps, id);
      SleptIn(c, steps[..|steps| - 1], id) +
      if last.Posted? && last.id == id && last.post.ConnectOrTimeout? && k < c.attempts then k else 0
  }

  /** The last error message a post for the task brought. */
  function LastErrorIn(steps: seq<Step>, id: TaskId): Option<string>
    decreases |steps|
  {
    if steps == [] then None
    else
      var last := steps[|steps| - 1];
      if last.Posted? && last.id == id && (last.post.ErrorReply? || last.post.ConnectOrTimeout?)
      then Some(last.post.message)
      else LastErrorIn(steps[..|steps| - 1], id)
  }

  /** The last answer of a discovery or a post for the task. */
  function LastReport(steps: seq<Step>, id: TaskId): Option<Step>
    decreases |steps|
  {
    if steps == [] then None
    else
      var last := steps[|steps| - 1];
      if (last.Posted? || last.Discovered?) && last.id == id then Some(last)
      else LastReport(steps[..|steps| - 1], id)
  }

  /** Such a report ends the coroutine without a completion notice. */
  predicate EndsQuietly(a: Step, id: TaskId) {
    a.id == id && ((a.Discovered? && !a.discovery.Url?) || (a.Posted? && a.post.InvalidJson?))
  }

  ghost predicate SomeQuietEnd(steps: seq<Step>, id: TaskId) {
    exists a :: a in steps && EndsQuietly(a, id)
  }

  /** The result is the texts of these parts, with a newline between any two. */
  ghost predicate HasLines(result: string, parts: seq<Part>)
    requires forall p :: p in parts ==> p.Text?
  {
    exists texts: seq<string> :: result == Strings.Glue(texts, "\n") && AreTexts(texts, parts)
  }

  ghost predicate AreTexts(texts: seq<string>, parts: seq<Part>) {
    |texts| == |parts| && forall i :: 0 <= i < |parts| ==> parts[i] == Part.Text(texts[i])
  }

  lemma JoinHasLines(parts: seq<Part>)
    requires forall p :: p in parts ==> p.Text?
    ensures HasLines(Join(parts), parts)
  {
    var texts := Texts(parts);
    forall i | 0 <= i < |parts| ensures parts[i] == Part.Text(texts[i]) { assert parts[i] in parts; }
    assert Join(parts) == Strings.Glue(texts, "\n") && AreTexts(texts, parts);
  }

  /** How a finished task stands after its last report. */
  ghost predicate Decided(c: Config, t: Task, steps: seq<Step>, id: TaskId) {
    match LastReport(steps, id)
    case Some(Discovered(_, d)) =>
      t.status.Failed? && t.error == Some(match d
                                          case HttpStatus(code) => "Discovery failed: HTTP " + code
                                          case NoUrl => "No URL for workspace"
                                          case DiscoveryRaised(m) => "Discovery error: " + m
                                          case Url => "None")
    case Some(Posted(_, Reply(parts, whole))) =>
      && t.status.Completed? && (t.result.Some? <==> forall p :: p in parts ==> p.Text?)
      && (t.result.Some? ==> if parts == [] then t.result.value == whole else HasLines(t.result.value, parts))
    case Some(Posted(_, InvalidJson)) => t.status.Failed? && t.error == Some("Invalid JSON response")
    case Some(Posted(_, OtherException)) => false
    case Some(Posted(_, _)) => t.status.Failed? && t.error == Some(ErrorText(LastErrorIn(steps, id)))
    case _ => false
  }

  /** The coroutine's counters are those of the steps. */
  ghost predicate Counted(c: Config, b: Background, steps: seq<Step>, id: TaskId) {
    && b.posts == PostsIn(steps, id) && b.notices == NoticesIn(steps, id)
    && b.slept == SleptIn(c, steps, id) && b.lastError == LastErrorIn(steps, id)
  }

  ghost predicate QuietOrNot(b: Background, steps: seq<Step>, id: TaskId) {
    if SomeQuietEnd(steps, id) then b.pc.Done? && b.notices == 0
    else b.notices == if b.pc.Updating? || b.pc.Done? then 1 else 0
  }

  ghost predicate Tracks(c: Config, s: System, steps: seq<Step>, id: TaskId) {
    if id in s.background then
      var t := Lookup(s.store, id);
      && Counted(c, s.background[id], steps, id) && QuietOrNot(s.background[id], steps, id)
      && (t.Some? && Finished(t.value) ==> Decided(c, t.value, steps, id))
    else forall a :: a in steps ==> a.id != id
  }

  lemma {:induction false} NothingYet(c: Config, steps: seq<Step>, id: TaskId)
    requires forall a :: a in steps ==> a.id != id
    ensures PostsIn(steps, id) == NoticesIn(steps, id) == SleptIn(c, steps, id) == 0 && LastErrorIn(steps, id).None?
    ensures !SomeQuietEnd(steps, id)
    decreases |steps|
  {
    if steps != [] {
      assert steps[|steps| - 1] in steps;
      NothingYet(c, steps[..|steps| - 1], id);
    }
  }

  /** A step of another task changes none of this. */
  lemma OthersStep(c: Config, steps: seq<Step>, a: Step, id: TaskId)
    requires a.id != id || !(a.Posted? || a.Discovered? || a.Notified?)
    ensures PostsIn(steps + [a], id) == PostsIn(steps, id) && NoticesIn(steps + [a], id) == NoticesIn(steps, id)
    ensures SleptIn(c, steps + [a], id) == SleptIn(c, steps, id)
    ensures LastErrorIn(steps + [a], id) == LastErrorIn(steps, id)
    ensures LastReport(steps + [a], id) == LastReport(steps, id)
    ensures SomeQuietEnd(steps + [a], id) <==> SomeQuietEnd(steps, id)
  {
    assert (steps + [a])[..|steps|] == steps;
    QuietOneMore(steps, a, id);
  }

  lemma QuietOneMore(steps: seq<Step>, a: Step, id: TaskId)
    ensures SomeQuietEnd(steps + [a], id) <==> SomeQuietEnd(steps, id) || EndsQuietly(a, id)
  {
    assert a in steps + [a];
    assert forall x :: x in steps + [a] <==> x in steps || x == a;
  }

  /** What a step of its own adds. */
  lemma OwnStep(c: Config, steps: seq<Step>, a: Step)
    ensures var id, more := a.id, steps + [a];
            && PostsIn(more, id) == PostsIn(steps, id) + (if a.Posted? then 1 else 0)
            && NoticesIn(more, id) == NoticesIn(steps, id) + (if a.Notified? then 1 else 0)
            && SleptIn(c, more, id) == SleptIn(c, steps, id) + Pause(c, PostsIn(steps, id) + 1, a)
            && LastErrorIn(more, id) == (if a.Posted? && (a.post.ErrorReply? || a.post.ConnectOrTimeout?)
                                         then Some(a.post.message) else LastErrorIn(steps, id))
            && LastReport(more, id) == (if a.Posted? || a.Discovered? then Some(a) else LastReport(steps, id))
  {
    assert (steps + [a])[..|steps|] == steps;
  }

  function Pause(c: Config, k: nat, a: Step): nat {
    if a.Posted? && a.post.ConnectOrTimeout? && k < c.attempts then k else 0
  }

  lemma DispatchTracks(c: Config, s: System, steps: seq<Step>, id: TaskId, a: Step)
    requires Inv(c, s) && a.Dispatch? && Enabled(s, a) && Tracks(c, s, steps, id)
    ensures Tracks(c, Do(c, s, a), steps + [a], id)
  {
    DispatchLookup(c, s, NewTask(a.id, a.workspace, a.task), id);
    OthersStep(c, steps, a, id);
    if id !in s.background && a.id == id { NothingYet(c, steps, id); }
  }

  lemma OthersTrack(c: Config, s: System, steps: seq<Step>, id: TaskId, a: Step)
    requires Inv(c, s) && !a.Dispatch? && a.id != id && Enabled(s, a) && Tracks(c, s, steps, id)
    ensures Tracks(c, Do(c, s, a), steps + [a], id)
  {
    StepOnlyTouches(c, s, a);
    OthersStep(c, steps, a, id);
  }

  /** A step that reports nothing. */
  lemma PlainTracks(c: Config, s: System, steps: seq<Step>, a: Step)
    requires Inv(c, s) && Enabled(s, a) && Tracks(c, s, steps, a.id)
    requires a.Begin? || a.Recorded? || a.Woke? || a.Notified? || a.Updated?
    ensures Tracks(c, Do(c, s, a), steps + [a], a.id)
  {
    assert StoreAgrees(s.store, a.id, s.background[a.id]);
    OwnStep(c, steps, a);
    QuietOneMore(steps, a, a.id);
    if a.Begin? { LookupWrite(s.store, a.id, InProgress, None, None, a.id); }
  }

  lemma {:induction false} NoPostNoError(steps: seq<Step>, id: TaskId)
    requires PostsIn(steps, id) == 0
    ensures LastErrorIn(steps, id).None?
    decreases |steps|
  {
    if steps != [] { NoPostNoError(steps[..|steps| - 1], id); }
  }

  lemma MoveTracks(c: Config, s: System, b: Background, id: TaskId, status: Status, result: Option<string>,
                   error: Option<string>, steps: seq<Step>)
    requires Lookup(s.store, id).Some? && Counted(c, b, steps, id) && QuietOrNot(b, steps, id)
    requires Decided(c, Lookup(s.store, id).value.(status := status, result := result, error := error), steps, id)
    ensures Tracks(c, Move(s, b, id, status, result, error), steps, id)
  {
    LookupWrite(s.store, id, status, result, error, id);
  }

  lemma GiveUpTracks(c: Config, s: System, b: Background, id: TaskId, steps: seq<Step>)
    requires Lookup(s.store, id).Some? && Counted(c, b, steps, id) && QuietOrNot(b.(pc := Notifying), steps, id)
    requires var t := Lookup(s.store, id).value;
             Decided(c, t.(status := Failed, result := None, error := Some(ErrorText(b.lastError))), steps, id)
    ensures Tracks(c, GiveUp(s, id, b), steps, id)
  {
    MoveTracks(c, s, b.(pc := Notifying), id, Failed, None, Some(ErrorText(b.lastError)), steps);
  }

  lemma DiscoveredTracks(c: Config, s: System, steps: seq<Step>, id: TaskId, d: Discovery)
    requires Inv(c, s) && At(s, id, Discovering) && Tracks(c, s, steps, id)
    ensures Tracks(c, Do(c, s, Discovered(id, d)), steps + [Discovered(id, d)], id)
  {
    var a, b := Discovered(id, d), s.background[id];
    var more := steps + [a];
    assert StoreAgrees(s.store, id, b) && WithinBudget(c, b);
    OwnStep(c, steps, a);
    QuietOneMore(steps, a, id);
    match d
    case HttpStatus(code) =>
      MoveTracks(c, s, b.(pc := Done), id, Failed, None, Some("Discovery failed: HTTP " + code), more);
    case NoUrl => MoveTracks(c, s, b.(pc := Done), id, Failed, None, Some("No URL for workspace"), more);
    case DiscoveryRaised(m) => MoveTracks(c, s, b.(pc := Done), id, Failed, None, Some("Discovery error: " + m), more);
    case Url =>
      NoPostNoError(steps, id);
      if c.attempts == 0 { GiveUpTracks(c, s, b, id, more); }
  }

  lemma PostedTracks(c: Config, s: System, steps: seq<Step>, id: TaskId, post: Post)
    requires Inv(c, s) && id in s.background && s.background[id].pc.Posting? && Tracks(c, s, steps, id)
    ensures Tracks(c, Do(c, s, Posted(id, post)), steps + [Posted(id, post)], id)
  {
    var a, b := Posted(id, post), s.background[id];
    var more := steps + [a];
    assert StoreAgrees(s.store, id, b) && WithinBudget(c, b);
    OwnStep(c, steps, a);
    QuietOneMore(steps, a, id);
    PostTracks(c, s, id, b.(posts := b.posts + 1), b.pc.attempt, post, more);
  }

  lemma PostTracks(c: Config, s: System, id: TaskId, b: Background, attempt: nat, post: Post, more: seq<Step>)
    requires id in s.background && Lookup(s.store, id).Some? && !Finished(Lookup(s.store, id).value)
    requires b.posts == attempt + 1 == PostsIn(more, id) && b.notices == NoticesIn(more, id) == 0
    requires LastReport(more, id) == Some(Posted(id, post)) && (SomeQuietEnd(more, id) <==> post.InvalidJson?)
    requires LastErrorIn(more, id) ==
             if post.ErrorReply? || post.ConnectOrTimeout? then Some(post.message) else b.lastError
    requires SleptIn(c, more, id) == b.slept + Pause(c, attempt + 1, Posted(id, post))
    ensures Tracks(c, AfterPost(c, s, id, b, attempt, post), more, id)
  {
    match post
    case InvalidJson => MoveTracks(c, s, b.(pc := Done), id, Failed, None, Some("Invalid JSON response"), more);
    case Reply(parts, whole) =>
      if parts == [] {
        MoveTracks(c, s, b.(pc := Notifying), id, Completed, Some(whole), None, more);
      } else if forall p :: p in parts ==> p.Text? {
        JoinHasLines(parts);
        MoveTracks(c, s, b.(pc := Notifying), id, Completed, Some(Join(parts)), None, more);
      } else {
        MoveTracks(c, s, b.(pc := Crashed), id, Completed, None, None, more);
      }
    case ErrorReply(m) => GiveUpTracks(c, s, b.(lastError := Some(m)), id, more);
    case NoAnswer => if attempt + 1 >= c.attempts { GiveUpTracks(c, s, b, id, more); }
    case ConnectOrTimeout(m) =>
      if attempt + 1 >= c.attempts { GiveUpTracks(c, s, b.(lastError := Some(m)), id, more); }
    case OtherException =>
  }

  lemma StepTracks(c: Config, s: System, steps: seq<Step>, id: TaskId, a: Step)
    requires Inv(c, s) && Enabled(s, a) && Tracks(c, s, steps, id)
    ensures Tracks(c, Do(c, s, a), steps + [a], id)
  {
    if a.Dispatch? {
      DispatchTracks(c, s, steps, id, a);
    } else if a.id != id {
      OthersTrack(c, s, steps, id, a);
    } else {
      match a
      case Discovered(_, d) => DiscoveredTracks(c, s, steps, id, d);
      case Posted(_, post) => PostedTracks(c, s, steps, id, post);
      case _ => PlainTracks(c, s, steps, a);
    }
  }

  lemma {:induction false} RunTracks(c: Config, steps: seq<Step>, id: TaskId)
    requires Runs(c, Empty, steps)
    ensures Tracks(c, After(c, Empty, steps), steps, id)
    decreases |steps|
  {
    if steps != [] {
      var front, last := steps[..|steps| - 1], steps[|steps| - 1];
      assert steps == front + [last] && [last][1..] == [];
      RunsSplit(c, Empty, front, [last]);
      RunTracks(c, front, id);
      assert Inv(c, Empty);
      RunKeepsInv(c, Empty, front);
      StepTracks(c, After(c, Empty, front), front, id, last);
    }
  }

  /** In every run a finished task stands as its last report says: a completed one has the
      texts of its reply one to a line, or its whole rendering, or no result if a text is not
      a string; a failed one has the reason, after the last attempt the last error message
      that came. */
  lemma OutcomeInEveryRun(c: Config, steps: seq<Step>, id: TaskId)
    requires Runs(c, Empty, steps)
    ensures var t := Lookup(After(c, Empty, steps).store, id);
            t.Some? && Finished(t.value) ==> Decided(c, t.value, steps, id)
  {
    RunTracks(c, steps, id);
    var s := After(c, Empty, steps);
    assert Inv(c, Empty);
    RunKeepsInv(c, Empty, steps);
    LookupFinds(s.store, id);
  }

  /** In every run a task has posted as often as posts were answered, has slept k units after
      each k-th post that failed to connect and left attempts, and has sent a completion notice
      exactly if it is past that point and no discovery failed and no answer was invalid
      JSON. */
  lemma CountsInEveryRun(c: Config, steps: seq<Step>, id: TaskId)
    requires Runs(c, Empty, steps) && id in After(c, Empty, steps).background
    ensures var b := After(c, Empty, steps).background[id];
            && b.posts == PostsIn(steps, id) && b.slept == SleptIn(c, steps, id)
            && b.notices == NoticesIn(steps, id)
            && b.notices == if (b.pc.Updating? || b.pc.Done?) && !SomeQuietEnd(steps, id) then 1 else 0
  {
    RunTracks(c, steps, id);
  }

  /** The step dispatched this task: to its workspace, with a text of which the task keeps the
      first 200 characters. */
  ghost predicate Dispatches(a: Step, t: Task) {
    && a.Dispatch? && a.id == t.id && a.workspace == t.workspace
    && t.description <= a.task && |t.description| == if |a.task| < 200 then |a.task| else 200
  }

  lemma StepDescribes(c: Config, s: System, a: Step, t: Task)
    requires Inv(c, s) && Enabled(s, a) && Lookup(Do(c, s, a).store, t.id) == Some(t)
    ensures Dispatches(a, t) || (Lookup(s.store, t.id).Some? &&
              var was := Lookup(s.store, t.id).value;
              was.id == t.id && was.workspace == t.workspace && was.description == t.description)
  {
    LookupFinds(s.store, t.id);
    if Lookup(s.store, t.id).Some? {
      StepMovesForward(c, s, a, t.id);
    } else if a.Dispatch? {
      DispatchLookup(c, s, NewTask(a.id, a.workspace, a.task), t.id);
    } else if t.id in s.background {
      GoneStaysGone(c, s, a, t.id);
    } else {
      StepOnlyTouches(c, s, a);
    }
  }

  /** In every run each stored task is as it was dispatched. */
  lemma {:induction false} DescribedInEveryRun(c: Config, steps: seq<Step>, id: TaskId)
    requires Runs(c, Empty, steps) && Lookup(After(c, Empty, steps).store, id).Some?
    ensures var t := Lookup(After(c, Empty, steps).store, id).value;
            t.id == id && exists a :: a in steps && Dispatches(a, t)
    decreases |steps|
  {
    if steps != [] {
      var front, last := steps[..|steps| - 1], steps[|steps| - 1];
      assert steps == front + [last] && [last][1..] == [];
      RunsSplit(c, Empty, front, [last]);
      var s, t := After(c, Empty, front), Lookup(After(c, Empty, steps).store, id).value;
      assert Inv(c, Empty);
      RunKeepsInv(c, Empty, front);
      RunKeepsInv(c, Empty, steps);
      LookupFinds(After(c, Empty, steps).store, id);
      StepDescribes(c, s, last, t);
      if !Dispatches(last, t) {
        DescribedInEveryRun(c, front, id);
        var a :| a in front && Dispatches(a, Lookup(s.store, id).value);
        assert a in steps && Dispatches(a, t);
      } else {
        assert last in steps;
      }
    }
  }
}
