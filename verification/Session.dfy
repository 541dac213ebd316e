/** Sessions and retries of the Claude SDK executor
    (workspace-template/claude_sdk_executor.py). */
module Session {
  import opened Basics
  import Delivery
  import Text

  const MAX_RETRIES := 3
  const BASE_RETRY_DELAY_S := 5
  const NO_RESPONSE_MSG := "(no response generated)"

  /** What the code looks at in an exception: its type's name, `str(exc).lower()`, and its
      exit code if it has one. */
  datatype Exc = Exc(name: string, lowered: string, exitCode: Option<int>)

  const RETRYABLE_PATTERNS := ["rate", "limit", "429", "overloaded", "capacity", "exit code 1", "try again"]

  predicate IsRetryable(e: Exc) {
    exists k :: 0 <= k < |RETRYABLE_PATTERNS| && Text.Contains(e.lowered, RETRYABLE_PATTERNS[k])
  }

  predicate IsSubprocessError(e: Exc) {
    e.name == "ProcessError" || e.name == "CLIConnectionError" || e.exitCode.Some?
    || Text.Contains(e.lowered, "exit code")
  }

  function Sanitized(e: Exc): string {
    "Agent error (" + e.name + ") — see workspace logs for details."
  }

  // ---- one query

  /** Messages of the SDK's stream; a result message may lack a session id ("" counts as
      lacking) and a result. */
  datatype Message =
    | Assistant(texts: seq<string>)
    | ResultMessage(sessionId: string, result: Option<string>)
    | OtherMessage

  /** A stream ends (also when `cancel` closes it, after the messages it gave so far) or
      raises, or the turn's own task is cancelled while it waits. */
  datatype Reply = Ends(messages: seq<Message>) | Raises(exc: Exc) | IsCancelled

  function LastSessionId(ms: seq<Message>): Option<string> {
    if ms == [] then None
    else
      var m := ms[|ms| - 1];
      if m.ResultMessage? && m.sessionId != "" then Some(m.sessionId) else LastSessionId(ms[..|ms| - 1])
  }

  function LastResult(ms: seq<Message>): Option<string> {
    if ms == [] then None
    else
      var m := ms[|ms| - 1];
      if m.ResultMessage? then m.result else LastResult(ms[..|ms| - 1])
  }

  function AssistantText(ms: seq<Message>): string {
    if ms == [] then ""
    else AssistantText(ms[..|ms| - 1]) + if ms[|ms| - 1].Assistant? then Flatten(ms[|ms| - 1].texts) else ""
  }

  /** What an attempt comes to. */
  datatype Outcome = Success(text: string, sessionId: Option<string>) | Failure(exc: Exc) | Cancelled

  function OutcomeOf(r: Reply): Outcome {
    match r
    case Ends(ms) => Success(Or(LastResult(ms), AssistantText(ms)), LastSessionId(ms))
    case Raises(e) => Failure(e)
    case IsCancelled => Cancelled
  }

  ghost predicate IsLastResult(ms: seq<Message>, k: int) {
    && 0 <= k < |ms| && ms[k].ResultMessage?
    && forall j :: k < j < |ms| ==> !ms[j].ResultMessage?
  }

  ghost predicate IsLastId(ms: seq<Message>, k: int) {
    && 0 <= k < |ms| && ms[k].ResultMessage? && ms[k].sessionId != ""
    && forall j :: k < j < |ms| ==> !(ms[j].ResultMessage? && ms[j].sessionId != "")
  }

  /** All texts of all assistant messages, in order. */
  function Spoken(ms: seq<Message>): string {
    Flatten(Flatten(FilterMap(ms, (m: Message) => m.Assistant?, TextsOf)))
  }

  function TextsOf(m: Message): seq<string> {
    if m.Assistant? then m.texts else []
  }

  lemma {:induction false} SpokenIs(ms: seq<Message>)
    ensures AssistantText(ms) == Spoken(ms)
    decreases |ms|
  {
    if ms != [] {
      var front, last := ms[..|ms| - 1], ms[|ms| - 1];
      SpokenIs(front);
      FilterMapLast(front, last);
      var texts := FilterMap(front, (m: Message) => m.Assistant?, TextsOf);
      assert ms == front + [last];
      if last.Assistant? {
        FlattenAppend(texts, [last.texts]);
        assert Flatten([last.texts]) == last.texts;
        FlattenAppend(Flatten(texts), last.texts);
      } else {
        assert texts + [] == texts && AssistantText(front) + "" == AssistantText(front);
      }
    }
  }

  lemma {:induction false} FilterMapLast(front: seq<Message>, last: Message)
    ensures FilterMap(front + [last], (m: Message) => m.Assistant?, TextsOf) ==
            FilterMap(front, (m: Message) => m.Assistant?, TextsOf) + if last.Assistant? then [last.texts] else []
  {
    if front == [] {
      assert front + [last] == [last] && [last][1..] == [];
    } else {
      assert (front + [last])[1..] == front[1..] + [last];
      FilterMapLast(front[1..], last);
    }
  }

  lemma {:induction false} LastResultIs(ms: seq<Message>)
    ensures (forall k :: !IsLastResult(ms, k)) ==> LastResult(ms).None?
    ensures forall k :: IsLastResult(ms, k) ==> LastResult(ms) == ms[k].result
    decreases |ms|
  {
    if ms != [] {
      var front := ms[..|ms| - 1];
      LastResultIs(front);
      if ms[|ms| - 1].ResultMessage? {
        assert IsLastResult(ms, |ms| - 1);
      } else {
        forall k ensures IsLastResult(ms, k) <==> IsLastResult(front, k) {
          forall j | 0 <= j < |front| ensures front[j] == ms[j] {}
        }
      }
    }
  }

  lemma {:induction false} LastIdIs(ms: seq<Message>)
    ensures (forall k :: !IsLastId(ms, k)) ==> LastSessionId(ms).None?
    ensures forall k :: IsLastId(ms, k) ==> LastSessionId(ms) == Some(ms[k].sessionId)
    decreases |ms|
  {
    if ms != [] {
      var front, last := ms[..|ms| - 1], ms[|ms| - 1];
      LastIdIs(front);
      if last.ResultMessage? && last.sessionId != "" {
        assert IsLastId(ms, |ms| - 1);
      } else {
        forall k ensures IsLastId(ms, k) <==> IsLastId(front, k) {
          forall j | 0 <= j < |front| ensures front[j] == ms[j] {}
        }
      }
    }
  }

  /** What a stream that ends comes to: the result of its last result message or, without
      one, all assistant texts in order; and the id of the last result message that has
      one. */
  lemma OutcomeIs(ms: seq<Message>)
    ensures var o := OutcomeOf(Ends(ms));
            && o.Success?
            && (forall k :: IsLastResult(ms, k) ==> o.text == Or(ms[k].result, Spoken(ms)))
            && ((forall k :: !IsLastResult(ms, k)) ==> o.text == Spoken(ms))
            && (forall k :: IsLastId(ms, k) ==> o.sessionId == Some(ms[k].sessionId))
            && ((forall k :: !IsLastId(ms, k)) ==> o.sessionId.None?)
  {
    SpokenIs(ms);
    LastResultIs(ms);
    LastIdIs(ms);
  }

  function Or(o: Option<string>, default: string): string {
    if o.Some? then o.value else default
  }

  // ---- the session id as a function of the whole history

  datatype Attempt = Attempt(resume: Option<string>, outcome: Outcome)

  predicate BringsSession(a: Attempt) { a.outcome.Success? && a.outcome.sessionId.Some? }
  predicate KillsSession(a: Attempt) { a.outcome.Failure? && IsSubprocessError(a.outcome.exc) }

  /** How one attempt changes the stored id. */
  function NextSession(session: Option<string>, o: Outcome): Option<string> {
    match o
    case Success(_, id) => if id.Some? then id else session
    case Failure(e) => if IsSubprocessError(e) then None else session
    case Cancelled => session
  }

  /** The id of the most recent success that returned one, unless a subprocess-level
      failure came after it. */
  function SessionAfter(history: seq<Attempt>): Option<string> {
    if history == [] then None
    else
      var last := history[|history| - 1];
      if BringsSession(last) then last.outcome.sessionId
      else if KillsSession(last) then None
      else SessionAfter(history[..|history| - 1])
  }

  ghost predicate IsSource(history: seq<Attempt>, k: int) {
    && 0 <= k < |history| && BringsSession(history[k])
    && forall j :: k < j < |history| ==> !BringsSession(history[j]) && !KillsSession(history[j])
  }

  /** What that says, position by position. */
  lemma {:induction false} SessionAfterMeans(history: seq<Attempt>)
    ensures SessionAfter(history).None? <==> forall k :: !IsSource(history, k)
    ensures forall k :: IsSource(history, k) ==> SessionAfter(history) == history[k].outcome.sessionId
    decreases |history|
  {
    if history != [] {
      var front := history[..|history| - 1];
      var last := history[|history| - 1];
      SessionAfterMeans(front);
      if BringsSession(last) {
        assert IsSource(history, |history| - 1);
      } else if !KillsSession(last) {
        forall k ensures IsSource(history, k) <==> IsSource(front, k) {
          if IsSource(front, k) { assert history[k] == front[k]; }
          if IsSource(history, k) { assert forall j :: k < j < |front| ==> front[j] == history[j]; }
        }
      }
    }
  }

  /** Each attempt was made with the id the history before it calls for. */
  ghost predicate Chained(history: seq<Attempt>) {
    history != [] ==>
      var front := history[..|history| - 1];
      history[|history| - 1].resume == SessionAfter(front) && Chained(front)
  }

  lemma {:induction false} ChainedAt(history: seq<Attempt>, i: nat)
    requires Chained(history) && i < |history|
    ensures history[i].resume == SessionAfter(history[..i])
    decreases |history|
  {
    var front := history[..|history| - 1];
    if i < |front| {
      ChainedAt(front, i);
      assert front[..i] == history[..i];
    }
  }

  lemma OneMore(history: seq<Attempt>, o: Outcome)
    requires Chained(history)
    ensures var h := history + [Attempt(SessionAfter(history), o)];
            Chained(h) && SessionAfter(h) == NextSession(SessionAfter(history), o)
  {
    var h := history + [Attempt(SessionAfter(history), o)];
    assert h[..|h| - 1] == history;
  }

  // ---- one turn

  /** The wait after failed attempt `attempt`, counted from 0. */
  function Delay(attempt: nat): nat {
    if attempt == 0 then BASE_RETRY_DELAY_S else 2 * Delay(attempt - 1)
  }

  /** How a turn ends: with an answer, cancelled, or with an exception that leaves it. */
  datatype Ending = Answered(text: string) | WasCancelled | HasRaised

  datatype TurnResult = TurnResult(ending: Ending, waited: nat, attempts: seq<Attempt>)

  /** What an attempt meets: whether its options can be built, and the reply. */
  datatype Try = Try(built: bool, reply: Reply)

  predicate Transient(o: Outcome) {
    o.Failure? && IsRetryable(o.exc)
  }

  predicate Retries(attempt: nat, o: Outcome) {
    attempt < MAX_RETRIES - 1 && Transient(o)
  }

  function EndingOf(o: Outcome): Ending {
    match o
    case Success(t, _) => Answered(if t == "" then NO_RESPONSE_MSG else t)
    case Failure(e) => Answered(Sanitized(e))
    case Cancelled => WasCancelled
  }

  /** The retry loop from attempt number `attempt` on; building the options stands outside
      its `try`. */
  function Tries(session: Option<string>, tries: seq<Try>, attempt: nat): TurnResult
    requires attempt < MAX_RETRIES <= |tries|
    decreases MAX_RETRIES - attempt
  {
    if !tries[attempt].built then TurnResult(HasRaised, 0, [])
    else
      var o := OutcomeOf(tries[attempt].reply);
      if Retries(attempt, o) then
        var rest := Tries(NextSession(session, o), tries, attempt + 1);
        TurnResult(rest.ending, Delay(attempt) + rest.waited, [Attempt(session, o)] + rest.attempts)
      else TurnResult(EndingOf(o), 0, [Attempt(session, o)])
  }

  const MEMORY_RECALL_LIMIT := 10

  /** What the platform has in memory: nothing it can give, or a list, of which each element
      is a JSON object or is not. */
  datatype Memories = Unavailable | Listed(objects: seq<bool>)

  /** The recalled lines can be made: the last ten elements are objects. */
  predicate Recalls(m: Memories) {
    match m
    case Unavailable => true
    case Listed(objects) =>
      forall i :: 0 <= i < |objects| && i >= |objects| - MEMORY_RECALL_LIMIT ==> objects[i]
  }

  /** What a turn meets: the results file and how reading it goes, the memories, and the
      attempts' circumstances. */
  datatype World = World(file: Option<seq<Delivery.Record>>, read: Delivery.ReadOutcome, memories: Memories,
                         tries: seq<Try>)

  /** Reading the results file raises on a preview that cannot be cut to length; memories are
      recalled only without a session. */
  predicate PromptBuilt(session: Option<string>, w: World) {
    && (w.file.Some? && w.read.ReadOk? ==> Delivery.Formats(w.file.value))
    && (session.None? ==> Recalls(w.memories))
  }

  function Turn(session: Option<string>, w: World): TurnResult
    requires |w.tries| >= MAX_RETRIES
  {
    if PromptBuilt(session, w) then Tries(session, w.tries, 0) else TurnResult(HasRaised, 0, [])
  }

  function Fold(session: Option<string>, attempts: seq<Attempt>): Option<string>
    decreases |attempts|
  {
    if attempts == [] then session else Fold(NextSession(session, attempts[0].outcome), attempts[1..])
  }

  /** After these attempts the options for the next one cannot be built. */
  predicate StuckAfter(tries: seq<Try>, attempt: nat, attempts: seq<Attempt>)
    requires MAX_RETRIES <= |tries|
  {
    var n := attempt + |attempts|;
    n < MAX_RETRIES && !tries[n].built && (attempts != [] ==> Transient(attempts[|attempts| - 1].outcome))
  }

  /** The attempts meet these tries in turn, and all but the last fail transiently. */
  ghost predicate Meet(tries: seq<Try>, attempt: nat, attempts: seq<Attempt>) {
    && attempt + |attempts| <= |tries|
    && (forall j :: attempt <= j < attempt + |attempts| ==>
          tries[j].built && attempts[j - attempt].outcome == OutcomeOf(tries[j].reply))
    && (forall i :: 0 <= i < |attempts| - 1 ==> Transient(attempts[i].outcome))
  }

  /** How many of a turn's attempts were followed by a wait: all but the last, or all if the
      options for the next one could not be built. */
  function Retried(t: TurnResult): nat {
    if t.ending.HasRaised? || t.attempts == [] then |t.attempts| else |t.attempts| - 1
  }

  function Waits(attempt: nat, retried: nat): nat
    decreases retried
  {
    if retried == 0 then 0 else Delay(attempt) + Waits(attempt + 1, retried - 1)
  }

  lemma {:induction false} TriesSize(session: Option<string>, tries: seq<Try>, attempt: nat)
    requires attempt < MAX_RETRIES <= |tries|
    ensures var t := Tries(session, tries, attempt);
            && (t.attempts != [] <==> tries[attempt].built) && |t.attempts| <= MAX_RETRIES - attempt
            && (t.ending.HasRaised? ==> |t.attempts| < MAX_RETRIES - attempt)
            && t.waited == Waits(attempt, Retried(t))
    decreases MAX_RETRIES - attempt
  {
    var o := OutcomeOf(tries[attempt].reply);
    if tries[attempt].built && Retries(attempt, o) {
      TriesSize(NextSession(session, o), tries, attempt + 1);
    }
  }

  /** The waits are 5 seconds and then 10. */
  lemma WaitsAre(retried: nat)
    requires retried < MAX_RETRIES
    ensures Waits(0, retried) == if retried == 0 then 0 else if retried == 1 then 5 else 15
  {
    assert Delay(0) == 5 && Delay(1) == 10;
  }

  lemma {:induction false} TriesFacts(session: Option<string>, tries: seq<Try>, attempt: nat)
    requires attempt < MAX_RETRIES <= |tries|
    ensures var t := Tries(session, tries, attempt);
            && attempt + |t.attempts| <= MAX_RETRIES
            && Meet(tries, attempt, t.attempts)
            && (t.ending.HasRaised? <==> StuckAfter(tries, attempt, t.attempts))
            && (!t.ending.HasRaised? ==>
                  && t.attempts != [] && t.ending == EndingOf(t.attempts[|t.attempts| - 1].outcome)
                  && (Transient(t.attempts[|t.attempts| - 1].outcome) ==> attempt + |t.attempts| == MAX_RETRIES))
    decreases MAX_RETRIES - attempt
  {
    TriesSize(session, tries, attempt);
    var o := OutcomeOf(tries[attempt].reply);
    if tries[attempt].built && Retries(attempt, o) {
      TriesFacts(NextSession(session, o), tries, attempt + 1);
      var rest := Tries(NextSession(session, o), tries, attempt + 1);
      MeetOneMore(tries, attempt, Attempt(session, o), rest.attempts);
    }
  }

  lemma MeetOneMore(tries: seq<Try>, attempt: nat, a: Attempt, rest: seq<Attempt>)
    requires Meet(tries, attempt + 1, rest) && attempt < |tries| && tries[attempt].built
    requires a.outcome == OutcomeOf(tries[attempt].reply) && Transient(a.outcome)
    ensures Meet(tries, attempt, [a] + rest)
  {
    var all := [a] + rest;
    forall j | attempt <= j < attempt + |all|
      ensures tries[j].built && all[j - attempt].outcome == OutcomeOf(tries[j].reply)
    {
      if j > attempt { assert all[j - attempt] == rest[j - (attempt + 1)]; }
    }
    forall i | 0 <= i < |all| - 1 ensures Transient(all[i].outcome) {
      if i > 0 { assert rest[i - 1] == all[i]; }
    }
  }

  /** A turn answers with the text of a success or the stock phrase, and after a failure with
      the type of the exception and nothing else of it. */
  predicate EndsAs(ending: Ending, o: Outcome) {
    match o
    case Success(text, _) =>
      ending.Answered? && (if text == "" then ending.text == "(no response generated)" else ending.text == text)
    case Failure(e) =>
      ending.Answered? && ending.text == "Agent error (" + e.name + ") — see workspace logs for details."
    case Cancelled => ending.WasCancelled?
  }

  /** A turn makes an attempt if and only if its prompt and its first options can be built;
      it makes at most three and waits 5 seconds before the second and 10 before the third,
      or before it finds that their options cannot be built; it tries again exactly after a
      transient failure that was not the third; and it ends as its last attempt does, with
      an answer that is not empty unless that was cancelled, except if and only if the
      prompt or the options for the next attempt cannot be built: then it answers
      nothing. */
  lemma TurnFacts(session: Option<string>, w: World)
    requires |w.tries| >= MAX_RETRIES
    ensures var t := Turn(session, w);
            var n := |t.attempts|;
            && n <= MAX_RETRIES && t.waited == (if Retried(t) == 0 then 0 else if Retried(t) == 1 then 5 else 15)
            && (n > 0 <==> PromptBuilt(session, w) && w.tries[0].built)
            && Meet(w.tries, 0, t.attempts)
            && (t.ending.HasRaised? <==> !PromptBuilt(session, w) || StuckAfter(w.tries, 0, t.attempts))
            && (!t.ending.HasRaised? ==>
                  && n > 0 && EndsAs(t.ending, t.attempts[n - 1].outcome)
                  && (Transient(t.attempts[n - 1].outcome) ==> n == MAX_RETRIES))
            && (t.ending.Answered? ==> t.ending.text != "")
  {
    if PromptBuilt(session, w) {
      TriesSize(session, w.tries, 0);
      TriesFacts(session, w.tries, 0);
      WaitsAre(Retried(Turn(session, w)));
      var attempts := Turn(session, w).attempts;
      if attempts != [] { AnswerIsNotEmpty(attempts[|attempts| - 1].outcome); }
    }
  }

  lemma AnswerIsNotEmpty(o: Outcome)
    ensures EndingOf(o).Answered? ==> EndingOf(o).text != ""
  {
  }

  /** Delegation results that were taken from their file reach no attempt at all if and only
      if they can be formatted and then the memories cannot, or the first options cannot be
      built. */
  lemma TakenButNotSent(s: Delivery.State, session: Option<string>, w: World)
    requires |w.tries| >= MAX_RETRIES && s.file == w.file
    ensures (Delivery.Read(s, w.read).prompted != s.prompted && Turn(session, w).attempts == []) <==>
            && Delivery.InFile(s) != [] && w.read.ReadOk? && Delivery.Formats(Delivery.InFile(s))
            && ((session.None? && !Recalls(w.memories)) || !w.tries[0].built)
  {
    TurnFacts(session, w);
    if w.file.Some? && w.file.value != [] {
      assert |s.prompted + w.file.value| > |s.prompted|;
    }
    assert w.file == Some([]) ==> s.prompted + w.file.value == s.prompted;
  }

  /** Attempts made one after the other, the first with this id. */
  ghost predicate Follow(session: Option<string>, attempts: seq<Attempt>)
    decreases |attempts|
  {
    attempts != [] ==>
      attempts[0].resume == session && Follow(NextSession(session, attempts[0].outcome), attempts[1..])
  }

  lemma {:induction false} FollowersChain(history: seq<Attempt>, attempts: seq<Attempt>)
    requires Chained(history) && Follow(SessionAfter(history), attempts)
    ensures Chained(history + attempts)
    ensures SessionAfter(history + attempts) == Fold(SessionAfter(history), attempts)
    decreases |attempts|
  {
    if attempts == [] {
      assert history + attempts == history;
    } else {
      OneMore(history, attempts[0].outcome);
      FollowersChain(history + [attempts[0]], attempts[1..]);
      assert history + [attempts[0]] + attempts[1..] == history + attempts;
    }
  }

  lemma {:induction false} TriesFollow(session: Option<string>, tries: seq<Try>, attempt: nat)
    requires attempt < MAX_RETRIES <= |tries|
    ensures Follow(session, Tries(session, tries, attempt).attempts)
    decreases MAX_RETRIES - attempt
  {
    var o := OutcomeOf(tries[attempt].reply);
    if tries[attempt].built && Retries(attempt, o) {
      TriesFollow(NextSession(session, o), tries, attempt + 1);
      var rest := Tries(NextSession(session, o), tries, attempt + 1);
      assert ([Attempt(session, o)] + rest.attempts)[1..] == rest.attempts;
    } else {
      assert [Attempt(session, o)][1..] == [];
    }
  }

  lemma {:induction false} FollowAppend(session: Option<string>, a: seq<Attempt>, b: seq<Attempt>)
    requires Follow(session, a) && Follow(Fold(session, a), b)
    ensures Follow(session, a + b)
    decreases |a|
  {
    if a == [] {
      assert a + b == b;
    } else {
      assert (a + b)[1..] == a[1..] + b;
      FollowAppend(NextSession(session, a[0].outcome), a[1..], b);
    }
  }

  /** The history of turns one after the other, each from the id the last one left. */
  function Turns(session: Option<string>, worlds: seq<World>): seq<Attempt>
    requires forall w :: w in worlds ==> |w.tries| >= MAX_RETRIES
    decreases |worlds|
  {
    if worlds == [] then []
    else
      var t := Turn(session, worlds[0]);
      t.attempts + Turns(Fold(session, t.attempts), worlds[1..])
  }

  lemma {:induction false} TurnsFollow(session: Option<string>, worlds: seq<World>)
    requires forall w :: w in worlds ==> |w.tries| >= MAX_RETRIES
    ensures Follow(session, Turns(session, worlds))
    decreases |worlds|
  {
    if worlds != [] {
      var t := Turn(session, worlds[0]);
      TriesFollow(session, worlds[0].tries, 0);
      TurnsFollow(Fold(session, t.attempts), worlds[1..]);
      FollowAppend(session, t.attempts, Turns(Fold(session, t.attempts), worlds[1..]));
    }
  }

  /** Over whole runs of turns from a fresh executor, every attempt resumes the id of the
      most recent earlier success that returned one, or none if there is no such success
      or a subprocess-level failure came after it. */
  lemma ResumeFollowsHistory(worlds: seq<World>, i: nat, k: int)
    requires (forall w :: w in worlds ==> |w.tries| >= MAX_RETRIES) && i < |Turns(None, worlds)|
    ensures var h := Turns(None, worlds);
            && (IsSource(h[..i], k) ==> h[i].resume == h[k].outcome.sessionId)
            && (h[i].resume.Some? <==> exists j :: IsSource(h[..i], j))
  {
    var h := Turns(None, worlds);
    TurnsFollow(None, worlds);
    FollowersChain([], h);
    assert [] + h == h;
    ChainedAt(h, i);
    SessionAfterMeans(h[..i]);
  }

  // ---- turns that overlap in time

  type TurnId = nat

  /** Where a turn stands: before the lock, holding it, reading a stream, or past it. */
  datatype Place = Outside | Inside | Streaming | Past

  /** The executor's fields, the run lock's holder, the id the active stream was opened with,
      and where each turn that began stands. */
  datatype Shared = Shared(session: Option<string>, holder: Option<TurnId>, stream: Option<TurnId>,
                           resumed: Option<string>, places: map<TurnId, Place>, history: seq<Attempt>)

  /** What a turn does from one await to the next. */
  datatype Step =
    | Arrive(t: TurnId)
    | Acquire(t: TurnId)
    | OpenStream(t: TurnId)
    | CloseStream(t: TurnId, outcome: Outcome)
    | Release(t: TurnId)

  predicate At(s: Shared, t: TurnId, p: Place) {
    t in s.places && s.places[t] == p
  }

  /** A turn's steps come in the order of its code; only taking the lock looks at it. */
  predicate Enabled(s: Shared, a: Step) {
    match a
    case Arrive(t) => t !in s.places
    case Acquire(t) => At(s, t, Outside) && s.holder.None?
    case OpenStream(t) => At(s, t, Inside)
    case CloseStream(t, _) => At(s, t, Streaming)
    case Release(t) => At(s, t, Inside)
  }

  function Do(s: Shared, a: Step): Shared {
    match a
    case Arrive(t) => s.(places := s.places[t := Outside])
    case Acquire(t) => s.(holder := Some(t), places := s.places[t := Inside])
    case OpenStream(t) => s.(stream := Some(t), resumed := s.session, places := s.places[t := Streaming])
    case CloseStream(t, o) =>
      s.(stream := None, session := NextSession(s.session, o), history := s.history + [Attempt(s.resumed, o)],
         places := s.places[t := Inside])
    case Release(t) => s.(holder := None, places := s.places[t := Past])
  }

  /** The lock's holder, and no other turn, is inside; the active stream is that of the one
      turn that reads, and was opened with the present id. */
  ghost predicate Exclusive(s: Shared) {
    && (forall t: TurnId :: At(s, t, Inside) || At(s, t, Streaming) <==> s.holder == Some(t))
    && (forall t: TurnId :: At(s, t, Streaming) <==> s.stream == Some(t))
    && (s.stream.Some? ==> s.resumed == s.session)
  }

  ghost predicate SharedInv(s: Shared) {
    Exclusive(s) && s.session == SessionAfter(s.history) && Chained(s.history)
  }

  ghost predicate IsRun(run: seq<Shared>, steps: seq<Step>) {
    && |run| == |steps| + 1 && run[0] == Shared(None, None, None, None, map[], [])
    && forall k :: 0 <= k < |steps| ==> Enabled(run[k], steps[k]) && run[k + 1] == Do(run[k], steps[k])
  }

  lemma StepIsExclusive(s: Shared, a: Step)
    requires Exclusive(s) && Enabled(s, a)
    ensures Exclusive(Do(s, a))
  {
    var s' := Do(s, a);
    var t := a.t;
    forall o: TurnId ensures At(s', o, Inside) || At(s', o, Streaming) <==> s'.holder == Some(o) {
      assert At(s, o, Inside) || At(s, o, Streaming) <==> s.holder == Some(o);
      assert At(s, t, Inside) || At(s, t, Streaming) <==> s.holder == Some(t);
    }
    forall o: TurnId ensures At(s', o, Streaming) <==> s'.stream == Some(o) {
      assert At(s, o, Streaming) <==> s.stream == Some(o);
      assert At(s, o, Inside) || At(s, o, Streaming) <==> s.holder == Some(o);
      assert At(s, t, Inside) || At(s, t, Streaming) <==> s.holder == Some(t);
    }
  }

  /** However turns interleave around the lock: never are two of them inside; a stream is
      only ever active for the turn that holds the lock; and the attempts of all turns
      together still form one chain. */
  lemma {:induction false} LockKeepsTheChain(run: seq<Shared>, steps: seq<Step>, n: nat)
    requires IsRun(run, steps) && n < |run|
    ensures SharedInv(run[n])
    decreases n
  {
    if n > 0 {
      var k := n - 1;
      LockKeepsTheChain(run, steps, k);
      StepIsExclusive(run[k], steps[k]);
      if steps[k].CloseStream? {
        var t := steps[k].t;
        assert At(run[k], t, Streaming) <==> run[k].stream == Some(t);
        OneMore(run[k].history, steps[k].outcome);
      }
    }
  }

  // ---- the code

  class ClaudeSDKExecutor {
    var sessionId: Option<string>
    var streamActive: bool
    ghost var history: seq<Attempt>

    /** Between turns. */
    ghost predicate Valid()
      reads this
    {
      !streamActive && Chained(history) && sessionId == SessionAfter(history)
    }

    constructor ()
      ensures Valid() && sessionId == None && history == []
    {
      sessionId, streamActive, history := None, false, [];
    }

    /** `_run_query` on a stream: the answer, or the exception, or nothing when cancelled. */
    method RunQuery(reply: Reply) returns (o: Outcome)
      modifies this`streamActive
      ensures o == OutcomeOf(reply) && !streamActive
    {
      streamActive := true;
      match reply
      case Ends(messages) =>
        var chunks := "";
        var resultText: Option<string> := None;
        var session: Option<string> := None;
        for i := 0 to |messages|
          invariant chunks == AssistantText(messages[..i]) && resultText == LastResult(messages[..i])
          invariant session == LastSessionId(messages[..i])
        {
          assert messages[..i + 1][..i] == messages[..i];
          match messages[i]
          case Assistant(texts) => chunks := chunks + Flatten(texts);
          case ResultMessage(sid, result) =>
            if sid != "" { session := Some(sid); }
            resultText := result;
          case OtherMessage =>
        }
        assert messages[..|messages|] == messages;
        streamActive := false;
        return Success(if resultText.Some? then resultText.value else chunks, session);
      case Raises(e) =>
        streamActive := false;
        return Failure(e);
      case IsCancelled =>
        streamActive := false;
        return Cancelled;
    }

    /** One attempt of the retry loop: the query, and what it does to the stored id. */
    method TryOnce(reply: Reply) returns (o: Outcome)
      requires Valid()
      modifies this
      ensures Valid() && o == OutcomeOf(reply) && sessionId == NextSession(old(sessionId), o)
      ensures history == old(history) + [Attempt(old(sessionId), o)]
    {
      ghost var resume := sessionId;
      o := RunQuery(reply);
      OneMore(history, o);
      history := history + [Attempt(resume, o)];
      match o
      case Success(_, id) =>
        if id.Some? { sessionId := id; }
      case Failure(e) =>
        if IsSubprocessError(e) { sessionId := None; }
      case Cancelled =>
    }

    /** `_execute_locked`: the prompt, and then the retry loop. */
    method ExecuteLocked(results: Delivery.HeartbeatLoop, w: World) returns (ending: Ending, waited: nat)
      requires Valid() && |w.tries| >= MAX_RETRIES && results.resultsFile == w.file
      modifies this, results
      ensures Valid()
      ensures var t := Turn(old(sessionId), w);
              ending == t.ending && waited == t.waited && history == old(history) + t.attempts
      ensures results.View() == Delivery.Read(old(results.View()), w.read)
      ensures waited <= 15 && (ending.Answered? ==> ending.text != "")
    {
      ghost var t := Turn(sessionId, w);
      TurnFacts(sessionId, w);
      var ok, records := results.ReadDelegationResults(w.read);
      if !ok || (sessionId.None? && !Recalls(w.memories)) {
        return HasRaised, 0;
      }
      ending, waited := TryAgain(w.tries);
    }

    /** The retry loop.  `tries` says what the attempts meet in turn. */
    method TryAgain(tries: seq<Try>) returns (ending: Ending, waited: nat)
      requires Valid() && |tries| >= MAX_RETRIES
      modifies this
      ensures Valid()
      ensures var t := Tries(old(sessionId), tries, 0);
              ending == t.ending && waited == t.waited && history == old(history) + t.attempts
    {
      ghost var t := Tries(sessionId, tries, 0);
      waited := 0;
      var attempt := 0;
      while true
        invariant attempt < MAX_RETRIES && Valid()
        invariant Remaining(t, Tries(sessionId, tries, attempt), waited, old(history), history)
        decreases MAX_RETRIES - attempt
      {
        if !tries[attempt].built {
          assert history + [] == history;
          return HasRaised, waited;
        }
        ghost var before, resume := history, sessionId;
        var o := TryOnce(tries[attempt].reply);
        OneAttemptLess(t, resume, tries, attempt, waited, old(history), before);
        if !Retries(attempt, o) {
          return EndingOf(o), waited;
        }
        waited := waited + Delay(attempt);
        attempt := attempt + 1;
      }
    }
  }

  /** What of turn `t` is still to come, after some waiting and some attempts. */
  ghost predicate Remaining(t: TurnResult, rest: TurnResult, waited: nat, start: seq<Attempt>, now: seq<Attempt>) {
    match t
    case TurnResult(ending, total, attempts) =>
      ending == rest.ending && total == waited + rest.waited && now + rest.attempts == start + attempts
  }

  lemma OneAttemptLess(t: TurnResult, session: Option<string>, tries: seq<Try>, attempt: nat, waited: nat,
                       start: seq<Attempt>, now: seq<Attempt>)
    requires attempt < MAX_RETRIES <= |tries| && tries[attempt].built
    requires Remaining(t, Tries(session, tries, attempt), waited, start, now)
    ensures var o := OutcomeOf(tries[attempt].reply);
            var now' := now + [Attempt(session, o)];
            if Retries(attempt, o) then
              Remaining(t, Tries(NextSession(session, o), tries, attempt + 1), waited + Delay(attempt), start, now')
            else t.ending == EndingOf(o) && t.waited == waited && now' == start + t.attempts
  {
    var o := OutcomeOf(tries[attempt].reply);
    if Retries(attempt, o) {
      var rest := Tries(NextSession(session, o), tries, attempt + 1);
      assert now + ([Attempt(session, o)] + rest.attempts) == now + [Attempt(session, o)] + rest.attempts;
    }
  }
}
