/** What the store answers, said about the rows alone, and what a repeated request finds. */
module StoreLaws {
  import opened Domain
  import opened EventLog
  import opened TaskOrder
  import opened StoreModel

  // ----- prompts -----

  ghost predicate AllWhite(s: string) {
    forall i | 0 <= i < |s| :: IsWhitespace(s[i])
  }

  // `text` is what is left of the prompt without white space around it.
  ghost predicate TrimsTo(prompt: string, text: string) {
    exists lead, trail :: AllWhite(lead) && AllWhite(trail) && prompt == lead + text + trail
                          && (text != "" ==> !IsWhitespace(text[0]) && !IsWhitespace(text[|text| - 1]))
  }

  ghost predicate Accepts(prompt: string, text: string) {
    TrimsTo(prompt, text) && 1 <= |text| <= 50_000
  }

  lemma {:induction false} TrimStartSkips(lead: string, s: string)
    requires AllWhite(lead) && (s == "" || !IsWhitespace(s[0]))
    ensures TrimStart(lead + s) == s
    decreases |lead|
  {
    if lead == "" {
      assert lead + s == s;
    } else {
      assert (lead + s)[1..] == lead[1..] + s;
      TrimStartSkips(lead[1..], s);
    }
  }

  lemma {:induction false} TrimEndSkips(s: string, trail: string)
    requires AllWhite(trail) && (s == "" || !IsWhitespace(s[|s| - 1]))
    ensures TrimEnd(s + trail) == s
    decreases |trail|
  {
    if trail == "" {
      assert s + trail == s;
    } else {
      assert (s + trail)[..|s + trail| - 1] == s + trail[..|trail| - 1];
      TrimEndSkips(s, trail[..|trail| - 1]);
    }
  }

  lemma {:induction false} TrimStartCuts(s: string)
    ensures AllWhite(s[..|s| - |TrimStart(s)|])
  {
    if s != [] && IsWhitespace(s[0]) {
      TrimStartCuts(s[1..]);
      assert s[..|s| - |TrimStart(s)|] == [s[0]] + s[1..][..|s| - 1 - |TrimStart(s)|];
    }
  }

  lemma {:induction false} TrimEndCuts(s: string)
    ensures AllWhite(s[|TrimEnd(s)|..])
  {
    if s != [] && IsWhitespace(s[|s| - 1]) {
      var front := s[..|s| - 1];
      TrimEndCuts(front);
      assert s[|TrimEnd(s)|..] == front[|TrimEnd(s)|..] + [s[|s| - 1]];
    }
  }

  // Validation answers the trimmed text exactly if it has 1 to 50,000 characters.
  lemma PromptIsTrimmed(prompt: string, text: string)
    ensures TryNewPrompt(prompt) == Ok(text) <==> Accepts(prompt, text)
    ensures TryNewPrompt(prompt).Err? ==> TryNewPrompt(prompt).error == InvalidPrompt
  {
    hide TrimsTo, TrimStart, TrimEnd;
    if Accepts(prompt, text) { TrimmedIsCut(prompt, text); }
    CutIsTrimmed(prompt);
  }

  lemma TrimmedIsCut(prompt: string, text: string)
    requires TrimsTo(prompt, text) && text != ""
    ensures TrimEnd(TrimStart(prompt)) == text
  {
    hide TrimStart, TrimEnd, IsWhitespace;
    var lead, trail :| AllWhite(lead) && AllWhite(trail) && prompt == lead + text + trail
                       && !IsWhitespace(text[0]) && !IsWhitespace(text[|text| - 1]);
    hide AllWhite;
    assert lead + text + trail == lead + (text + trail);
    assert (text + trail)[0] == text[0];
    TrimStartSkips(lead, text + trail);
    TrimEndSkips(text, trail);
  }

  lemma CutIsTrimmed(prompt: string)
    ensures TrimsTo(prompt, TrimEnd(TrimStart(prompt)))
  {
    hide TrimStart, TrimEnd, IsWhitespace, AllWhite;
    var s := TrimStart(prompt);
    var text := TrimEnd(s);
    TrimStartCuts(prompt);
    TrimEndCuts(s);
    Parts(prompt, |prompt| - |s|, |text|);
    assert text != "" ==> text[0] == s[0];
  }

  lemma Parts(s: string, a: nat, n: nat)
    requires a + n <= |s|
    ensures s == s[..a] + s[a..][..n] + s[a..][n..]
  {
  }

  // ----- rows -----

  // The checks of `try_from_stored`, column by column.
  lemma RowChecks(task: Task)
    ensures TryFromStored(task).Ok? <==>
              && task.attempt > 0
              && (task.finishedAt.Some? <==> task.status != Queued && task.status != Running)
              && (task.failure.Some? <==> task.status == Failed || task.status == TaskStatus.Interrupted)
              && (task.status == Queued ==> task.startedAt.None?)
              && (task.status == Running || task.status == Completed || task.status == Failed ==> task.startedAt.Some?)
    ensures TryFromStored(task).Ok? ==> TryFromStored(task).value == task
    ensures TryFromStored(task) == Err(InvalidTaskAttempt) <==> task.attempt == 0
  {
  }

  // A final status is one that nothing leaves; only those can be retried, and only the others are
  // interrupted by a recovery.
  lemma FinalMeans(task: Task)
    ensures task.IsTerminal() <==> forall next :: !task.status.CanTransitionTo(next)
    ensures task.IsTerminal() <==> task.status.IsRetryable()
    ensures task.IsTerminal() <==> !task.status.IsIncomplete()
  {
    if !task.IsTerminal() { assert task.status.CanTransitionTo(TaskStatus.Interrupted); }
  }

  // ----- rows and events that a transaction writes -----

  // `task` was written with the event `id`, which carries it; nothing else changed.
  ghost predicate Wrote(db: Db, task: Task, id: nat, now: Timestamp, after: Db) {
    && LastId(db.log) < id == LastId(after.log) && id == after.counter && task.lastEventId == id
    && after.rows == db.rows[task.id := task] && after.repositories == db.repositories
    && after.log == db.log + [TaskEvent(id, 1, task.id, Lifecycle(task.status, task), now)]
  }

  lemma AppendWrites(db: Db, row: Task, now: Timestamp)
    requires LastId(db.log) <= db.counter
    ensures var after := AppendLifecycle(db, row.id, row, now);
            && Wrote(db, row.(lastEventId := db.counter + 1), db.counter + 1, now, after)
            && after.rows == db.rows[row.id := row.(lastEventId := db.counter + 1)] && after.counter == db.counter + 1
  {
  }

  ghost predicate RequestIsNew(db: Db, request: RequestId) {
    forall t | t in db.rows :: db.rows[t].clientRequestId != request
  }

  // ----- creating -----

  ghost predicate CreateAnswered(db: Db, request: RequestId, repository: RepositoryId, prompt: string, newId: TaskId, now: Timestamp,
                                 after: Db, r: Result<CreateOutcome, StoreError>) {
    match r
    case Err(Domain(error)) => error == InvalidPrompt && after == db && forall text :: !Accepts(prompt, text)
    case Err(IdempotencyConflict) =>
      after == db && exists text, t :: Accepts(prompt, text) && t in db.rows && db.rows[t].clientRequestId == request
                                       && !(db.rows[t].repositoryId == repository && db.rows[t].prompt == text)
    case Ok(Existing(task)) =>
      && after == db && task.id in db.rows && task == db.rows[task.id]
      && task.clientRequestId == request && task.repositoryId == repository && Accepts(prompt, task.prompt)
    case Err(Database) =>
      after == db && RequestIsNew(db, request) && repository !in db.repositories && exists text :: Accepts(prompt, text)
    case Ok(Created(task, id)) =>
      && RequestIsNew(db, request) && repository in db.repositories && Accepts(prompt, task.prompt)
      && task == Task(newId, request, repository, task.prompt, Queued, 1, None, now, None, None, id, None)
      && Wrote(db, task, id, now, after)
    case _ => false
  }

  lemma InvParts(db: Db)
    requires Inv(db)
    ensures Forest(db.rows) && LastId(db.log) <= db.counter && WellFormed(db.log)
  {
  }

  lemma CreateIsAnswered(db: Db, request: RequestId, repository: RepositoryId, prompt: string, newId: TaskId, now: Timestamp)
    requires Inv(db)
    ensures var (after, r) := Create(db, request, repository, prompt, newId, now);
            CreateAnswered(db, request, repository, prompt, newId, now, after, r)
  {
    hide Inv, Forest, WellFormed, TryNewPrompt, FindRequest, Accepts, Wrote, AppendLifecycle;
    InvParts(db);
    forall text { PromptIsTrimmed(prompt, text); }
    PromptIsTrimmed(prompt, "");
    FoundRequest(db, request);
    if TryNewPrompt(prompt).Ok? { AppendWrites(db, NewRow(newId, request, repository, TryNewPrompt(prompt).value, 1, None, now), now); }
  }

  lemma FoundRequest(db: Db, request: RequestId)
    requires Forest(db.rows)
    ensures FindRequest(db, request).None? <==> RequestIsNew(db, request)
    ensures match FindRequest(db, request)
            case None => true
            case Some(t) => t in db.rows && db.rows[t].clientRequestId == request && db.rows[t].id == t
  {
    forall t | t in db.rows && db.rows[t].clientRequestId == request ensures FindRequest(db, request).Some? {
      assert HasRequest(db, request, t);
    }
  }

  // The rows leave the store no other answer.
  lemma CreateHasOneAnswer(db: Db, request: RequestId, repository: RepositoryId, prompt: string, newId: TaskId, now: Timestamp,
                           a: Db, r: Result<CreateOutcome, StoreError>)
    requires Inv(db) && newId !in db.rows && CreateAnswered(db, request, repository, prompt, newId, now, a, r)
    ensures r.Err? ==> Create(db, request, repository, prompt, newId, now) == (a, r)
    ensures r.Ok? && r.value.Existing? ==> Create(db, request, repository, prompt, newId, now) == (a, r)
    ensures r.Ok? && r.value.Created? ==>
              var own := Create(db, request, repository, prompt, newId, now).1;
              own.Ok? && own.value.Created? && own.value.task.(lastEventId := 0) == r.value.task.(lastEventId := 0)
  {
    hide Inv, Forest, WellFormed, TryNewPrompt, FindRequest, Accepts, Wrote, AppendLifecycle;
    InvParts(db);
    forall text { PromptIsTrimmed(prompt, text); }
    if TryNewPrompt(prompt).Ok? {
      PromptIsTrimmed(prompt, TryNewPrompt(prompt).value);
      AppendWrites(db, NewRow(newId, request, repository, TryNewPrompt(prompt).value, 1, None, now), now);
    } else {
      PromptIsTrimmed(prompt, "");
    }
    FoundRequest(db, request);
    OneRowPerRequest(db, request);
  }

  lemma OneRowPerRequest(db: Db, request: RequestId)
    requires Forest(db.rows)
    ensures forall a, b | a in db.rows && b in db.rows && db.rows[a].clientRequestId == request && db.rows[b].clientRequestId == request
              :: a == b
  {
  }

  // A conflict comes exactly if a stored row has that request with something else in it.
  lemma ConflictMeans(db: Db, request: RequestId, repository: RepositoryId, prompt: string, text: string, newId: TaskId, now: Timestamp)
    requires Inv(db) && newId !in db.rows && Accepts(prompt, text)
    ensures Create(db, request, repository, prompt, newId, now).1 == Err(IdempotencyConflict)
            <==> exists t :: t in db.rows && db.rows[t].clientRequestId == request
                             && (db.rows[t].repositoryId != repository || db.rows[t].prompt != text)
  {
    hide Inv, Forest, WellFormed, TryNewPrompt, FindRequest, Accepts;
    InvParts(db);
    PromptIsTrimmed(prompt, text);
    FoundRequest(db, request);
    OneRowPerRequest(db, request);
  }

  // What a create made is found by every later create with the same request, repository and
  // prompt, and nothing is written.
  lemma RepeatedCreateFinds(after: Db, later: Db, task: Task, prompt: string, newId: TaskId, now: Timestamp)
    requires Inv(after) && Inv(later) && Extends(after, later) && newId !in later.rows
    requires task.id in after.rows && after.rows[task.id] == task && Accepts(prompt, task.prompt)
    ensures task.id in later.rows && later.rows[task.id].id == task.id
    ensures Create(later, task.clientRequestId, task.repositoryId, prompt, newId, now)
         == (later, Ok(Existing(later.rows[task.id])))
  {
    hide Inv, Forest, WellFormed, TryNewPrompt, FindRequest, Accepts;
    InvParts(later);
    PromptIsTrimmed(prompt, task.prompt);
    FoundRequest(later, task.clientRequestId);
    OneRowPerRequest(later, task.clientRequestId);
    assert SameIdentity(after.rows[task.id], later.rows[task.id]);
  }

  // The same along every run: a client that repeats its create, however often and however late,
  // gets the task of the first one.
  lemma CreatedOnce(history: seq<Db>, txs: seq<Transaction>, m: nat, n: nat, newId: TaskId, now: Timestamp)
    requires IsRun(history, txs) && m < n < |history| && txs[m].CreateTask? && newId !in history[n].rows
    requires Forest(history[m].rows)
    requires var tx := txs[m];
             var r := Create(history[m], tx.request, tx.repository, tx.prompt, tx.newId, tx.now).1;
             r.Ok? && r.value.Created?
    ensures var tx := txs[m];
            && tx.newId in history[n].rows
            && Forest(history[n].rows)
            && Create(history[n], tx.request, tx.repository, tx.prompt, newId, now)
               == (history[n], Ok(Existing(history[n].rows[tx.newId])))
  {
    hide Inv, Forest, Commits, Create, Extends, CreateAnswered, TryNewPrompt, Accepts;
    var tx := txs[m];
    EveryRunKeepsInv(history, txs, m);
    EveryRunKeepsInv(history, txs, m + 1);
    EveryRunKeepsInv(history, txs, n);
    EveryRunExtends(history, txs, m + 1, n);
    InvParts(history[n]);
    var task := CreatedRow(history[m], tx, history[m + 1]);
    RepeatedCreateFinds(history[m + 1], history[n], task, tx.prompt, newId, now);
  }

  lemma CreatedRow(db: Db, tx: Transaction, after: Db) returns (task: Task)
    requires tx.CreateTask? && Inv(db) && Forest(db.rows) && Commits(db, tx, after)
    requires var r := Create(db, tx.request, tx.repository, tx.prompt, tx.newId, tx.now).1; r.Ok? && r.value.Created?
    ensures task.id == tx.newId && task.clientRequestId == tx.request && task.repositoryId == tx.repository
    ensures Accepts(tx.prompt, task.prompt) && task.id in after.rows && after.rows[task.id] == task
  {
    hide Inv, Forest, Create, Accepts;
    CreateIsAnswered(db, tx.request, tx.repository, tx.prompt, tx.newId, tx.now);
    task := Create(db, tx.request, tx.repository, tx.prompt, tx.newId, tx.now).1.value.task;
  }

  // ----- retrying -----

  ghost predicate NotRetried(db: Db, source: TaskId) {
    forall t | t in db.rows :: db.rows[t].retryOf != Some(source)
  }

  ghost predicate RetryAnswered(db: Db, source: TaskId, newId: TaskId, newRequest: RequestId, now: Timestamp,
                                after: Db, r: Result<CreateOutcome, StoreError>) {
    match r
    case Err(TaskNotFound) => after == db && source !in db.rows
    case Err(TaskNotRetryable) => after == db && source in db.rows && (db.rows[source].status == Queued || db.rows[source].status == Running)
    case Ok(Existing(task)) =>
      && after == db && source in db.rows && db.rows[source].status != Queued && db.rows[source].status != Running
      && task.id in db.rows && task == db.rows[task.id] && task.retryOf == Some(source)
    case Err(TaskAttemptOverflow) =>
      && after == db && source in db.rows && db.rows[source].status != Queued && db.rows[source].status != Running
      && NotRetried(db, source) && db.rows[source].attempt == 0xFFFF_FFFF
    case Ok(Created(task, id)) =>
      && source in db.rows && db.rows[source].status != Queued && db.rows[source].status != Running
      && NotRetried(db, source) && db.rows[source].attempt < 0xFFFF_FFFF
      && task == Task(newId, newRequest, db.rows[source].repositoryId, db.rows[source].prompt, Queued, db.rows[source].attempt + 1,
                      Some(source), now, None, None, id, None)
      && Wrote(db, task, id, now, after)
    case _ => false
  }

  lemma RetryIsAnswered(db: Db, source: TaskId, newId: TaskId, newRequest: RequestId, now: Timestamp)
    requires Inv(db)
    ensures var (after, r) := Retry(db, source, newId, newRequest, now);
            RetryAnswered(db, source, newId, newRequest, now, after, r)
  {
    hide Inv, Forest, WellFormed, FindRetry, Wrote, AppendLifecycle, NotRetried;
    InvParts(db);
    FoundRetry(db, source);
    if source in db.rows && db.rows[source].attempt < MAX_ATTEMPT {
      var row := db.rows[source];
      AppendWrites(db, NewRow(newId, newRequest, row.repositoryId, row.prompt, row.attempt + 1, Some(source), now), now);
    }
  }

  lemma FoundRetry(db: Db, source: TaskId)
    requires Forest(db.rows)
    ensures FindRetry(db, source).None? <==> NotRetried(db, source)
    ensures match FindRetry(db, source)
            case None => true
            case Some(t) => t in db.rows && db.rows[t].retryOf == Some(source) && db.rows[t].id == t
  {
    forall t | t in db.rows && db.rows[t].retryOf == Some(source) ensures FindRetry(db, source).Some? {
      assert IsRetryOf(db, source, t);
    }
  }

  // A retry that was made is what every later retry of the same task finds.
  lemma RepeatedRetryFinds(after: Db, later: Db, task: Task, source: TaskId, newId: TaskId, newRequest: RequestId, now: Timestamp)
    requires Inv(after) && Inv(later) && Extends(after, later)
    requires task.id in after.rows && after.rows[task.id] == task && task.retryOf == Some(source)
    requires source in later.rows && later.rows[source].status != Queued && later.rows[source].status != Running
    ensures task.id in later.rows
    ensures Retry(later, source, newId, newRequest, now) == (later, Ok(Existing(later.rows[task.id])))
  {
    hide Inv, Forest, WellFormed, FindRetry;
    InvParts(later);
    FoundRetry(later, source);
    OneChild(later, source);
    assert SameIdentity(after.rows[task.id], later.rows[task.id]);
  }

  lemma OneChild(db: Db, source: TaskId)
    requires Forest(db.rows)
    ensures forall a, b | a in db.rows && b in db.rows && db.rows[a].retryOf == Some(source) && db.rows[b].retryOf == Some(source)
              :: a == b
  {
  }

  // ----- transitions -----

  // The edges of the status machine, and what each writes.
  predicate MayStep(from: TaskStatus, transition: TaskTransition) {
    match transition
    case ToRunning => from == Queued
    case ToCompleted => from == Running
    case ToFailed(_) => from == Running
    case ToCancelled => from == Queued || from == Running
    case ToInterrupted(_) => from == Queued || from == Running
  }

  function Stepped(row: Task, transition: TaskTransition, now: Timestamp, id: nat): Task {
    match transition
    case ToRunning => row.(status := Running, startedAt := Some(now), lastEventId := id)
    case ToCompleted => row.(status := Completed, finishedAt := Some(now), lastEventId := id)
    case ToFailed(failure) => row.(status := Failed, finishedAt := Some(now), failure := Some(failure), lastEventId := id)
    case ToCancelled => row.(status := Cancelled, finishedAt := Some(now), lastEventId := id)
    case ToInterrupted(failure) => row.(status := TaskStatus.Interrupted, finishedAt := Some(now), failure := Some(failure), lastEventId := id)
  }

  ghost predicate TransitionAnswered(db: Db, t: TaskId, expected: TaskStatus, transition: TaskTransition, now: Timestamp,
                                     after: Db, r: Result<TransitionOutcome, StoreError>) {
    match r
    case Err(IllegalTransition(from, _)) => after == db && from == expected && !MayStep(expected, transition)
    case Err(TaskNotFound) => after == db && MayStep(expected, transition) && t !in db.rows
    case Ok(Conflict(current)) =>
      after == db && MayStep(expected, transition) && t in db.rows && current == db.rows[t] && current.status != expected
    case Ok(Applied(task, id)) =>
      && MayStep(expected, transition) && t in db.rows && db.rows[t].status == expected
      && task == Stepped(db.rows[t], transition, now, id) && Wrote(db, task, id, now, after)
    case _ => false
  }

  lemma TransitionIsAnswered(db: Db, t: TaskId, expected: TaskStatus, transition: TaskTransition, now: Timestamp)
    requires Inv(db)
    ensures var (after, r) := TransitionWithEvent(db, t, expected, transition, now);
            TransitionAnswered(db, t, expected, transition, now, after, r)
  {
    hide Inv, Forest, WellFormed, Wrote, AppendLifecycle;
    InvParts(db);
    if t in db.rows {
      StoredRow(db, t);
      AppendWrites(db, Updated(db.rows[t], transition, now), now);
    }
  }

  lemma StoredRow(db: Db, t: TaskId)
    requires Inv(db) && t in db.rows
    ensures db.rows[t].id == t && db.rows[t].StateIsValid()
    ensures db.rows[t].status.IsIncomplete() ==> db.rows[t].finishedAt.None? && db.rows[t].failure.None?
  {
    RowIsStored(db.log, t);
  }

  // ----- panel events -----

  ghost predicate AppendAnswered(db: Db, t: TaskId, payload: Payload, now: Timestamp, after: Db, r: Result<AppendOutcome, StoreError>) {
    match r
    case Err(InvalidRunningEvent) => after == db && payload.Lifecycle?
    case Err(TaskNotFound) => after == db && !payload.Lifecycle? && t !in db.rows
    case Ok(NotRunning(current)) =>
      after == db && !payload.Lifecycle? && t in db.rows && current == db.rows[t] && current.status != Running
    case Ok(Appended(id)) =>
      && !payload.Lifecycle? && t in db.rows && db.rows[t].status == Running
      && LastId(db.log) < id && id == after.counter && after.repositories == db.repositories
      && after.rows == db.rows[t := db.rows[t].(lastEventId := id)] && after.log == db.log + [TaskEvent(id, 1, t, payload, now)]
    case _ => false
  }

  lemma AppendIsAnswered(db: Db, t: TaskId, payload: Payload, now: Timestamp)
    requires Inv(db)
    ensures var (after, r) := AppendRunningEvent(db, t, payload, now);
            AppendAnswered(db, t, payload, now, after, r)
  {
    hide Inv, Forest, WellFormed;
    InvParts(db);
  }

  // ----- recovery -----

  // The rows `ids`, in this order, were interrupted with one event each, and nothing else changed.
  ghost predicate Recovered(db: Db, ids: seq<TaskId>, now: Timestamp, failure: TaskFailure, after: Db) {
    && |after.log| == |db.log| + |ids| && db.log <= after.log && after.rows.Keys == db.rows.Keys
    && after.repositories == db.repositories
    && (forall t | t in db.rows && t !in ids && t in after.rows :: after.rows[t] == db.rows[t])
    && (forall i | 0 <= i < |ids| :: InterruptedAt(db, ids[i], now, failure, after, |db.log| + i))
  }

  // Event number `k` of the log afterwards interrupts `t` with the failure.
  ghost predicate InterruptedAt(db: Db, t: TaskId, now: Timestamp, failure: TaskFailure, after: Db, k: nat) {
    && t in db.rows && t in after.rows && k < |after.log|
    && after.rows[t] == db.rows[t].(status := TaskStatus.Interrupted, finishedAt := Some(now), failure := Some(failure),
                                    lastEventId := after.log[k].id)
    && after.log[k] == TaskEvent(after.log[k].id, 1, t, Lifecycle(TaskStatus.Interrupted, after.rows[t]), now)
  }

  lemma {:induction false} RecoverWrites(db: Db, ids: seq<TaskId>, now: Timestamp, failure: TaskFailure)
    requires forall t | t in ids :: t in db.rows
    requires forall i, j | 0 <= i < j < |ids| :: ids[i] != ids[j]
    ensures Recovered(db, ids, now, failure, Recover(db, ids, now, failure))
  {
    hide Recovered, Interrupt;
    if ids == [] {
      NothingRecovered(db, now, failure);
    } else {
      var front, t := ids[..|ids| - 1], ids[|ids| - 1];
      RecoverWrites(db, front, now, failure);
      OneMoreRecovered(db, front, t, now, failure, Recover(db, front, now, failure));
      assert ids == front + [t];
    }
  }

  lemma NothingRecovered(db: Db, now: Timestamp, failure: TaskFailure)
    ensures Recovered(db, [], now, failure, db)
  {
  }

  lemma OneMoreRecovered(db: Db, done: seq<TaskId>, t: TaskId, now: Timestamp, failure: TaskFailure, mid: Db)
    requires Recovered(db, done, now, failure, mid) && t in db.rows && t !in done
    ensures t in mid.rows && Recovered(db, done + [t], now, failure, Interrupt(mid, t, now, failure))
  {
    hide InterruptedAt, Interrupt;
    var after := Interrupt(mid, t, now, failure);
    var ids := done + [t];
    InterruptWrites(mid, t, now, failure);
    forall i | 0 <= i < |ids| ensures InterruptedAt(db, ids[i], now, failure, after, |db.log| + i) {
      if i < |done| {
        assert InterruptedAt(db, done[i], now, failure, mid, |db.log| + i) && done[i] in done;
        InterruptedStays(db, done[i], t, now, failure, mid, |db.log| + i);
      } else {
        InterruptedNow(db, t, now, failure, mid);
      }
    }
    assert forall u :: u in ids <==> u in done || u == t;
  }

  lemma InterruptWrites(mid: Db, t: TaskId, now: Timestamp, failure: TaskFailure)
    requires t in mid.rows
    ensures var after := Interrupt(mid, t, now, failure);
            && |after.log| == |mid.log| + 1 && mid.log <= after.log && after.rows.Keys == mid.rows.Keys
            && after.repositories == mid.repositories && forall u | u in mid.rows && u != t :: after.rows[u] == mid.rows[u]
  {
  }

  lemma InterruptedNow(db: Db, t: TaskId, now: Timestamp, failure: TaskFailure, mid: Db)
    requires t in db.rows && t in mid.rows && mid.rows[t] == db.rows[t]
    ensures InterruptedAt(db, t, now, failure, Interrupt(mid, t, now, failure), |mid.log|)
  {
  }

  lemma InterruptedStays(db: Db, u: TaskId, t: TaskId, now: Timestamp, failure: TaskFailure, mid: Db, k: nat)
    requires InterruptedAt(db, u, now, failure, mid, k) && t in mid.rows && t != u
    ensures InterruptedAt(db, u, now, failure, Interrupt(mid, t, now, failure), k)
  {
  }

  ghost predicate RecoverAnswered(db: Db, now: Timestamp, failure: TaskFailure, after: Db) {
    exists ids :: Lists(db.rows, Incomplete(db), ids) && Recovered(db, ids, now, failure, after)
  }

  // A recovery interrupts the queued and running rows, oldest first, each with the failure given.
  lemma RecoverIsAnswered(db: Db, now: Timestamp, failure: TaskFailure, after: Db)
    requires Inv(db) && Commits(db, RecoverIncomplete(now, failure), after)
    ensures RecoverAnswered(db, now, failure, after)
    ensures AllRecovered(db, failure, after)
  {
    hide Inv, Recover, Recovered, AllRecovered;
    var ids :| Lists(db.rows, Incomplete(db), ids) && after == Recover(db, ids, now, failure);
    ListedOnce(db.rows, Incomplete(db), ids);
    RecoverWrites(db, ids, now, failure);
    RecoveredAll(db, ids, now, failure, after);
  }

  // Row by row.
  ghost predicate AllRecovered(db: Db, failure: TaskFailure, after: Db) {
    forall t | t in db.rows ::
      && t in after.rows
      && if db.rows[t].status == Queued || db.rows[t].status == Running
         then after.rows[t].status == TaskStatus.Interrupted && after.rows[t].failure == Some(failure)
         else after.rows[t] == db.rows[t]
  }

  lemma RecoveredAll(db: Db, ids: seq<TaskId>, now: Timestamp, failure: TaskFailure, after: Db)
    requires Lists(db.rows, Incomplete(db), ids) && Recovered(db, ids, now, failure, after)
    ensures AllRecovered(db, failure, after)
  {
    hide SortedIds, InterruptedAt;
    forall t | t in ids ensures t in after.rows && after.rows[t].status == TaskStatus.Interrupted && after.rows[t].failure == Some(failure) {
      var i :| 0 <= i < |ids| && ids[i] == t;
      assert InterruptedAt(db, ids[i], now, failure, after, |db.log| + i);
      InterruptedRow(db, t, now, failure, after, |db.log| + i);
    }
  }

  lemma InterruptedRow(db: Db, t: TaskId, now: Timestamp, failure: TaskFailure, after: Db, k: nat)
    requires InterruptedAt(db, t, now, failure, after, k)
    ensures t in after.rows && after.rows[t].status == TaskStatus.Interrupted && after.rows[t].failure == Some(failure)
  {
  }

  lemma ListedOnce(rows: map<TaskId, Task>, wanted: set<TaskId>, ids: seq<TaskId>)
    requires Lists(rows, wanted, ids)
    ensures forall i, j | 0 <= i < j < |ids| :: ids[i] != ids[j]
  {
    forall i, j | 0 <= i < j < |ids| ensures ids[i] != ids[j] { assert Before(rows, ids[i], ids[j]); }
  }
}
