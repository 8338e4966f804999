/** The single writer: a FIFO queue in front of the store, with bounded retries under a deadline. */
module Writer {
  import opened Domain
  import opened EventLog
  import opened StoreModel
  import opened StoreLaws
  import opened TaskStore

  // Milliseconds between attempts that found the database busy.
  const RETRY_DELAYS := [25, 50, 100, 200, 400]

  datatype WriterError = Busy | StoreRefused

  // How the database ends one attempt.
  datatype Ending = Lands | BusyRollsBack | FailsAndRollsBack | FailsAfterCommit

  datatype WriteCommand = WriteCommand(tx: Transaction, deadline: int)

  // `WriteReceipt`: what the store answered, and the event the command appended, if it appended one.
  datatype Value =
    | CreateValue(created: CreateOutcome)
    | TransitionValue(moved: TransitionOutcome)
    | AppendValue(appended: AppendOutcome)
    | RecoveryValue(recovery: RecoveryOutcome)
    | NoValue

  datatype Receipt = Receipt(value: Value, eventId: Option<nat>)

  function Done(value: Value): Result<Receipt, WriterError> {
    Ok(Receipt(value, match value
                      case CreateValue(Created(_, id)) => Some(id)
                      case TransitionValue(Applied(_, id)) => Some(id)
                      case AppendValue(Appended(id)) => Some(id)
                      case RecoveryValue(outcome) => outcome.lastEventId
                      case _ => None))
  }

  // An attempt that the database let through did what the store does, and answered what the
  // store answers: a receipt exactly if the store accepts the command.
  ghost predicate Landed(before: Db, tx: Transaction, after: Db, answer: Result<Receipt, WriterError>) {
    match tx
    case CreateTask(request, repository, prompt, newId, now) =>
      (if newId in before.rows then answer == Err(StoreRefused) && after == before
       else if answer.Ok? then
         && answer.value.value.CreateValue? && answer == Done(answer.value.value)
         && CreateAnswered(before, request, repository, prompt, newId, now, after, Ok(answer.value.value.created))
       else
         answer == Err(StoreRefused) && exists e :: CreateAnswered(before, request, repository, prompt, newId, now, after, Err(e)))
    case RetryTask(source, newId, newRequest, now) =>
      (if newId in before.rows || !RequestIsNew(before, newRequest) then answer == Err(StoreRefused) && after == before
       else if answer.Ok? then
         && answer.value.value.CreateValue? && answer == Done(answer.value.value)
         && RetryAnswered(before, source, newId, newRequest, now, after, Ok(answer.value.value.created))
       else
         answer == Err(StoreRefused) && exists e :: RetryAnswered(before, source, newId, newRequest, now, after, Err(e)))
    case TransitionTask(t, expected, transition, now) =>
      (if answer.Ok? then
         && answer.value.value.TransitionValue? && answer == Done(answer.value.value)
         && TransitionAnswered(before, t, expected, transition, now, after, Ok(answer.value.value.moved))
       else
         answer == Err(StoreRefused) && exists e :: TransitionAnswered(before, t, expected, transition, now, after, Err(e)))
    case AppendEvent(t, payload, now) =>
      (if answer.Ok? then
         && answer.value.value.AppendValue? && answer == Done(answer.value.value)
         && AppendAnswered(before, t, payload, now, after, Ok(answer.value.value.appended))
       else
         answer == Err(StoreRefused) && exists e :: AppendAnswered(before, t, payload, now, after, Err(e)))
    case RecoverIncomplete(now, failure) =>
      && answer.Ok? && answer.value.value.RecoveryValue? && answer == Done(answer.value.value)
      && RecoverAnswered(before, now, failure, after) && AllRecovered(before, failure, after)
      && OutcomeOf(before, after, answer.value.value.recovery)
    case RegisterRepository(repository) =>
      answer == Done(NoValue) && after == before.(repositories := before.repositories + {repository})
    case Burn(ids) => answer == Done(NoValue) && after == before.(counter := before.counter + ids)
  }

  ghost predicate OutcomeOf(before: Db, after: Db, outcome: RecoveryOutcome) {
    && outcome.interruptedCount == |after.log| - |before.log| && outcome.highWatermark == LastId(after.log)
    && outcome.firstEventId == (if outcome.interruptedCount == 0 then None else Some(after.log[|before.log|].id))
    && outcome.lastEventId == if outcome.interruptedCount == 0 then None else Some(LastId(after.log))
  }

  // What an answer says about the store before and after, however the last attempt ended. If no
  // attempt was made, or the last one found the database busy, nothing happened.
  ghost predicate Answers(before: Db, tx: Transaction, after: Db, answer: Result<Receipt, WriterError>, ending: Ending)
    requires Forest(before.rows)
  {
    match ending
    case Lands => Landed(before, tx, after, answer) && Traced(before, tx, after, answer)
    case BusyRollsBack => answer == Err(Busy) && after == before
    case FailsAndRollsBack => answer == Err(StoreRefused) && after == before
    case FailsAfterCommit =>
      answer == Err(StoreRefused) && exists a :: Landed(before, tx, after, a) && Traced(before, tx, after, a)
  }

  // A receipt belongs to a transaction of the store and names the event it appended.
  ghost predicate Traced(before: Db, tx: Transaction, after: Db, answer: Result<Receipt, WriterError>)
    requires Forest(before.rows)
  {
    match answer
    case Ok(receipt) =>
      && Commits(before, tx, after)
      && (receipt.eventId.None? ==> after.log == before.log)
      && (receipt.eventId.Some? ==> before.log < after.log && receipt.eventId.value == LastId(after.log))
    case Err(_) => after == before
  }

  // How attempt number `k` ends: by the script, and once that is over the database is well.
  function EndingAt(endings: seq<Ending>, k: nat): Ending {
    if k < |endings| then endings[k] else Lands
  }

  function Skip(endings: seq<Ending>, n: nat): seq<Ending> {
    if n <= |endings| then endings[n..] else []
  }

  // `started` are the times at which attempts were made; all but the last found the database busy,
  // and the next one came after its delay.
  ghost predicate Attempted(endings: seq<Ending>, started: seq<int>, deadline: int, last: Ending) {
    && |started| <= |RETRY_DELAYS| + 1 && (forall s | s in started :: s < deadline)
    && (forall k | 0 <= k < |started| - 1 :: EndingAt(endings, k) == BusyRollsBack && started[k] + RETRY_DELAYS[k] <= started[k + 1])
    && last == if started == [] then BusyRollsBack else EndingAt(endings, |started| - 1)
  }

  class StoreWriter {
    const store: Store
    var clock: int
    var delays: seq<nat>
    var endings: seq<Ending>
    ghost var wakes: nat

    constructor (store: Store, delays: seq<nat>, endings: seq<Ending>)
      ensures this.store == store && wakes == 0
    {
      this.store, clock, this.delays, this.endings, wakes := store, 0, delays, endings, 0;
    }

    // Time passes by itself.
    method Now() returns (now: int)
      modifies this`clock, this`delays
      ensures now == clock >= old(clock)
    {
      if delays != [] {
        clock := clock + delays[0];
        delays := delays[1..];
      }
      now := clock;
    }

    method SleepUntil(instant: int)
      modifies this`clock
      ensures clock == if instant > old(clock) then instant else old(clock)
    {
      if instant > clock { clock := instant; }
    }

    // One transaction of the store. An id that is already taken violates a UNIQUE column.
    method Perform(tx: Transaction) returns (r: Result<Receipt, WriterError>)
      requires store.Valid()
      modifies store
      ensures store.Valid() && Landed(old(store.Contents()), tx, store.Contents(), r) && Traced(old(store.Contents()), tx, store.Contents(), r)
    {
      hide Inv, Forest, Commits, Create, Retry, TransitionWithEvent, AppendRunningEvent;
      hide CreateAnswered, RetryAnswered, TransitionAnswered, AppendAnswered, RecoverAnswered, AllRecovered;
      ghost var before := store.Contents();
      InvForest(before);
      match tx {
        case CreateTask(request, repository, prompt, newId, now) =>
          if newId in store.rows { return Err(StoreRefused); }
          var outcome := store.CreateTask(request, repository, prompt, newId, now);
          CreateAnswers(before, request, repository, prompt, newId, now);
          r := match outcome case Err(_) => Err(StoreRefused) case Ok(value) => Done(CreateValue(value));
        case RetryTask(source, newId, newRequest, now) =>
          var taken := store.FindByRequest(newRequest);
          FoundRequest(before, newRequest);
          if newId in store.rows || taken.Some? { return Err(StoreRefused); }
          NoRequest(before, newRequest);
          var outcome := store.RetryTask(source, newId, newRequest, now);
          RetryAnswers(before, source, newId, newRequest, now);
          r := match outcome case Err(_) => Err(StoreRefused) case Ok(value) => Done(CreateValue(value));
        case TransitionTask(t, expected, transition, now) =>
          var outcome := store.TransitionTask(t, expected, transition, now);
          TransitionAnswers(before, t, expected, transition, now);
          r := match outcome case Err(_) => Err(StoreRefused) case Ok(value) => Done(TransitionValue(value));
        case AppendEvent(t, payload, now) =>
          var outcome := store.AppendEvent(t, payload, now);
          AppendAnswers(before, t, payload, now);
          r := match outcome case Err(_) => Err(StoreRefused) case Ok(value) => Done(AppendValue(value));
        case RecoverIncomplete(now, failure) =>
          var outcome := store.RecoverIncompleteTasks(now, failure);
          RecoverAnswers(before, store.Contents(), now, failure);
          r := Done(RecoveryValue(outcome));
        case RegisterRepository(repository) =>
          RegisterAnswers(before, repository);
          store.repositories := store.repositories + {repository};
          r := Done(NoValue);
        case Burn(ids) =>
          BurnAnswers(before, ids);
          store.counter := store.counter + ids;
          r := Done(NoValue);
      }
    }

    // One attempt, and how the database ends it.
    method Attempt(tx: Transaction) returns (r: Result<Receipt, WriterError>)
      requires store.Valid()
      modifies this`endings, store
      ensures store.Valid() && Forest(old(store.Contents()).rows)
      ensures Answers(old(store.Contents()), tx, store.Contents(), r, EndingAt(old(endings), 0)) && endings == Skip(old(endings), 1)
      ensures EndingAt(old(endings), 0) != BusyRollsBack ==> r != Err(Busy)
    {
      hide Inv, Forest, Commits, Landed, Traced;
      InvForest(store.Contents());
      var ending := Lands;
      if endings != [] {
        ending := endings[0];
        endings := endings[1..];
      }
      match ending {
        case Lands =>
          r := Perform(tx);
          NeverBusy(old(store.Contents()), tx, store.Contents(), r);
        case BusyRollsBack => r := Err(Busy);
        case FailsAndRollsBack => r := Err(StoreRefused);
        case FailsAfterCommit =>
          var lost := Perform(tx);
          r := Err(StoreRefused);
      }
    }

    // `execute`: retries a busy store a bounded number of times and never starts an attempt
    // after the deadline. The command takes effect at most once.
    method Execute(tx: Transaction, deadline: int) returns (r: Result<Receipt, WriterError>, ghost started: seq<int>, ghost last: Ending)
      requires store.Valid()
      modifies this`clock, this`delays, this`endings, store
      ensures store.Valid() && Forest(old(store.Contents()).rows)
      ensures Answers(old(store.Contents()), tx, store.Contents(), r, last)
      ensures Attempted(old(endings), started, deadline, last) && endings == Skip(old(endings), |started|)
      ensures r == Err(Busy) ==> clock >= deadline || |started| == |RETRY_DELAYS| + 1
      ensures r == Err(Busy) <==> last == BusyRollsBack
      ensures clock >= old(clock)
    {
      hide Inv, Forest, Commits, Landed, Traced;
      InvForest(store.Contents());
      started, last := [], BusyRollsBack;
      var now := Now();
      if now >= deadline { return Err(Busy), started, last; }
      var retry := 0;
      while true
        invariant store.Valid() && store.Contents() == old(store.Contents()) && old(clock) <= clock < deadline
        invariant retry <= |RETRY_DELAYS| && |started| == retry && last == BusyRollsBack
        invariant endings == Skip(old(endings), retry) && Attempted(old(endings), started, deadline, last)
        invariant retry > 0 ==> started[retry - 1] + RETRY_DELAYS[retry - 1] <= clock
        decreases |RETRY_DELAYS| - retry
      {
        OneMoreAttempt(old(endings), started, deadline, clock);
        started := started + [clock];
        last := EndingAt(endings, 0);
        r := Attempt(tx);
        if r != Err(Busy) || retry >= |RETRY_DELAYS| { return; }
        now := Now();
        if now >= deadline { return Err(Busy), started, last; }
        var retryAt := now + RETRY_DELAYS[retry];
        retry := retry + 1;
        if retryAt >= deadline {
          SleepUntil(deadline);
          return Err(Busy), started, last;
        }
        SleepUntil(retryAt);
        now := Now();
        if now >= deadline { return Err(Busy), started, last; }
      }
    }

    // `run_writer`: commands take effect in the order they were sent, and whoever reads events
    // is woken exactly once for every answer that carries one.
    method Run(commands: seq<WriteCommand>)
      returns (answers: seq<Result<Receipt, WriterError>>, ghost started: seq<seq<int>>, ghost ends: seq<Ending>)
      requires store.Valid()
      modifies this, store
      ensures store.Valid() && wakes == old(wakes) + Woken(answers)
      ensures Ran(old(store.Contents()), commands, answers, ends, store.Contents()) && |answers| == |commands| == |ends| == |started|
      ensures AllTried(old(endings), commands, answers, started, ends, clock)
    {
      hide Forest, Answers, Ran, Attempted, AllTried;
      answers, started, ends := [], [], [];
      ghost var start := store.Contents();
      NobodyYet(start, commands);
      NothingTried(endings, commands, clock);
      for n := 0 to |commands|
        invariant store.Valid() && wakes == old(wakes) + Woken(answers)
        invariant |answers| == |ends| == |started| == n && Ran(start, commands, answers, ends, store.Contents())
        invariant endings == Skip(old(endings), Attempts(started))
        invariant AllTried(old(endings), commands, answers, started, ends, clock)
      {
        ghost var before, began := store.Contents(), clock;
        var answer;
        ghost var tries, last;
        answer, tries, last := Execute(commands[n].tx, commands[n].deadline);
        OneMoreTurn(start, commands, answers, ends, before, answer, last, store.Contents());
        SkipMore(old(endings), Attempts(started), |tries|);
        MoreAttempts(started, tries);
        OneMoreTried(old(endings), commands, answers, started, ends, began, answer, tries, last, clock);
        if answer.Ok? && answer.value.eventId.Some? { wakes := wakes + 1; }
        answers, started, ends := answers + [answer], started + [tries], ends + [last];
      }
    }
  }

  // Each command used up its own attempts, and none was given up before its time.
  ghost predicate AllTried(endings: seq<Ending>, commands: seq<WriteCommand>, answers: seq<Result<Receipt, WriterError>>,
                           started: seq<seq<int>>, ends: seq<Ending>, clock: int) {
    && |answers| == |started| == |ends| <= |commands|
    && forall n | 0 <= n < |answers| :: TriedAt(endings, commands[n], answers[n], started, n, ends[n], clock)
  }

  ghost predicate TriedAt(endings: seq<Ending>, command: WriteCommand, answer: Result<Receipt, WriterError>, started: seq<seq<int>>,
                          n: nat, last: Ending, clock: int)
    requires n < |started|
  {
    && Attempted(Skip(endings, Attempts(started[..n])), started[n], command.deadline, last)
    && (answer == Err(Busy) ==> clock >= command.deadline || |started[n]| == |RETRY_DELAYS| + 1)
  }

  lemma NothingTried(endings: seq<Ending>, commands: seq<WriteCommand>, clock: int)
    ensures AllTried(endings, commands, [], [], [], clock)
  {
  }

  lemma OneMoreTried(endings: seq<Ending>, commands: seq<WriteCommand>, answers: seq<Result<Receipt, WriterError>>,
                     started: seq<seq<int>>, ends: seq<Ending>, clock: int,
                     answer: Result<Receipt, WriterError>, tries: seq<int>, last: Ending, later: int)
    requires AllTried(endings, commands, answers, started, ends, clock) && |answers| < |commands| && clock <= later
    requires Attempted(Skip(endings, Attempts(started)), tries, commands[|answers|].deadline, last)
    requires answer == Err(Busy) ==> later >= commands[|answers|].deadline || |tries| == |RETRY_DELAYS| + 1
    ensures AllTried(endings, commands, answers + [answer], started + [tries], ends + [last], later)
  {
    hide Attempted, Skip, Attempts;
    var all := started + [tries];
    forall n | 0 <= n < |all| ensures TriedAt(endings, commands[n], (answers + [answer])[n], all, n, (ends + [last])[n], later) {
      if n < |started| {
        assert TriedAt(endings, commands[n], answers[n], started, n, ends[n], clock) && all[..n] == started[..n];
      } else {
        assert all[..n] == started;
      }
    }
  }

  lemma AnswerTraces(before: Db, tx: Transaction, after: Db, answer: Result<Receipt, WriterError>, ending: Ending)
    requires Forest(before.rows) && Answers(before, tx, after, answer, ending)
    ensures after == before || Commits(before, tx, after)
    ensures answer.Ok? ==> Commits(before, tx, after)
    ensures answer == Err(Busy) ==> after == before
  {
    hide Forest, Landed, Commits;
    if ending == Lands { NeverBusyIf(before, tx, after, answer); }
  }

  lemma NeverBusyIf(before: Db, tx: Transaction, after: Db, answer: Result<Receipt, WriterError>)
    ensures Landed(before, tx, after, answer) ==> answer != Err(Busy)
  {
  }

  lemma NeverBusy(before: Db, tx: Transaction, after: Db, answer: Result<Receipt, WriterError>)
    requires Landed(before, tx, after, answer)
    ensures answer != Err(Busy)
  {
  }

  lemma OneMoreAttempt(endings: seq<Ending>, started: seq<int>, deadline: int, clock: int)
    requires Attempted(endings, started, deadline, BusyRollsBack) && |started| <= |RETRY_DELAYS| && clock < deadline
    requires started != [] ==> started[|started| - 1] + RETRY_DELAYS[|started| - 1] <= clock
    ensures Attempted(endings, started + [clock], deadline, EndingAt(Skip(endings, |started|), 0))
    ensures Skip(Skip(endings, |started|), 1) == Skip(endings, |started| + 1)
  {
  }

  // All attempts of the commands so far.
  ghost function Attempts(started: seq<seq<int>>): nat {
    if started == [] then 0 else Attempts(started[..|started| - 1]) + |started[|started| - 1]|
  }

  lemma MoreAttempts(started: seq<seq<int>>, tries: seq<int>)
    ensures Attempts(started + [tries]) == Attempts(started) + |tries|
  {
    assert (started + [tries])[..|started|] == started;
  }

  lemma SkipMore(endings: seq<Ending>, a: nat, b: nat)
    ensures Skip(Skip(endings, a), b) == Skip(endings, a + b)
  {
  }

  // The commands answered so far took effect one after the other.
  ghost predicate Ran(start: Db, commands: seq<WriteCommand>, answers: seq<Result<Receipt, WriterError>>, ends: seq<Ending>, end: Db)
    decreases |answers|
  {
    if answers == [] then end == start
    else
      var n := |answers| - 1;
      n < |commands| && n < |ends| && exists mid ::
        Ran(start, commands, answers[..n], ends, mid) && Forest(mid.rows) && Answers(mid, commands[n].tx, end, answers[n], ends[n])
  }

  lemma NobodyYet(start: Db, commands: seq<WriteCommand>)
    ensures Ran(start, commands, [], [], start)
  {
  }

  lemma {:induction false} RanWith(start: Db, commands: seq<WriteCommand>, answers: seq<Result<Receipt, WriterError>>, ends: seq<Ending>,
                                   more: seq<Ending>, end: Db)
    requires Ran(start, commands, answers, ends, end) && ends <= more
    ensures Ran(start, commands, answers, more, end)
    decreases |answers|
  {
    hide Forest, Answers;
    if answers != [] {
      var n := |answers| - 1;
      var mid :| Ran(start, commands, answers[..n], ends, mid) && Forest(mid.rows) && Answers(mid, commands[n].tx, end, answers[n], ends[n]);
      RanWith(start, commands, answers[..n], ends, more, mid);
    }
  }

  lemma OneMoreTurn(start: Db, commands: seq<WriteCommand>, answers: seq<Result<Receipt, WriterError>>, ends: seq<Ending>, mid: Db,
                    answer: Result<Receipt, WriterError>, last: Ending, end: Db)
    requires Ran(start, commands, answers, ends, mid) && |answers| == |ends| < |commands|
    requires Forest(mid.rows) && Answers(mid, commands[|answers|].tx, end, answer, last)
    ensures Ran(start, commands, answers + [answer], ends + [last], end)
    ensures Woken(answers + [answer]) == Woken(answers) + if answer.Ok? && answer.value.eventId.Some? then 1 else 0
  {
    hide Forest, Answers;
    RanWith(start, commands, answers, ends, ends + [last], mid);
    assert (answers + [answer])[..|answers|] == answers;
  }

  function Woken(answers: seq<Result<Receipt, WriterError>>): nat {
    if answers == [] then 0
    else
      var last := answers[|answers| - 1];
      Woken(answers[..|answers| - 1]) + if last.Ok? && last.value.eventId.Some? then 1 else 0
  }

  // So many answers carry an event.
  lemma {:induction false} WokenCounts(answers: seq<Result<Receipt, WriterError>>)
    ensures Woken(answers) == |set n | 0 <= n < |answers| && answers[n].Ok? && answers[n].value.eventId.Some?|
  {
    var all := set n | 0 <= n < |answers| && answers[n].Ok? && answers[n].value.eventId.Some?;
    if answers == [] {
      assert all == {};
    } else {
      var k := |answers| - 1;
      var front := answers[..k];
      WokenCounts(front);
      var before := set n | 0 <= n < |front| && front[n].Ok? && front[n].value.eventId.Some?;
      assert all == before + if answers[k].Ok? && answers[k].value.eventId.Some? then {k} else {};
    }
  }

  lemma InvForest(db: Db)
    requires Inv(db)
    ensures Forest(db.rows)
  {
  }

  lemma NoRequest(db: Db, request: RequestId)
    requires Forest(db.rows) && FindRequest(db, request).None?
    ensures forall t :: !HasRequest(db, request, t)
  {
  }

  lemma CreateAnswers(db: Db, request: RequestId, repository: RepositoryId, prompt: string, newId: TaskId, now: Timestamp)
    requires Forest(db.rows) && newId !in db.rows
    ensures var (after, outcome) := Create(db, request, repository, prompt, newId, now);
            && Commits(db, CreateTask(request, repository, prompt, newId, now), after)
            && (outcome.Err? || outcome.value.Existing? ==> after == db)
            && (outcome.Ok? && outcome.value.Created? ==> db.log < after.log && outcome.value.eventId == LastId(after.log))
  {
    hide Forest, TryNewPrompt, FindRequest;
  }

  lemma RetryAnswers(db: Db, source: TaskId, newId: TaskId, newRequest: RequestId, now: Timestamp)
    requires Forest(db.rows) && newId !in db.rows && forall t :: !HasRequest(db, newRequest, t)
    ensures var (after, outcome) := Retry(db, source, newId, newRequest, now);
            && Commits(db, RetryTask(source, newId, newRequest, now), after)
            && (outcome.Err? || outcome.value.Existing? ==> after == db)
            && (outcome.Ok? && outcome.value.Created? ==> db.log < after.log && outcome.value.eventId == LastId(after.log))
  {
    hide Forest, FindRetry;
  }

  lemma TransitionAnswers(db: Db, t: TaskId, expected: TaskStatus, transition: TaskTransition, now: Timestamp)
    requires Forest(db.rows)
    ensures var (after, outcome) := TransitionWithEvent(db, t, expected, transition, now);
            && Commits(db, TransitionTask(t, expected, transition, now), after)
            && (outcome.Err? || outcome.value.Conflict? ==> after == db)
            && (outcome.Ok? && outcome.value.Applied? ==> db.log < after.log && outcome.value.eventId == LastId(after.log))
  {
    hide Forest;
  }

  lemma AppendAnswers(db: Db, t: TaskId, payload: Payload, now: Timestamp)
    requires Forest(db.rows)
    ensures var (after, outcome) := AppendRunningEvent(db, t, payload, now);
            && Commits(db, AppendEvent(t, payload, now), after)
            && (outcome.Err? || outcome.value.NotRunning? ==> after == db)
            && (outcome.Ok? && outcome.value.Appended? ==> db.log < after.log && outcome.value.eventId == LastId(after.log))
  {
    hide Forest;
  }

  lemma RecoverAnswers(db: Db, after: Db, now: Timestamp, failure: TaskFailure)
    requires Inv(db) && Commits(db, RecoverIncomplete(now, failure), after)
    ensures db.log <= after.log && (|after.log| == |db.log| ==> after.log == db.log)
  {
    CommitKeepsInv(db, RecoverIncomplete(now, failure), after);
    hide Inv, Commits;
  }

  lemma RegisterAnswers(db: Db, repository: RepositoryId)
    requires Inv(db)
    ensures var after := db.(repositories := db.repositories + {repository});
            Commits(db, RegisterRepository(repository), after) && Inv(after)
  {
    CommitKeepsInv(db, RegisterRepository(repository), db.(repositories := db.repositories + {repository}));
  }

  lemma BurnAnswers(db: Db, ids: nat)
    requires Inv(db)
    ensures var after := db.(counter := db.counter + ids);
            Commits(db, Burn(ids), after) && Inv(after)
  {
    CommitKeepsInv(db, Burn(ids), db.(counter := db.counter + ids));
  }
}
