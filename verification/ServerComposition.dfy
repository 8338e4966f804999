/** The writer object against the world's writer, and the dispatcher against its receivers. */
module ServerComposition {
  import opened Domain
  import opened EventLog
  import opened TaskOrder
  import opened StoreModel
  import opened World
  import Process
  import Writer
  import Events = Dispatcher
  import Sse = SseDelivery

  // ----- the writer object and the writer of the world -----

  function AsTransaction(command: Command): Transaction {
    match command
    case CreateCommand(request, repository, prompt, newId, now) => CreateTask(request, repository, prompt, newId, now)
    case RetryCommand(source, newId, newRequest, now) => RetryTask(source, newId, newRequest, now)
    case RegisterCommand(repository) => RegisterRepository(repository)
    case RecoverCommand(now, failure) => RecoverIncomplete(now, failure)
  }

  lemma CommitIsEffect(before: Db, command: Command, after: Db)
    requires Inv(before) && Commits(before, AsTransaction(command), after)
    ensures after == Effect(before, command)
  {
    if command.RecoverCommand? {
      var ids :| Lists(before.rows, Incomplete(before), ids) && after == Recover(before, ids, command.now, command.failure);
      ListingUnique(before.rows, Incomplete(before), ids, OrderOf(before));
    }
  }

  // However the writer object answers a command, the world has that ending: success, a rollback,
  // or a commit that was reported as a failure, and the same store after it.
  lemma WriterEndsAsWorld(before: Db, command: Command, after: Db, answer: Result<Writer.Receipt, Writer.WriterError>,
                          ending: Writer.Ending)
    returns (end: WriteEnd)
    requires Inv(before) && Forest(before.rows) && Writer.Answers(before, AsTransaction(command), after, answer, ending)
    ensures after == if end == RollsBack then before else Effect(before, command)
    ensures answer.Ok? <==> end == Succeeds
    ensures answer == Err(Writer.Busy) ==> end == RollsBack
  {
    hide Inv, Forest, Commits, Effect, Writer.Answers;
    Writer.AnswerTraces(before, AsTransaction(command), after, answer, ending);
    if answer.Ok? || after != before { CommitIsEffect(before, command, after); }
    end := if answer.Ok? then Succeeds else if after == before then RollsBack else CommitsButFails;
  }

  // The world after running queue heads with the given endings.
  ghost function RunHeads(w: Shared, ends: seq<WriteEnd>): (r: Shared)
    requires Inv(w.db)
    ensures Inv(r.db)
  {
    if ends == [] then w
    else
      var before := RunHeads(w, ends[..|ends| - 1]);
      HeadKeepsInv(before, ends[|ends| - 1]);
      RunHead(before, ends[|ends| - 1])
  }

  lemma HeadKeepsInv(w: Shared, end: WriteEnd)
    requires Inv(w.db)
    ensures Inv(RunHead(w, end).db)
  {
    if w.queue != [] { EffectStands(w.db, w.queue[0]); }
    hide Inv, Extends, Effect, RowsStand, Incomplete;
  }

  lemma HeadEnds(w: Shared, command: Command, end: WriteEnd, db: Db)
    requires Inv(w.db) && w.queue != [] && w.queue[0] == command
    requires db == if end == RollsBack then w.db else Effect(w.db, command)
    ensures RunHead(w, end).db == db && RunHead(w, end).queue == w.queue[1..]
  {
    hide Inv, Effect;
  }

  // A run of the writer object over some commands is a run of the world's queue over them.
  lemma {:induction false} WriterRunIsWorldRun(w: Shared, commands: seq<Command>, sent: seq<Writer.WriteCommand>,
                                               answers: seq<Result<Writer.Receipt, Writer.WriterError>>,
                                               endings: seq<Writer.Ending>, end: Db)
    returns (ends: seq<WriteEnd>)
    requires Inv(w.db) && |sent| == |commands| && commands <= w.queue
    requires forall i | 0 <= i < |commands| :: sent[i].tx == AsTransaction(commands[i])
    requires Writer.Ran(w.db, sent, answers, endings, end)
    ensures |ends| == |answers| <= |commands|
    ensures RunHeads(w, ends).db == end && RunHeads(w, ends).queue == w.queue[|answers|..]
    ensures forall i | 0 <= i < |answers| :: ends[i] == Succeeds <==> answers[i].Ok?
    decreases |answers|
  {
    hide Inv, Forest, Writer.Answers, RunHead, Effect, AsTransaction;
    if answers == [] {
      ends := [];
    } else {
      var n := |answers| - 1;
      var mid :| Writer.Ran(w.db, sent, answers[..n], endings, mid) && Forest(mid.rows)
                 && Writer.Answers(mid, sent[n].tx, end, answers[n], endings[n]);
      var before := WriterRunIsWorldRun(w, commands, sent, answers[..n], endings, mid);
      var last := WriterEndsAsWorld(mid, commands[n], end, answers[n], endings[n]);
      ends := before + [last];
      assert ends[..n] == before;
      HeadEnds(RunHeads(w, before), commands[n], last, end);
    }
  }

  // The manager's own writes are the same transactions.
  function AsOwnTransaction(write: Process.Write, now: Timestamp): Transaction {
    match write
    case WriteTransition(t, expected, transition) => TransitionTask(t, expected, transition, now)
    case WritePanel(t, payload) => AppendEvent(t, payload, now)
    case WriteRecovery(failure) => RecoverIncomplete(now, failure)
  }

  lemma OwnWriteIsTransaction(before: Db, write: Process.Write, now: Timestamp, after: Db,
                              answer: Result<Writer.Receipt, Writer.WriterError>, ending: Writer.Ending)
    requires Inv(before) && Forest(before.rows) && Writer.Answers(before, AsOwnTransaction(write, now), after, answer, ending)
    ensures after == before || after == Process.Written(before, write, now)
    ensures answer.Ok? ==> after == Process.Written(before, write, now)
    ensures answer == Err(Writer.Busy) ==> after == before
  {
    hide Inv, Forest, Commits, Recover, TransitionWithEvent, AppendRunningEvent, Writer.Answers;
    Writer.AnswerTraces(before, AsOwnTransaction(write, now), after, answer, ending);
    if answer.Ok? || after != before { CommitIsWritten(before, write, now, after); }
  }

  lemma CommitIsWritten(before: Db, write: Process.Write, now: Timestamp, after: Db)
    requires Inv(before) && Commits(before, AsOwnTransaction(write, now), after)
    ensures after == Process.Written(before, write, now)
  {
    hide Inv, Recover, TransitionWithEvent, AppendRunningEvent;
    if write.WriteRecovery? {
      var ids :| Lists(before.rows, Incomplete(before), ids) && after == Recover(before, ids, now, write.failure);
      ListingUnique(before.rows, Incomplete(before), ids, OrderOf(before));
    }
  }

  // ----- the dispatcher and its receivers -----

  // What the channel of a dispatcher carries: its item number `k` is event number `k` of the log.
  lemma ChannelCarriesLog(log: seq<TaskEvent>, start: nat, cursor: nat, sent: seq<TaskEvent>, k: nat)
    requires Ascending(log) && start <= cursor && sent == Between(log, start, cursor)
    requires Pos(log, start) <= k < Pos(log, cursor)
    ensures |sent| == Pos(log, cursor) - Pos(log, start) && sent[k - Pos(log, start)] == log[k]
  {
    PosMonotone(log, start, cursor);
  }

  ghost predicate IsFeed(log: seq<TaskEvent>, feed: Sse.Feed) {
    feed.sent <= feed.committed <= |log|
  }

  lemma FeedOneMore(log: seq<TaskEvent>, feed: Sse.Feed, moves: seq<Sse.Move>, move: Sse.Move)
    ensures Sse.FeedAfter(log, feed, moves + [move]) == Sse.FeedStep(log, Sse.FeedAfter(log, feed, moves), move)
  {
    assert (moves + [move])[..|moves|] == moves;
  }

  // Whatever a dispatcher does between two moments is a sequence of commits and broadcasts.
  lemma {:induction false} FeedReaches(log: seq<TaskEvent>, a: Sse.Feed, b: Sse.Feed) returns (moves: seq<Sse.Move>)
    requires IsFeed(log, a) && IsFeed(log, b) && a.committed <= b.committed && a.sent <= b.sent
    ensures Sse.FeedAfter(log, a, moves) == b
    decreases b.committed - a.committed + b.sent - a.sent
  {
    if b.sent > a.sent {
      hide Sse.FeedAfter;
      moves := FeedReaches(log, a, b.(sent := b.sent - 1));
      FeedOneMore(log, a, moves, Sse.Broadcast);
      moves := moves + [Sse.Broadcast];
    } else if b.committed > a.committed {
      hide Sse.FeedAfter;
      moves := FeedReaches(log, a, b.(committed := b.committed - 1));
      FeedOneMore(log, a, moves, Sse.Persist);
      moves := moves + [Sse.Persist];
    } else {
      moves := [];
    }
  }

  // A turn of the dispatcher, seen by a connection's receiver.
  method DispatcherTurnFeeds(dispatcher: Events.Dispatcher, turn: Events.Turn) returns (ghost moves: seq<Sse.Move>)
    requires dispatcher.Valid() && !dispatcher.closed
    requires turn.Receive? && turn.command.Flush? ==> turn.command.id !in dispatcher.targets
    modifies dispatcher
    ensures dispatcher.Valid()
    ensures FeedOf(dispatcher) == Sse.FeedAfter(dispatcher.log, old(FeedOf(dispatcher)), moves)
  {
    ghost var before := FeedOf(dispatcher);
    ghost var cursor := dispatcher.cursor;
    dispatcher.TakeTurn(turn);
    PosMonotone(dispatcher.log, cursor, dispatcher.cursor);
    moves := FeedReaches(dispatcher.log, before, FeedOf(dispatcher));
  }

  ghost function FeedOf(dispatcher: Events.Dispatcher): Sse.Feed
    reads dispatcher
  {
    Sse.Feed(dispatcher.committed, Pos(dispatcher.log, dispatcher.cursor))
  }

  // Sending the next event moves the cursor the way the world's `Publish` does.
  lemma PublishIsWorldStep(log: seq<TaskEvent>, committed: nat, cursor: nat, w: Shared)
    requires Ascending(log) && Pos(log, cursor) < committed <= |log|
    requires Inv(w.db) && w.db.log == log[..committed] && w.published == cursor
    ensures Step(w, Publish) == w.(published := log[Pos(log, cursor)].id)
  {
    hide Inv, Ascending, Pos, RunHead;
    assert log[0..committed] == log[..committed];
    PosOfSlice(log, 0, committed, cursor);
    PosOfSlice(log, 0, |log|, cursor);
  }
}
