/** The event dispatcher: broadcasts the log once and in order, and answers those who wait for it. */
module Dispatcher {
  import opened Domain
  import opened EventLog

  const EVENT_PAGE_SIZE := 256

  // A flush request, named by its response channel, and what was sent through the channel.
  datatype Waiter = Waiter(id: nat, target: nat)
  datatype Answer = Done | StoreFailed | DispatcherClosed
  datatype Reply = Reply(id: nat, answer: Answer)

  datatype Command = Flush(id: nat, target: nat) | Close
  datatype Turn = Receive(command: Command) | ChannelGone | WakeOrPoll

  // ----- waiters -----

  function Late(waiters: seq<Waiter>, cursor: nat): seq<Waiter> {
    if waiters == [] then []
    else
      var before := Late(waiters[..|waiters| - 1], cursor);
      var last := waiters[|waiters| - 1];
      if cursor >= last.target then before else before + [last]
  }

  // Every waiter the cursor has reached is told so.
  function DoneNow(waiters: seq<Waiter>, cursor: nat): seq<Reply> {
    if waiters == [] then []
    else
      var before := DoneNow(waiters[..|waiters| - 1], cursor);
      var last := waiters[|waiters| - 1];
      if cursor >= last.target then before + [Reply(last.id, Done)] else before
  }

  function Refusals(waiters: seq<Waiter>, answer: Answer): seq<Reply> {
    if waiters == [] then []
    else Refusals(waiters[..|waiters| - 1], answer) + [Reply(waiters[|waiters| - 1].id, answer)]
  }

  ghost predicate DistinctWaiters(waiters: seq<Waiter>) {
    forall i, j | 0 <= i < j < |waiters| :: waiters[i].id != waiters[j].id
  }

  ghost predicate DistinctReplies(replies: seq<Reply>) {
    forall i, j | 0 <= i < j < |replies| :: replies[i].id != replies[j].id
  }

  ghost predicate Answered(answers: seq<Reply>, id: nat) {
    exists i :: 0 <= i < |answers| && answers[i].id == id
  }

  ghost predicate IsWaiting(waiters: seq<Waiter>, id: nat) {
    exists i :: 0 <= i < |waiters| && waiters[i].id == id
  }

  // Who is still waiting, who was answered, and what they asked for: every request is in exactly
  // one of the two lists, and there once.
  ghost predicate Booked(waiters: seq<Waiter>, answers: seq<Reply>, targets: map<nat, nat>, cursor: nat) {
    && DistinctWaiters(waiters) && DistinctReplies(answers)
    && (forall i | 0 <= i < |waiters| ::
          waiters[i].id in targets && targets[waiters[i].id] == waiters[i].target && !Answered(answers, waiters[i].id))
    && (forall id | id in targets :: Answered(answers, id) || IsWaiting(waiters, id))
    && (forall i | 0 <= i < |answers| ::
          answers[i].id in targets && (answers[i].answer == Done ==> targets[answers[i].id] <= cursor))
  }

  ghost predicate AllLate(waiters: seq<Waiter>, cursor: nat) {
    forall i | 0 <= i < |waiters| :: waiters[i].target > cursor
  }

  // ----- one waiter at a time -----

  // While the list is worked through, `done` is settled and `rest` still waits.
  lemma AnswerOne(kept: seq<Waiter>, rest: seq<Waiter>, answers: seq<Reply>, targets: map<nat, nat>, cursor: nat, answer: Answer)
    requires rest != [] && Booked(kept + rest, answers, targets, cursor)
    requires answer == Done ==> rest[0].target <= cursor
    ensures Booked(kept + rest[1..], answers + [Reply(rest[0].id, answer)], targets, cursor)
  {
    var before, after := kept + rest, kept + rest[1..];
    var waiter, replies := rest[0], answers + [Reply(rest[0].id, answer)];
    assert before[|kept|] == waiter;
    forall i | 0 <= i < |after| ensures after[i] == before[if i < |kept| then i else i + 1] { }
    AnsweredMore(answers, Reply(waiter.id, answer));
    OneLessWaiting(before, after, |kept|);
    DistinctMore(answers, Reply(waiter.id, answer));
    hide DistinctReplies, Answered, IsWaiting;
  }

  lemma AnsweredMore(answers: seq<Reply>, reply: Reply)
    ensures forall id :: Answered(answers + [reply], id) <==> Answered(answers, id) || id == reply.id
  {
    var more := answers + [reply];
    assert more[|answers|] == reply;
    forall id | Answered(answers, id) ensures Answered(more, id) {
      var i :| 0 <= i < |answers| && answers[i].id == id;
      assert more[i] == answers[i];
    }
  }

  lemma DistinctMore(answers: seq<Reply>, reply: Reply)
    requires DistinctReplies(answers) && !Answered(answers, reply.id)
    ensures DistinctReplies(answers + [reply])
  {
  }

  lemma OneLessWaiting(before: seq<Waiter>, after: seq<Waiter>, k: nat)
    requires k < |before| && |after| == |before| - 1
    requires forall i | 0 <= i < |after| :: after[i] == before[if i < k then i else i + 1]
    ensures forall id | IsWaiting(before, id) :: IsWaiting(after, id) || id == before[k].id
  {
    forall id | IsWaiting(before, id) && id != before[k].id ensures IsWaiting(after, id) {
      var i :| 0 <= i < |before| && before[i].id == id;
      assert after[if i < k then i else i - 1] == before[i];
    }
  }

  // Serving answers exactly those who were waiting for no more than the cursor, and only them.
  lemma {:induction false} ServingKeepsBooks(kept: seq<Waiter>, waiters: seq<Waiter>, answers: seq<Reply>, targets: map<nat, nat>, cursor: nat)
    requires Booked(kept + waiters, answers, targets, cursor) && AllLate(kept, cursor)
    ensures Booked(kept + Late(waiters, cursor), answers + DoneNow(waiters, cursor), targets, cursor)
    ensures AllLate(kept + Late(waiters, cursor), cursor)
    decreases |waiters|
  {
    hide Booked;
    if waiters == [] {
      assert answers + [] == answers;
    } else {
      var first, rest := waiters[0], waiters[1..];
      FromTheFront(waiters, cursor);
      if first.target <= cursor {
        assert Late(waiters, cursor) == Late(rest, cursor);
        AnswerOne(kept, waiters, answers, targets, cursor, Done);
        ServingKeepsBooks(kept, rest, answers + [Reply(first.id, Done)], targets, cursor);
        assert answers + [Reply(first.id, Done)] + DoneNow(rest, cursor) == answers + ([Reply(first.id, Done)] + DoneNow(rest, cursor));
      } else {
        assert kept + waiters == (kept + [first]) + rest && DoneNow(waiters, cursor) == DoneNow(rest, cursor);
        ServingKeepsBooks(kept + [first], rest, answers, targets, cursor);
        assert kept + [first] + Late(rest, cursor) == kept + ([first] + Late(rest, cursor));
      }
    }
  }

  lemma {:induction false} FromTheFront(waiters: seq<Waiter>, cursor: nat)
    requires waiters != []
    ensures Late(waiters, cursor) == (if waiters[0].target <= cursor then [] else [waiters[0]]) + Late(waiters[1..], cursor)
    ensures DoneNow(waiters, cursor)
         == (if waiters[0].target <= cursor then [Reply(waiters[0].id, Done)] else []) + DoneNow(waiters[1..], cursor)
    decreases |waiters|
  {
    if |waiters| > 1 {
      FromTheFront(waiters[..|waiters| - 1], cursor);
      assert waiters[..|waiters| - 1][1..] == waiters[1..][..|waiters| - 2];
    } else {
      assert waiters[..0] == [] && waiters[1..] == [];
    }
  }

  lemma {:induction false} RefusingKeepsBooks(waiters: seq<Waiter>, answers: seq<Reply>, targets: map<nat, nat>, cursor: nat, answer: Answer)
    requires Booked(waiters, answers, targets, cursor) && answer != Done
    ensures Booked([], answers + Refusals(waiters, answer), targets, cursor)
    ensures forall id | id in targets :: Answered(answers + Refusals(waiters, answer), id)
    decreases |waiters|
  {
    hide Booked, Answered;
    if waiters == [] {
      assert answers + [] == answers;
      AllAnswered(answers, targets, cursor);
    } else {
      var first := waiters[0];
      assert [] + waiters == waiters && [] + waiters[1..] == waiters[1..];
      AnswerOne([], waiters, answers, targets, cursor, answer);
      RefusingKeepsBooks(waiters[1..], answers + [Reply(first.id, answer)], targets, cursor, answer);
      RefusalsFromTheFront(waiters, answer);
      assert answers + [Reply(first.id, answer)] + Refusals(waiters[1..], answer)
          == answers + ([Reply(first.id, answer)] + Refusals(waiters[1..], answer));
    }
  }

  lemma AllAnswered(answers: seq<Reply>, targets: map<nat, nat>, cursor: nat)
    requires Booked([], answers, targets, cursor)
    ensures forall id | id in targets :: Answered(answers, id)
  {
    hide Answered, DistinctReplies;
  }

  lemma {:induction false} RefusalsFromTheFront(waiters: seq<Waiter>, answer: Answer)
    requires waiters != []
    ensures Refusals(waiters, answer) == [Reply(waiters[0].id, answer)] + Refusals(waiters[1..], answer)
    decreases |waiters|
  {
    if |waiters| > 1 {
      RefusalsFromTheFront(waiters[..|waiters| - 1], answer);
      assert waiters[..|waiters| - 1][1..] == waiters[1..][..|waiters| - 2];
    } else {
      assert waiters[..0] == [] && waiters[1..] == [];
    }
  }

  // A later cursor keeps the books.
  lemma LaterCursor(waiters: seq<Waiter>, answers: seq<Reply>, targets: map<nat, nat>, before: nat, cursor: nat)
    requires Booked(waiters, answers, targets, before) && before <= cursor
    ensures Booked([] + waiters, answers, targets, cursor) && AllLate([], cursor)
  {
    assert [] + waiters == waiters;
    hide DistinctReplies, DistinctWaiters, Answered, IsWaiting;
  }

  // ----- the actor -----

  class Dispatcher {
    // Every event the run will ever commit, how many of them the store holds, and how many of
    // those the dispatcher's reads may see: a read is never ahead of the store.
    const log: seq<TaskEvent>
    const start: nat
    var stored: nat
    var committed: nat
    var cursor: nat
    var sent: seq<TaskEvent>
    var waiters: seq<Waiter>
    var answers: seq<Reply>
    var closed: bool
    var growth: seq<nat>
    var failures: seq<bool>
    ghost var targets: map<nat, nat>
    ghost var faults: nat

    ghost predicate InOrder()
      reads this
    {
      && Ascending(log) && committed <= stored <= |log| && start <= cursor && Pos(log, cursor) <= committed
      && cursor == LastId(log[..Pos(log, cursor)]) && sent == Between(log, start, cursor)
    }

    ghost predicate Valid()
      reads this
    {
      InOrder() && Booked(waiters, answers, targets, cursor) && AllLate(waiters, cursor) && (closed ==> waiters == [])
    }

    // `spawn`: the cursor starts at the newest event already committed.
    constructor (log: seq<TaskEvent>, stored: nat, committed: nat, growth: seq<nat>, failures: seq<bool>)
      requires Ascending(log) && committed <= stored <= |log|
      ensures Valid() && this.log == log && this.stored == stored && sent == [] && !closed
      ensures Pos(log, start) == committed == this.committed
    {
      this.log, this.stored, this.committed, this.growth, this.failures := log, stored, committed, growth, failures;
      this.start, this.cursor := LastId(log[..committed]), LastId(log[..committed]);
      sent, waiters, answers, closed, targets, faults := [], [], [], false, map[], 0;
      new;
      PosOfPrefix(log, committed);
    }

    // Writers commit more events.
    method StoreGrows(stored: nat)
      requires Valid() && this.stored <= stored <= |log|
      modifies this`stored
      ensures Valid() && this.stored == stored
    {
      this.stored := stored;
    }

    // More of what writers committed comes into sight while the dispatcher waits.
    method Wait()
      requires InOrder()
      modifies this`committed, this`growth
      ensures InOrder() && old(committed) <= committed
    {
      if growth == [] { return; }
      ghost var before := committed;
      if growth[0] <= stored - committed { committed := committed + growth[0]; }
      growth := growth[1..];
      LastIdGrows(log, before, committed);
    }

    // One read transaction of the store: a page and its high watermark.
    method EventsAfter() returns (page: Option<seq<TaskEvent>>, high: nat, ghost c: nat)
      requires InOrder()
      modifies this`committed, this`growth, this`failures, this`faults
      ensures InOrder() && old(committed) <= c <= committed
      ensures page.Some? ==> page.value == Page(log[..c], cursor, EVENT_PAGE_SIZE) && high == LastId(log[..c])
      ensures faults == old(faults) + if page.None? then 1 else 0
    {
      Wait();
      c := committed;
      high := LastId(log[..committed]);
      if failures != [] && failures[0] {
        page := None;
        faults := faults + 1;
      } else {
        page := Some(Page(log[..committed], cursor, EVENT_PAGE_SIZE));
      }
      if failures != [] { failures := failures[1..]; }
      Wait();
    }

    // `complete_waiters`
    method CompleteWaiters()
      modifies this`waiters, this`answers
      ensures waiters == Late(old(waiters), cursor) && answers == old(answers) + DoneNow(old(waiters), cursor)
    {
      var pending := [];
      for n := 0 to |waiters|
        invariant waiters == old(waiters) && pending == Late(waiters[..n], cursor)
        invariant answers == old(answers) + DoneNow(waiters[..n], cursor)
      {
        var waiter := waiters[n];
        assert waiters[..n + 1][..n] == waiters[..n];
        if cursor >= waiter.target { answers := answers + [Reply(waiter.id, Done)]; } else { pending := pending + [waiter]; }
      }
      assert waiters[..|waiters|] == waiters;
      waiters := pending;
    }

    // `fail_waiters`
    method FailWaiters(answer: Answer)
      modifies this`waiters, this`answers
      ensures waiters == [] && answers == old(answers) + Refusals(old(waiters), answer)
    {
      for n := 0 to |waiters|
        invariant waiters == old(waiters) && answers == old(answers) + Refusals(waiters[..n], answer)
      {
        assert waiters[..n + 1][..n] == waiters[..n];
        answers := answers + [Reply(waiters[n].id, answer)];
      }
      assert waiters[..|waiters|] == waiters;
      waiters := [];
    }

    // One turn of the inner loop of `publish_available`.
    method Publish(event: TaskEvent)
      requires Valid() && !closed && Pos(log, cursor) < committed && event == log[Pos(log, cursor)]
      modifies this`sent, this`cursor, this`waiters, this`answers
      ensures Valid() && cursor == event.id && sent == old(sent) + [event] && Pos(log, cursor) == old(Pos(log, cursor)) + 1
      ensures old(answers) <= answers && AllDone(answers[|old(answers)|..])
    {
      hide Booked, AllLate, Ascending, Between, LastId;
      DoneNowIsDone(waiters, event.id);
      NextInOrder(log, start, cursor, committed);
      sent := sent + [event];
      LaterCursor(waiters, answers, targets, cursor, event.id);
      ServingKeepsBooks([], waiters, answers, targets, event.id);
      NothingBefore(Late(waiters, event.id));
      cursor := event.id;
      CompleteWaiters();
    }

    // `publish_available`: on success everything up to the last high watermark was sent and
    // nobody is left waiting for any of it.
    method PublishAvailable() returns (ok: bool, ghost high: nat)
      requires Valid() && !closed
      modifies this`sent, this`cursor, this`waiters, this`answers, this`committed, this`growth, this`failures, this`faults
      ensures Valid() && old(cursor) <= cursor && old(sent) <= sent && old(committed) <= committed
      ensures old(answers) <= answers
      ensures faults == old(faults) + if ok then 0 else 1
      ensures ok ==> LastId(log[..old(committed)]) <= high <= cursor && AllLate(waiters, high)
      ensures AllDone(answers[|old(answers)|..])
    {
      hide Booked, Ascending, Between, LastId, Page, SortById, IsNext;
      high := 0;
      while true
        invariant Valid() && !closed && old(cursor) <= cursor && old(sent) <= sent && old(committed) <= committed
        invariant old(answers) <= answers && faults == old(faults) && AllDone(answers[|old(answers)|..])
        decreases |log| - Pos(log, cursor)
      {
        var read, watermark, c := EventsAfter();
        high := watermark;
        if read.None? { return false, high; }
        var page := SortById(read.value);
        var before := cursor;
        ghost var p := Pos(log, cursor);
        PageIsNext(log, c, cursor, page, committed);
        LastIdGrows(log, old(committed), c);
        for n := 0 to |page|
          invariant Valid() && !closed && old(cursor) <= cursor && old(sent) <= sent && old(committed) <= committed
          invariant old(answers) <= answers && before <= cursor && (n > 0 ==> before < cursor)
          invariant AllDone(answers[|old(answers)|..])
          invariant Pos(log, cursor) == p + n && (n == 0 ==> cursor == before)
          invariant faults == old(faults) && IsNext(log, p, committed, page)
        {
          CursorBehind(log, cursor);
          NextOf(log, p, committed, page, n);
          if page[n].id <= cursor { continue; }
          ghost var sofar := answers;
          Publish(page[n]);
          DoneTwice(old(answers), sofar, answers);
        }
        if cursor >= watermark || cursor == before {
          PageWasEmpty(log, c, before, page);
          return true, high;
        }
      }
    }

    // One turn of `run_dispatcher`: a command, a wake-up or the poll timer.
    method TakeTurn(turn: Turn)
      requires Valid() && !closed
      requires turn.Receive? && turn.command.Flush? ==> turn.command.id !in targets
      modifies this`sent, this`cursor, this`waiters, this`answers, this`committed, this`growth, this`failures, this`faults,
               this`targets, this`closed
      ensures Valid() && old(cursor) <= cursor && old(sent) <= sent && old(committed) <= committed
      ensures old(answers) <= answers
      ensures targets == if turn.Receive? && turn.command.Flush? then old(targets)[turn.command.id := turn.command.target] else old(targets)
      ensures closed <==> turn.ChannelGone? || (turn.Receive? && turn.command.Close?)
      ensures closed ==> forall id | id in targets :: Answered(answers, id)
      // Every turn but a close, or a flush for what was already sent, publishes what there is.
      ensures !closed && !(turn.Receive? && turn.command.target <= old(cursor)) && faults == old(faults) ==>
                LastId(log[..old(committed)]) <= cursor
      ensures Polled(log, turn, old(Now()), Now())
      // Nobody is refused but by a close or a failed read.
      ensures RefusedFor(answers[|old(answers)|..], closed, faults > old(faults)) && faults >= old(faults)
    {
      hide Booked, AllLate, LastId, Ascending, Between;
      var shouldPoll := true;
      match turn {
        case Receive(Flush(id, target)) =>
          BookOne(waiters, answers, targets, cursor, id, target);
          targets := targets[id := target];
          if cursor >= target {
            answers := answers + [Reply(id, Done)];
            shouldPoll := false;
          } else {
            waiters := waiters + [Waiter(id, target)];
          }
        case Receive(Close) =>
          RefusingKeepsBooks(waiters, answers, targets, cursor, DispatcherClosed);
          RefusalsAre(waiters, DispatcherClosed);
          FailWaiters(DispatcherClosed);
          NobodyWaits(cursor);
          closed := true;
          return;
        case ChannelGone =>
          RefusingKeepsBooks(waiters, answers, targets, cursor, DispatcherClosed);
          RefusalsAre(waiters, DispatcherClosed);
          FailWaiters(DispatcherClosed);
          NobodyWaits(cursor);
          closed := true;
          return;
        case WakeOrPoll =>
      }
      if !shouldPoll { return; }
      ghost var sofar := answers;
      var ok, high := PublishAvailable();
      assert answers[|old(answers)|..] == answers[|sofar|..];
      if !ok {
        ghost var done := answers;
        RefusalsAre(waiters, StoreFailed);
        RefusingKeepsBooks(waiters, answers, targets, cursor, StoreFailed);
        FailWaiters(StoreFailed);
        NobodyWaits(cursor);
        SuffixSplits(sofar, done, answers);
      }
    }

    ghost function Now(): Moment
      reads this
    {
      Moment(committed, cursor, faults)
    }

    // Every run of the actor: it takes its turns until one of them closes it. Turn number `i` was
    // taken between `moments[i]` and the next.
    method Run(turns: seq<Turn>) returns (taken: nat, ghost moments: seq<Moment>)
      requires Valid() && !closed
      requires forall i | 0 <= i < |turns| && turns[i].Receive? && turns[i].command.Flush? :: turns[i].command.id !in targets
      requires forall i, j | 0 <= i < j < |turns| && turns[i].Receive? && turns[i].command.Flush?
                             && turns[j].Receive? && turns[j].command.Flush? :: turns[i].command.id != turns[j].command.id
      modifies this
      ensures Valid() && old(cursor) <= cursor && old(sent) <= sent && old(answers) <= answers
      ensures closed ==> waiters == [] && forall id | id in targets :: Answered(answers, id)
      ensures taken <= |turns| && (closed <==> taken > 0 && Closes(turns[taken - 1])) && (!closed ==> taken == |turns|)
      ensures forall i | 0 <= i < taken - 1 :: !Closes(turns[i])
      // Every request is booked with its target.
      ensures targets == Requested(old(targets), turns[..taken])
      ensures RefusedFor(answers[|old(answers)|..], closed, faults > old(faults)) && faults >= old(faults)
      ensures |moments| == taken + 1 && moments[0] == old(Now()) && moments[taken] == Now()
      ensures forall i | 0 <= i < taken :: Polled(log, turns[i], moments[i], moments[i + 1])
      // A wake-up or the poll timer sends whatever had been committed.
      ensures !closed && faults == old(faults) && WakeOrPoll in turns ==> LastId(log[..old(committed)]) <= cursor
    {
      hide Polled, Booked, AllLate, LastId, Ascending, Between;
      taken, moments := 0, [Now()];
      assert turns[..0] == [];
      for n := 0 to |turns|
        invariant Valid() && !closed && old(cursor) <= cursor && old(sent) <= sent && old(answers) <= answers
        invariant old(committed) <= committed && taken == n
        invariant |moments| == n + 1 && moments[0] == old(Now()) && moments[n] == Now()
        invariant forall i | 0 <= i < n :: Polled(log, turns[i], moments[i], moments[i + 1])
        invariant forall i | n <= i < |turns| && turns[i].Receive? && turns[i].command.Flush? :: turns[i].command.id !in targets
        invariant forall i | 0 <= i < n :: !Closes(turns[i])
        invariant targets == Requested(old(targets), turns[..n])
        invariant RefusedFor(answers[|old(answers)|..], false, faults > old(faults)) && faults >= old(faults)
        invariant faults == old(faults) && WakeOrPoll in turns[..n] ==> LastId(log[..old(committed)]) <= cursor
      {
        ghost var sofar, before := answers, committed;
        LastIdGrows(log, old(committed), committed);
        assert turns[..n + 1][..n] == turns[..n] && turns[..n + 1] == turns[..n] + [turns[n]];
        TakeTurn(turns[n]);
        taken, moments := n + 1, moments + [Now()];
        SuffixSplits(old(answers), sofar, answers);
        if closed { return; }
      }
      assert turns[..|turns|] == turns;
    }
  }

  datatype Moment = Moment(committed: nat, cursor: nat, faults: nat)

  // What a turn does to the cursor: a close and a flush of what was already sent leave it alone;
  // any other turn reaches all that was committed when it began, unless a read failed.
  ghost predicate Polled(log: seq<TaskEvent>, turn: Turn, before: Moment, after: Moment) {
    && before.committed <= after.committed && before.cursor <= after.cursor && before.faults <= after.faults
    && if Closes(turn) || (turn.Receive? && turn.command.Flush? && turn.command.target <= before.cursor) then
         after.cursor == before.cursor && after.faults == before.faults
       else
         before.committed <= |log| && (after.faults == before.faults ==> LastId(log[..before.committed]) <= after.cursor)
  }

  predicate Closes(turn: Turn) {
    turn.ChannelGone? || (turn.Receive? && turn.command.Close?)
  }

  function Requested(targets: map<nat, nat>, turns: seq<Turn>): map<nat, nat> {
    if turns == [] then targets
    else
      var before := Requested(targets, turns[..|turns| - 1]);
      match turns[|turns| - 1] case Receive(Flush(id, target)) => before[id := target] case _ => before
  }

  ghost predicate AllDone(answers: seq<Reply>) {
    forall i | 0 <= i < |answers| :: answers[i].answer == Done
  }

  // Refusals have their cause.
  ghost predicate RefusedFor(answers: seq<Reply>, closed: bool, failed: bool) {
    forall i | 0 <= i < |answers| ::
      (answers[i].answer == DispatcherClosed ==> closed) && (answers[i].answer == StoreFailed ==> failed)
  }

  lemma {:induction false} DoneNowIsDone(waiters: seq<Waiter>, cursor: nat)
    ensures AllDone(DoneNow(waiters, cursor))
  {
    if waiters != [] { DoneNowIsDone(waiters[..|waiters| - 1], cursor); }
  }

  lemma {:induction false} RefusalsAre(waiters: seq<Waiter>, answer: Answer)
    ensures forall i | 0 <= i < |Refusals(waiters, answer)| :: Refusals(waiters, answer)[i].answer == answer
  {
    if waiters != [] { RefusalsAre(waiters[..|waiters| - 1], answer); }
  }

  lemma DoneTwice(start: seq<Reply>, mid: seq<Reply>, end: seq<Reply>)
    requires start <= mid <= end && AllDone(mid[|start|..]) && AllDone(end[|mid|..])
    ensures AllDone(end[|start|..])
  {
    SuffixSplits(start, mid, end);
  }

  lemma SuffixSplits(start: seq<Reply>, mid: seq<Reply>, end: seq<Reply>)
    requires start <= mid <= end
    ensures end[|start|..] == mid[|start|..] + end[|mid|..]
  {
  }

  lemma NothingBefore(waiters: seq<Waiter>)
    ensures [] + waiters == waiters
  {
  }

  // A new request is answered at once or joins the waiters.
  lemma BookOne(waiters: seq<Waiter>, answers: seq<Reply>, targets: map<nat, nat>, cursor: nat, id: nat, target: nat)
    requires Booked(waiters, answers, targets, cursor) && AllLate(waiters, cursor) && id !in targets
    ensures cursor >= target ==> Booked(waiters, answers + [Reply(id, Done)], targets[id := target], cursor)
    ensures cursor < target ==>
              && Booked(waiters + [Waiter(id, target)], answers, targets[id := target], cursor)
              && AllLate(waiters + [Waiter(id, target)], cursor)
  {
    assert !Answered(answers, id);
    AnsweredMore(answers, Reply(id, Done));
    DistinctMore(answers, Reply(id, Done));
    WaitingMore(waiters, Waiter(id, target));
    hide DistinctReplies, Answered, IsWaiting;
  }

  lemma WaitingMore(waiters: seq<Waiter>, waiter: Waiter)
    ensures forall id :: IsWaiting(waiters, id) || id == waiter.id ==> IsWaiting(waiters + [waiter], id)
  {
    var more := waiters + [waiter];
    assert more[|waiters|] == waiter;
    forall id | IsWaiting(waiters, id) ensures IsWaiting(more, id) {
      var i :| 0 <= i < |waiters| && waiters[i].id == id;
      assert more[i] == waiters[i];
    }
  }

  lemma NobodyWaits(cursor: nat)
    ensures AllLate([], cursor)
  {
  }

  lemma NextInOrder(log: seq<TaskEvent>, start: nat, cursor: nat, committed: nat)
    requires Ascending(log) && start <= cursor && Pos(log, cursor) < committed <= |log|
    ensures var event := log[Pos(log, cursor)];
            && Between(log, start, event.id) == Between(log, start, cursor) + [event]
            && cursor < event.id && Pos(log, event.id) == Pos(log, cursor) + 1
            && event.id == LastId(log[..Pos(log, cursor) + 1])
  {
    hide Pos, Ascending;
    var p := Pos(log, cursor);
    PosSplits(log, cursor);
    EventPos(log, p);
    PosMonotone(log, start, cursor);
    SliceGrows(log, Pos(log, start), p);
  }

  lemma CursorBehind(log: seq<TaskEvent>, cursor: nat)
    requires Ascending(log)
    ensures Pos(log, cursor) < |log| ==> log[Pos(log, cursor)].id > cursor
  {
    PosSplits(log, cursor);
  }

  lemma NextOf(log: seq<TaskEvent>, p: nat, c: nat, page: seq<TaskEvent>, n: nat)
    requires IsNext(log, p, c, page) && n < |page|
    ensures p + n < c <= |log| && page[n] == log[p + n]
  {
  }

  // The page goes on where the cursor stands; it is empty only at the watermark.
  lemma PageIsNext(log: seq<TaskEvent>, c: nat, cursor: nat, page: seq<TaskEvent>, committed: nat)
    requires Ascending(log) && Pos(log, cursor) <= c <= committed <= |log|
    requires page == SortById(Page(log[..c], cursor, EVENT_PAGE_SIZE))
    ensures IsNext(log, Pos(log, cursor), committed, page) && (page == [] <==> c <= Pos(log, cursor))
  {
    hide Ascending, Page, SortById, Pos, IsNext;
    var p := Pos(log, cursor);
    var stop := if EVENT_PAGE_SIZE < c - p then p + EVENT_PAGE_SIZE else c;
    PageOfPrefix(log, c, cursor, EVENT_PAGE_SIZE);
    SliceAscending(log, p, stop);
    SortedAlready(log[p..stop]);
    SliceIsNext(log, p, stop, committed);
  }

  lemma SliceIsNext(log: seq<TaskEvent>, p: nat, stop: nat, c: nat)
    requires p <= stop <= c <= |log|
    ensures IsNext(log, p, c, log[p..stop])
  {
  }

  lemma PageWasEmpty(log: seq<TaskEvent>, c: nat, cursor: nat, page: seq<TaskEvent>)
    requires Ascending(log) && c <= |log| && (page == [] <==> c <= Pos(log, cursor))
    ensures page == [] ==> LastId(log[..c]) <= cursor
  {
    PosSplits(log, cursor);
    if c > 0 { assert LastId(log[..c]) == log[c - 1].id; }
  }
}
