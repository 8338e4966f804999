/** A connection's frames, the client's session and the run of the browser, put together. */
module ClientComposition {
  import opened Domain
  import opened EventLog
  import Sse = SseDelivery
  import opened Client
  import opened ClientRun
  import opened Session

  // ----- a connection's frames and the client's arrivals -----

  // Heartbeats are comments and never become frames of the parser.
  function ArrivalsOf(frames: seq<Sse.Frame>): seq<Arrival> {
    if frames == [] then []
    else
      var before := ArrivalsOf(frames[..|frames| - 1]);
      match frames[|frames| - 1]
      case Persisted(event) => before + [PersistedEvent(event)]
      case ServiceFrame(service) => before + [ServiceUpdate(service.state, service.generation)]
      case ResetFrame(latestEventId) => before + [ResetRequested(latestEventId)]
      case Heartbeat => before
  }

  lemma {:induction false} FramesCount(frames: seq<Sse.Frame>)
    ensures PersistedCount(ArrivalsOf(frames)) == |Sse.PersistedOf(frames)|
  {
    if frames != [] {
      var front := frames[..|frames| - 1];
      FramesCount(front);
      var before, after := ArrivalsOf(front), ArrivalsOf(frames);
      if after != before { assert after[..|after| - 1] == before; }
    }
  }

  lemma FollowOneMore(log: seq<TaskEvent>, position: nat, arrivals: seq<Arrival>, arrival: Arrival)
    requires ArrivalsFollow(log, position, arrivals) && FollowsAt(log, position + PersistedCount(arrivals), arrival)
    ensures ArrivalsFollow(log, position, arrivals + [arrival])
  {
    hide FollowedAt, FollowsAt, PersistedCount;
    var more := arrivals + [arrival];
    forall n | 0 <= n < |more| ensures FollowedAt(log, position, more, n) {
      if n < |arrivals| { assert FollowedAt(log, position, arrivals, n); }
      OneMoreArrival(log, position, arrivals, arrival, n);
    }
  }

  lemma OneMoreArrival(log: seq<TaskEvent>, position: nat, arrivals: seq<Arrival>, arrival: Arrival, n: nat)
    requires n <= |arrivals|
    requires if n < |arrivals| then FollowedAt(log, position, arrivals, n)
             else FollowsAt(log, position + PersistedCount(arrivals), arrival)
    ensures FollowedAt(log, position, arrivals + [arrival], n)
  {
    hide FollowsAt, PersistedCount;
    PrefixOfMore(arrivals, arrival, n);
  }

  lemma PrefixOfMore<T>(s: seq<T>, x: T, n: nat)
    requires n <= |s|
    ensures (s + [x])[..n] == s[..n] && (s + [x])[n] == if n < |s| then s[n] else x
    ensures n == |s| ==> s[..n] == s
  {
  }

  // Frames whose persisted part is a stretch of the log follow the log.
  lemma {:induction false} FramesFollow(log: seq<TaskEvent>, position: nat, frames: seq<Sse.Frame>)
    requires position + |Sse.PersistedOf(frames)| <= |log|
    requires forall k | 0 <= k < |Sse.PersistedOf(frames)| :: Sse.PersistedOf(frames)[k] == log[position + k]
    ensures ArrivalsFollow(log, position, ArrivalsOf(frames))
  {
    if frames != [] {
      var front, last := frames[..|frames| - 1], frames[|frames| - 1];
      assert frames == front + [last];
      Sse.OneMoreFrame(front, last);
      forall k | 0 <= k < |Sse.PersistedOf(front)| ensures Sse.PersistedOf(front)[k] == log[position + k] {
        assert Sse.PersistedOf(front)[k] == Sse.PersistedOf(frames)[k];
      }
      FramesFollow(log, position, front);
      FramesCount(front);
      if last.Persisted? {
        assert Sse.PersistedOf(frames)[|Sse.PersistedOf(front)|] == last.event;
      }
      if !last.Heartbeat? {
        FollowOneMore(log, position, ArrivalsOf(front), ArrivalsOf(frames)[|ArrivalsOf(front)|]);
      }
    }
  }

  // What a connection sent to a reader with the cursor `after` is a stream that the client can
  // follow from that cursor.
  lemma ConnectionFollowsLog(log: seq<TaskEvent>, after: nat, last: nat, frames: seq<Sse.Frame>)
    requires Ascending(log) && Sse.GapFree(log, after, last, frames)
    ensures ArrivalsFollow(log, Pos(log, after), ArrivalsOf(frames))
  {
    PosMonotone(log, after, last);
    FramesFollow(log, Pos(log, after), frames);
  }

  // ----- a session and the run of the client -----

  // What happens to the browser: an action of the stream, or anything else the client does.
  datatype Item = FromStream(item: Dispatched) | FromUser(step: ClientStep)

  function StepOf(item: Item): ClientStep {
    match item
    case FromUser(step) => step
    case FromStream(Dispatched(action, to)) =>
      match action
      case EventReceived(_) => Deliver
      case BootstrapReceived(bootstrap) => Recover(to, bootstrap)
      case _ => Elsewhere(action)
  }

  predicate IsUserStep(step: ClientStep) {
    !step.Deliver? && !step.Redeliver? && !step.Recover?
  }

  // A merge of a stream that follows the log with steps of the user; the stream never runs
  // ahead of what is committed.
  ghost predicate MergesOne(log: seq<TaskEvent>, r: Run, item: Item) {
    match item
    case FromUser(step) => IsUserStep(step)
    case FromStream(dispatched) => FollowsOne(log, r.applied, dispatched) && dispatched.to <= r.now
  }

  ghost predicate IsMerged(log: seq<TaskEvent>, runs: seq<Run>, items: seq<Item>) {
    && |runs| == |items| + 1
    && forall i | 0 <= i < |items| :: MergesOne(log, runs[i], items[i]) && runs[i + 1] == StepRun(log, runs[i], StepOf(items[i]))
  }

  // An action of the stream is a step of the client's run, and dispatches exactly that action.
  lemma StreamActionIsStep(log: seq<TaskEvent>, r: Run, dispatched: Dispatched)
    requires r.applied <= r.now <= |log| && MergesOne(log, r, FromStream(dispatched))
    ensures var next := StepRun(log, r, StepOf(FromStream(dispatched)));
            next.state == Reduce(r.state, dispatched.action) && next.applied == dispatched.to
  {
    hide Reduce, IsSnapshot, Newest;
  }

  lemma UserKeepsPosition(log: seq<TaskEvent>, r: Run, step: ClientStep)
    requires IsUserStep(step)
    ensures StepRun(log, r, step).applied == r.applied
  {
    hide Reduce, Installed, Newest;
  }

  function StreamOf(items: seq<Item>): seq<Dispatched> {
    if items == [] then []
    else
      var before := StreamOf(items[..|items| - 1]);
      match items[|items| - 1] case FromStream(dispatched) => before + [dispatched] case _ => before
  }

  // Every merge of a session's stream with whatever the user does is a run of the client: the
  // invariant holds all along, so the loaded detail is the server's projection and the table
  // its join, and the stream's position in the log is the run's.
  lemma {:induction false} SessionIsClientRun(log: seq<TaskEvent>, runs: seq<Run>, items: seq<Item>, n: nat)
    requires WellFormed(log) && IsMerged(log, runs, items) && RunInv(log, runs[0]) && n < |runs|
    ensures RunInv(log, runs[n])
    ensures FollowsLog(log, runs[0].applied, StreamOf(items[..n]))
    ensures EndOf(runs[0].applied, StreamOf(items[..n])) == runs[n].applied
    ensures n > 0 && items[n - 1].FromStream? ==> runs[n].state == Reduce(runs[n - 1].state, items[n - 1].item.action)
  {
    hide WellFormed, RunInv, StepRun, Reduce, FollowsLog, FollowsOne, StepOf;
    if n > 0 {
      SessionIsClientRun(log, runs, items, n - 1);
      StepKeepsInv(log, runs[n - 1], StepOf(items[n - 1]));
      assert items[..n][..n - 1] == items[..n - 1];
      assert MergesOne(log, runs[n - 1], items[n - 1]);
      match items[n - 1]
      case FromStream(dispatched) =>
        InvBounds(log, runs[n - 1]);
        StreamActionIsStep(log, runs[n - 1], dispatched);
        FollowsOneMore(log, runs[0].applied, StreamOf(items[..n - 1]), dispatched);
      case FromUser(step) =>
        assert StepOf(items[n - 1]) == step by { UserStepIs(step); }
        UserKeepsPosition(log, runs[n - 1], step);
    } else {
      NothingFollowed(log, runs[0].applied);
      assert items[..0] == [];
    }
  }

  lemma UserStepIs(step: ClientStep)
    ensures StepOf(FromUser(step)) == step
  {
  }

  lemma NothingFollowed(log: seq<TaskEvent>, start: nat)
    ensures FollowsLog(log, start, []) && EndOf(start, []) == start
  {
  }

  // Where such a run begins: the first bootstrap, dispatched before the client starts.
  lemma SessionStarts(log: seq<TaskEvent>, now: nat, readAt: nat, bootstrap: Bootstrap)
    requires WellFormed(log) && readAt <= now <= |log| && IsSnapshot(log[..readAt], bootstrap)
    ensures var r := StepRun(log, Start().(now := now), Recover(readAt, bootstrap));
            RunInv(log, r) && r.applied == readAt && r.state == Reduce(InitialState(), BootstrapReceived(bootstrap))
  {
    hide WellFormed, Reduce, Normalize, IsSnapshot;
    StartsAnywhere(log, now);
    RecoverKeepsInv(log, Start().(now := now), readAt, bootstrap);
  }

  lemma StartsAnywhere(log: seq<TaskEvent>, now: nat)
    requires now <= |log|
    ensures RunInv(log, Start().(now := now))
  {
  }

  // The run that dispatches `dispatched` from `r` on, with nothing in between but commits, at a
  // moment when `now` events are committed.
  ghost predicate Replays(log: seq<TaskEvent>, r: Run, runs: seq<Run>, items: seq<Item>, dispatched: seq<Dispatched>, now: nat) {
    && IsMerged(log, runs, items) && runs[0] == r && StreamOf(items) == dispatched
    && (forall i | 0 <= i < |items| :: items[i].FromStream? || items[i] == FromUser(Commit))
    && EndsAt(log, r, dispatched, now, runs[|items|])
  }

  ghost predicate EndsAt(log: seq<TaskEvent>, r: Run, dispatched: seq<Dispatched>, now: nat, last: Run) {
    && last.state == ReduceAll(r.state, dispatched) && last.applied == EndOf(r.applied, dispatched) && last.now == now
    && RunInv(log, last)
  }

  // Action number `i` is dispatched at `at[i]`, when `nows[i]` events are committed.
  ghost predicate DispatchedAt(runs: seq<Run>, items: seq<Item>, dispatched: seq<Dispatched>, nows: seq<nat>, at: seq<nat>) {
    && |at| == |dispatched| == |nows| && |items| <= |runs|
    && forall i | 0 <= i < |at| :: at[i] < |items| && items[at[i]] == FromStream(dispatched[i]) && runs[at[i]].now == nows[i]
  }

  // How much of the log is committed at each action: never less than before, and never less than
  // the action shows.
  ghost predicate CommittedInTime(log: seq<TaskEvent>, now: nat, dispatched: seq<Dispatched>, nows: seq<nat>) {
    && |nows| == |dispatched|
    && (forall i | 0 <= i < |nows| :: now <= nows[i] <= |log| && dispatched[i].to <= nows[i])
    && (forall i, j | 0 <= i < j < |nows| :: nows[i] <= nows[j])
  }

  lemma {:induction false} ReplayCommits(log: seq<TaskEvent>, r: Run, runs: seq<Run>, items: seq<Item>,
                                         dispatched: seq<Dispatched>, now: nat, to: nat)
    returns (moreRuns: seq<Run>, moreItems: seq<Item>)
    requires WellFormed(log) && now <= to <= |log| && Replays(log, r, runs, items, dispatched, now)
    ensures Replays(log, r, moreRuns, moreItems, dispatched, to) && runs <= moreRuns && items <= moreItems
    decreases |log| - now
  {
    hide WellFormed, RunInv, Reduce, ReduceAll, EndOf;
    if now == to {
      moreRuns, moreItems := runs, items;
    } else {
      var next := StepRun(log, runs[|items|], Commit);
      StepKeepsInv(log, runs[|items|], Commit);
      MergedOneMore(log, runs, items, FromUser(Commit), next);
      assert (items + [FromUser(Commit)])[..|items|] == items;
      moreRuns, moreItems := ReplayCommits(log, r, runs + [next], items + [FromUser(Commit)], dispatched, now + 1, to);
    }
  }

  lemma ReplayAction(log: seq<TaskEvent>, r: Run, runs: seq<Run>, items: seq<Item>, dispatched: seq<Dispatched>, now: nat, item: Dispatched)
    returns (next: Run)
    requires WellFormed(log) && Replays(log, r, runs, items, dispatched, now)
    requires FollowsOne(log, EndOf(r.applied, dispatched), item) && item.to <= now
    ensures Replays(log, r, runs + [next], items + [FromStream(item)], dispatched + [item], now)
  {
    hide WellFormed, RunInv, StepRun, Reduce, FollowsOne, StepOf, ReduceAll;
    var last := runs[|items|];
    next := StepRun(log, last, StepOf(FromStream(item)));
    InvBounds(log, last);
    assert MergesOne(log, last, FromStream(item));
    StreamActionIsStep(log, last, item);
    StepKeepsInv(log, last, StepOf(FromStream(item)));
    StreamKeepsNow(log, last, item);
    ReduceOneMore(r.state, dispatched, item);
    MergedOneMore(log, runs, items, FromStream(item), next);
    assert (items + [FromStream(item)])[..|items|] == items;
  }

  // A faithful session left to itself is the client's run over its own stream, whenever the
  // events are committed: the state it ends in is the one the run reaches.
  lemma {:induction false} FaithfulSessionIsRun(log: seq<TaskEvent>, r: Run, dispatched: seq<Dispatched>, nows: seq<nat>)
    returns (runs: seq<Run>, items: seq<Item>, at: seq<nat>)
    requires WellFormed(log) && RunInv(log, r) && FollowsLog(log, r.applied, dispatched)
    requires CommittedInTime(log, r.now, dispatched, nows)
    ensures Replays(log, r, runs, items, dispatched, if nows == [] then r.now else nows[|nows| - 1])
    ensures DispatchedAt(runs, items, dispatched, nows, at)
    decreases |dispatched|
  {
    hide WellFormed, RunInv, FollowsOne, FollowsLog, Replays, DispatchedAt, CommittedInTime;
    if dispatched == [] {
      runs, items, at := [r], [], [];
      assert nows == [] by { InTimeLength(log, r.now, dispatched, nows); }
      NothingReplayed(log, r);
      NothingDispatched([r]);
    } else {
      var k := |dispatched| - 1;
      FollowsFront(log, r.applied, dispatched);
      InTimeFront(log, r.now, dispatched, nows);
      var front, now := dispatched[..k], if k == 0 then r.now else nows[k - 1];
      runs, items, at := FaithfulSessionIsRun(log, r, front, nows[..k]);
      ghost var before, beforeItems := runs, items;
      runs, items := ReplayCommits(log, r, runs, items, front, now, nows[k]);
      var next := ReplayAction(log, r, runs, items, front, nows[k], dispatched[k]);
      assert front + [dispatched[k]] == dispatched && nows[..k] + [nows[k]] == nows;
      LastNow(log, r, before, beforeItems, front, now);
      LastNow(log, r, runs, items, front, nows[k]);
      DispatchedMore(before, beforeItems, front, nows[..k], at, runs, items, next, dispatched[k]);
      runs, items, at := runs + [next], items + [FromStream(dispatched[k])], at + [|items|];
    }
  }

  lemma DispatchedMore(before: seq<Run>, beforeItems: seq<Item>, dispatched: seq<Dispatched>, nows: seq<nat>, at: seq<nat>,
                       runs: seq<Run>, items: seq<Item>, next: Run, item: Dispatched)
    requires DispatchedAt(before, beforeItems, dispatched, nows, at)
    requires before <= runs && beforeItems <= items && |items| < |runs|
    ensures DispatchedAt(runs + [next], items + [FromStream(item)], dispatched + [item], nows + [runs[|items|].now], at + [|items|])
  {
  }

  lemma FollowsFront(log: seq<TaskEvent>, start: nat, dispatched: seq<Dispatched>)
    requires FollowsLog(log, start, dispatched) && dispatched != []
    ensures var k := |dispatched| - 1;
            FollowsLog(log, start, dispatched[..k]) && FollowsOne(log, EndOf(start, dispatched[..k]), dispatched[k])
  {
    hide FollowsOne;
    var front := dispatched[..|dispatched| - 1];
    forall i | 0 <= i < |front| ensures FollowsOne(log, EndOf(start, front[..i]), front[i]) {
      assert front[..i] == dispatched[..i];
    }
  }

  lemma InTimeLength(log: seq<TaskEvent>, now: nat, dispatched: seq<Dispatched>, nows: seq<nat>)
    requires CommittedInTime(log, now, dispatched, nows)
    ensures |nows| == |dispatched|
  {
  }

  lemma InTimeFront(log: seq<TaskEvent>, now: nat, dispatched: seq<Dispatched>, nows: seq<nat>)
    requires CommittedInTime(log, now, dispatched, nows) && dispatched != []
    ensures |nows| == |dispatched|
    ensures var k := |dispatched| - 1;
            && CommittedInTime(log, now, dispatched[..k], nows[..k])
            && (if k == 0 then now else nows[k - 1]) <= nows[k] <= |log| && dispatched[k].to <= nows[k]
  {
  }

  lemma NothingReplayed(log: seq<TaskEvent>, r: Run)
    requires RunInv(log, r)
    ensures Replays(log, r, [r], [], [], r.now)
  {
    hide RunInv;
  }

  lemma NothingDispatched(runs: seq<Run>)
    ensures DispatchedAt(runs, [], [], [], [])
  {
  }

  lemma LastNow(log: seq<TaskEvent>, r: Run, runs: seq<Run>, items: seq<Item>, dispatched: seq<Dispatched>, now: nat)
    requires Replays(log, r, runs, items, dispatched, now)
    ensures |runs| == |items| + 1 && runs[|items|].now == now
  {
    hide RunInv;
  }

  lemma StreamKeepsNow(log: seq<TaskEvent>, r: Run, dispatched: Dispatched)
    ensures StepRun(log, r, StepOf(FromStream(dispatched))).now == r.now
  {
    hide Reduce, IsSnapshot, Newest;
  }

  lemma MergedOneMore(log: seq<TaskEvent>, runs: seq<Run>, items: seq<Item>, item: Item, next: Run)
    requires IsMerged(log, runs, items) && MergesOne(log, runs[|items|], item) && next == StepRun(log, runs[|items|], StepOf(item))
    ensures IsMerged(log, runs + [next], items + [item])
  {
    hide MergesOne, StepRun, StepOf;
  }
}
