/**
 * One event-stream connection: paged replay, a live feed that may lag, and the service state.
 * The run's whole log is fixed in advance; `committed` and `sent` say how much of it exists
 * and how much has been broadcast. Others move at every point where the generator waits.
 */
module SseDelivery {
  import opened Domain
  import opened EventLog
  import opened World

  const PAGE_SIZE := 256
  const MAX_READY_SERVICE_UPDATES := 64
  const READY_LIVE_BATCH_SIZE := 256
  const MAX_BUFFERED_LIVE_EVENTS := 4_096

  datatype Frame =
    | Persisted(event: TaskEvent)
    | ServiceFrame(service: Service)
    | ResetFrame(latestEventId: nat)
    | Heartbeat

  datatype Move =
    | Persist
    | Broadcast
    | EndLive
    | UpdateService(service: Service)
    | EndService

  // What a `select!` finds ready, and what happened since the one before.
  datatype Choice = ServiceReady | HeartbeatTicks | LiveReady | ReadIsDone
  datatype Round = Round(moves: seq<Move>, choice: Choice)

  // The branch that was taken and what was there for it: the service updates that were ready, or
  // how much of the log had been broadcast, and whether the feed had ended. A branch whose feed has
  // ended is switched off; while a read is under way there is no branch for live events.
  datatype Turn =
    | ServiceTurn(ready: seq<Service>, ended: bool)
    | BeatTurn
    | LiveTurn(sent: nat, ended: bool)
    | LiveOff
    | ServiceOff
    | ReadTurn
    | IdleTurn

  datatype LiveItem = Item(event: TaskEvent) | Lagged | Closed | NotReady
  datatype ServiceItem = Update(service: Service) | ServiceOver | ServiceNotReady

  function PersistedOf(frames: seq<Frame>): seq<TaskEvent> {
    if frames == [] then []
    else
      var before := PersistedOf(frames[..|frames| - 1]);
      match frames[|frames| - 1] case Persisted(event) => before + [event] case _ => before
  }

  function ServicesOf(frames: seq<Frame>): seq<nat> {
    if frames == [] then []
    else
      var before := ServicesOf(frames[..|frames| - 1]);
      match frames[|frames| - 1] case ServiceFrame(service) => before + [service.generation] case _ => before
  }

  function BeatsOf(frames: seq<Frame>): nat {
    if frames == [] then 0
    else BeatsOf(frames[..|frames| - 1]) + if frames[|frames| - 1].Heartbeat? then 1 else 0
  }

  lemma OneMoreFrame(frames: seq<Frame>, frame: Frame)
    ensures BeatsOf(frames + [frame]) == BeatsOf(frames) + if frame.Heartbeat? then 1 else 0
    ensures PersistedOf(frames + [frame]) == PersistedOf(frames) + if frame.Persisted? then [frame.event] else []
    ensures ServicesOf(frames + [frame]) == ServicesOf(frames) + if frame.ServiceFrame? then [frame.service.generation] else []
  {
    assert (frames + [frame])[..|frames|] == frames;
  }

  ghost predicate Increasing(s: seq<nat>, bound: nat) {
    (forall i, j | 0 <= i < j < |s| :: s[i] < s[j]) && forall i | 0 <= i < |s| :: s[i] <= bound
  }

  // A stream starts with a service frame. Service frames name states that the service really had,
  // in the order of their generations; the last one is `generation`.
  ghost predicate ServicesRight(frames: seq<Frame>, generation: nat, announced: seq<Service>) {
    && Increasing(ServicesOf(frames), generation)
    && (ServicesOf(frames) != [] ==> ServicesOf(frames)[|ServicesOf(frames)| - 1] == generation)
    && (frames != [] ==> frames[0].ServiceFrame?)
    && (forall i | 0 <= i < |frames| && frames[i].ServiceFrame? :: frames[i].service in announced)
  }

  lemma NewServiceFrame(frames: seq<Frame>, generation: nat, announced: seq<Service>, service: Service)
    requires ServicesRight(frames, generation, announced) && service in announced
    requires frames == [] || service.generation > generation
    ensures ServicesRight(frames + [ServiceFrame(service)], service.generation, announced)
  {
    OneMoreFrame(frames, ServiceFrame(service));
    NoFrames();
    hide ServicesOf;
  }

  lemma OtherFrame(frames: seq<Frame>, generation: nat, announced: seq<Service>, frame: Frame)
    requires ServicesRight(frames, generation, announced) && !frame.ServiceFrame? && frames != []
    ensures ServicesRight(frames + [frame], generation, announced)
  {
    OneMoreFrame(frames, frame);
    hide ServicesOf;
  }

  lemma MoreAnnounced(frames: seq<Frame>, generation: nat, before: seq<Service>, after: seq<Service>)
    requires ServicesRight(frames, generation, before) && before <= after
    ensures ServicesRight(frames, generation, after)
  {
    hide ServicesOf, Increasing;
  }

  // ----- what the turns of the `select!` loops oblige the connection to -----

  // A live turn receives at least one item if there is one.
  function Received(position: nat, turns: seq<Turn>): nat {
    if turns == [] then position
    else
      var before := Received(position, turns[..|turns| - 1]);
      match turns[|turns| - 1] case LiveTurn(sent, false) => (if before < sent then before + 1 else before) case _ => before
  }

  function BeatTurns(turns: seq<Turn>): nat {
    if turns == [] then 0 else BeatTurns(turns[..|turns| - 1]) + if turns[|turns| - 1].BeatTurn? then 1 else 0
  }

  // Every turn was used: live items were received, the end of a feed was noticed, the client has
  // seen each generation that was ready, and each tick gave a heartbeat.
  ghost predicate Honoured(turns: seq<Turn>, subscribed: nat, position: nat, liveClosed: bool, generation: nat,
                           serviceClosed: bool, beats: nat) {
    && Received(subscribed, turns) <= position && BeatTurns(turns) <= beats
    && forall i | 0 <= i < |turns| :: TurnUsed(turns[i], liveClosed, generation, serviceClosed)
  }

  ghost predicate TurnUsed(turn: Turn, liveClosed: bool, generation: nat, serviceClosed: bool) {
    match turn
    case LiveTurn(_, ended) => ended ==> liveClosed
    case ServiceTurn(ready, ended) => if ready == [] then ended ==> serviceClosed else ready[0].generation <= generation
    case LiveOff => liveClosed
    case ServiceOff => serviceClosed
    case _ => true
  }

  // A round is taken by the branch that it makes ready, or that branch is switched off, or a read
  // is over.
  predicate Fits(choice: Choice, turn: Turn) {
    match choice
    case ServiceReady => turn.ServiceTurn? || turn == ServiceOff
    case HeartbeatTicks => turn == BeatTurn
    case LiveReady => turn.LiveTurn? || turn == LiveOff || turn == ReadTurn
    case ReadIsDone => turn == ReadTurn || turn == IdleTurn
  }

  function ReadTurns(turns: seq<Turn>): nat {
    if turns == [] then 0 else ReadTurns(turns[..|turns| - 1]) + if turns[|turns| - 1] == ReadTurn then 1 else 0
  }

  // Every round so far has had its turn, and no more turns than `readCount` ended the wait for a read.
  ghost predicate Accounted(all: seq<Round>, left: seq<Round>, turns: seq<Turn>, readCount: nat) {
    && |turns| + |left| == |all| && left == all[|turns|..] && ReadTurns(turns) <= readCount
    && forall i | 0 <= i < |turns| :: Fits(all[i].choice, turns[i])
  }

  lemma AccountedMore(all: seq<Round>, left: seq<Round>, turns: seq<Turn>, readCount: nat, turn: Turn)
    requires Accounted(all, left, turns, readCount) && left != [] && Fits(left[0].choice, turn)
    ensures Accounted(all, left[1..], turns + [turn], readCount + if turn == ReadTurn then 1 else 0)
  {
    assert (turns + [turn])[..|turns|] == turns;
  }

  lemma AccountedStill(all: seq<Round>, left: seq<Round>, turns: seq<Turn>, readCount: nat)
    requires Accounted(all, left, turns, readCount)
    ensures Accounted(all, left, turns, readCount + 1)
  {
  }

  lemma ServiceComesFirst(frames: seq<Frame>, generation: nat, announced: seq<Service>)
    requires ServicesRight(frames, generation, announced)
    ensures frames != [] ==> frames[0].ServiceFrame?
  {
  }

  lemma ReceivedEnough(turns: seq<Turn>, subscribed: nat, position: nat, liveClosed: bool, generation: nat, serviceClosed: bool, beats: nat)
    requires Honoured(turns, subscribed, position, liveClosed, generation, serviceClosed, beats)
    ensures Received(subscribed, turns) <= position
  {
  }

  lemma NothingOwed(turn: Turn, liveClosed: bool, generation: nat, serviceClosed: bool)
    requires !turn.ServiceTurn? && (turn.LiveTurn? ==> !turn.ended) && (turn.LiveOff? ==> liveClosed) && (turn.ServiceOff? ==> serviceClosed)
    ensures TurnUsed(turn, liveClosed, generation, serviceClosed)
  {
  }

  lemma NoFrames()
    ensures PersistedOf([]) == [] && ServicesOf([]) == [] && BeatsOf([]) == 0
  {
  }

  lemma HonouredStill(turns: seq<Turn>, subscribed: nat, position: nat, liveClosed: bool, generation: nat, serviceClosed: bool,
                      beats: nat, position': nat, liveClosed': bool, generation': nat, serviceClosed': bool, beats': nat)
    requires Honoured(turns, subscribed, position, liveClosed, generation, serviceClosed, beats)
    requires position <= position' && generation <= generation' && beats <= beats'
    requires (liveClosed ==> liveClosed') && (serviceClosed ==> serviceClosed')
    ensures Honoured(turns, subscribed, position', liveClosed', generation', serviceClosed', beats')
  {
    hide Received, BeatTurns;
    forall i | 0 <= i < |turns| ensures TurnUsed(turns[i], liveClosed', generation', serviceClosed') {
      assert TurnUsed(turns[i], liveClosed, generation, serviceClosed);
    }
  }

  lemma HonouredMore(turns: seq<Turn>, turn: Turn, subscribed: nat, position: nat, liveClosed: bool, generation: nat,
                     serviceClosed: bool, beats: nat, position': nat, liveClosed': bool, generation': nat,
                     serviceClosed': bool, beats': nat)
    requires Honoured(turns, subscribed, position, liveClosed, generation, serviceClosed, beats)
    requires position <= position' && generation <= generation' && beats <= beats'
    requires (liveClosed ==> liveClosed') && (serviceClosed ==> serviceClosed')
    requires TurnUsed(turn, liveClosed', generation', serviceClosed')
    requires turn.LiveTurn? && !turn.ended && position < turn.sent ==> position < position'
    requires turn.BeatTurn? ==> beats < beats'
    ensures Honoured(turns + [turn], subscribed, position', liveClosed', generation', serviceClosed', beats')
  {
    HonouredStill(turns, subscribed, position, liveClosed, generation, serviceClosed, beats,
                  position', liveClosed', generation', serviceClosed', beats');
    assert (turns + [turn])[..|turns|] == turns;
  }

  function LiveTurnsPast(turns: seq<Turn>, s: nat): nat {
    if turns == [] then 0
    else
      var last := turns[|turns| - 1];
      LiveTurnsPast(turns[..|turns| - 1], s) + if last.LiveTurn? && !last.ended && last.sent >= s then 1 else 0
  }

  // Once the log was broadcast up to `s`, as many live turns as events are missing receive it.
  lemma {:induction false} TurnsReceive(position: nat, turns: seq<Turn>, s: nat)
    ensures Received(position, turns) >= if position + LiveTurnsPast(turns, s) < s then position + LiveTurnsPast(turns, s)
                                        else if position < s then s else position
  {
    if turns != [] { TurnsReceive(position, turns[..|turns| - 1], s); }
  }

  // What the `select!` loops of a connection will find, and the turns they have taken.
  class Rounds {
    ghost const all: seq<Round>
    var left: seq<Round>
    ghost var turns: seq<Turn>

    constructor (script: seq<Round>)
      ensures left == all == script && turns == []
    {
      left, all, turns := script, script, [];
    }
  }

  // How much of the log is committed, and how much of it was broadcast.
  datatype Feed = Feed(committed: nat, sent: nat)

  function FeedStep(log: seq<TaskEvent>, feed: Feed, move: Move): Feed {
    match move
    case Persist => if feed.committed < |log| then feed.(committed := feed.committed + 1) else feed
    case Broadcast => if feed.sent < feed.committed then feed.(sent := feed.sent + 1) else feed
    case _ => feed
  }

  function FeedAfter(log: seq<TaskEvent>, feed: Feed, moves: seq<Move>): Feed {
    if moves == [] then feed else FeedStep(log, FeedAfter(log, feed, moves[..|moves| - 1]), moves[|moves| - 1])
  }

  // The store and the two broadcast channels. `position` is the live receiver's: the first
  // event it has not received. More than `capacity` behind, it lags and skips ahead.
  class Backend {
    const log: seq<TaskEvent>
    const capacity: nat
    var committed: nat
    var sent: nat
    var position: nat
    var liveEnded: bool
    var service: Service
    var updates: seq<Service>
    // Every state the service has had.
    ghost var announced: seq<Service>
    var serviceEnded: bool
    var script: seq<seq<Move>>
    var oracle: seq<nat>
    // How often a read or a serialization failed, and how many reads there were.
    ghost var faults: nat
    ghost var readCount: nat

    // Events are persisted before they are broadcast.
    ghost predicate Valid()
      reads this
    {
      && Ascending(log) && position <= sent <= committed <= |log|
      && service in announced && forall u | u in updates :: u in announced
    }

    method Choose() returns (n: nat)
      modifies this`oracle
    {
      if oracle == [] { return 0; }
      n := oracle[0];
      oracle := oracle[1..];
    }

    method Fails() returns (b: bool)
      modifies this`oracle, this`faults
      ensures faults == old(faults) + if b then 1 else 0
    {
      var n := Choose();
      b := n == 1;
      if b { faults := faults + 1; }
    }

    // Others move.
    method Apply(moves: seq<Move>)
      requires Valid()
      modifies this`committed, this`sent, this`liveEnded, this`service, this`updates, this`announced, this`serviceEnded
      ensures Valid() && old(committed) <= committed && old(sent) <= sent && old(announced) <= announced
      ensures Feed(committed, sent) == FeedAfter(log, old(Feed(committed, sent)), moves)
    {
      ghost var start := Feed(committed, sent);
      for n := 0 to |moves|
        invariant Valid() && old(committed) <= committed && old(sent) <= sent && old(announced) <= announced
        invariant Feed(committed, sent) == FeedAfter(log, start, moves[..n])
      {
        assert moves[..n + 1][..n] == moves[..n];
        match moves[n] {
          case Persist => if committed < |log| { committed := committed + 1; }
          case Broadcast => if sent < committed { sent := sent + 1; }
          case EndLive => liveEnded := true;
          case UpdateService(next) => service, updates, announced := next, updates + [next], announced + [next];
          case EndService => serviceEnded := true;
        }
      }
      assert moves[..|moves|] == moves;
    }

    method Wait()
      requires Valid()
      modifies this`committed, this`sent, this`liveEnded, this`service, this`updates, this`announced, this`serviceEnded, this`script
      ensures Valid() && old(committed) <= committed && old(sent) <= sent && old(announced) <= announced
      ensures |script| <= |old(script)| && (old(script) != [] ==> |script| < |old(script)|)
      ensures Feed(committed, sent)
           == FeedAfter(log, old(Feed(committed, sent)), if old(script) == [] then [] else old(script)[0])
    {
      if script == [] { return; }
      var moves := script[0];
      script := script[1..];
      Apply(moves);
    }

    // `live.next()`, if it is ready.
    method PollLive() returns (item: LiveItem)
      requires Valid()
      modifies this`position
      ensures Valid() && old(position) <= position
      ensures item.Item? ==> old(position) < |log| && item.event == log[old(position)] && position == old(position) + 1
      ensures item.Lagged? ==> position > old(position)
      ensures item.Closed? || item.NotReady? ==> position == old(position)
      ensures item.Closed? <==> liveEnded
      ensures item.NotReady? ==> position == sent
    {
      if liveEnded { return Closed; }
      if sent - position > capacity {
        position := sent - capacity;
        return Lagged;
      }
      if position == sent { return NotReady; }
      position := position + 1;
      item := Item(log[position - 1]);
    }

    method PollService() returns (item: ServiceItem)
      modifies this`updates
      ensures forall u | u in updates :: u in old(updates)
      ensures if old(updates) != [] then item == Update(old(updates)[0]) && updates == old(updates)[1..]
              else updates == old(updates) && item == if serviceEnded then ServiceOver else ServiceNotReady
    {
      if updates != [] {
        item := Update(updates[0]);
        updates := updates[1..];
        return;
      }
      item := if serviceEnded then ServiceOver else ServiceNotReady;
    }

    method LatestEventId() returns (r: Option<nat>, ghost c: nat)
      requires Valid()
      modifies this`committed, this`sent, this`liveEnded, this`service, this`updates, this`announced, this`serviceEnded, this`script,
               this`oracle, this`faults, this`readCount
      ensures Valid() && old(committed) <= c <= committed && old(sent) <= sent && position <= c && old(announced) <= announced
      ensures r.Some? ==> r.value == LastId(log[..c])
      ensures faults == old(faults) + if r.None? then 1 else 0
      ensures |script| <= |old(script)| && readCount == old(readCount) + 1
    {
      readCount := readCount + 1;
      Wait();
      c := committed;
      var failed := Fails();
      if failed { return None, c; }
      r := Some(LastId(log[..committed]));
      Wait();
    }

    // `events_between`: one page after `after`, without what lies beyond `through`.
    method EventsBetween(after: int, through: nat) returns (r: Option<seq<TaskEvent>>, ghost c: nat)
      requires Valid()
      modifies this`committed, this`sent, this`liveEnded, this`service, this`updates, this`announced, this`serviceEnded, this`script,
               this`oracle, this`faults, this`readCount
      ensures Valid() && old(committed) <= c <= committed && old(sent) <= sent && old(announced) <= announced
      ensures r.Some? ==> r.value == UpTo(Page(log[..c], after, PAGE_SIZE), through)
      ensures faults == old(faults) + if r.None? then 1 else 0
      ensures |script| <= |old(script)| && readCount == old(readCount) + 1
    {
      readCount := readCount + 1;
      Wait();
      c := committed;
      var failed := Fails();
      if failed { return None, c; }
      r := Some(UpTo(Page(log[..committed], after, PAGE_SIZE), through));
      Wait();
    }
  }

  function UpTo(events: seq<TaskEvent>, through: nat): seq<TaskEvent> {
    if events == [] then []
    else
      var before := UpTo(events[..|events| - 1], through);
      if events[|events| - 1].id <= through then before + [events[|events| - 1]] else before
  }

  // `dedup_by_key`: drops an event whose id equals its predecessor's.
  function Dedup(events: seq<TaskEvent>): seq<TaskEvent> {
    if |events| < 2 then events
    else
      var before := Dedup(events[..|events| - 1]);
      if events[|events| - 1].id == events[|events| - 2].id then before else before + [events[|events| - 1]]
  }

  function NormalizePage(page: seq<TaskEvent>): seq<TaskEvent> {
    Dedup(SortById(page))
  }

  lemma {:induction false} DedupAscending(events: seq<TaskEvent>)
    requires Ascending(events)
    ensures Dedup(events) == events
  {
    if |events| >= 2 {
      DedupAscending(events[..|events| - 1]);
      assert events == events[..|events| - 1] + [events[|events| - 1]];
    }
  }

  // The page has the ids of the events, each once, ascending.
  ghost predicate ByIdOnce(events: seq<TaskEvent>, page: seq<TaskEvent>) {
    Climbs(page) && (forall e | e in page :: e in events) && (forall e | e in events :: Covers(page, e.id))
  }

  ghost predicate Climbs(page: seq<TaskEvent>) {
    forall i, j | 0 <= i < j < |page| :: page[i].id < page[j].id
  }

  ghost predicate Covers(page: seq<TaskEvent>, id: nat) {
    exists i :: 0 <= i < |page| && page[i].id == id
  }

  lemma ClimbsOn(page: seq<TaskEvent>, event: TaskEvent)
    requires Climbs(page) && page != [] && page[|page| - 1].id < event.id
    ensures Climbs(page + [event])
  {
    forall i | 0 <= i < |page| ensures page[i].id < event.id { assert i < |page| - 1 ==> page[i].id < page[|page| - 1].id; }
  }

  lemma CoversLast(page: seq<TaskEvent>)
    requires page != []
    ensures Covers(page, page[|page| - 1].id)
  {
  }

  lemma OnceOneMore(front: seq<TaskEvent>, page: seq<TaskEvent>, last: TaskEvent)
    requires ByIdOnce(front, page) && page != [] && page[|page| - 1].id <= last.id
    ensures ByIdOnce(front + [last], if page[|page| - 1].id == last.id then page else page + [last])
  {
    hide Climbs, Covers;
    var next := if page[|page| - 1].id == last.id then page else page + [last];
    if page[|page| - 1].id < last.id { ClimbsOn(page, last); }
    CoversLast(next);
    forall e | e in front + [last] ensures Covers(next, e.id) {
      if e in front { CoversMore(page, next, e.id); }
    }
  }

  lemma CoversMore(page: seq<TaskEvent>, next: seq<TaskEvent>, id: nat)
    requires Covers(page, id) && page <= next
    ensures Covers(next, id)
  {
    var i :| 0 <= i < |page| && page[i].id == id;
    assert next[i].id == id;
  }

  lemma {:induction false} DedupInOrder(events: seq<TaskEvent>)
    requires InOrder(events)
    ensures ByIdOnce(events, Dedup(events))
    ensures events != [] ==> Dedup(events) != [] && Dedup(events)[|Dedup(events)| - 1].id == events[|events| - 1].id
  {
    hide ByIdOnce, InOrder;
    if |events| >= 2 {
      var front, last := events[..|events| - 1], events[|events| - 1];
      FrontInOrder(events);
      DedupInOrder(front);
      assert events == front + [last];
      OnceOneMore(front, Dedup(front), last);
    } else {
      OnceAlone(events);
    }
  }

  lemma OnceAlone(events: seq<TaskEvent>)
    requires |events| < 2
    ensures ByIdOnce(events, events)
  {
    assert forall e | e in events :: events[0].id == e.id;
  }

  // Whatever the backend hands over as a page, the stream goes on with its ids, each once, in order.
  lemma NormalizedIsByIdOnce(page: seq<TaskEvent>)
    ensures ByIdOnce(page, NormalizePage(page))
  {
    SortByIdSorts(page);
    DedupInOrder(SortById(page));
    assert forall e :: e in page <==> e in multiset(page);
    assert forall e :: e in SortById(page) <==> e in multiset(SortById(page));
  }

  lemma AllUpTo(events: seq<TaskEvent>, through: nat)
    requires Ascending(events) && events != []
    ensures Ascending(events[..|events| - 1])
    ensures events[|events| - 1].id <= through ==> Pos(events[..|events| - 1], through) == |events| - 1
  {
    PosSplits(events[..|events| - 1], through);
  }

  lemma {:induction false} UpToAscending(events: seq<TaskEvent>, through: nat)
    requires Ascending(events)
    ensures UpTo(events, through) == events[..Pos(events, through)]
  {
    hide Ascending;
    if events != [] {
      var front := events[..|events| - 1];
      AllUpTo(events, through);
      UpToAscending(front, through);
      assert front[..Pos(front, through)] == events[..Pos(front, through)];
    }
  }

  lemma UpToSlice(log: seq<TaskEvent>, p: nat, stop: nat, h: nat)
    requires Ascending(log) && p <= stop <= |log| && p <= h <= |log|
    ensures UpTo(log[p..stop], LastId(log[..h])) == log[p..if h < stop then h else stop]
  {
    hide Ascending, UpTo, Pos, LastId;
    PosOfPrefix(log, h);
    PosOfSlice(log, p, stop, LastId(log[..h]));
    SliceAscending(log, p, stop);
    UpToAscending(log[p..stop], LastId(log[..h]));
    SliceOfSlice(log, p, stop, (if h < stop then h else stop) - p);
  }

  lemma SliceOfSlice<T>(s: seq<T>, lo: nat, hi: nat, n: nat)
    requires lo <= hi <= |s| && n <= hi - lo
    ensures s[lo..hi][..n] == s[lo..lo + n]
  {
  }

  lemma NormalizeSlice(log: seq<TaskEvent>, p: nat, end: nat)
    requires Ascending(log) && p <= end <= |log|
    ensures NormalizePage(log[p..end]) == log[p..end]
  {
    SortedAlready(log[p..end]);
    DedupAscending(log[p..end]);
  }

  // A page of the committed prefix, cut at a high watermark of an earlier prefix, continues
  // exactly where the reader stands; it is empty only if the reader is at the watermark.
  lemma PageContinues(log: seq<TaskEvent>, c: nat, h: nat, last: int)
    requires Ascending(log) && h <= c <= |log| && Pos(log, last) <= h
    ensures var p := Pos(log, last);
            var end := if h - p <= PAGE_SIZE then h else p + PAGE_SIZE;
            NormalizePage(UpTo(Page(log[..c], last, PAGE_SIZE), LastId(log[..h]))) == log[p..end]
  {
    hide Ascending, Page, UpTo, Pos, LastId, NormalizePage;
    var p := Pos(log, last);
    PageOfPrefix(log, c, last, PAGE_SIZE);
    UpToSlice(log, p, if PAGE_SIZE < c - p then p + PAGE_SIZE else c, h);
    NormalizeSlice(log, p, if h - p <= PAGE_SIZE then h else p + PAGE_SIZE);
  }

  lemma NextPage(log: seq<TaskEvent>, c: nat, h: nat, last: nat, page: seq<TaskEvent>)
    requires Ascending(log) && h <= c <= |log| && Pos(log, last) < h
    requires page == NormalizePage(UpTo(Page(log[..c], last, PAGE_SIZE), LastId(log[..h])))
    ensures page != [] && IsNext(log, Pos(log, last), h, page)
  {
    hide Ascending, Page, UpTo, Pos, LastId, NormalizePage;
    PageContinues(log, c, h, last);
  }

  // ----- the connection -----

  ghost predicate GapFree(log: seq<TaskEvent>, after: int, last: int, frames: seq<Frame>) {
    after <= last && PersistedOf(frames) == Between(log, after, last)
  }

  // The reader stands inside the committed prefix.
  ghost predicate Standing(log: seq<TaskEvent>, last: int, committed: nat)
    requires committed <= |log|
  {
    Pos(log, last) <= committed && last <= LastId(log[..committed])
  }

  ghost predicate NoReset(frames: seq<Frame>) {
    forall i | 0 <= i < |frames| :: !frames[i].ResetFrame?
  }

  // Buffered events come from the part of the log the live receiver has passed.
  ghost predicate FromLive(log: seq<TaskEvent>, buffered: map<nat, TaskEvent>, position: nat) {
    forall k | k in buffered :: exists i :: 0 <= i < position && i < |log| && log[i].id == k
  }

  // The buffer holds exactly the events from `a` up to `b`.
  ghost predicate IsRange(log: seq<TaskEvent>, buffered: map<nat, TaskEvent>, a: nat, b: nat) {
    && (forall i | a <= i < b && i < |log| :: log[i].id in buffered && buffered[log[i].id] == log[i])
    && (forall k | k in buffered :: exists i :: a <= i < b && i < |log| && log[i].id == k)
  }

  datatype Exit = ResetAtStart | BackendFailed | Unserializable | BothClosed | StillOpen

  class Stream {
    const backend: Backend
    const rounds: Rounds
    const after: nat
    var frames: seq<Frame>
    var last: nat
    var buffered: map<nat, TaskEvent>
    var pendingRefills: nat
    var serviceGeneration: nat
    var liveClosed: bool
    var serviceClosed: bool
    // Where the live receiver stood when it was subscribed.
    ghost const subscribed: nat

    ghost predicate Sound()
      reads this, backend
    {
      && backend.Valid() && GapFree(backend.log, after, last, frames)
      && ServicesRight(frames, serviceGeneration, backend.announced) && NoReset(frames)
    }

    // Every turn in `turns` was used.
    ghost predicate Served(turns: seq<Turn>)
      reads this, backend
    {
      Honoured(turns, subscribed, backend.position, liveClosed, serviceGeneration, serviceClosed, BeatsOf(frames))
    }

    ghost predicate Valid()
      reads this, backend, rounds
    {
      Sound() && Served(rounds.turns) && Accounted(rounds.all, rounds.left, rounds.turns, backend.readCount)
    }

    // The wait for a read is over, and the read is still to be answered.
    ghost predicate Waited()
      reads this, backend, rounds
    {
      Sound() && Served(rounds.turns) && Accounted(rounds.all, rounds.left, rounds.turns, backend.readCount + 1)
    }

    ghost predicate Reading()
      reads this, backend, rounds
    {
      Valid() && Standing(backend.log, last, backend.committed)
    }

    ghost function At(): nat
      reads this
    {
      Pos(backend.log, last)
    }

    // The subscription happens here, before the first read.
    constructor (backend: Backend, rounds: Rounds, after: nat)
      requires backend.Valid() && rounds.turns == [] && rounds.left == rounds.all
      modifies backend
      ensures this.backend == backend && this.rounds == rounds && this.after == after && frames == [] && last == after && buffered == map[]
      ensures Valid() && backend.script == old(backend.script) && pendingRefills == 0 && !liveClosed && rounds.turns == []
      ensures subscribed == backend.sent == old(backend.sent)
    {
      this.backend, this.rounds, this.after, last, subscribed := backend, rounds, after, after, backend.sent;
      frames, buffered, pendingRefills, serviceGeneration, liveClosed, serviceClosed := [], map[], 0, 0, false, false;
      new;
      backend.position := backend.sent;
    }

    // ----- frames -----

    method Yield(frame: Frame)
      requires Sound() && !frame.Persisted? && !frame.ResetFrame? && (frames != [] || frame.ServiceFrame?)
      requires frame.ServiceFrame? ==> frame.service in backend.announced && (frames == [] || frame.service.generation > serviceGeneration)
      modifies this`frames, this`serviceGeneration
      ensures Sound() && frames == old(frames) + [frame]
      ensures BeatsOf(frames) == BeatsOf(old(frames)) + if frame.Heartbeat? then 1 else 0
      ensures serviceGeneration == if frame.ServiceFrame? then frame.service.generation else old(serviceGeneration)
    {
      hide ServicesRight, PersistedOf, ServicesOf, BeatsOf, Between;
      OneMoreFrame(frames, frame);
      if frame.ServiceFrame? {
        NewServiceFrame(frames, serviceGeneration, backend.announced, frame.service);
      } else {
        OtherFrame(frames, serviceGeneration, backend.announced, frame);
      }
      frames := frames + [frame];
      if frame.ServiceFrame? { serviceGeneration := frame.service.generation; }
    }

    // `persisted_event`: the next frame is the next event of the log.
    method YieldEvent(event: TaskEvent) returns (ok: bool)
      requires Reading() && frames != [] && At() < backend.committed && event == backend.log[At()]
      modifies this`frames, this`last, backend`oracle, backend`faults
      ensures Reading() && backend.faults == old(backend.faults) + if ok then 0 else 1
      ensures ok ==> last == event.id && At() == old(At()) + 1 && frames == old(frames) + [Persisted(event)]
      ensures !ok ==> last == old(last) && frames == old(frames)
    {
      hide PersistedOf, ServicesOf, BeatsOf, ServicesRight, Honoured, Accounted, Ascending, Between, LastId;
      var failed := backend.Fails();
      if failed { return false; }
      OneMoreFrame(frames, Persisted(event));
      OtherFrame(frames, serviceGeneration, backend.announced, Persisted(event));
      NextEvent(backend.log, after, last, backend.committed);
      frames := frames + [Persisted(event)];
      last := event.id;
      ok := true;
    }

    // ----- service updates -----

    // `coalesce_service`: the newest of the updates that are ready, at most 64 of them.
    method CoalesceService(first: Service) returns (newest: Service, ghost taken: nat)
      requires Sound() && first in backend.announced
      modifies this`serviceClosed, backend`updates
      ensures Sound() && (old(serviceClosed) ==> serviceClosed) && newest in backend.announced
      ensures taken < MAX_READY_SERVICE_UPDATES && taken <= |old(backend.updates)|
      ensures backend.updates == old(backend.updates)[taken..]
      ensures newest == first || newest in old(backend.updates)[..taken]
      ensures newest.generation >= first.generation
      ensures forall s | s in old(backend.updates)[..taken] :: s.generation <= newest.generation
    {
      newest, taken := first, 0;
      var n := 1;
      while n < MAX_READY_SERVICE_UPDATES
        invariant 1 <= n <= MAX_READY_SERVICE_UPDATES && taken < n && taken <= |old(backend.updates)|
        invariant backend.updates == old(backend.updates)[taken..] && Sound() && (old(serviceClosed) ==> serviceClosed)
        invariant newest in backend.announced
        invariant newest == first || newest in old(backend.updates)[..taken]
        invariant newest.generation >= first.generation
        invariant forall s | s in old(backend.updates)[..taken] :: s.generation <= newest.generation
      {
        var item := backend.PollService();
        match item {
          case Update(candidate) =>
            assert old(backend.updates)[..taken + 1] == old(backend.updates)[..taken] + [candidate];
            taken := taken + 1;
            if candidate.generation > newest.generation { newest := candidate; }
          case ServiceOver =>
            serviceClosed := true;
            break;
          case ServiceNotReady => break;
        }
        n := n + 1;
      }
    }

    // The service branch of a `select!`.
    method TakeService()
      requires Sound() && frames != []
      modifies this`frames, this`serviceGeneration, this`serviceClosed, backend`updates
      ensures Sound() && frames != [] && serviceGeneration >= old(serviceGeneration) && (old(serviceClosed) ==> serviceClosed)
      ensures BeatsOf(frames) == BeatsOf(old(frames))
      ensures TurnUsed(ServiceTurn(old(backend.updates), backend.serviceEnded), liveClosed, serviceGeneration, serviceClosed)
      ensures old(backend.updates) != [] ==> |backend.updates| < |old(backend.updates)|
      // Nothing that was taken is newer than what the client has seen.
      ensures forall s | s in old(backend.updates) :: s in backend.updates || s.generation <= serviceGeneration
    {
      hide GapFree, ServicesRight, NoReset, Ascending;
      var first := backend.PollService();
      match first {
        case Update(service) =>
          ghost var rest := backend.updates;
          var newest, taken := CoalesceService(service);
          assert old(backend.updates)[..taken + 1] == [service] + rest[..taken];
          if newest.generation > serviceGeneration { Yield(ServiceFrame(newest)); }
        case ServiceOver => serviceClosed := true;
        case ServiceNotReady =>
      }
    }

    // One `select!`: others move, and then a branch that is switched on and ready is taken.
    method Select(forRead: bool) returns (turn: Turn)
      requires Valid() && rounds.left != []
      modifies rounds, backend`committed, backend`sent, backend`liveEnded, backend`service, backend`updates, backend`announced,
               backend`serviceEnded
      ensures Sound() && Served(old(rounds.turns)) && (old(Reading()) ==> Standing(backend.log, last, backend.committed))
      ensures backend.committed >= old(backend.committed)
      ensures rounds.left == old(rounds.left)[1..] && rounds.turns == old(rounds.turns) + [turn]
      ensures turn == match old(rounds.left)[0].choice
                      case ServiceReady => if serviceClosed then ServiceOff else ServiceTurn(backend.updates, backend.serviceEnded)
                      case HeartbeatTicks => BeatTurn
                      case LiveReady =>
                        if forRead then ReadTurn else if liveClosed then LiveOff else LiveTurn(backend.sent, backend.liveEnded)
                      case ReadIsDone => if forRead then ReadTurn else IdleTurn
      ensures Accounted(rounds.all, rounds.left, rounds.turns, backend.readCount + if turn == ReadTurn then 1 else 0)
    {
      hide GapFree, ServicesRight, NoReset, Standing, Honoured, Accounted, Ascending, FeedAfter, BeatsOf;
      ghost var committed, announced := backend.committed, backend.announced;
      ghost var reading := Reading();
      backend.Apply(rounds.left[0].moves);
      if reading { StandingGrows(backend.log, last, committed, backend.committed); }
      MoreAnnounced(frames, serviceGeneration, announced, backend.announced);
      match rounds.left[0].choice {
        case ServiceReady => turn := if serviceClosed then ServiceOff else ServiceTurn(backend.updates, backend.serviceEnded);
        case HeartbeatTicks => turn := BeatTurn;
        case LiveReady =>
          turn := if forRead then ReadTurn else if liveClosed then LiveOff else LiveTurn(backend.sent, backend.liveEnded);
        case ReadIsDone => turn := if forRead then ReadTurn else IdleTurn;
      }
      AccountedMore(rounds.all, rounds.left, rounds.turns, backend.readCount, turn);
      rounds.left, rounds.turns := rounds.left[1..], rounds.turns + [turn];
    }

    // The loop around `wait_backend`: heartbeats and service updates go out until the read is done.
    method AwaitBackend()
      requires Valid() && frames != []
      modifies this`frames, this`serviceGeneration, this`serviceClosed, rounds, backend`committed, backend`sent, backend`liveEnded,
               backend`service, backend`updates, backend`announced, backend`serviceEnded
      ensures Waited() && frames != [] && (old(Reading()) ==> Standing(backend.log, last, backend.committed))
      ensures backend.committed >= old(backend.committed) && |rounds.left| <= |old(rounds.left)|
    {
      hide GapFree, Standing, ServicesRight, NoReset, Honoured, Accounted, TurnUsed, Ascending, BeatsOf;
      while rounds.left != []
        invariant Valid() && frames != [] && (old(Reading()) ==> Reading())
        invariant backend.committed >= old(backend.committed) && |rounds.left| <= |old(rounds.left)|
        decreases |rounds.left|
      {
        ghost var turns, generation, closed, beats := rounds.turns, serviceGeneration, serviceClosed, BeatsOf(frames);
        var turn := Select(true);
        match turn {
          case ServiceTurn(_, _) => TakeService();
          case BeatTurn => Yield(Heartbeat);
          case _ =>
        }
        if !turn.ServiceTurn? { NothingOwed(turn, liveClosed, serviceGeneration, serviceClosed); }
        HonouredMore(turns, turn, subscribed, backend.position, liveClosed, generation, closed, beats,
                     backend.position, liveClosed, serviceGeneration, serviceClosed, BeatsOf(frames));
        if turn.ReadTurn? { return; }
      }
      AccountedStill(rounds.all, rounds.left, rounds.turns, backend.readCount);
    }

    // ----- replay -----

    method ReadLatest() returns (r: Option<nat>, ghost c: nat)
      requires Waited()
      modifies backend`committed, backend`sent, backend`liveEnded, backend`service, backend`updates, backend`announced,
               backend`serviceEnded, backend`script, backend`oracle, backend`faults, backend`readCount
      ensures Valid() && (old(Standing(backend.log, last, backend.committed)) ==> Reading()) && backend.position <= c
      ensures old(backend.committed) <= c <= backend.committed
      ensures r.Some? ==> r.value == LastId(backend.log[..c])
      ensures backend.faults == old(backend.faults) + (if r.None? then 1 else 0) && |backend.script| <= |old(backend.script)|
    {
      hide GapFree, ServicesRight, Honoured, Accounted, NoReset, Standing, Ascending, LastId, BeatsOf;
      ghost var committed, announced := backend.committed, backend.announced;
      ghost var reading := Standing(backend.log, last, backend.committed);
      r, c := backend.LatestEventId();
      if reading { StandingGrows(backend.log, last, committed, backend.committed); }
      MoreAnnounced(frames, serviceGeneration, announced, backend.announced);
    }

    method ReadPage(high: nat) returns (r: Option<seq<TaskEvent>>, ghost c: nat)
      requires Waited() && Standing(backend.log, last, backend.committed)
      modifies backend`committed, backend`sent, backend`liveEnded, backend`service, backend`updates, backend`announced,
               backend`serviceEnded, backend`script, backend`oracle, backend`faults, backend`readCount
      ensures Reading() && old(backend.committed) <= c <= backend.committed
      ensures r.Some? ==> r.value == UpTo(Page(backend.log[..c], last, PAGE_SIZE), high)
      ensures backend.faults == old(backend.faults) + (if r.None? then 1 else 0) && |backend.script| <= |old(backend.script)|
    {
      hide GapFree, ServicesRight, Honoured, Accounted, NoReset, Standing, Ascending, UpTo, Page, BeatsOf;
      ghost var committed, announced := backend.committed, backend.announced;
      r, c := backend.EventsBetween(last, high);
      StandingGrows(backend.log, last, committed, backend.committed);
      MoreAnnounced(frames, serviceGeneration, announced, backend.announced);
    }

    // Pages up to a high watermark that was read when the log had `h` events.
    method ReplayTo(high: nat, ghost h: nat) returns (exit: Option<Exit>)
      requires Reading() && frames != [] && h <= backend.committed && high == LastId(backend.log[..h])
      modifies this`frames, this`last, this`serviceGeneration, this`serviceClosed, rounds, backend`committed, backend`sent,
               backend`liveEnded, backend`service, backend`updates, backend`announced, backend`serviceEnded, backend`script, backend`oracle,
               backend`faults, backend`readCount
      ensures Reading() && frames != [] && old(At()) <= At()
      ensures exit.None? ==> h <= At() && high <= last
      ensures last >= old(last)
      ensures exit.Some? ==> exit.value in {BackendFailed, Unserializable}
      ensures backend.faults == old(backend.faults) + if exit.Some? then 1 else 0
      ensures |rounds.left| <= |old(rounds.left)|
      ensures backend.committed >= old(backend.committed) && |backend.script| <= |old(backend.script)|
    {
      hide GapFree, ServicesRight, Honoured, Accounted, NoReset, Standing, Ascending, Page, UpTo, NormalizePage, LastId, IsNext;
      BehindWatermark(backend.log, h, last);
      while last < high
        invariant Reading() && frames != [] && old(At()) <= At() && h <= backend.committed
        invariant last < high <==> At() < h
        invariant last >= old(last) && |rounds.left| <= |old(rounds.left)|
        invariant backend.faults == old(backend.faults)
        invariant backend.committed >= old(backend.committed) && |backend.script| <= |old(backend.script)|
        decreases h - At()
      {
        AwaitBackend();
        var result, c := ReadPage(high);
        if result.None? { return Some(BackendFailed); }
        var page := NormalizePage(result.value);
        NextPage(backend.log, c, h, last, page);
        ghost var p := At();
        exit := YieldPage(page, high, p, h);
        if exit.Some? { return; }
        // `SSE_REPLAY_NO_PROGRESS` is never reached.
        assert At() > p;
        BehindWatermark(backend.log, h, last);
      }
      exit := None;
    }

    method YieldPage(page: seq<TaskEvent>, high: nat, ghost p: nat, ghost h: nat) returns (exit: Option<Exit>)
      requires Reading() && frames != [] && p == At() < h <= backend.committed && high == LastId(backend.log[..h])
      requires page != [] && IsNext(backend.log, p, h, page)
      modifies this`frames, this`last, backend`oracle, backend`faults
      ensures Reading() && frames != [] && old(At()) <= At()
      ensures backend.faults == old(backend.faults) + if exit.Some? then 1 else 0
      ensures last >= old(last)
      ensures exit.None? ==> At() > p
      ensures exit.Some? ==> exit.value == Unserializable
    {
      hide GapFree, ServicesRight, Honoured, Accounted, NoReset, Standing, Ascending;
      for n := 0 to |page|
        invariant Reading() && frames != [] && At() == p + n && backend.committed == old(backend.committed)
        invariant backend.faults == old(backend.faults) && last >= old(last)
      {
        var event := page[n];
        NotBeyond(backend.log, h, last);
        if event.id <= last || event.id > high { continue; }
        var ok := YieldEvent(event);
        if !ok { return Some(Unserializable); }
      }
      exit := None;
    }

    // ----- the live feed -----

    method OthersMove()
      requires Valid()
      modifies backend`committed, backend`sent, backend`liveEnded, backend`service, backend`updates, backend`announced,
               backend`serviceEnded, backend`script
      ensures Valid() && (old(Reading()) ==> Reading()) && backend.committed >= old(backend.committed)
      ensures |backend.script| <= |old(backend.script)|
    {
      hide GapFree, ServicesRight, Honoured, Accounted, NoReset, Standing, Ascending, FeedAfter;
      ghost var before, announced := backend.committed, backend.announced;
      ghost var reading := Reading();
      backend.Wait();
      if reading { StandingGrows(backend.log, last, before, backend.committed); }
      MoreAnnounced(frames, serviceGeneration, announced, backend.announced);
    }

    // `live.next()`; the receiver only moves on.
    method ReceiveLive() returns (item: LiveItem)
      requires Reading()
      modifies backend`position
      ensures Reading() && old(backend.position) <= backend.position
      ensures item.Item? ==> old(backend.position) < |backend.log| && item.event == backend.log[old(backend.position)]
                             && backend.position == old(backend.position) + 1
      ensures item.Lagged? ==> backend.position > old(backend.position)
      ensures item.Closed? || item.NotReady? ==> backend.position == old(backend.position)
      ensures item.Closed? <==> backend.liveEnded
      ensures item.NotReady? ==> backend.position == backend.sent
    {
      hide GapFree, ServicesRight, Honoured, Accounted, NoReset, Standing, Ascending, BeatsOf;
      ghost var before := backend.position;
      item := backend.PollLive();
      HonouredStill(rounds.turns, subscribed, before, liveClosed, serviceGeneration, serviceClosed, BeatsOf(frames),
                    backend.position, liveClosed, serviceGeneration, serviceClosed, BeatsOf(frames));
    }

    method CloseLive()
      requires Reading()
      modifies this`liveClosed
      ensures Reading() && liveClosed
    {
      hide GapFree, ServicesRight, Honoured, Accounted, NoReset, Standing, Ascending, BeatsOf;
      ghost var before := liveClosed;
      liveClosed := true;
      HonouredStill(rounds.turns, subscribed, backend.position, before, serviceGeneration, serviceClosed, BeatsOf(frames),
                    backend.position, liveClosed, serviceGeneration, serviceClosed, BeatsOf(frames));
    }

    // Only what is newer than `last` is buffered.
    method BufferNewer(event: TaskEvent)
      modifies this`buffered
      ensures buffered == if event.id > last then old(buffered)[event.id := event] else old(buffered)
      ensures |buffered| <= |old(buffered)| + 1
    {
      if event.id > last {
        InsertGrows(buffered, event);
        buffered := buffered[event.id := event];
      }
    }

    // `drain_ready_live` on an empty buffer. The 4096-entry exit is never reached: one batch
    // holds at most 256 events.
    method DrainReadyLive() returns (lagged: nat, exhausted: bool)
      requires Reading() && buffered == map[]
      modifies this`buffered, this`liveClosed, backend`committed, backend`sent, backend`position, backend`liveEnded,
               backend`service, backend`updates, backend`announced, backend`serviceEnded, backend`script
      ensures Reading() && |buffered| <= READY_LIVE_BATCH_SIZE
      ensures FromLive(backend.log, buffered, backend.position)
      ensures backend.position >= old(backend.position) && |backend.script| <= |old(backend.script)|
      ensures lagged > 0 || exhausted ==> backend.position > old(backend.position)
      // It ends with nothing ready, or with the end of the feed, or after a whole batch.
      ensures !exhausted ==> liveClosed || backend.position == backend.sent
      ensures exhausted ==> backend.position >= old(backend.position) + READY_LIVE_BATCH_SIZE
      ensures (old(liveClosed) ==> liveClosed) && backend.committed >= old(backend.committed)
      ensures old(backend.position) <= At() && lagged == 0 ==> IsRange(backend.log, buffered, At(), backend.position)
    {
      hide GapFree, ServicesRight, Honoured, Accounted, NoReset, Standing, Ascending, FromLive, IsRange;
      lagged, exhausted := 0, false;
      ghost var start := backend.position;
      EmptyBuffer(backend.log, At(), start);
      for n := 0 to READY_LIVE_BATCH_SIZE
        invariant Reading() && |buffered| <= n && FromLive(backend.log, buffered, backend.position)
        invariant (old(liveClosed) ==> liveClosed) && backend.committed >= old(backend.committed)
        invariant backend.position >= start + n && |backend.script| <= |old(backend.script)|
        invariant lagged > 0 ==> backend.position > start
        invariant start <= At() && lagged == 0 ==> IsRange(backend.log, buffered, At(), backend.position)
      {
        if liveClosed { return; }
        OthersMove();
        ghost var position := backend.position;
        var item := ReceiveLive();
        match item {
          case Item(event) =>
            BufferGrows(backend.log, buffered, last, position, start <= At() && lagged == 0);
            assert |buffered| < MAX_BUFFERED_LIVE_EVENTS;
            BufferNewer(event);
          case Lagged =>
            lagged := lagged + 1;
            FromLiveGrows(backend.log, buffered, position, backend.position);
          case Closed =>
            CloseLive();
            return;
          case NotReady => return;
        }
      }
      exhausted := true;
    }

    // ----- refilling -----

    // The replay of a refill, up to a high watermark read now.
    method ReplayNewest() returns (exit: Option<Exit>)
      requires Reading() && frames != []
      modifies this`frames, this`last, this`serviceGeneration, this`serviceClosed, rounds, backend`committed, backend`sent,
               backend`liveEnded, backend`service, backend`updates, backend`announced, backend`serviceEnded, backend`script, backend`oracle,
               backend`faults, backend`readCount
      ensures Reading() && frames != [] && |backend.script| <= |old(backend.script)|
      ensures exit.Some? ==> exit.value in {BackendFailed, Unserializable}
      ensures backend.faults == old(backend.faults) + if exit.Some? then 1 else 0
      ensures exit.None? ==> old(backend.committed) <= At() && backend.position <= At()
      ensures backend.committed >= old(backend.committed)
      ensures last >= old(last) && |rounds.left| <= |old(rounds.left)|
    {
      hide GapFree, ServicesRight, Honoured, Accounted, NoReset, Standing, Ascending, LastId, PersistedOf, ServicesOf;
      AwaitBackend();
      ghost var before := backend.committed;
      var read, c := ReadLatest();
      if read.None? { return Some(BackendFailed); }
      // The reset is never sent: the reader is not ahead of the store.
      NeverAhead(backend.log, last, before, c);
      assert last <= read.value;
      exit := ReplayTo(read.value, c);
    }

    // One turn of a refill loop. The reset inside it is never sent: the reader is never ahead
    // of the store. Whatever was buffered before is covered by the replay.
    method RefillOnce() returns (exit: Option<Exit>)
      requires Reading() && frames != [] && pendingRefills > 0
      requires FromLive(backend.log, buffered, backend.position)
      modifies this, rounds, backend
      ensures Reading() && frames != [] && |backend.script| <= |old(backend.script)|
      ensures exit.Some? ==> exit.value in {BackendFailed, Unserializable}
      ensures backend.faults == old(backend.faults) + if exit.Some? then 1 else 0
      ensures exit.None? ==> FromLive(backend.log, buffered, backend.position) && |buffered| <= READY_LIVE_BATCH_SIZE
      ensures exit.None? && pendingRefills == 0 ==> IsRange(backend.log, buffered, At(), backend.position)
      ensures last >= old(last) && |rounds.left| <= |old(rounds.left)|
      // Whatever was committed when it began has been sent.
      ensures exit.None? ==> old(backend.committed) <= At() && backend.committed >= old(backend.committed)
      // With no refill left to do, everything that was ready has been received.
      ensures exit.None? && pendingRefills == 0 ==> liveClosed || backend.position == backend.sent
      // Each turn either consumes live items or leaves one refill fewer pending.
      ensures exit.None? ==> backend.position > old(backend.position)
                             || (backend.position == old(backend.position) && pendingRefills < old(pendingRefills))
      ensures backend.position <= |backend.log|
    {
      hide GapFree, ServicesRight, Honoured, Accounted, NoReset, Standing, Ascending, FromLive, IsRange, LastId, PersistedOf, ServicesOf;
      pendingRefills := pendingRefills - 1;
      exit := ReplayNewest();
      if exit.Some? { return; }
      RetainsNothing(backend.log, buffered, backend.position, last);
      buffered := map k | k in buffered && k > last :: buffered[k];
      var lagged, exhausted := DrainReadyLive();
      pendingRefills := pendingRefills + lagged + if exhausted then 1 else 0;
    }

    // What is buffered after the last refill continues the delivered prefix without a gap.
    method Flush() returns (exit: Option<Exit>)
      requires Reading() && frames != [] && IsRange(backend.log, buffered, At(), backend.position)
      modifies this`frames, this`last, this`buffered, backend`oracle, backend`faults
      ensures Reading() && frames != []
      ensures backend.faults == old(backend.faults) + if exit.Some? then 1 else 0
      ensures exit.None? ==> buffered == map[] && backend.position <= At()
      ensures last >= old(last) && At() >= old(At())
      ensures exit.Some? ==> exit.value == Unserializable
    {
      hide GapFree, ServicesRight, Honoured, Accounted, NoReset, Standing, Ascending, IsRange;
      var rest := buffered;
      while rest != map[]
        invariant Reading() && frames != [] && IsRange(backend.log, rest, At(), backend.position)
        invariant backend.faults == old(backend.faults) && last >= old(last) && At() >= old(At())
        decreases |rest|
      {
        var k := SmallestKey(rest.Keys);
        TakesSmallest(backend.log, rest, last, backend.position, k);
        var event := rest[k];
        if event.id > last {
          var ok := YieldEvent(event);
          if !ok { return Some(Unserializable); }
        }
        rest := rest - {k};
      }
      if At() < backend.position { RangeNotEmpty(backend.log, rest, At(), backend.position); }
      buffered := map[];
      exit := None;
    }

    // The refill loop: it ends for any live queue, because each turn consumes live items or a
    // pending refill.
    method RefillAll() returns (exit: Option<Exit>)
      requires Reading() && frames != [] && FromLive(backend.log, buffered, backend.position)
      requires pendingRefills == 0 ==> IsRange(backend.log, buffered, At(), backend.position)
      modifies this, rounds, backend
      ensures Reading() && frames != [] && |backend.script| <= |old(backend.script)|
      ensures exit.None? ==> buffered == map[] && backend.position <= At()
      ensures exit.None? && old(pendingRefills) > 0 ==> old(backend.committed) <= At()
      ensures exit.None? && old(pendingRefills) > 0 ==> liveClosed || backend.position == backend.sent
      ensures last >= old(last) && |rounds.left| <= |old(rounds.left)|
      ensures exit.Some? ==> exit.value in {BackendFailed, Unserializable}
      ensures backend.faults == old(backend.faults) + if exit.Some? then 1 else 0
    {
      hide GapFree, ServicesRight, Honoured, Accounted, NoReset, Standing, Ascending, FromLive, IsRange;
      ghost var committed, refills := backend.committed, pendingRefills;
      while pendingRefills > 0
        invariant Reading() && frames != [] && |backend.script| <= |old(backend.script)|
        invariant FromLive(backend.log, buffered, backend.position)
        invariant pendingRefills == 0 ==> IsRange(backend.log, buffered, At(), backend.position)
        invariant backend.faults == old(backend.faults) && last >= old(last) && backend.committed >= committed
        invariant |rounds.left| <= |old(rounds.left)|
        invariant pendingRefills == refills || committed <= At()
        invariant pendingRefills == 0 && refills > 0 ==> liveClosed || backend.position == backend.sent
        decreases |backend.log| - backend.position, pendingRefills
      {
        exit := RefillOnce();
        if exit.Some? { return; }
      }
      exit := Flush();
    }

    // A `Lagged` item in the steady state.
    method CatchUp() returns (exit: Option<Exit>)
      requires Reading() && frames != []
      modifies this, rounds, backend
      ensures Reading() && frames != [] && |backend.script| <= |old(backend.script)|
      ensures exit.None? ==> buffered == map[] && backend.position <= At() && old(backend.committed) <= At()
      ensures last >= old(last) && |rounds.left| <= |old(rounds.left)|
      ensures exit.Some? ==> exit.value in {BackendFailed, Unserializable}
      ensures backend.faults == old(backend.faults) + if exit.Some? then 1 else 0
    {
      hide GapFree, ServicesRight, Honoured, Accounted, NoReset, Standing, Ascending, FromLive, IsRange;
      buffered := map[];
      var lagged, exhausted := DrainReadyLive();
      pendingRefills := 1 + lagged + if exhausted then 1 else 0;
      exit := RefillAll();
    }

    // ----- the whole stream -----

    // One item of the live feed in the steady state. The receiver moves on if there is something
    // to receive, and what it received has been sent; a lag is repaired up to all that was committed.
    method TakeLive() returns (exit: Option<Exit>)
      requires Sound() && Standing(backend.log, last, backend.committed) && frames != [] && buffered == map[] && backend.position <= At()
      requires rounds.turns != [] && rounds.turns[|rounds.turns| - 1] == LiveTurn(backend.sent, backend.liveEnded)
      requires Served(rounds.turns[..|rounds.turns| - 1]) && Accounted(rounds.all, rounds.left, rounds.turns, backend.readCount)
      modifies this, rounds, backend
      ensures Reading() && frames != [] && last >= old(last) && |rounds.left| <= |old(rounds.left)|
      ensures exit.None? ==> buffered == map[] && backend.position <= At()
      ensures exit.None? && !old(backend.liveEnded) && old(backend.position) < old(backend.sent) ==> old(backend.position) < At()
      ensures exit.None? && old(backend.liveEnded) ==> liveClosed
      ensures exit.Some? ==> exit.value in {BackendFailed, Unserializable}
      ensures backend.faults == old(backend.faults) + if exit.Some? then 1 else 0
    {
      hide GapFree, ServicesRight, Honoured, Accounted, NoReset, Standing, Ascending, PersistedOf, ServicesOf, BeatsOf, Received;
      ghost var position, closed := backend.position, liveClosed;
      ghost var turns, turn := rounds.turns[..|rounds.turns| - 1], rounds.turns[|rounds.turns| - 1];
      var item := backend.PollLive();
      if item.Closed? { liveClosed := true; }
      assert rounds.turns == turns + [turn];
      HonouredMore(turns, turn, subscribed, position, closed, serviceGeneration, serviceClosed, BeatsOf(frames),
                   backend.position, liveClosed, serviceGeneration, serviceClosed, BeatsOf(frames));
      exit := None;
      match item {
        case Item(event) =>
          NextLive(backend.log, last, position);
          if event.id > last {
            var ok := YieldEvent(event);
            if !ok { exit := Some(Unserializable); }
          }
        case Lagged => exit := CatchUp();
        case Closed =>
        case NotReady =>
      }
    }

    // One round of the steady state.
    method SteadyRound() returns (exit: Option<Exit>)
      requires Reading() && frames != [] && buffered == map[] && backend.position <= At() && rounds.left != []
      modifies this, rounds, backend
      ensures Reading() && frames != [] && last >= old(last) && |rounds.left| < |old(rounds.left)|
      ensures exit.None? ==> buffered == map[] && backend.position <= At()
      ensures exit.Some? ==> exit.value in {BackendFailed, Unserializable}
      ensures backend.faults == old(backend.faults) + if exit.Some? then 1 else 0
    {
      hide GapFree, ServicesRight, Honoured, Accounted, NoReset, Standing, Ascending, BeatsOf, TurnUsed;
      ghost var turns, generation, closed, beats := rounds.turns, serviceGeneration, serviceClosed, BeatsOf(frames);
      var turn := Select(false);
      assert rounds.turns[..|turns|] == turns;
      exit := None;
      if turn.LiveTurn? {
        exit := TakeLive();
        return;
      }
      match turn {
        case ServiceTurn(_, _) => TakeService();
        case BeatTurn => Yield(Heartbeat);
        case _ =>
      }
      if !turn.ServiceTurn? { NothingOwed(turn, liveClosed, serviceGeneration, serviceClosed); }
      HonouredMore(turns, turn, subscribed, backend.position, liveClosed, generation, closed, beats,
                   backend.position, liveClosed, serviceGeneration, serviceClosed, BeatsOf(frames));
    }

    method Steady() returns (exit: Exit)
      requires Reading() && frames != [] && buffered == map[] && backend.position <= At()
      modifies this, rounds, backend
      ensures Reading() && exit != ResetAtStart && frames != [] && last >= old(last)
      ensures exit in {BothClosed, StillOpen} ==> backend.position <= At()
      ensures exit == BothClosed ==> liveClosed && serviceClosed
      ensures exit == StillOpen ==> rounds.left == [] && !(liveClosed && serviceClosed)
      ensures exit in {BackendFailed, Unserializable} <==> backend.faults > old(backend.faults)
    {
      hide GapFree, ServicesRight, Honoured, Accounted, NoReset, Standing, Ascending;
      while !(liveClosed && serviceClosed)
        invariant Reading() && frames != [] && buffered == map[] && backend.position <= At()
        invariant backend.faults == old(backend.faults) && last >= old(last)
        decreases |rounds.left|
      {
        if rounds.left == [] { return StillOpen; }
        var stop := SteadyRound();
        if stop.Some? { return stop.value; }
      }
      exit := BothClosed;
    }

    // Replay up to the high watermark, the first drain, the refills, then the steady state.
    method Serve(high: nat, ghost c: nat) returns (exit: Exit)
      requires Reading() && frames != [] && buffered == map[] && pendingRefills == 0
      requires c <= backend.committed && high == LastId(backend.log[..c]) && backend.position <= c
      modifies this, rounds, backend
      ensures Reading() && exit != ResetAtStart && frames != []
      ensures exit in {BothClosed, StillOpen} ==> backend.position <= At() && high <= last
      ensures exit == BothClosed ==> liveClosed && serviceClosed
      ensures exit == StillOpen ==> rounds.left == [] && !(liveClosed && serviceClosed)
      ensures exit in {BackendFailed, Unserializable} <==> backend.faults > old(backend.faults)
    {
      hide GapFree, ServicesRight, Honoured, Accounted, NoReset, Standing, Ascending, FromLive, IsRange, LastId, PersistedOf, ServicesOf;
      var stop := ReplayTo(high, c);
      if stop.Some? { return stop.value; }
      var lagged, exhausted := DrainReadyLive();
      pendingRefills := lagged + if exhausted then 1 else 0;
      stop := RefillAll();
      if stop.Some? { return stop.value; }
      exit := Steady();
    }

    // `connect`. The persisted frames are always the log from `after` on, without gap or
    // duplicate; a reset is sent if and only if the reader is ahead of the store at the start.
    // `Accounted` says that every round so far had its turn, `Served` that every turn was used: a
    // stream that is still open has taken all rounds and sent at least what its live turns could
    // receive, and the client knows the service state.
    method Connect() returns (exit: Exit, ghost high: Option<nat>)
      requires Valid() && frames == [] && rounds.turns == [] && last == after && buffered == map[] && pendingRefills == 0
      modifies this, rounds, backend
      ensures backend.Valid() && GapFree(backend.log, after, last, frames) && Served(rounds.turns)
      ensures exit == ResetAtStart <==> high.Some? && after > high.value
      ensures exit == ResetAtStart ==> PersistedOf(frames) == [] && frames != [] && frames[|frames| - 1] == ResetFrame(high.value)
      ensures exit != ResetAtStart ==> NoReset(frames)
      ensures exit in {BothClosed, StillOpen} ==> Received(subscribed, rounds.turns) <= backend.position <= Pos(backend.log, last)
      ensures exit in {BothClosed, StillOpen} ==> high.Some? && high.value <= last
      ensures exit == BothClosed ==> liveClosed && serviceClosed
      ensures exit == StillOpen ==> rounds.left == [] && !(liveClosed && serviceClosed)
      ensures exit in {BackendFailed, Unserializable} <==> backend.faults > old(backend.faults)
      ensures exit != BackendFailed ==> frames != [] && frames[0].ServiceFrame?
      ensures ServicesRight(frames, serviceGeneration, backend.announced)
      ensures Accounted(rounds.all, rounds.left, rounds.turns, backend.readCount)
    {
      hide GapFree, ServicesRight, Honoured, Accounted, NoReset, Standing, Ascending, FromLive, IsRange;
      hide LastId, PersistedOf, ServicesOf, BeatsOf;
      high := None;
      OthersMove();
      var failed := backend.Fails();
      if failed { return BackendFailed, high; }
      Announce();
      AwaitBackend();
      var read, c := ReadLatest();
      if read.None? { return BackendFailed, high; }
      high := read;
      if after > read.value {
        ResetStream(read.value);
        exit := ResetAtStart;
      } else {
        StartsInside(backend.log, after, c, backend.committed);
        exit := Serve(read.value, c);
        ReceivedEnough(rounds.turns, subscribed, backend.position, liveClosed, serviceGeneration, serviceClosed, BeatsOf(frames));
      }
      ServiceComesFirst(frames, serviceGeneration, backend.announced);
    }

    // The first frame: the present service state.
    method Announce()
      requires Valid() && frames == [] && rounds.turns == []
      modifies this`frames, this`serviceGeneration
      ensures Valid() && frames == [ServiceFrame(backend.service)]
    {
      Yield(ServiceFrame(backend.service));
    }

    method ResetStream(high: nat)
      requires Valid() && last == after && frames != []
      modifies this`frames
      ensures backend.Valid() && GapFree(backend.log, after, last, frames) && Served(rounds.turns)
      ensures ServicesRight(frames, serviceGeneration, backend.announced)
      ensures frames == old(frames) + [ResetFrame(high)] && PersistedOf(frames) == []
      ensures Accounted(rounds.all, rounds.left, rounds.turns, backend.readCount)
    {
      hide GapFree, ServicesRight, Honoured, Accounted, NoReset, Ascending, PersistedOf, ServicesOf, BeatsOf;
      NothingYet(backend.log, after, frames, high);
      OneMoreFrame(frames, ResetFrame(high));
      OtherFrame(frames, serviceGeneration, backend.announced, ResetFrame(high));
      frames := frames + [ResetFrame(high)];
    }
  }

  lemma NextLive(log: seq<TaskEvent>, last: nat, position: nat)
    requires Ascending(log) && position < |log| && position <= Pos(log, last)
    ensures log[position].id > last <==> position == Pos(log, last)
  {
    PosSplits(log, last);
  }

  lemma NothingYet(log: seq<TaskEvent>, after: nat, frames: seq<Frame>, high: nat)
    requires GapFree(log, after, after, frames)
    ensures PersistedOf(frames) == []
    ensures GapFree(log, after, after, frames + [ResetFrame(high)]) && PersistedOf(frames + [ResetFrame(high)]) == []
    ensures ServicesOf(frames + [ResetFrame(high)]) == ServicesOf(frames)
  {
    OneMoreFrame(frames, ResetFrame(high));
  }

  lemma StartsInside(log: seq<TaskEvent>, after: nat, c: nat, committed: nat)
    requires Ascending(log) && c <= committed <= |log| && after <= LastId(log[..c])
    ensures Standing(log, after, committed)
  {
    PosOfPrefix(log, c);
    PosMonotone(log, after, LastId(log[..c]));
    LastIdGrows(log, c, committed);
  }

  method SmallestKey(keys: set<nat>) returns (k: nat)
    requires keys != {}
    ensures k in keys && forall j | j in keys :: k <= j
  {
    k :| k in keys;
    var rest := keys - {k};
    while rest != {}
      invariant rest <= keys && k in keys && forall j | j in keys && j !in rest :: k <= j
    {
      var j :| j in rest;
      if j < k { k := j; }
      rest := rest - {j};
    }
  }

  lemma EmptyBuffer(log: seq<TaskEvent>, p: nat, position: nat)
    ensures FromLive(log, map[], position) && (position <= p ==> IsRange(log, map[], p, position))
  {
  }

  lemma InsertGrows(buffered: map<nat, TaskEvent>, event: TaskEvent)
    ensures |buffered[event.id := event]| <= |buffered| + 1
  {
    if event.id in buffered { assert buffered[event.id := event].Keys == buffered.Keys; }
    var after := buffered[event.id := event];
    assert after.Keys == buffered.Keys + {event.id};
    assert |after| == |after.Keys| && |buffered| == |buffered.Keys|;
  }

  lemma RemoveShrinks(buffered: map<nat, TaskEvent>, k: nat)
    requires k in buffered
    ensures |buffered - {k}| < |buffered|
  {
    assert (buffered - {k}).Keys == buffered.Keys - {k};
    assert |buffered - {k}| == |(buffered - {k}).Keys| && |buffered| == |buffered.Keys|;
  }

  lemma TakesSmallest(log: seq<TaskEvent>, buffered: map<nat, TaskEvent>, last: nat, position: nat, k: nat)
    requires Ascending(log) && IsRange(log, buffered, Pos(log, last), position) && k in buffered
    requires forall j | j in buffered :: k <= j
    ensures var p := Pos(log, last);
            p < position && p < |log| && k == log[p].id && buffered[k] == log[p] && k > last
            && IsRange(log, buffered - {k}, p + 1, position)
    ensures |buffered - {k}| < |buffered|
  {
    hide IsRange, Ascending, Pos;
    FirstOfRange(log, buffered, last, position, k);
    StepsInRange(log, buffered, Pos(log, last), position);
    RemoveShrinks(buffered, k);
  }

  // The live receiver passes one more event; if it is newer than `last` it is buffered.
  lemma BufferGrows(log: seq<TaskEvent>, buffered: map<nat, TaskEvent>, last: nat, position: nat, contiguous: bool)
    requires Ascending(log) && position < |log| && FromLive(log, buffered, position)
    requires contiguous ==> IsRange(log, buffered, Pos(log, last), position)
    ensures var event := log[position];
            var after := if event.id > last then buffered[event.id := event] else buffered;
            FromLive(log, after, position + 1) && (contiguous ==> IsRange(log, after, Pos(log, last), position + 1))
  {
    PosSplits(log, last);
    var event := log[position];
    var after := if event.id > last then buffered[event.id := event] else buffered;
    assert event.id > last <==> position >= Pos(log, last);
    hide Pos;
    forall k | k in after ensures exists i :: 0 <= i < position + 1 && i < |log| && log[i].id == k {
      if k != event.id { assert k in buffered; }
    }
    if contiguous { RangeGrows(log, buffered, Pos(log, last), position); }
  }

  lemma RangeGrows(log: seq<TaskEvent>, buffered: map<nat, TaskEvent>, p: nat, position: nat)
    requires Ascending(log) && position < |log| && IsRange(log, buffered, p, position)
    ensures position >= p ==> IsRange(log, buffered[log[position].id := log[position]], p, position + 1)
    ensures position < p ==> IsRange(log, buffered, p, position + 1)
  {
    if position >= p {
      var after := buffered[log[position].id := log[position]];
      forall k | k in after ensures exists i :: p <= i < position + 1 && i < |log| && log[i].id == k {
        if k != log[position].id { assert k in buffered; }
      }
    }
  }

  lemma FromLiveGrows(log: seq<TaskEvent>, buffered: map<nat, TaskEvent>, a: nat, b: nat)
    requires FromLive(log, buffered, a) && a <= b
    ensures FromLive(log, buffered, b)
  {
    forall k | k in buffered ensures exists i :: 0 <= i < b && i < |log| && log[i].id == k {
      var i :| 0 <= i < a && i < |log| && log[i].id == k;
    }
  }

  lemma NeverAhead(log: seq<TaskEvent>, last: nat, committed: nat, c: nat)
    requires Ascending(log) && committed <= c <= |log| && Standing(log, last, committed)
    ensures last <= LastId(log[..c])
  {
    StandingGrows(log, last, committed, c);
  }

  // Once the replay has passed the live receiver, nothing it received is newer than `last`.
  lemma RetainsNothing(log: seq<TaskEvent>, buffered: map<nat, TaskEvent>, position: nat, last: nat)
    requires Ascending(log) && FromLive(log, buffered, position) && position <= Pos(log, last)
    ensures (map k | k in buffered && k > last :: buffered[k]) == map[]
  {
    PosSplits(log, last);
    forall k | k in buffered ensures k <= last {
      var i :| 0 <= i < position && i < |log| && log[i].id == k;
    }
  }

  lemma FirstOfRange(log: seq<TaskEvent>, buffered: map<nat, TaskEvent>, last: nat, position: nat, k: nat)
    requires Ascending(log) && IsRange(log, buffered, Pos(log, last), position) && k in buffered
    requires forall j | j in buffered :: k <= j
    ensures var p := Pos(log, last);
            p < position && p < |log| && k == log[p].id && buffered[k] == log[p] && k > last
  {
    hide Pos;
    PosSplits(log, last);
    var p := Pos(log, last);
    var i :| p <= i < position && i < |log| && log[i].id == k;
    assert log[p].id in buffered;
    assert log[p].id <= log[i].id;
  }

  lemma StepsInRange(log: seq<TaskEvent>, buffered: map<nat, TaskEvent>, p: nat, position: nat)
    requires Ascending(log) && IsRange(log, buffered, p, position) && p < position && p < |log|
    ensures IsRange(log, buffered - {log[p].id}, p + 1, position)
  {
    var after := buffered - {log[p].id};
    forall k | k in after ensures exists i :: p + 1 <= i < position && i < |log| && log[i].id == k {
      assert k in buffered;
      var i :| p <= i < position && i < |log| && log[i].id == k;
    }
  }

  lemma RangeNotEmpty(log: seq<TaskEvent>, buffered: map<nat, TaskEvent>, p: nat, position: nat)
    requires IsRange(log, buffered, p, position) && p < position <= |log|
    ensures buffered != map[]
  {
    assert log[p].id in buffered;
  }

  lemma StandingGrows(log: seq<TaskEvent>, last: int, a: nat, b: nat)
    requires Ascending(log) && a <= b <= |log| && Standing(log, last, a)
    ensures Standing(log, last, b)
  {
    LastIdGrows(log, a, b);
  }

  // A reader is behind a watermark exactly when it has not seen the event the watermark names.
  lemma BehindWatermark(log: seq<TaskEvent>, h: nat, last: nat)
    requires Ascending(log) && h <= |log|
    ensures last < LastId(log[..h]) <==> Pos(log, last) < h
  {
    PosSplits(log, last);
    if h > 0 { assert LastId(log[..h]) == log[h - 1].id; }
  }

  lemma NotBeyond(log: seq<TaskEvent>, h: nat, last: int)
    requires Ascending(log) && Pos(log, last) < h <= |log|
    ensures last < log[Pos(log, last)].id <= LastId(log[..h])
  {
    PosSplits(log, last);
    assert LastId(log[..h]) == log[h - 1].id;
  }

  lemma NextEvent(log: seq<TaskEvent>, after: int, last: int, committed: nat)
    requires Ascending(log) && after <= last && Pos(log, last) < committed <= |log|
    ensures var event := log[Pos(log, last)];
            && Between(log, after, event.id) == Between(log, after, last) + [event]
            && last < event.id && Pos(log, event.id) == Pos(log, last) + 1 && Standing(log, event.id, committed)
  {
    hide Pos, Ascending, LastId;
    var p := Pos(log, last);
    PosSplits(log, last);
    EventPos(log, p);
    PosMonotone(log, after, last);
    SliceGrows(log, Pos(log, after), p);
    EventInside(log, p, committed);
  }

  lemma EventInside(log: seq<TaskEvent>, p: nat, committed: nat)
    requires Ascending(log) && p < committed <= |log|
    ensures log[p].id <= LastId(log[..committed])
  {
    assert LastId(log[..committed]) == log[committed - 1].id;
  }
}
