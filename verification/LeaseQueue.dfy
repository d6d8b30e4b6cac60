/**
 The durable queue of plugin content changes: rows leased to workers until a deadline, deleted when
 acknowledged, released for a later attempt when delivery fails.
 */
module LeaseQueue {
  import opened Options

  /** `claimedUntil` is absent while nobody holds the row. */
  datatype Row = Row(payload: string, available: int, claimedUntil: Option<int>, attempts: nat)

  type Rows = map<nat, Row>

  /** A claimed row as the worker received it. */
  datatype Item = Item(id: nat, payload: string, attempts: nat)

  predicate Ready(row: Row, now: int) {
    row.available <= now && (row.claimedUntil.None? || row.claimedUntil.value < now)
  }

  /** One new row per payload, under consecutive ids, all available at once. */
  function Queued(rows: Rows, first: nat, payloads: seq<string>, now: int): Rows
    decreases |payloads|
  {
    if payloads == [] then rows else Queued(rows[first := Row(payloads[0], now, None, 0)], first + 1, payloads[1..], now)
  }

  lemma {:induction false} QueuedAt(rows: Rows, first: nat, payloads: seq<string>, now: int, id: nat)
    ensures id in Queued(rows, first, payloads, now) <==> id in rows || first <= id < first + |payloads|
    ensures first <= id < first + |payloads| ==> Queued(rows, first, payloads, now)[id] == Row(payloads[id - first], now, None, 0)
    ensures id in rows && !(first <= id < first + |payloads|) ==> Queued(rows, first, payloads, now)[id] == rows[id]
    decreases |payloads|
  {
    if payloads != [] {
      QueuedAt(rows[first := Row(payloads[0], now, None, 0)], first + 1, payloads[1..], now, id);
    }
  }

  function Leased(rows: Rows, ids: seq<nat>, until: int): Rows {
    map id | id in rows :: if id in ids then rows[id].(claimedUntil := Some(until), attempts := rows[id].attempts + 1) else rows[id]
  }

  function Released(rows: Rows, id: nat, at: int): Rows {
    if id in rows then rows[id := rows[id].(available := at, claimedUntil := None)] else rows
  }

  function Completed(rows: Rows, id: nat): Rows {
    rows - {id}
  }

  /** Rows that one claim may take. */
  ghost predicate Claimable(rows: Rows, ids: seq<nat>, now: int, limit: int) {
    && (forall k :: 0 <= k < |ids| ==> ids[k] in rows && Ready(rows[ids[k]], now))
    && (forall j, k :: 0 <= j < k < |ids| ==> ids[j] != ids[k])
    && (ids == [] || |ids| <= limit)
  }

  function Items(rows: Rows, ids: seq<nat>): (r: seq<Item>)
    requires forall k :: 0 <= k < |ids| ==> ids[k] in rows
    ensures |r| == |ids|
    ensures forall k :: 0 <= k < |ids| ==> r[k] == Item(ids[k], rows[ids[k]].payload, rows[ids[k]].attempts)
  {
    seq(|ids|, k requires 0 <= k < |ids| => Item(ids[k], rows[ids[k]].payload, rows[ids[k]].attempts))
  }

  predicate IsFree(rows: Rows, picked: seq<nat>, now: int, id: nat) {
    id in rows && Ready(rows[id], now) && id !in picked
  }

  predicate IsLowest(rows: Rows, picked: seq<nat>, now: int, id: nat) {
    IsFree(rows, picked, now, id) && forall other :: other in rows && IsFree(rows, picked, now, other) ==> id <= other
  }

  lemma {:induction false} SomeLowest(rows: Rows, picked: seq<nat>, now: int, id: nat)
    requires IsFree(rows, picked, now, id)
    ensures exists lowest :: lowest in rows && IsLowest(rows, picked, now, lowest)
    decreases id
  {
    if other :| other in rows && IsFree(rows, picked, now, other) && other < id {
      SomeLowest(rows, picked, now, other);
    } else {
      assert id in rows && IsLowest(rows, picked, now, id);
    }
  }

  lemma PickLowest(rows: Rows, picked: seq<nat>, now: int, limit: int, id: nat)
    requires Claimable(rows, picked, now, limit) && |picked| < limit && IsLowest(rows, picked, now, id) && Oldest(rows, picked, now)
    ensures Claimable(rows, picked + [id], now, limit) && Oldest(rows, picked + [id], now)
  {
    hide Ready;
    assert forall other :: IsFree(rows, picked + [id], now, other) ==> IsFree(rows, picked, now, other) && other != id;
  }

  lemma NothingPicked(rows: Rows, now: int, limit: int)
    ensures Claimable(rows, [], now, limit) && Oldest(rows, [], now)
  {
  }

  lemma PickedAll(rows: Rows, picked: seq<nat>, now: int, limit: int)
    requires Claimable(rows, picked, now, limit) && Oldest(rows, picked, now)
    ensures forall k :: 0 <= k < |picked| ==> picked[k] in rows
    ensures forall id :: id in rows && Ready(rows[id], now) && id !in picked ==> forall k :: 0 <= k < |picked| ==> picked[k] < id
    ensures (forall id :: id in rows ==> !IsFree(rows, picked, now, id)) ==> forall id :: id in rows && Ready(rows[id], now) ==> id in picked
  {
    hide Ready;
    assert forall id :: id in rows && Ready(rows[id], now) && id !in picked ==> IsFree(rows, picked, now, id);
  }

  /** The rows picked are older than those that were left. */
  ghost predicate Oldest(rows: Rows, picked: seq<nat>, now: int) {
    forall id :: IsFree(rows, picked, now, id) ==> forall k :: 0 <= k < |picked| ==> picked[k] < id
  }

  class Queue {
    var rows: Rows
    var nextId: nat

    ghost predicate Valid()
      reads this
    {
      forall id :: id in rows ==> id < nextId
    }

    constructor ()
      ensures Valid() && rows == map[] && nextId == 0
    {
      rows, nextId := map[], 0;
    }

    /** Inserts one row per change, all available at once. */
    method Enqueue(payloads: seq<string>, now: int)
      requires Valid()
      modifies this
      ensures Valid() && nextId == old(nextId) + |payloads| && rows == Queued(old(rows), old(nextId), payloads, now)
    {
      var n := 0;
      assert payloads[0..] == payloads;
      while n < |payloads|
        invariant 0 <= n <= |payloads| && Valid() && nextId == old(nextId) + n
        invariant Queued(rows, nextId, payloads[n..], now) == Queued(old(rows), old(nextId), payloads, now)
      {
        assert payloads[n..][1..] == payloads[n + 1..];
        rows := rows[nextId := Row(payloads[n], now, None, 0)];
        nextId := nextId + 1;
        n := n + 1;
      }
    }

    /** Leases up to `limit` ready rows, the oldest first, fewer only when no more are ready. */
    method Claim(now: int, limit: int, lease: int) returns (items: seq<Item>, ghost ids: seq<nat>)
      requires Valid()
      modifies this`rows
      ensures Valid() && Claimable(old(rows), ids, now, limit) && rows == Leased(old(rows), ids, now + lease)
      ensures items == Items(rows, ids)
      ensures |ids| < limit ==> forall id :: id in old(rows) && Ready(old(rows)[id], now) ==> id in ids
      ensures forall id :: id in old(rows) && Ready(old(rows)[id], now) && id !in ids ==> forall k :: 0 <= k < |ids| ==> ids[k] < id
    {
      hide Ready, Claimable, Oldest, IsLowest, IsFree;
      var picked: seq<nat> := [];
      NothingPicked(rows, now, limit);
      while |picked| < limit && exists id :: id in rows && IsFree(rows, picked, now, id)
        invariant rows == old(rows) && nextId == old(nextId) && Claimable(rows, picked, now, limit) && Oldest(rows, picked, now)
        decreases limit - |picked|
      {
        ghost var some :| some in rows && IsFree(rows, picked, now, some);
        SomeLowest(rows, picked, now, some);
        var id :| id in rows && IsLowest(rows, picked, now, id);
        PickLowest(rows, picked, now, limit, id);
        picked := picked + [id];
      }
      PickedAll(rows, picked, now, limit);
      rows := map id | id in rows :: if id in picked then rows[id].(claimedUntil := Some(now + lease), attempts := rows[id].attempts + 1) else rows[id];
      ids := picked;
      items := Items(rows, picked);
    }

    method Complete(id: nat)
      requires Valid()
      modifies this`rows
      ensures Valid() && rows == Completed(old(rows), id)
    {
      rows := rows - {id};
    }

    method Retry(id: nat, at: int)
      requires Valid()
      modifies this`rows
      ensures Valid() && rows == Released(old(rows), id, at)
      ensures rows.Keys == old(rows).Keys && forall i :: i in rows ==> ScheduledRow(old(rows)[i], rows[i], i == id, at)
    {
      if id in rows {
        rows := rows[id := rows[id].(available := at, claimedUntil := None)];
      }
    }
  }

  /** A failed delivery is put off until `at` and free again; other rows stay as they are. */
  predicate ScheduledRow(before: Row, after: Row, failed: bool, at: int) {
    && after.payload == before.payload && after.attempts == before.attempts
    && (if failed then after.available == at && after.claimedUntil.None?
        else after.available == before.available && after.claimedUntil == before.claimedUntil)
  }

  /** Acknowledges a delivered event, or schedules it for a later attempt. */
  method ProcessOne(queue: Queue, item: Item, delivered: bool, at: int)
    requires queue.Valid()
    modifies queue
    ensures queue.Valid() && queue.nextId == old(queue.nextId)
    ensures queue.rows == if delivered then Completed(old(queue.rows), item.id) else Released(old(queue.rows), item.id, at)
    ensures delivered ==> item.id !in queue.rows && forall i :: i in old(queue.rows) && i != item.id ==> i in queue.rows && queue.rows[i] == old(queue.rows)[i]
    ensures !delivered ==> queue.rows.Keys == old(queue.rows).Keys && forall i :: i in queue.rows ==> ScheduledRow(old(queue.rows)[i], queue.rows[i], i == item.id, at)
  {
    if !delivered {
      queue.Retry(item.id, at);
      return;
    }
    queue.Complete(item.id);
  }

  // ---- workers

  /** What a worker is doing with the first of its items. */
  datatype Phase = Waiting | Delivering | Delivered | Failed

  datatype Worker = Worker(items: seq<Item>, phase: Phase, lease: int)

  /** `sent` holds every payload enqueued, at its id; `delivered` the ids some hook accepted. */
  datatype System = System(rows: Rows, sent: seq<string>, workers: map<nat, Worker>, now: int, delivered: set<nat>)

  /**
   One step of the system. `Drop` is a worker whose acknowledgement or retry call failed, `Crash`
   one that forgets everything it had claimed.
   */
  datatype Event =
    | Enqueue(payloads: seq<string>)
    | Claim(worker: nat, ids: seq<nat>, limit: int, lease: int)
    | Deliver(worker: nat)
    | Succeed(worker: nat)
    | Fail(worker: nat)
    | Acknowledge(worker: nat)
    | Retry(worker: nat, at: int)
    | Drop(worker: nat)
    | Crash(worker: nat)
    | Tick(elapsed: int)

  function Start(now: int): System {
    System(map[], [], map[], now, {})
  }

  function WorkerAt(s: System, w: nat): Worker {
    if w in s.workers then s.workers[w] else Worker([], Waiting, 0)
  }

  ghost predicate Enabled(s: System, e: Event) {
    match e
    case Enqueue(_) => true
    case Claim(w, ids, limit, _) => WorkerAt(s, w).items == [] && Claimable(s.rows, ids, s.now, limit)
    case Deliver(w) => WorkerAt(s, w).items != [] && WorkerAt(s, w).phase.Waiting?
    case Succeed(w) => WorkerAt(s, w).items != [] && WorkerAt(s, w).phase.Delivering?
    case Fail(w) => WorkerAt(s, w).items != [] && WorkerAt(s, w).phase.Delivering?
    case Acknowledge(w) => WorkerAt(s, w).items != [] && WorkerAt(s, w).phase.Delivered?
    case Retry(w, _) => WorkerAt(s, w).items != [] && WorkerAt(s, w).phase.Failed?
    case Drop(w) => WorkerAt(s, w).items != [] && (WorkerAt(s, w).phase.Delivered? || WorkerAt(s, w).phase.Failed?)
    case Crash(_) => true
    case Tick(_) => true
  }

  function Turn(s: System, w: nat, phase: Phase): System {
    s.(workers := s.workers[w := WorkerAt(s, w).(phase := phase)])
  }

  /** The worker goes on to its next item. */
  function Pop(s: System, w: nat): System
    requires WorkerAt(s, w).items != []
  {
    s.(workers := s.workers[w := WorkerAt(s, w).(items := WorkerAt(s, w).items[1..], phase := Waiting)])
  }

  ghost function Effect(s: System, e: Event): System
    requires Enabled(s, e)
  {
    match e
    case Enqueue(payloads) => s.(rows := Queued(s.rows, |s.sent|, payloads, s.now), sent := s.sent + payloads)
    case Claim(w, ids, _, lease) =>
      var rows := Leased(s.rows, ids, s.now + lease);
      s.(rows := rows, workers := s.workers[w := Worker(Items(rows, ids), Waiting, s.now + lease)])
    case Deliver(w) => Turn(s, w, Delivering)
    case Succeed(w) => Turn(s, w, Delivered).(delivered := s.delivered + {WorkerAt(s, w).items[0].id})
    case Fail(w) => Turn(s, w, Failed)
    case Acknowledge(w) => Pop(s, w).(rows := Completed(s.rows, WorkerAt(s, w).items[0].id))
    case Retry(w, at) => Pop(s, w).(rows := Released(s.rows, WorkerAt(s, w).items[0].id, at))
    case Drop(w) => Pop(s, w)
    case Crash(w) => s.(workers := s.workers - {w})
    case Tick(elapsed) => s.(now := s.now + elapsed)
  }

  /** Events that are not enabled do not happen. */
  ghost function Next(s: System, e: Event): System {
    if Enabled(s, e) then Effect(s, e) else s
  }

  ghost function Run(s: System, events: seq<Event>): System
    decreases |events|
  {
    if events == [] then s else Next(Run(s, events[..|events| - 1]), events[|events| - 1])
  }

  // ---- no event is lost

  /** Rows are events that were sent, and an acknowledgement is only due for an accepted event. */
  ghost predicate Honest(s: System) {
    && (forall id :: id in s.rows ==> id < |s.sent| && s.rows[id].payload == s.sent[id])
    && (forall id :: 0 <= id < |s.sent| && id !in s.rows ==> id in s.delivered)
    && (forall w :: w in s.workers ==> HonestWorker(s, s.workers[w]))
  }

  ghost predicate HonestWorker(s: System, w: Worker) {
    && (forall k :: 0 <= k < |w.items| ==> w.items[k].id < |s.sent| && w.items[k].payload == s.sent[w.items[k].id])
    && (w.items != [] && w.phase.Delivered? ==> w.items[0].id in s.delivered)
  }

  lemma HonestEnqueue(s: System, payloads: seq<string>)
    requires Honest(s)
    ensures Honest(Effect(s, Enqueue(payloads)))
  {
    hide Queued;
    var s' := Effect(s, Enqueue(payloads));
    forall id: nat
      ensures id in s'.rows ==> id < |s'.sent| && s'.rows[id].payload == s'.sent[id]
      ensures id < |s'.sent| && id !in s'.rows ==> id in s'.delivered
    {
      QueuedAt(s.rows, |s.sent|, payloads, s.now, id);
    }
  }

  lemma HonestClaim(s: System, e: Event)
    requires Honest(s) && e.Claim? && Enabled(s, e)
    ensures Honest(Effect(s, e))
  {
    var rows := Leased(s.rows, e.ids, s.now + e.lease);
    forall k | 0 <= k < |e.ids|
      ensures e.ids[k] in rows && rows[e.ids[k]].payload == s.sent[e.ids[k]]
    {
    }
  }

  lemma HonestNext(s: System, e: Event)
    requires Honest(s)
    ensures Honest(Next(s, e))
  {
    hide Queued, Leased;
    if e.Enqueue? {
      HonestEnqueue(s, e.payloads);
    }
    if e.Claim? && Enabled(s, e) {
      HonestClaim(s, e);
    }
  }

  /** Every event ever sent is still queued with its payload, or a hook accepted it. */
  lemma {:induction false} NothingLost(now: int, events: seq<Event>)
    ensures Honest(Run(Start(now), events))
    ensures var s := Run(Start(now), events);
      forall id :: 0 <= id < |s.sent| ==> (id in s.rows && s.rows[id].payload == s.sent[id]) || id in s.delivered
    decreases |events|
  {
    hide Next;
    if events != [] {
      NothingLost(now, events[..|events| - 1]);
      HonestNext(Run(Start(now), events[..|events| - 1]), events[|events| - 1]);
    }
  }

  /** Rows change only by the statements of the queue, with the system's clock and the worker's first item. */
  lemma StepsAreStatements(s: System, e: Event)
    requires Enabled(s, e)
    ensures var rows := Next(s, e).rows;
      match e
      case Enqueue(payloads) => rows == Queued(s.rows, |s.sent|, payloads, s.now)
      case Claim(w, ids, _, lease) => rows == Leased(s.rows, ids, s.now + lease) && Next(s, e).workers[w].items == Items(rows, ids)
      case Acknowledge(w) => rows == Completed(s.rows, WorkerAt(s, w).items[0].id)
      case Retry(w, at) => rows == Released(s.rows, WorkerAt(s, w).items[0].id, at)
      case _ => rows == s.rows
  {
    hide Queued;
  }

  /** A row leaves the queue only when a worker acknowledges it, and then some hook has accepted the event. */
  lemma OnlyAcceptedLeave(now: int, events: seq<Event>, e: Event, id: nat)
    requires var s := Run(Start(now), events); id in s.rows && id !in Next(s, e).rows
    ensures var s := Run(Start(now), events);
      e.Acknowledge? && id in s.delivered && WorkerAt(s, e.worker).items != [] && WorkerAt(s, e.worker).items[0].id == id
  {
    hide Run, Queued;
    NothingLost(now, events);
    var s := Run(Start(now), events);
    if e.Enqueue? {
      QueuedAt(s.rows, |s.sent|, e.payloads, s.now, id);
    }
  }

  // ---- attempts count claims

  ghost predicate Claims(s: System, e: Event, id: nat) {
    e.Claim? && Enabled(s, e) && id in e.ids
  }

  /** How many events of a run claimed a row. */
  ghost function ClaimCount(s: System, events: seq<Event>, id: nat): nat
    decreases |events|
  {
    if events == [] then 0 else
    var past := events[..|events| - 1];
    ClaimCount(s, past, id) + if Claims(Run(s, past), events[|events| - 1], id) then 1 else 0
  }

  lemma AttemptsNext(s: System, e: Event, id: nat)
    requires id in Next(s, e).rows && Honest(s)
    ensures id in s.rows ==> Next(s, e).rows[id].attempts == s.rows[id].attempts + if Claims(s, e, id) then 1 else 0
    ensures id !in s.rows ==> Next(s, e).rows[id].attempts == 0 && id >= |s.sent| && !Claims(s, e, id)
  {
    hide Queued;
    if e.Enqueue? {
      QueuedAt(s.rows, |s.sent|, e.payloads, s.now, id);
    }
  }

  lemma SentGrows(s: System, e: Event)
    ensures s.sent <= Next(s, e).sent
  {
    hide Queued, Leased;
  }

  /** An event that was not sent yet cannot have been claimed. */
  lemma {:induction false} NoEarlyClaims(now: int, events: seq<Event>, id: nat)
    requires id >= |Run(Start(now), events).sent|
    ensures ClaimCount(Start(now), events, id) == 0
    decreases |events|
  {
    hide Next;
    if events != [] {
      var past, e := events[..|events| - 1], events[|events| - 1];
      var s := Run(Start(now), past);
      NothingLost(now, past);
      SentGrows(s, e);
      NoEarlyClaims(now, past, id);
    }
  }

  /** A queued event's attempts are exactly the times it was claimed. */
  lemma {:induction false} AttemptsAreClaims(now: int, events: seq<Event>, id: nat)
    requires id in Run(Start(now), events).rows
    ensures Run(Start(now), events).rows[id].attempts == ClaimCount(Start(now), events, id)
    decreases |events|
  {
    hide Next, Enabled;
    if events != [] {
      var past, e := events[..|events| - 1], events[|events| - 1];
      var s := Run(Start(now), past);
      NothingLost(now, past);
      AttemptsNext(s, e, id);
      if id in s.rows {
        AttemptsAreClaims(now, past, id);
      } else {
        NoEarlyClaims(now, past, id);
      }
    }
  }

  // ---- one worker at a time

  ghost predicate Holds(s: System, w: nat, id: nat) {
    w in s.workers && exists k :: 0 <= k < |s.workers[w].items| && s.workers[w].items[k].id == id
  }

  /** Every worker that still holds items is within its own lease. */
  ghost predicate Timely(s: System) {
    forall w :: w in s.workers && s.workers[w].items != [] ==> s.now <= s.workers[w].lease
  }

  ghost predicate TimelyRun(s: System, events: seq<Event>)
    decreases |events|
  {
    Timely(Run(s, events)) && (events == [] || TimelyRun(s, events[..|events| - 1]))
  }

  ghost predicate HoldsAt(s: System, w: nat, k: nat, id: nat) {
    w in s.workers && k < |s.workers[w].items| && s.workers[w].items[k].id == id
  }

  ghost predicate LeasedTo(s: System, w: nat, id: nat) {
    w in s.workers && id in s.rows && s.rows[id].claimedUntil == Some(s.workers[w].lease)
  }

  /** An event is held once at most, by the worker its row is leased to. */
  ghost predicate OneHolder(s: System, id: nat) {
    && (forall w, k :: HoldsAt(s, w, k, id) ==> LeasedTo(s, w, id))
    && (forall v, j, w, k :: HoldsAt(s, v, j, id) && HoldsAt(s, w, k, id) ==> v == w && j == k)
  }

  /** No two workers hold the event. */
  ghost predicate Unshared(s: System, id: nat) {
    forall v, w :: Holds(s, v, id) && Holds(s, w, id) ==> v == w
  }

  /** A worker claims an event that another one still holds past its lease. */
  ghost predicate LateClaim(s: System, e: Event, id: nat) {
    && e.Claim? && Enabled(s, e) && id in e.ids
    && exists w :: w != e.worker && Holds(s, w, id) && s.workers[w].lease < s.now
  }

  lemma LeasedKeys(rows: Rows, ids: seq<nat>, until: int)
    ensures Leased(rows, ids, until).Keys == rows.Keys
  {
  }

  lemma LeasedRow(rows: Rows, ids: seq<nat>, until: int, id: nat)
    requires id in rows
    ensures id in Leased(rows, ids, until)
    ensures Leased(rows, ids, until)[id].claimedUntil == if id in ids then Some(until) else rows[id].claimedUntil
  {
  }

  lemma OneClaim(s: System, e: Event, id: nat)
    requires OneHolder(s, id) && e.Claim? && Enabled(s, e) && !LateClaim(s, e, id)
    ensures OneHolder(Effect(s, e), id)
  {
    hide Leased, LateClaim;
    var s' := Effect(s, e);
    if id in e.ids {
      NobodyElse(s, e, id);
    }
    if id in s.rows {
      LeasedRow(s.rows, e.ids, s.now + e.lease, id);
    }
    LeasedKeys(s.rows, e.ids, s.now + e.lease);
    forall w, k: nat | HoldsAt(s', w, k, id)
      ensures LeasedTo(s', w, id)
      ensures if w == e.worker then id == e.ids[k] else HoldsAt(s, w, k, id) && id !in e.ids
    {
      if w != e.worker {
        assert HoldsAt(s, w, k, id);
        assert Holds(s, w, id);
      }
    }
  }

  /** A ready row is held by nobody whose lease would still run. */
  lemma NobodyElse(s: System, e: Event, id: nat)
    requires OneHolder(s, id) && e.Claim? && Enabled(s, e) && !LateClaim(s, e, id) && id in e.ids
    ensures forall w :: w != e.worker ==> !Holds(s, w, id)
  {
    forall w | Holds(s, w, id)
      ensures s.workers[w].lease < s.now
    {
      var k: nat :| k < |s.workers[w].items| && s.workers[w].items[k].id == id;
      assert HoldsAt(s, w, k, id);
      assert LeasedTo(s, w, id);
    }
  }

  /** A worker goes on to its next item; other rows than that of the first one stay. */
  lemma OnePop(s: System, w: nat, rows: Rows, id: nat)
    requires OneHolder(s, id) && WorkerAt(s, w).items != []
    requires id != WorkerAt(s, w).items[0].id && id in s.rows ==> id in rows && rows[id] == s.rows[id]
    ensures OneHolder(Pop(s, w).(rows := rows), id)
  {
    var s' := Pop(s, w).(rows := rows);
    if WorkerAt(s, w).items[0].id == id {
      assert HoldsAt(s, w, 0, id);
    }
    forall v, k: nat | HoldsAt(s', v, k, id)
      ensures HoldsAt(s, v, if v == w then k + 1 else k, id) && LeasedTo(s', v, id)
    {
      assert HoldsAt(s, v, if v == w then k + 1 else k, id);
      assert LeasedTo(s, v, id);
    }
  }

  /** Steps that change no lease and give nobody more items. */
  lemma OneElse(s: System, s': System, id: nat)
    requires OneHolder(s, id) && s'.rows == s.rows
    requires forall v :: v in s'.workers ==> v in s.workers && s'.workers[v].items == s.workers[v].items && s'.workers[v].lease == s.workers[v].lease
    ensures OneHolder(s', id)
  {
    forall v, k: nat | HoldsAt(s', v, k, id)
      ensures HoldsAt(s, v, k, id) && LeasedTo(s', v, id)
    {
      assert HoldsAt(s, v, k, id);
      assert LeasedTo(s, v, id);
    }
  }

  lemma OneEnqueue(s: System, payloads: seq<string>, id: nat)
    requires OneHolder(s, id) && Honest(s)
    ensures OneHolder(Effect(s, Enqueue(payloads)), id)
  {
    hide Queued;
    var s' := Effect(s, Enqueue(payloads));
    forall w, k: nat | HoldsAt(s', w, k, id)
      ensures HoldsAt(s, w, k, id) && LeasedTo(s', w, id)
    {
      assert HoldsAt(s, w, k, id);
      assert LeasedTo(s, w, id) && HonestWorker(s, s.workers[w]);
      QueuedAt(s.rows, |s.sent|, payloads, s.now, id);
    }
  }

  lemma OneStep(s: System, e: Event, id: nat)
    requires OneHolder(s, id) && Honest(s) && !LateClaim(s, e, id)
    ensures OneHolder(Next(s, e), id)
  {
    hide OneHolder, Honest, LateClaim, Queued, Leased;
    if Enabled(s, e) {
      match e
      case Enqueue(payloads) => OneEnqueue(s, payloads, id);
      case Claim(_, _, _, _) => OneClaim(s, e, id);
      case Acknowledge(w) => OnePop(s, w, Completed(s.rows, WorkerAt(s, w).items[0].id), id);
      case Retry(w, at) => OnePop(s, w, Released(s.rows, WorkerAt(s, w).items[0].id, at), id);
      case Drop(w) => OnePop(s, w, s.rows, id);
      case Deliver(w) => OneElse(s, Effect(s, e), id);
      case Succeed(w) => OneElse(s, Effect(s, e), id);
      case Fail(w) => OneElse(s, Effect(s, e), id);
      case Crash(w) => OneElse(s, Effect(s, e), id);
      case Tick(_) => OneElse(s, Effect(s, e), id);
    }
  }

  /** A late claim makes a second holder. */
  lemma LateClaimShares(s: System, e: Event, id: nat)
    requires LateClaim(s, e, id)
    ensures !Unshared(Next(s, e), id)
  {
    hide Leased;
    var s' := Next(s, e);
    var w :| w != e.worker && Holds(s, w, id) && s.workers[w].lease < s.now;
    var k :| 0 <= k < |e.ids| && e.ids[k] == id;
    LeasedKeys(s.rows, e.ids, s.now + e.lease);
    var j :| 0 <= j < |s.workers[w].items| && s.workers[w].items[j].id == id;
    assert s'.workers[e.worker].items[k].id == id && s'.workers[w].items[j].id == id;
    assert Holds(s', e.worker, id) && Holds(s', w, id);
  }

  lemma OneIsUnshared(s: System, id: nat)
    requires OneHolder(s, id)
    ensures Unshared(s, id)
  {
    forall v, w | Holds(s, v, id) && Holds(s, w, id)
      ensures v == w
    {
      var j: nat :| j < |s.workers[v].items| && s.workers[v].items[j].id == id;
      var k: nat :| k < |s.workers[w].items| && s.workers[w].items[k].id == id;
      assert HoldsAt(s, v, j, id) && HoldsAt(s, w, k, id);
    }
  }

  /** The system after the first `k` events of a run. */
  ghost function At(now: int, events: seq<Event>, k: nat): System
    requires k <= |events|
  {
    Run(Start(now), events[..k])
  }

  lemma AtNext(now: int, events: seq<Event>, k: nat)
    requires k < |events|
    ensures At(now, events, k + 1) == Next(At(now, events, k), events[k])
  {
    hide Next;
    assert events[..k + 1][..k] == events[..k];
  }

  lemma {:induction false} OneWhile(now: int, events: seq<Event>, n: nat, id: nat)
    requires n <= |events| && forall k :: 0 <= k < n ==> !LateClaim(At(now, events, k), events[k], id)
    ensures OneHolder(At(now, events, n), id)
    decreases n
  {
    hide Next, OneHolder, LateClaim, Honest;
    if n == 0 {
      StartUnheld(now, id);
      assert events[..0] == [];
    } else {
      OneWhile(now, events, n - 1, id);
      NothingLost(now, events[..n - 1]);
      AtNext(now, events, n - 1);
      OneStep(At(now, events, n - 1), events[n - 1], id);
    }
  }

  lemma StartUnheld(now: int, id: nat)
    ensures OneHolder(Start(now), id) && Run(Start(now), []) == Start(now)
  {
  }

  /**
   Over every run, an event is never held by two workers at once exactly when nobody claims it while
   another worker still holds it past its lease.
   */
  lemma SharedExactly(now: int, events: seq<Event>, id: nat)
    ensures (forall k :: 0 <= k <= |events| ==> Unshared(At(now, events, k), id)) <==> (forall k :: 0 <= k < |events| ==> !LateClaim(At(now, events, k), events[k], id))
  {
    hide At, Next, Unshared, LateClaim, OneHolder;
    if forall k :: 0 <= k <= |events| ==> Unshared(At(now, events, k), id) {
      forall k | 0 <= k < |events|
        ensures !LateClaim(At(now, events, k), events[k], id)
      {
        AtNext(now, events, k);
        assert Unshared(At(now, events, k + 1), id);
        if LateClaim(At(now, events, k), events[k], id) {
          LateClaimShares(At(now, events, k), events[k], id);
        }
      }
    }
    if forall k :: 0 <= k < |events| ==> !LateClaim(At(now, events, k), events[k], id) {
      forall k | 0 <= k <= |events|
        ensures Unshared(At(now, events, k), id)
      {
        OneWhile(now, events, k, id);
        OneIsUnshared(At(now, events, k), id);
      }
    }
  }

  lemma {:induction false} TimelyAt(now: int, events: seq<Event>, k: nat)
    requires TimelyRun(Start(now), events) && k <= |events|
    ensures Timely(At(now, events, k))
    decreases |events|
  {
    hide Timely, Next, Run;
    if k == |events| {
      assert events[..k] == events;
    } else {
      assert events[..|events| - 1][..k] == events[..k];
      TimelyAt(now, events[..|events| - 1], k);
    }
  }

  /** In particular while every worker finishes within its lease. */
  lemma NoSharedEvent(now: int, events: seq<Event>, v: nat, w: nat, id: nat)
    requires TimelyRun(Start(now), events)
    requires Holds(Run(Start(now), events), v, id) && Holds(Run(Start(now), events), w, id)
    ensures v == w
  {
    hide Run, TimelyRun, Next;
    forall k | 0 <= k < |events|
      ensures !LateClaim(At(now, events, k), events[k], id)
    {
      TimelyAt(now, events, k);
    }
    OneWhile(now, events, |events|, id);
    assert events[..|events|] == events;
    OneIsUnshared(Run(Start(now), events), id);
  }

  lemma RunMore(s: System, events: seq<Event>, e: Event)
    ensures Run(s, events + [e]) == Next(Run(s, events), e)
  {
    assert (events + [e])[..|events|] == events;
  }

  /** One event in a fresh queue, being delivered by worker 0. */
  function OneDelivery(lease: nat): System {
    System(map[0 := Row("x", 0, Some(lease), 1)], ["x"], map[0 := Worker([Item(0, "x", 1)], Delivering, lease)], 0, {})
  }

  /** A free worker takes the only row and starts on it. */
  lemma TakeOnly(s: System, w: nat, row: Row, lease: int)
    requires s.rows == map[0 := row] && Ready(row, s.now) && w !in s.workers
    ensures Next(Next(s, Claim(w, [0], 1, lease)), Deliver(w)) ==
      s.(rows := map[0 := row.(claimedUntil := Some(s.now + lease), attempts := row.attempts + 1)],
         workers := s.workers[w := Worker([Item(0, row.payload, row.attempts + 1)], Delivering, s.now + lease)])
  {
    var taken := row.(claimedUntil := Some(s.now + lease), attempts := row.attempts + 1);
    assert Leased(s.rows, [0], s.now + lease) == map[0 := taken];
    assert Items(map[0 := taken], [0]) == [Item(0, row.payload, row.attempts + 1)];
    var worker := Worker([Item(0, row.payload, row.attempts + 1)], Waiting, s.now + lease);
    assert s.workers[w := worker][w := worker.(phase := Delivering)] == s.workers[w := worker.(phase := Delivering)];
  }

  lemma ReachOneDelivery(lease: nat) returns (events: seq<Event>)
    ensures Run(Start(0), events) == OneDelivery(lease)
  {
    hide Next, Run;
    var e, c, d := Enqueue(["x"]), Claim(0, [0], 1, lease), Deliver(0);
    events := [] + [e] + [c] + [d];
    var s := System(map[0 := Row("x", 0, None, 0)], ["x"], map[], 0, {});
    EnqueueOnly(s);
    RunMore(Start(0), [], e);
    RunMore(Start(0), [] + [e], c);
    RunMore(Start(0), [] + [e] + [c], d);
    TakeOnly(s, 0, Row("x", 0, None, 0), lease);
  }

  lemma EnqueueOnly(s: System)
    requires s == System(map[0 := Row("x", 0, None, 0)], ["x"], map[], 0, {})
    ensures Run(Start(0), []) == Start(0) && Next(Start(0), Enqueue(["x"])) == s
  {
    assert Queued(map[], 0, ["x"], 0) == s.rows;
  }

  /** The same event delivered by two workers. */
  function TwoDeliveries(lease: nat): System {
    System(map[0 := Row("x", 0, Some(lease + 1 + lease), 2)], ["x"],
           map[0 := Worker([Item(0, "x", 1)], Delivering, lease), 1 := Worker([Item(0, "x", 2)], Delivering, lease + 1 + lease)], lease + 1, {})
  }

  lemma SecondDelivery(lease: nat)
    ensures Next(Next(Next(OneDelivery(lease), Tick(lease + 1)), Claim(1, [0], 1, lease)), Deliver(1)) == TwoDeliveries(lease)
  {
    var s := OneDelivery(lease).(now := lease + 1);
    TakeOnly(s, 1, s.rows[0], lease);
    assert s.workers[1 := TwoDeliveries(lease).workers[1]] == TwoDeliveries(lease).workers;
  }

  /** Without timeliness two workers deliver one event at the same time. */
  lemma LateWorkersShare(lease: nat)
    ensures exists events :: var s := Run(Start(0), events);
      && Holds(s, 0, 0) && Holds(s, 1, 0) && s.workers[0].phase.Delivering? && s.workers[1].phase.Delivering?
  {
    hide Next, Run;
    var events := ReachOneDelivery(lease);
    var t, c, d := Tick(lease + 1), Claim(1, [0], 1, lease), Deliver(1);
    RunMore(Start(0), events, t);
    RunMore(Start(0), events + [t], c);
    RunMore(Start(0), events + [t] + [c], d);
    SecondDelivery(lease);
    var s := TwoDeliveries(lease);
    assert Run(Start(0), events + [t] + [c] + [d]) == s;
    assert s.workers[0].items[0].id == 0 && s.workers[1].items[0].id == 0;
  }

  // ---- when an event can be claimed

  /** A step that schedules the event for a later attempt. */
  ghost predicate Schedules(s: System, e: Event, id: nat, at: int) {
    e.Retry? && e.at == at && Enabled(s, e) && WorkerAt(s, e.worker).items[0].id == id
  }

  ghost predicate Acknowledges(s: System, e: Event, id: nat) {
    e.Acknowledge? && Enabled(s, e) && WorkerAt(s, e.worker).items[0].id == id
  }

  /** What one step does to the row of an event that was sent before it. */
  lemma RowStep(s: System, e: Event, id: nat)
    requires Honest(s) && id < |s.sent|
    ensures id in Next(s, e).rows <==> id in s.rows && !Acknowledges(s, e, id)
    ensures id in Next(s, e).rows ==>
      var before, after := s.rows[id], Next(s, e).rows[id];
      && after.payload == before.payload
      && (if Claims(s, e, id) then after.claimedUntil == Some(s.now + e.lease) && after.attempts == before.attempts + 1 && after.available == before.available
          else if e.Retry? && Schedules(s, e, id, e.at) then after.claimedUntil.None? && after.attempts == before.attempts && after.available == e.at
          else after == before)
  {
    hide Queued, Honest;
    if e.Enqueue? {
      QueuedAt(s.rows, |s.sent|, e.payloads, s.now, id);
    }
    HonestIds(s);
  }

  lemma HonestIds(s: System)
    requires Honest(s)
    ensures forall id :: id in s.rows ==> id < |s.sent|
    ensures forall w :: w in s.workers && s.workers[w].items != [] ==> s.workers[w].items[0].id < |s.sent|
  {
    forall w | w in s.workers && s.workers[w].items != []
      ensures s.workers[w].items[0].id < |s.sent|
    {
      assert HonestWorker(s, s.workers[w]);
    }
  }

  /** Neither claimed nor scheduled between two moments of a run. */
  ghost predicate Untouched(now: int, events: seq<Event>, k: nat, n: nat, id: nat, claims: bool) {
    k <= n <= |events| && forall j :: k <= j < n ==> Undisturbed(At(now, events, j), events[j], id, claims)
  }

  ghost predicate Undisturbed(s: System, e: Event, id: nat, claims: bool) {
    !(e.Retry? && Schedules(s, e, id, e.at)) && (claims ==> !Claims(s, e, id))
  }

  /** A row that is not scheduled again keeps its availability, and one that is not claimed again its lease. */
  lemma {:induction false} RowLasts(now: int, events: seq<Event>, k: nat, n: nat, id: nat, claims: bool)
    requires Untouched(now, events, k, n, id, claims) && id < |At(now, events, k).sent| && id in At(now, events, n).rows
    ensures id in At(now, events, k).rows
    ensures At(now, events, n).rows[id].available == At(now, events, k).rows[id].available
    ensures claims ==> At(now, events, n).rows[id].claimedUntil == At(now, events, k).rows[id].claimedUntil
    decreases n
  {
    hide At, Next, Honest, Claims, Schedules, Acknowledges;
    if k < n {
      SentLasts(now, events, k, n - 1);
      NothingLost(now, events[..n - 1]);
      AtNext(now, events, n - 1);
      AtIs(now, events, n - 1);
      assert Undisturbed(At(now, events, n - 1), events[n - 1], id, claims);
      RowStep(At(now, events, n - 1), events[n - 1], id);
      RowLasts(now, events, k, n - 1, id, claims);
    }
  }

  lemma AtIs(now: int, events: seq<Event>, k: nat)
    requires k <= |events|
    ensures At(now, events, k) == Run(Start(now), events[..k])
  {
  }

  lemma {:induction false} SentLasts(now: int, events: seq<Event>, k: nat, n: nat)
    requires k <= n <= |events|
    ensures At(now, events, k).sent <= At(now, events, n).sent
    decreases n
  {
    hide At, Next;
    if k < n {
      SentLasts(now, events, k, n - 1);
      AtNext(now, events, n - 1);
      SentGrows(At(now, events, n - 1), events[n - 1]);
    }
  }

  /** What a step that concerns an event knows of it. */
  lemma Concerned(now: int, events: seq<Event>, k: nat, id: nat)
    requires k < |events|
    requires var s, e := At(now, events, k), events[k]; Claims(s, e, id) || Acknowledges(s, e, id) || (e.Retry? && Schedules(s, e, id, e.at))
    ensures id < |At(now, events, k).sent| && Honest(At(now, events, k)) && At(now, events, k).sent <= At(now, events, k + 1).sent
    ensures At(now, events, k + 1) == Next(At(now, events, k), events[k])
  {
    hide Run, Honest, Next, At;
    NothingLost(now, events[..k]);
    AtIs(now, events, k);
    HonestIds(At(now, events, k));
    AtNext(now, events, k);
    SentGrows(At(now, events, k), events[k]);
  }

  /** An event put off until `at` is claimed by nobody before that, unless it is scheduled anew. */
  lemma NotClaimedEarly(now: int, events: seq<Event>, k: nat, j: nat, id: nat, at: int)
    requires k < j < |events| && Schedules(At(now, events, k), events[k], id, at)
    requires Untouched(now, events, k + 1, j, id, false) && Claims(At(now, events, j), events[j], id)
    ensures at <= At(now, events, j).now
  {
    hide At, Next, Honest, Schedules, Untouched;
    AtOf(At(now, events, k), events[k], id, at);
    Concerned(now, events, k, id);
    ClaimedIsReady(At(now, events, j), events[j], id);
    RowLasts(now, events, k + 1, j, id, false);
    RowStep(At(now, events, k), events[k], id);
  }

  lemma AtOf(s: System, e: Event, id: nat, at: int)
    requires Schedules(s, e, id, at)
    ensures e.Retry? && e.at == at && !Claims(s, e, id) && Schedules(s, e, id, e.at)
  {
  }

  lemma ClaimedIsReady(s: System, e: Event, id: nat)
    requires Claims(s, e, id)
    ensures id in s.rows && s.rows[id].available <= s.now && (s.rows[id].claimedUntil.None? || s.rows[id].claimedUntil.value < s.now)
  {
  }

  /** From then on a free worker may claim it, if nobody else has and it is still queued. */
  lemma ClaimableOnceDue(now: int, events: seq<Event>, k: nat, n: nat, id: nat, at: int, w: nat, limit: int, lease: int)
    requires k < n <= |events| && Schedules(At(now, events, k), events[k], id, at) && Untouched(now, events, k + 1, n, id, true)
    requires var s := At(now, events, n); id in s.rows && at <= s.now && WorkerAt(s, w).items == [] && limit >= 1
    ensures Claims(At(now, events, n), Claim(w, [id], limit, lease), id)
  {
    hide At, Next, Honest, Schedules, Untouched;
    AtOf(At(now, events, k), events[k], id, at);
    Concerned(now, events, k, id);
    RowLasts(now, events, k + 1, n, id, true);
    RowStep(At(now, events, k), events[k], id);
  }

  /** A claimed event is claimed again only after the lease, unless it is scheduled in between. */
  lemma NotClaimedWhileLeased(now: int, events: seq<Event>, k: nat, j: nat, id: nat)
    requires k < j < |events| && Claims(At(now, events, k), events[k], id)
    requires Untouched(now, events, k + 1, j, id, true) && Claims(At(now, events, j), events[j], id)
    ensures At(now, events, k).now + events[k].lease < At(now, events, j).now
  {
    hide At, Next, Honest, Untouched;
    Concerned(now, events, k, id);
    ClaimedIsReady(At(now, events, j), events[j], id);
    RowLasts(now, events, k + 1, j, id, true);
    RowStep(At(now, events, k), events[k], id);
  }

  /** After the lease it may be claimed again, so a worker that crashed loses nothing. */
  lemma ClaimableAfterLease(now: int, events: seq<Event>, k: nat, n: nat, id: nat, w: nat, limit: int, lease: int)
    requires k < n <= |events| && Claims(At(now, events, k), events[k], id) && Untouched(now, events, k + 1, n, id, true)
    requires var s := At(now, events, n); id in s.rows && At(now, events, k).now <= s.now && At(now, events, k).now + events[k].lease < s.now
    requires WorkerAt(At(now, events, n), w).items == [] && limit >= 1
    ensures Claims(At(now, events, n), Claim(w, [id], limit, lease), id)
  {
    hide At, Next, Honest, Untouched;
    Concerned(now, events, k, id);
    ClaimedIsReady(At(now, events, k), events[k], id);
    RowLasts(now, events, k + 1, n, id, true);
    RowStep(At(now, events, k), events[k], id);
  }

  /** An acknowledged event is gone for good. */
  lemma {:induction false} AcknowledgedIsGone(now: int, events: seq<Event>, k: nat, n: nat, id: nat)
    requires k < n <= |events| && Acknowledges(At(now, events, k), events[k], id)
    ensures id !in At(now, events, n).rows
    ensures n < |events| ==> !Claims(At(now, events, n), events[n], id)
    decreases n
  {
    hide At, Next, Honest, Acknowledges;
    Concerned(now, events, k, id);
    if n == k + 1 {
      RowStep(At(now, events, k), events[k], id);
    } else {
      AcknowledgedIsGone(now, events, k, n - 1, id);
      SentLasts(now, events, k, n - 1);
      NothingLost(now, events[..n - 1]);
      AtIs(now, events, n - 1);
      AtNext(now, events, n - 1);
      RowStep(At(now, events, n - 1), events[n - 1], id);
    }
  }

  /** Enqueued payloads are queued under the next ids, free and available at once. */
  lemma EnqueuedAreReady(s: System, payloads: seq<string>, k: nat)
    requires k < |payloads|
    ensures var s', id := Next(s, Enqueue(payloads)), |s.sent| + k;
      id in s'.rows && id < |s'.sent| && s'.sent[id] == payloads[k] && s'.rows[id] == Row(payloads[k], s.now, None, 0)
  {
    hide Queued;
    QueuedAt(s.rows, |s.sent|, payloads, s.now, |s.sent| + k);
  }

  /** A worker's round with one item: the event is accepted and gone, or failed and put off; then it waits with the rest. */
  lemma DeliveryRound(s: System, w: nat, at: int)
    requires w in s.workers && s.workers[w].items != [] && s.workers[w].phase.Waiting?
    ensures var item, good := s.workers[w].items[0], Next(Next(Next(s, Deliver(w)), Succeed(w)), Acknowledge(w));
      && good.rows == s.rows - {item.id} && good.delivered == s.delivered + {item.id}
      && w in good.workers && good.workers[w] == s.workers[w].(items := s.workers[w].items[1..])
    ensures var item, bad := s.workers[w].items[0], Next(Next(Next(s, Deliver(w)), Fail(w)), Retry(w, at));
      && bad.rows.Keys == s.rows.Keys && (forall id :: id in s.rows ==> ScheduledRow(s.rows[id], bad.rows[id], id == item.id, at))
      && bad.delivered == s.delivered && w in bad.workers && bad.workers[w] == s.workers[w].(items := s.workers[w].items[1..])
  {
  }

  /** A worker whose call failed goes on to its next item, one that crashed forgets all of them; the rows stay. Time passes. */
  lemma FailingSteps(s: System, w: nat, elapsed: int)
    ensures w in s.workers && s.workers[w].items != [] && (s.workers[w].phase.Delivered? || s.workers[w].phase.Failed?) ==>
      Next(s, Drop(w)) == s.(workers := s.workers[w := s.workers[w].(items := s.workers[w].items[1..], phase := Waiting)])
    ensures Next(s, Crash(w)) == s.(workers := s.workers - {w})
    ensures Next(s, Tick(elapsed)) == s.(now := s.now + elapsed)
  {
  }
}
