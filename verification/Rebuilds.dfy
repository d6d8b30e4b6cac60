/**
 The render-rebuild coordinator: a dirty flag with a reason behind a lock, and a wake channel of one
 slot. Any number of callers and one worker interleave between the locked sections.
 */
module Rebuilds {
  import opened Options
  import opened TextScan

  /** The state the callers and the worker share; `wake` tells whether the channel's slot is full. */
  datatype Shared = Shared(dirty: bool, reason: string, wake: bool)

  function Marked(s: Shared, reason: string): Shared {
    s.(dirty := true, reason := if TrimSpace(reason) != "" then TrimSpace(reason) else s.reason)
  }

  function Signaled(s: Shared): Shared {
    s.(wake := true)
  }

  function Taken(s: Shared): Shared {
    if s.dirty then Shared(false, "", s.wake) else s
  }

  class Coordinator {
    var dirty: bool
    var reason: string
    var wake: bool

    function State(): Shared
      reads this
    {
      Shared(dirty, reason, wake)
    }

    constructor ()
      ensures State() == Shared(false, "", false)
    {
      dirty, reason, wake := false, "", false;
    }

    /** Locked section: records that cached renders need a rebuild. */
    method MarkAllDirty(why: string)
      modifies this
      ensures State() == Marked(old(State()), why)
    {
      dirty := true;
      var trimmed := TrimSpace(why);
      if trimmed != "" {
        reason := trimmed;
      }
    }

    /** Non-blocking send: a full slot already promises a wakeup. */
    method Signal()
      modifies this`wake
      ensures State() == Signaled(old(State()))
    {
      if !wake {
        wake := true;
      }
    }

    /** Reads the flag and wakes the worker; the flag is not held in between. */
    method FlushPending()
      modifies this`wake
      ensures State() == if old(dirty) then Signaled(old(State())) else old(State())
    {
      var pending := dirty;
      if !pending {
        return;
      }
      Signal();
    }

    method QueueAll(why: string)
      modifies this
      ensures State() == Signaled(Marked(old(State()), why))
    {
      MarkAllDirty(why);
      FlushPending();
    }

    /** Locked section: consumes the pending request, if any. */
    method TakePending() returns (why: string, pending: bool)
      modifies this
      ensures pending == old(dirty) && why == (if pending then old(reason) else "")
      ensures State() == Taken(old(State()))
    {
      if !dirty {
        return "", false;
      }
      why, pending := reason, true;
      dirty, reason := false, "";
    }
  }

  // ---- interleavings

  datatype Request = Request(id: nat, reason: string)

  /** Where a call stands; a deferred one only marks. */
  datatype Stage = Deferred | Flushing | Signaling | Finished

  datatype Phase = Idle | Pending | Rebuilding | Stopped

  /**
   `Begin` carries the reason a rebuild runs under. It ends with `End`, or with `Fail` when its pages
   cannot be listed or it is canceled on the way. `Discard` is a request taken after cancellation.
   */
  datatype Entry = Mark(id: nat) | Begin(reason: string) | End | Fail | Discard

  /** `untaken` holds the marks that no rebuild has taken, `taken` those of the rebuild under way. */
  datatype System = System(shared: Shared, calls: map<nat, Stage>, worker: Phase, canceled: bool,
                           untaken: seq<Request>, taken: seq<Request>, log: seq<Entry>)

  datatype Event =
    | MarkAllDirty(id: nat, reason: string)
    | QueueAll(id: nat, reason: string)
    | FlushPending(id: nat)
    | Check(id: nat)
    | Signal(id: nat)
    | Receive
    | TakePending
    | FinishRebuild
    | FailRebuild
    | Cancel
    | Stop

  function Start(): System {
    System(Shared(false, "", false), map[], Idle, false, [], [], [])
  }

  predicate Enabled(s: System, e: Event) {
    match e
    case MarkAllDirty(id, _) => id !in s.calls
    case QueueAll(id, _) => id !in s.calls
    case FlushPending(id) => id !in s.calls
    case Check(id) => id in s.calls && s.calls[id].Flushing?
    case Signal(id) => id in s.calls && s.calls[id].Signaling?
    case Receive => s.worker.Idle? && s.shared.wake
    case TakePending => s.worker.Pending?
    case FinishRebuild => s.worker.Rebuilding?
    case FailRebuild => s.worker.Rebuilding?
    case Cancel => true
    case Stop => s.worker.Idle? && s.canceled
  }

  function Marks(s: System, id: nat, reason: string, stage: Stage): System {
    s.(shared := Marked(s.shared, reason), calls := s.calls[id := stage],
       untaken := s.untaken + [Request(id, reason)], log := s.log + [Mark(id)])
  }

  function Effect(s: System, e: Event): System {
    match e
    case MarkAllDirty(id, reason) => Marks(s, id, reason, Deferred)
    case QueueAll(id, reason) => Marks(s, id, reason, Flushing)
    case FlushPending(id) => s.(calls := s.calls[id := Flushing])
    case Check(id) => s.(calls := s.calls[id := if s.shared.dirty then Signaling else Finished])
    case Signal(id) => s.(calls := s.calls[id := Finished], shared := Signaled(s.shared))
    case Receive => s.(shared := s.shared.(wake := false), worker := Pending)
    case TakePending =>
      if !s.shared.dirty then s.(worker := Idle) else
      var took := s.(shared := Taken(s.shared), untaken := []);
      if s.canceled then took.(worker := Idle, log := s.log + [Discard])
      else took.(worker := Rebuilding, taken := s.untaken, log := s.log + [Begin(s.shared.reason)])
    case FinishRebuild => s.(worker := Pending, taken := [], log := s.log + [End])
    case FailRebuild => s.(worker := Pending, taken := [], log := s.log + [Fail])
    case Cancel => s.(canceled := true)
    case Stop => s.(worker := Stopped)
  }

  function Next(s: System, e: Event): System {
    if Enabled(s, e) then Effect(s, e) else s
  }

  function Run(s: System, events: seq<Event>): System
    decreases |events|
  {
    if events == [] then s else Next(Run(s, events[..|events| - 1]), events[|events| - 1])
  }

  // ---- invariant

  /** The reason of the newest mark that gave one. */
  function NewestReason(requests: seq<Request>): string {
    if requests == [] then "" else
    var last := requests[|requests| - 1];
    if TrimSpace(last.reason) != "" then TrimSpace(last.reason) else NewestReason(requests[..|requests| - 1])
  }

  ghost predicate Has(requests: seq<Request>, id: nat) {
    exists k :: 0 <= k < |requests| && requests[k].id == id
  }

  /** How far a request has come: marked, a rebuild under way, lost with a failed one, or rebuilt. */
  datatype Level = NotMarked | Waiting | Begun | Lost | Rebuilt

  function Advance(level: Level, e: Entry, id: nat): Level {
    match level
    case NotMarked => if e == Mark(id) then Waiting else NotMarked
    case Waiting => if e.Begin? then Begun else if e.Discard? then Lost else Waiting
    case Begun => if e.End? then Rebuilt else if e.Fail? then Lost else Begun
    case Lost => if e.Begin? then Begun else Lost
    case Rebuilt => Rebuilt
  }

  function LevelOf(log: seq<Entry>, id: nat): Level {
    if log == [] then NotMarked else Advance(LevelOf(log[..|log| - 1], id), log[|log| - 1], id)
  }

  /** The newest attempt to rebuild did not end. */
  function Failed(log: seq<Entry>): bool {
    if log == [] then false else
    match log[|log| - 1]
    case End => false
    case Fail => true
    case Discard => true
    case _ => Failed(log[..|log| - 1])
  }

  lemma LogMore(log: seq<Entry>, e: Entry, id: nat)
    ensures LevelOf(log + [e], id) == Advance(LevelOf(log, id), e, id)
    ensures Failed(log + [e]) == if e.End? then false else if e.Fail? || e.Discard? then true else Failed(log)
  {
    assert (log + [e])[..|log|] == log;
  }

  ghost predicate FollowedAt(log: seq<Entry>, id: nat, i: nat, j: nat, k: nat) {
    && i < j < k < |log| && log[i] == Mark(id) && log[j].Begin? && log[k].End?
    && forall m :: j < m < k ==> !log[m].Fail?
  }

  /** A rebuild began after the mark and ran to its end. */
  ghost predicate Followed(log: seq<Entry>, id: nat) {
    exists i, j, k :: FollowedAt(log, id, i, j, k)
  }

  lemma {:induction false} LevelMeans(log: seq<Entry>, id: nat) returns (i: nat, j: nat, k: nat)
    ensures !LevelOf(log, id).NotMarked? ==> i < |log| && log[i] == Mark(id)
    ensures LevelOf(log, id).Begun? ==> i < j < |log| && log[j].Begin? && forall m :: j < m < |log| ==> !log[m].Fail?
    ensures LevelOf(log, id).Rebuilt? ==> FollowedAt(log, id, i, j, k)
  {
    i, j, k := 0, 0, 0;
    if log != [] {
      var past, n := log[..|log| - 1], |log| - 1;
      i, j, k := LevelMeans(past, id);
      match LevelOf(past, id)
      case NotMarked => i := n;
      case Waiting => j := n;
      case Begun => k := n;
      case Lost => j := n;
      case Rebuilt =>
    }
  }

  lemma {:induction false} MarkedLevel(log: seq<Entry>, id: nat)
    requires Mark(id) in log
    ensures !LevelOf(log, id).NotMarked?
  {
    var past, last := log[..|log| - 1], log[|log| - 1];
    if last != Mark(id) {
      assert log == past + [last];
      MarkedLevel(past, id);
    }
  }

  lemma {:induction false} BegunLevel(log: seq<Entry>, id: nat, i: nat, j: nat)
    requires i < j < |log| && log[i] == Mark(id) && log[j].Begin? && forall m :: j < m < |log| ==> !log[m].Fail?
    ensures LevelOf(log, id).Begun? || LevelOf(log, id).Rebuilt?
  {
    var past := log[..|log| - 1];
    if j == |log| - 1 {
      assert past[i] == Mark(id);
      MarkedLevel(past, id);
    } else {
      BegunLevel(past, id, i, j);
    }
  }

  lemma {:induction false} FollowedLevel(log: seq<Entry>, id: nat, i: nat, j: nat, k: nat)
    requires FollowedAt(log, id, i, j, k)
    ensures LevelOf(log, id).Rebuilt?
  {
    var past := log[..|log| - 1];
    if k == |log| - 1 {
      BegunLevel(past, id, i, j);
    } else {
      FollowedLevel(past, id, i, j, k);
    }
  }

  lemma FollowedIs(log: seq<Entry>, id: nat)
    ensures Followed(log, id) <==> LevelOf(log, id).Rebuilt?
  {
    hide LevelOf;
    if LevelOf(log, id).Rebuilt? {
      var i, j, k := LevelMeans(log, id);
      assert FollowedAt(log, id, i, j, k);
    }
    if Followed(log, id) {
      var i, j, k :| FollowedAt(log, id, i, j, k);
      FollowedLevel(log, id, i, j, k);
    }
  }

  predicate Working(s: System) {
    s.worker.Pending? || s.worker.Rebuilding?
  }

  ghost predicate FlagIsUntaken(s: System) {
    (s.shared.dirty <==> s.untaken != []) && s.shared.reason == NewestReason(s.untaken)
  }

  ghost predicate AccountedFor(s: System, id: nat) {
    var level := LevelOf(s.log, id);
    && (Has(s.untaken, id) <==> level.Waiting?)
    && (Has(s.taken, id) ==> level.Begun?)
    && (level.Begun? ==> s.worker.Rebuilding?)
    && (level.Lost? ==> !s.worker.Rebuilding? && Failed(s.log))
    && (!level.NotMarked? ==> id in s.calls)
  }

  ghost predicate SomeLost(log: seq<Entry>) {
    exists id: nat :: LevelOf(log, id).Lost?
  }

  /** A mark is untaken, being rebuilt, lost with the newest attempt, or rebuilt. */
  ghost predicate Accounted(s: System) {
    && (s.taken != [] <==> s.worker.Rebuilding?)
    && (forall id: nat :: AccountedFor(s, id))
    && (Failed(s.log) && !s.worker.Rebuilding? ==> SomeLost(s.log))
  }

  /** An untaken request whose call has returned has a wakeup coming, or a worker about to look. */
  ghost predicate NoLostWakeup(s: System) {
    forall id :: Has(s.untaken, id) && id in s.calls && s.calls[id].Finished? ==> s.shared.wake || Working(s) || s.worker.Stopped?
  }

  ghost predicate Inv(s: System) {
    FlagIsUntaken(s) && Accounted(s) && NoLostWakeup(s)
  }

  // ---- steps

  lemma NewestReasonMore(requests: seq<Request>, r: Request)
    ensures NewestReason(requests + [r]) == if TrimSpace(r.reason) != "" then TrimSpace(r.reason) else NewestReason(requests)
  {
    assert (requests + [r])[..|requests|] == requests;
  }

  lemma HasMore(requests: seq<Request>, r: Request, id: nat)
    ensures Has(requests + [r], id) <==> Has(requests, id) || r.id == id
  {
    var more := requests + [r];
    if Has(requests, id) {
      var k :| 0 <= k < |requests| && requests[k].id == id;
      assert more[k].id == id;
    }
    if r.id == id {
      assert more[|requests|].id == id;
    }
  }

  lemma FlagMarks(s: System, id: nat, reason: string, stage: Stage)
    requires FlagIsUntaken(s)
    ensures FlagIsUntaken(Marks(s, id, reason, stage))
  {
    hide TrimSpace, NewestReason;
    NewestReasonMore(s.untaken, Request(id, reason));
  }

  lemma LostMore(log: seq<Entry>, e: Entry)
    requires SomeLost(log) && !e.Begin?
    ensures SomeLost(log + [e])
  {
    hide LevelOf;
    var id: nat :| LevelOf(log, id).Lost?;
    LogMore(log, e, id);
  }

  lemma MarksKeep(s: System, id: nat, reason: string, stage: Stage)
    requires Inv(s) && id !in s.calls && !stage.Finished?
    ensures Inv(Marks(s, id, reason, stage))
  {
    hide LevelOf, Has, FlagIsUntaken, TrimSpace, Failed, SomeLost;
    var s' := Marks(s, id, reason, stage);
    FlagMarks(s, id, reason, stage);
    LogMore(s.log, Mark(id), id);
    forall i: nat
      ensures Has(s'.untaken, i) <==> Has(s.untaken, i) || i == id
      ensures AccountedFor(s', i)
    {
      HasMore(s.untaken, Request(id, reason), i);
      LogMore(s.log, Mark(id), i);
      assert AccountedFor(s, i);
    }
    if SomeLost(s.log) {
      LostMore(s.log, Mark(id));
    }
  }

  lemma NobodyHas()
    ensures forall id: nat :: !Has([], id)
  {
  }

  lemma FirstHas(requests: seq<Request>)
    requires requests != []
    ensures Has(requests, requests[0].id)
  {
  }

  /** The worker takes everything that was marked, and begins or, after cancellation, discards. */
  lemma TakeKeeps(s: System)
    requires Inv(s) && s.worker.Pending? && s.shared.dirty
    ensures Accounted(Effect(s, TakePending))
  {
    hide LevelOf, Has, NewestReason, Failed;
    var s' := Effect(s, TakePending);
    var entry := if s.canceled then Discard else Begin(s.shared.reason);
    NobodyHas();
    FirstHas(s.untaken);
    LogMore(s.log, entry, s.untaken[0].id);
    assert AccountedFor(s, s.untaken[0].id);
    forall i: nat
      ensures AccountedFor(s', i)
    {
      LogMore(s.log, entry, i);
      assert AccountedFor(s, i);
    }
  }

  lemma OutcomeKeeps(s: System, e: Event)
    requires Inv(s) && s.worker.Rebuilding? && (e.FinishRebuild? || e.FailRebuild?)
    ensures Accounted(Effect(s, e))
  {
    hide LevelOf, Has, NewestReason, Failed;
    var s' := Effect(s, e);
    var entry := if e.FinishRebuild? then End else Fail;
    NobodyHas();
    FirstHas(s.taken);
    LogMore(s.log, entry, s.taken[0].id);
    assert AccountedFor(s, s.taken[0].id);
    forall i: nat
      ensures AccountedFor(s', i)
    {
      LogMore(s.log, entry, i);
      assert AccountedFor(s, i);
    }
  }

  /** Steps that touch neither the marks nor the log. */
  lemma SameMarks(s: System, s': System)
    requires Accounted(s) && s'.untaken == s.untaken && s'.taken == s.taken && s'.log == s.log && s.calls.Keys <= s'.calls.Keys
    requires s'.worker.Rebuilding? <==> s.worker.Rebuilding?
    ensures Accounted(s')
  {
    hide LevelOf, Has, Failed;
    forall i: nat
      ensures AccountedFor(s', i)
    {
      assert AccountedFor(s, i);
    }
  }

  lemma NoReason()
    ensures NewestReason([]) == ""
  {
  }

  lemma NextKeeps(s: System, e: Event)
    requires Inv(s)
    ensures Inv(Next(s, e))
  {
    hide LevelOf, NewestReason, Marks, Accounted, Failed;
    if Enabled(s, e) {
      NoReason();
      match e
      case MarkAllDirty(id, reason) => MarksKeep(s, id, reason, Deferred);
      case QueueAll(id, reason) => MarksKeep(s, id, reason, Flushing);
      case TakePending => if s.shared.dirty { TakeKeeps(s); } else { SameMarks(s, Effect(s, e)); }
      case FinishRebuild => OutcomeKeeps(s, e);
      case FailRebuild => OutcomeKeeps(s, e);
      case FlushPending(_) => SameMarks(s, Effect(s, e));
      case Check(_) => SameMarks(s, Effect(s, e));
      case Signal(_) => SameMarks(s, Effect(s, e));
      case Receive => SameMarks(s, Effect(s, e));
      case Cancel => SameMarks(s, Effect(s, e));
      case Stop => SameMarks(s, Effect(s, e));
    }
  }

  lemma {:induction false} RunKeeps(events: seq<Event>)
    ensures Inv(Run(Start(), events))
    decreases |events|
  {
    hide Inv, Next;
    if events == [] {
      StartOk();
    } else {
      RunKeeps(events[..|events| - 1]);
      NextKeeps(Run(Start(), events[..|events| - 1]), events[|events| - 1]);
    }
  }

  lemma StartOk()
    ensures Inv(Start())
  {
  }

  // ---- results

  /** A call to QueueAll or FlushPending that has returned. */
  predicate Returned(s: System, id: nat) {
    id in s.calls && s.calls[id].Finished?
  }

  /** The worker waits and nothing will wake it. */
  predicate Quiet(s: System) {
    s.worker.Idle? && !s.shared.wake
  }

  /** In a quiet state a marked request is untaken, was rebuilt, or was lost with the newest attempt. */
  lemma QuietLevel(events: seq<Event>, id: nat)
    requires Quiet(Run(Start(), events)) && Mark(id) in Run(Start(), events).log
    ensures var s := Run(Start(), events);
      && (Has(s.untaken, id) || Followed(s.log, id) || LevelOf(s.log, id).Lost?)
      && (LevelOf(s.log, id).Lost? ==> Failed(s.log) && !Has(s.untaken, id) && !Followed(s.log, id))
      && (Has(s.untaken, id) ==> id in s.calls && !s.calls[id].Finished?)
  {
    hide Run, LevelOf, FlagIsUntaken, Failed, Has, Followed;
    RunKeeps(events);
    var s := Run(Start(), events);
    MarkedLevel(s.log, id);
    assert AccountedFor(s, id);
    FollowedIs(s.log, id);
  }

  /**
   When the worker is idle and the channel empty, every request whose call returned was followed by a
   complete rebuild that began after it, unless the newest attempt failed or was canceled.
   */
  lemma QuietMeansRebuilt(events: seq<Event>, id: nat)
    requires Quiet(Run(Start(), events)) && Returned(Run(Start(), events), id) && Mark(id) in Run(Start(), events).log
    ensures Followed(Run(Start(), events).log, id) || Failed(Run(Start(), events).log)
  {
    hide Run, LevelOf, Failed, Has, Followed;
    QuietLevel(events, id);
  }

  /** And exactly then: after a failed attempt some request that was taken has not been rebuilt. */
  lemma QuietExactly(events: seq<Event>)
    requires Quiet(Run(Start(), events))
    ensures var s := Run(Start(), events);
      (forall id: nat :: Mark(id) in s.log && !Has(s.untaken, id) ==> Followed(s.log, id)) <==> !Failed(s.log)
  {
    hide Run, LevelOf, Failed, Has, Followed, FlagIsUntaken;
    var s := Run(Start(), events);
    RunKeeps(events);
    if Failed(s.log) {
      var id: nat :| LevelOf(s.log, id).Lost?;
      var i, j, k := LevelMeans(s.log, id);
      QuietLevel(events, id);
    } else {
      forall id: nat | Mark(id) in s.log && !Has(s.untaken, id)
        ensures Followed(s.log, id)
      {
        QuietLevel(events, id);
      }
    }
  }

  /** What is left over when everything is quiet was only marked, or its call is still under way. */
  lemma QuietLeftovers(events: seq<Event>, id: nat)
    requires Quiet(Run(Start(), events)) && Has(Run(Start(), events).untaken, id)
    ensures id in Run(Start(), events).calls && !Run(Start(), events).calls[id].Finished?
  {
    hide Run, LevelOf, FlagIsUntaken, Failed;
    RunKeeps(events);
    var s := Run(Start(), events);
    assert AccountedFor(s, id);
  }

  /** A rebuild runs under the newest reason given since the last one began. */
  lemma TakesNewestReason(events: seq<Event>)
    requires var s := Run(Start(), events); Enabled(s, TakePending) && s.shared.dirty && !s.canceled
    ensures var s := Run(Start(), events); Next(s, TakePending).log == s.log + [Begin(NewestReason(s.untaken))]
  {
    hide Run, NewestReason, Accounted;
    RunKeeps(events);
  }

  /** The worker goes to sleep only when nothing is marked. */
  lemma SleepsWhenDone(events: seq<Event>, e: Event)
    requires var s := Run(Start(), events); Working(s) && Next(s, e).worker.Idle?
    ensures var after := Next(Run(Start(), events), e); after.untaken == [] && !after.shared.dirty && after.taken == []
  {
    hide Run, NewestReason, LevelOf, Failed, Has;
    RunKeeps(events);
  }

  lemma RunMore(s: System, events: seq<Event>, e: Event)
    ensures Run(s, events + [e]) == Next(Run(s, events), e)
  {
    hide Next;
    assert (events + [e])[..|events|] == events;
  }

  /** Once canceled, no further rebuild begins: a pending request is discarded, and the worker may stop. */
  lemma {:induction false} CanceledForGood(events: seq<Event>, more: seq<Event>)
    requires Cancel in events
    ensures var s, after := Run(Start(), events), Run(Start(), events + more);
      && after.canceled && s.log <= after.log && (forall k :: |s.log| <= k < |after.log| ==> !after.log[k].Begin?)
      && (after.worker.Idle? ==> Next(after, Stop).worker.Stopped?)
    decreases |more|
  {
    hide Next, Run, NewestReason;
    if more == [] {
      assert events + more == events;
      Canceled(events);
    } else {
      var past, last := more[..|more| - 1], more[|more| - 1];
      CanceledForGood(events, past);
      assert events + more == (events + past) + [last];
      RunMore(Start(), events + past, last);
      CanceledStep(Run(Start(), events + past), last);
    }
    StopsIdle(Run(Start(), events + more));
  }

  lemma {:induction false} Canceled(events: seq<Event>)
    requires Cancel in events
    ensures Run(Start(), events).canceled
    decreases |events|
  {
    hide Next;
    var past, last := events[..|events| - 1], events[|events| - 1];
    if last == Cancel {
      CancelStep(Run(Start(), past));
    } else {
      assert events == past + [last];
      Canceled(past);
      CanceledStep(Run(Start(), past), last);
    }
  }

  lemma CancelStep(s: System)
    ensures Next(s, Cancel) == s.(canceled := true)
  {
  }

  lemma CanceledStep(s: System, e: Event)
    requires s.canceled
    ensures var s' := Next(s, e); s'.canceled && s.log <= s'.log && forall k :: |s.log| <= k < |s'.log| ==> !s'.log[k].Begin?
  {
  }

  lemma StopsIdle(s: System)
    ensures s.canceled && s.worker.Idle? ==> Next(s, Stop) == s.(worker := Stopped)
  {
  }

  /** A step of the worker alone. */
  predicate IsWorkers(e: Event) {
    e.Receive? || e.TakePending? || e.FinishRebuild?
  }

  lemma RebuildsNow(s: System, id: nat)
    requires Inv(s) && s.worker.Pending? && !s.canceled && Has(s.untaken, id)
    ensures Followed(Next(Next(s, TakePending), FinishRebuild).log, id)
  {
    hide NewestReason, LevelOf, Failed, Has, Followed;
    assert AccountedFor(s, id);
    NobodyHas();
    var begin := Begin(s.shared.reason);
    LogMore(s.log, begin, id);
    LogMore(s.log + [begin], End, id);
    FollowedIs(s.log + [begin] + [End], id);
  }

  lemma FinishesFirst(s: System, id: nat)
    requires Inv(s) && s.worker.Rebuilding? && !s.canceled && Has(s.untaken, id)
    ensures var s' := Next(s, FinishRebuild); Inv(s') && s'.worker.Pending? && !s'.canceled && Has(s'.untaken, id)
  {
    hide Inv;
    NextKeeps(s, FinishRebuild);
  }

  lemma WakesFirst(s: System, id: nat)
    requires Inv(s) && s.worker.Idle? && !s.canceled && Has(s.untaken, id) && s.shared.wake
    ensures var s' := Next(s, Receive); Inv(s') && s'.worker.Pending? && !s'.canceled && Has(s'.untaken, id)
  {
    hide Inv;
    NextKeeps(s, Receive);
  }

  /** From every state the worker alone can get a request rebuilt whose call has returned, unless it was canceled or stopped. */
  lemma CatchesUp(events: seq<Event>, id: nat)
    requires var s := Run(Start(), events); !s.canceled && !s.worker.Stopped? && Has(s.untaken, id) && Returned(s, id)
    ensures exists more: seq<Event> :: (forall k :: 0 <= k < |more| ==> IsWorkers(more[k])) && Followed(Run(Start(), events + more).log, id)
  {
    hide Run, Next, Has, Followed, LevelOf, NewestReason, Failed, Accounted, FlagIsUntaken;
    RunKeeps(events);
    var s := Run(Start(), events);
    var first := if s.worker.Idle? then [Receive] else if s.worker.Rebuilding? then [FinishRebuild] else [];
    if s.worker.Idle? {
      WakesFirst(s, id);
      RunMore(Start(), events, Receive);
    } else if s.worker.Rebuilding? {
      FinishesFirst(s, id);
      RunMore(Start(), events, FinishRebuild);
    } else {
      assert events + first == events;
    }
    var ready := events + first;
    RebuildsNow(Run(Start(), ready), id);
    RunMore(Start(), ready, TakePending);
    RunMore(Start(), ready + [TakePending], FinishRebuild);
    var more := first + [TakePending, FinishRebuild];
    assert events + more == ready + [TakePending] + [FinishRebuild];
    assert forall k :: 0 <= k < |more| ==> IsWorkers(more[k]);
  }

  // ---- calls are their steps

  /** The steps of one QueueAll call leave the shared state as the method does, and the call returned. */
  lemma QueueAllIsItsSteps(s: System, id: nat, why: string)
    requires id !in s.calls
    ensures var after := Next(Next(Next(s, QueueAll(id, why)), Check(id)), Signal(id));
      after.shared == Signaled(Marked(s.shared, why)) && Returned(after, id) && Has(after.untaken, id)
  {
    hide TrimSpace;
    HasMore(s.untaken, Request(id, why), id);
  }

  /** So do the steps of one FlushPending call; the last one is not taken when the flag is down. */
  lemma FlushPendingIsItsSteps(s: System, id: nat)
    requires id !in s.calls
    ensures var after := Next(Next(Next(s, FlushPending(id)), Check(id)), Signal(id));
      after.shared == (if s.shared.dirty then Signaled(s.shared) else s.shared) && Returned(after, id) && after.untaken == s.untaken
  {
  }

  /** And the locked section that takes the request, from which the worker rebuilds, discards or waits. */
  lemma TakePendingIsItsStep(s: System)
    requires Enabled(s, TakePending)
    ensures var after := Next(s, TakePending);
      && after.shared == Taken(s.shared) && !after.shared.dirty
      && (after.worker.Rebuilding? <==> s.shared.dirty && !s.canceled) && (after.worker.Idle? <==> !(s.shared.dirty && !s.canceled))
  {
  }

  // ---- what is not promised

  /** Marking alone promises no rebuild: the flag can stay up while worker and channel are quiet. */
  lemma DeferredMarksWait(id: nat, reason: string)
    ensures var s := Run(Start(), [MarkAllDirty(id, reason)]); Quiet(s) && s.shared.dirty && Mark(id) in s.log && End !in s.log
  {
    var events := [MarkAllDirty(id, reason)];
    assert events[..0] == [];
    assert Run(Start(), events) == Marks(Start(), id, reason, Deferred);
    assert Marks(Start(), id, reason, Deferred).log == [Mark(id)];
  }

  /** The queue, wake-up and take of one request. */
  lemma ReachRebuild(id: nat, why: string) returns (events: seq<Event>)
    ensures var s := Run(Start(), events);
      && s.worker.Rebuilding? && !s.canceled && s.log == [Mark(id), Begin(TrimSpace(why))] && Returned(s, id) && !s.shared.dirty && !s.shared.wake && s.untaken == []
  {
    hide Run, TrimSpace;
    var q, c, g, r, t := QueueAll(id, why), Check(id), Signal(id), Receive, TakePending;
    NothingRun();
    RunMore(Start(), [], q);
    RunMore(Start(), [] + [q], c);
    RunMore(Start(), [] + [q] + [c], g);
    RunMore(Start(), [] + [q] + [c] + [g], r);
    RunMore(Start(), [] + [q] + [c] + [g] + [r], t);
    QueueAllIsItsSteps(Start(), id, why);
    events := [] + [q] + [c] + [g] + [r] + [t];
  }

  lemma NothingRun()
    ensures Run(Start(), []) == Start()
  {
  }

  /** The failing rebuild and the look that finds nothing more to do. */
  lemma FailsThenIdle(s: System)
    requires s.worker.Rebuilding? && !s.shared.dirty
    ensures Next(Next(s, FailRebuild), TakePending) == s.(worker := Idle, taken := [], log := s.log + [Fail])
  {
  }

  lemma NeverEnded(log: seq<Entry>, id: nat)
    requires End !in log
    ensures !Followed(log, id)
  {
  }

  /** A request whose rebuild cannot list the pages is lost: its call returned, all is quiet, and nothing was rebuilt. */
  lemma FailedListingLosesRequest(id: nat, why: string)
    ensures exists events :: var s := Run(Start(), events);
      Quiet(s) && !s.canceled && !s.shared.dirty && Returned(s, id) && Mark(id) in s.log && !Followed(s.log, id)
  {
    hide Run, Next, Followed, TrimSpace;
    var events := ReachRebuild(id, why);
    var s := Run(Start(), events);
    RunMore(Start(), events, FailRebuild);
    RunMore(Start(), events + [FailRebuild], TakePending);
    FailsThenIdle(s);
    var all := events + [FailRebuild] + [TakePending];
    var after := Run(Start(), all);
    assert after.log == [Mark(id), Begin(TrimSpace(why)), Fail];
    NeverEnded(after.log, id);
    assert Quiet(after) && Returned(after, id) && Mark(id) in after.log;
  }
}
