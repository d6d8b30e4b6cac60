/**
 The lifecycle of external identities: bound to a local account, waiting for an administrator, or
 rejected. An identity is keyed by issuer and subject (section 5.7 of OpenID Connect Core 1.0).
 */
module Oidc {
  import opened Options
  import opened TextScan

  datatype Key = Key(issuer: string, subject: string)

  datatype Status = Waiting | Rejected

  datatype Error = NotFound | Forbidden | AlreadyExists | Invalid | IdentityRejected | ApprovalRequired

  datatype Tables = Tables(bindings: map<Key, nat>, pending: map<Key, Status>, users: nat)

  // ---- effects

  /** A new account, numbered `users`, bound to the identity. */
  function Created(t: Tables, key: Key): Tables {
    t.(bindings := t.bindings[key := t.users], pending := t.pending - {key}, users := t.users + 1)
  }

  /** Records a login that needs a decision, without changing one already made. */
  function Recorded(t: Tables, key: Key): Tables {
    t.(pending := if key in t.pending then t.pending else t.pending[key := Waiting])
  }

  ghost predicate BoundTo(t: Tables, key: Key, user: nat, issuer: string) {
    key in t.bindings && t.bindings[key] == user && key.issuer == issuer
  }

  /** The identity of an issuer that a user is bound to. */
  ghost function Bound(t: Tables, user: nat, issuer: string): (r: Option<Key>)
    ensures r.Some? ==> BoundTo(t, r.value, user, issuer)
    ensures r.None? ==> forall key :: !BoundTo(t, key, user, issuer)
  {
    if exists key :: BoundTo(t, key, user, issuer) then
      var key :| BoundTo(t, key, user, issuer);
      Some(key)
    else None
  }

  /** Takes an identity away from its user and blocks it. */
  function Displaced(t: Tables, key: Key): Tables {
    t.(bindings := t.bindings - {key}, pending := if key.subject == "" then t.pending else t.pending[key := Rejected])
  }

  ghost function Linked(t: Tables, key: Key, user: nat): Tables {
    var previous := Bound(t, user, key.issuer);
    var freed := if previous.Some? then Displaced(t, previous.value) else t;
    freed.(bindings := freed.bindings[key := user], pending := freed.pending - {key})
  }

  function Removed(t: Tables, key: Key): Tables {
    t.(bindings := t.bindings - {key}, pending := t.pending[key := Rejected])
  }

  // ---- state invariant

  /** No identity is both bound and waiting or rejected. */
  ghost predicate Disjoint(t: Tables) {
    forall key :: key in t.bindings ==> key !in t.pending
  }

  /** A user has at most one identity of an issuer. */
  ghost predicate OnePerIssuer(t: Tables) {
    forall i, j :: i in t.bindings && j in t.bindings && t.bindings[i] == t.bindings[j] && i.issuer == j.issuer ==> i == j
  }

  /** That holds in every run, together with: bindings are of existing users. */
  ghost predicate Sound(t: Tables) {
    OnePerIssuer(t) && forall key :: key in t.bindings ==> t.bindings[key] < t.users
  }

  // ---- the tables and their statements

  class Store {
    var bindings: map<Key, nat>
    var pending: map<Key, Status>
    var users: nat

    function State(): Tables
      reads this
    {
      Tables(bindings, pending, users)
    }

    constructor ()
      ensures State() == Tables(map[], map[], 0)
    {
      bindings, pending, users := map[], map[], 0;
    }

    /** Creates an account; the provider must have supplied a username that is free. */
    method CreateUser(key: Key, username: string, available: bool) returns (error: Option<Error>)
      modifies this
      ensures error == if TrimSpace(username) == "" then Some(Invalid) else if !available || key in old(bindings) then Some(AlreadyExists) else None
      ensures State() == if error.Some? then old(State()) else Created(old(State()), key).(pending := old(pending))
    {
      if TrimSpace(username) == "" {
        return Some(Invalid);
      }
      if !available || key in bindings {
        return Some(AlreadyExists);
      }
      bindings := bindings[key := users];
      users := users + 1;
      return None;
    }

    method CompleteLogin(key: Key)
      modifies this`pending
      ensures pending == old(pending) - {key}
    {
      pending := pending - {key};
    }

    method RecordPending(key: Key)
      modifies this`pending
      ensures State() == Recorded(old(State()), key)
    {
      if key !in pending {
        pending := pending[key := Waiting];
      }
    }

    /** The last statements of a login that found no binding. */
    method FinishLogin(key: Key, seen: Option<Status>, registration: bool, username: string, available: bool) returns (error: Option<Error>)
      modifies this
      ensures State() == LoginWrite(old(State()), key, seen, registration, TrimSpace(username) != "" && available)
      ensures error == if seen == Some(Rejected) then Some(IdentityRejected) else if !registration then Some(ApprovalRequired)
                       else if TrimSpace(username) == "" then Some(Invalid) else if !available || key in old(bindings) then Some(AlreadyExists) else None
    {
      hide TrimSpace;
      if seen == Some(Rejected) {
        RecordPending(key);
        return Some(IdentityRejected);
      }
      if !registration {
        RecordPending(key);
        return Some(ApprovalRequired);
      }
      error := CreateUser(key, username, available);
      if error.None? {
        CompleteLogin(key);
      }
    }

    method ApprovePending(key: Key, username: string, available: bool) returns (error: Option<Error>)
      modifies this
      ensures State() == Approved(old(State()), key, TrimSpace(username) != "" && available)
      ensures error.None? <==> State() != old(State())
      ensures error == Some(Forbidden) <==> key in old(pending) && old(pending)[key].Rejected?
      ensures error == Some(NotFound) <==> key !in old(pending)
    {
      hide TrimSpace;
      if key !in pending {
        return Some(NotFound);
      }
      if pending[key] != Waiting {
        return Some(Forbidden);
      }
      if key in bindings {
        return Some(AlreadyExists);
      }
      error := CreateUser(key, username, available);
      if error.None? {
        pending := pending - {key};
      }
    }

    method RejectIdentity(key: Key)
      modifies this`pending
      ensures pending == old(pending)[key := Rejected]
    {
      pending := pending[key := Rejected];
    }

    /** Swaps the user's identity of that issuer and rejects the one it displaces. */
    method ReplaceBinding(user: nat, key: Key)
      requires OnePerIssuer(State()) && key !in bindings
      modifies this`bindings, this`pending
      ensures State() == Linked(old(State()), key, user).(pending := pending)
      ensures pending - {key} == Linked(old(State()), key, user).pending
    {
      ghost var before := State();
      if previous :| previous in bindings && bindings[previous] == user && previous.issuer == key.issuer {
        OnlyOne(before, previous, user, key.issuer);
        bindings := bindings - {previous};
        if previous.subject != "" && previous.subject != key.subject {
          RejectIdentity(previous);
        }
      } else {
        assert Bound(before, user, key.issuer).None?;
      }
      bindings := bindings[key := user];
    }

    method LinkPending(key: Key, user: nat) returns (error: Option<Error>)
      requires OnePerIssuer(State())
      modifies this
      ensures State() == LinkedIf(old(State()), key, user)
      ensures error.None? <==> key in old(pending) && old(pending)[key].Waiting? && key !in old(bindings) && user < users
      ensures error == Some(Forbidden) <==> key in old(pending) && old(pending)[key].Rejected?
    {
      if key !in pending {
        return Some(NotFound);
      }
      if pending[key] != Waiting {
        return Some(Forbidden);
      }
      if key in bindings {
        return Some(AlreadyExists);
      }
      if user >= users {
        return Some(NotFound);
      }
      ReplaceBinding(user, key);
      pending := pending - {key};
      return None;
    }

    method RemoveIdentity(user: nat, issuer: string, subject: string) returns (error: Option<Error>)
      modifies this
      ensures State() == RemovedIf(old(State()), user, Key(TrimSpace(issuer), TrimSpace(subject)))
      ensures error == if State() == old(State()) then Some(NotFound) else None
    {
      hide TrimSpace;
      var key := Key(TrimSpace(issuer), TrimSpace(subject));
      if user >= users || key !in bindings || bindings[key] != user {
        return Some(NotFound);
      }
      bindings := bindings - {key};
      RejectIdentity(key);
      return None;
    }

    method SetRejected(key: Key, rejected: bool) returns (error: Option<Error>)
      modifies this`pending
      ensures State() == Marked(old(State()), key, rejected)
      ensures error == if key in old(pending) then None else Some(NotFound)
    {
      if key !in pending {
        return Some(NotFound);
      }
      pending := pending[key := if rejected then Rejected else Waiting];
      return None;
    }
  }

  lemma OnlyOne(t: Tables, key: Key, user: nat, issuer: string)
    requires OnePerIssuer(t) && BoundTo(t, key, user, issuer)
    ensures Bound(t, user, issuer) == Some(key)
  {
  }

  // ---- transactions

  /** What a login that found no binding writes, from the status it saw. */
  function LoginWrite(t: Tables, key: Key, seen: Option<Status>, registration: bool, valid: bool): Tables {
    if seen == Some(Rejected) || !registration then Recorded(t, key)
    else if valid && key !in t.bindings then Created(t, key)
    else t
  }

  function Approved(t: Tables, key: Key, valid: bool): Tables {
    if key in t.pending && t.pending[key].Waiting? && key !in t.bindings && valid then Created(t, key) else t
  }

  ghost function LinkedIf(t: Tables, key: Key, user: nat): Tables {
    if key in t.pending && t.pending[key].Waiting? && key !in t.bindings && user < t.users then Linked(t, key, user) else t
  }

  function RemovedIf(t: Tables, user: nat, key: Key): Tables {
    if user < t.users && key in t.bindings && t.bindings[key] == user then Removed(t, key) else t
  }

  function Marked(t: Tables, key: Key, rejected: bool): Tables {
    if key in t.pending then t.(pending := t.pending[key := if rejected then Rejected else Waiting]) else t
  }

  // ---- interleavings of logins with everything else

  /**
   How far a login has come: it found no binding, then it read (and, if there was one, locked) the
   pending row, then it found no binding again.
   */
  datatype Progress = Looked | Locked(seen: Option<Status>) | Rechecked(seen: Option<Status>)

  datatype Login = Login(key: Key, registration: bool, progress: Progress)

  datatype System = System(tables: Tables, logins: map<nat, Login>)

  datatype Event =
    | Look(login: nat, key: Key, registration: bool)
    | Lock(login: nat)
    | Recheck(login: nat)
    | Write(login: nat, valid: bool)
    | Abort(login: nat)
    | Approve(key: Key, valid: bool)
    | Link(key: Key, user: nat)
    | Remove(user: nat, key: Key)
    | Mark(key: Key, rejected: bool)

  function Seen(l: Login): Option<Status> {
    match l.progress
    case Looked => None
    case Locked(seen) => seen
    case Rechecked(seen) => seen
  }

  /** A login that read a pending row keeps it locked until it ends. */
  ghost predicate RowLocked(s: System, key: Key) {
    exists n :: n in s.logins && s.logins[n].key == key && Seen(s.logins[n]).Some?
  }

  /** A statement waits while it writes or deletes a pending row that another login has locked. */
  ghost predicate Enabled(s: System, e: Event) {
    match e
    case Look(n, key, _) => n !in s.logins && (key in s.tables.bindings ==> !RowLocked(s, key))
    case Lock(n) => n in s.logins && s.logins[n].progress.Looked? && !RowLocked(s, s.logins[n].key)
    case Recheck(n) => n in s.logins && s.logins[n].progress.Locked? && (Seen(s.logins[n]).Some? || !RowLocked(s, s.logins[n].key))
    case Write(n, _) => n in s.logins && s.logins[n].progress.Rechecked? && (Seen(s.logins[n]).Some? || !RowLocked(s, s.logins[n].key))
    case Abort(n) => n in s.logins
    case Approve(key, _) => !RowLocked(s, key)
    case Link(key, user) => !RowLocked(s, key) && forall k :: BoundTo(s.tables, k, user, key.issuer) ==> !RowLocked(s, k)
    case Remove(_, key) => !RowLocked(s, key)
    case Mark(key, _) => !RowLocked(s, key)
  }

  function RowOf(t: Tables, key: Key): Option<Status> {
    if key in t.pending then Some(t.pending[key]) else None
  }

  function End(s: System, n: nat, tables: Tables): System {
    System(tables, s.logins - {n})
  }

  ghost function Effect(s: System, e: Event): System
    requires Enabled(s, e)
  {
    match e
    case Look(n, key, registration) =>
      if key in s.tables.bindings then s.(tables := s.tables.(pending := s.tables.pending - {key}))
      else s.(logins := s.logins[n := Login(key, registration, Looked)])
    case Lock(n) => s.(logins := s.logins[n := s.logins[n].(progress := Locked(RowOf(s.tables, s.logins[n].key)))])
    case Recheck(n) =>
      var l := s.logins[n];
      if l.key in s.tables.bindings then End(s, n, s.tables.(pending := s.tables.pending - {l.key}))
      else s.(logins := s.logins[n := l.(progress := Rechecked(l.progress.seen))])
    case Write(n, valid) => End(s, n, LoginWrite(s.tables, s.logins[n].key, Seen(s.logins[n]), s.logins[n].registration, valid))
    case Abort(n) => End(s, n, s.tables)
    case Approve(key, valid) => s.(tables := Approved(s.tables, key, valid))
    case Link(key, user) => s.(tables := LinkedIf(s.tables, key, user))
    case Remove(user, key) => s.(tables := RemovedIf(s.tables, user, key))
    case Mark(key, rejected) => s.(tables := Marked(s.tables, key, rejected))
  }

  ghost function Next(s: System, e: Event): System {
    if Enabled(s, e) then Effect(s, e) else s
  }

  // ---- locks

  /** A locked pending row is still there, as the login saw it; only one login locks it. */
  ghost predicate LocksOk(s: System) {
    && (forall n :: n in s.logins && Seen(s.logins[n]).Some? ==> RowOf(s.tables, s.logins[n].key) == Seen(s.logins[n]))
    && (forall m, n :: m in s.logins && n in s.logins && s.logins[m].key == s.logins[n].key && Seen(s.logins[m]).Some? && Seen(s.logins[n]).Some? ==> m == n)
  }

  /** A transaction that changes rows of identities nobody has locked. */
  lemma LocksElsewhere(s: System, t: Tables)
    requires LocksOk(s) && forall k :: RowLocked(s, k) ==> RowOf(t, k) == RowOf(s.tables, k)
    ensures LocksOk(s.(tables := t))
  {
    hide RowOf;
    forall n | n in s.logins && Seen(s.logins[n]).Some?
      ensures RowOf(t, s.logins[n].key) == Seen(s.logins[n])
    {
      assert RowLocked(s, s.logins[n].key);
    }
  }

  /** The end of a login, which may change its own row if no other login has locked that. */
  lemma LocksEnd(s: System, n: nat, t: Tables)
    requires LocksOk(s) && n in s.logins && (Seen(s.logins[n]).Some? || !RowLocked(s, s.logins[n].key))
    requires forall k :: k != s.logins[n].key ==> RowOf(t, k) == RowOf(s.tables, k)
    ensures LocksOk(End(s, n, t))
  {
    hide RowOf;
    forall m | m in s.logins && m != n && Seen(s.logins[m]).Some?
      ensures RowOf(t, s.logins[m].key) == Seen(s.logins[m])
    {
      assert RowLocked(s, s.logins[m].key);
    }
  }

  lemma LocksLock(s: System, n: nat)
    requires LocksOk(s) && Enabled(s, Lock(n))
    ensures LocksOk(Effect(s, Lock(n)))
  {
    forall m | m in s.logins && s.logins[m].key == s.logins[n].key
      ensures Seen(s.logins[m]).None?
    {
    }
  }

  lemma LocksLink(s: System, key: Key, user: nat)
    requires LocksOk(s) && Enabled(s, Link(key, user))
    ensures LocksOk(Effect(s, Link(key, user)))
  {
    var t := LinkedIf(s.tables, key, user);
    forall k | RowLocked(s, k)
      ensures RowOf(t, k) == RowOf(s.tables, k)
    {
      assert k != key && !BoundTo(s.tables, k, user, key.issuer);
    }
    LocksElsewhere(s, t);
  }

  lemma LocksStep(s: System, e: Event)
    requires LocksOk(s)
    ensures LocksOk(Next(s, e))
  {
    hide LocksOk, RowLocked, Linked, Created, Bound;
    if Enabled(s, e) {
      match e
      case Look(n, key, registration) =>
        if key in s.tables.bindings { LocksElsewhere(s, s.tables.(pending := s.tables.pending - {key})); } else { LocksLook(s, n, key, registration); }
      case Lock(n) => LocksLock(s, n);
      case Recheck(n) =>
        if s.logins[n].key in s.tables.bindings { LocksEnd(s, n, s.tables.(pending := s.tables.pending - {s.logins[n].key})); } else { LocksRecheck(s, n); }
      case Write(n, valid) => LocksWrite(s, n, valid);
      case Abort(n) => LocksAbort(s, n);
      case Approve(key, valid) => ApprovedRows(s.tables, key, valid); LocksElsewhere(s, Approved(s.tables, key, valid));
      case Link(key, user) => LocksLink(s, key, user);
      case Remove(user, key) => LocksElsewhere(s, RemovedIf(s.tables, user, key));
      case Mark(key, rejected) => LocksElsewhere(s, Marked(s.tables, key, rejected));
    }
  }

  lemma ApprovedRows(t: Tables, key: Key, valid: bool)
    ensures forall k :: k != key ==> RowOf(Approved(t, key, valid), k) == RowOf(t, k)
  {
  }

  lemma LocksLook(s: System, n: nat, key: Key, registration: bool)
    requires LocksOk(s) && n !in s.logins
    ensures LocksOk(s.(logins := s.logins[n := Login(key, registration, Looked)]))
  {
  }

  lemma LocksRecheck(s: System, n: nat)
    requires LocksOk(s) && n in s.logins && s.logins[n].progress.Locked?
    ensures LocksOk(s.(logins := s.logins[n := s.logins[n].(progress := Rechecked(s.logins[n].progress.seen))]))
  {
  }

  lemma LocksAbort(s: System, n: nat)
    requires LocksOk(s)
    ensures LocksOk(End(s, n, s.tables))
  {
  }

  lemma LocksWrite(s: System, n: nat, valid: bool)
    requires LocksOk(s) && Enabled(s, Write(n, valid))
    ensures LocksOk(Effect(s, Write(n, valid)))
  {
    hide LocksOk;
    LocksEnd(s, n, LoginWrite(s.tables, s.logins[n].key, Seen(s.logins[n]), s.logins[n].registration, valid));
  }

  // ---- one step

  /** A login records an identity as waiting or rejected that has been bound since its recheck. */
  ghost predicate RecordsBound(s: System, e: Event) {
    && e.Write? && Enabled(s, e)
    && var l := s.logins[e.login];
       l.key in s.tables.bindings && (Seen(l) == Some(Rejected) || !l.registration)
  }

  /** A login registers an account for an identity, having read that it is not rejected. */
  ghost predicate Registers(s: System, e: Event, key: Key) {
    && e.Write? && Enabled(s, e) && e.valid
    && var l := s.logins[e.login];
       l.key == key && key !in s.tables.bindings && l.registration && Seen(l) != Some(Rejected)
  }

  ghost predicate Blocked(t: Tables, key: Key) {
    RowOf(t, key) == Some(Rejected) && key !in t.bindings
  }

  lemma CreatedOk(t: Tables, key: Key)
    requires key !in t.bindings
    ensures Sound(t) ==> Sound(Created(t, key))
    ensures Disjoint(t) ==> Disjoint(Created(t, key))
  {
  }

  lemma LinkedOk(t: Tables, key: Key, user: nat)
    requires key !in t.bindings && user < t.users
    ensures Sound(t) ==> Sound(Linked(t, key, user))
    ensures Disjoint(t) ==> Disjoint(Linked(t, key, user))
  {
    var t' := Linked(t, key, user);
    if Sound(t) {
      forall j | j in t'.bindings && j != key && j.issuer == key.issuer
        ensures t'.bindings[j] != user
      {
        assert BoundTo(t, j, user, key.issuer) <==> t.bindings[j] == user;
      }
    }
  }

  /** A write keeps the two tables disjoint exactly when it does not record an identity that is bound by now. */
  lemma WriteKeepsDisjoint(t: Tables, key: Key, seen: Option<Status>, registration: bool, valid: bool)
    requires Disjoint(t)
    ensures Disjoint(LoginWrite(t, key, seen, registration, valid)) <==> !(key in t.bindings && (seen == Some(Rejected) || !registration))
  {
    if valid && key !in t.bindings {
      CreatedOk(t, key);
    }
    if key in t.bindings && (seen == Some(Rejected) || !registration) {
      assert key in Recorded(t, key).pending && key in Recorded(t, key).bindings;
    }
  }

  /** A write leaves a rejected identity rejected and unbound exactly when it does not register it. */
  lemma WriteKeepsRejected(t: Tables, key: Key, seen: Option<Status>, registration: bool, valid: bool)
    requires Blocked(t, key)
    ensures Blocked(LoginWrite(t, key, seen, registration, valid), key) <==> seen == Some(Rejected) || !registration || !valid
  {
  }

  /** Of all steps only the recording of a bound identity ends disjointness. */
  lemma DisjointStep(s: System, e: Event)
    requires Disjoint(s.tables)
    ensures Disjoint(Next(s, e).tables) <==> !RecordsBound(s, e)
  {
    hide RowLocked, LoginWrite, Linked, Created;
    if Enabled(s, e) {
      match e
      case Write(n, valid) => WriteKeepsDisjoint(s.tables, s.logins[n].key, Seen(s.logins[n]), s.logins[n].registration, valid);
      case Approve(key, valid) => if key !in s.tables.bindings { CreatedOk(s.tables, key); }
      case Link(key, user) => if key !in s.tables.bindings && user < s.tables.users { LinkedOk(s.tables, key, user); }
      case Look(_, _, _) =>
      case Lock(_) =>
      case Recheck(_) =>
      case Abort(_) =>
      case Remove(_, _) =>
      case Mark(_, _) =>
    }
  }

  lemma SoundStep(s: System, e: Event)
    requires Sound(s.tables)
    ensures Sound(Next(s, e).tables)
  {
    hide RowLocked, Linked, Created;
    if Enabled(s, e) {
      match e
      case Write(n, valid) => if s.logins[n].key !in s.tables.bindings { CreatedOk(s.tables, s.logins[n].key); }
      case Approve(key, valid) => if key !in s.tables.bindings { CreatedOk(s.tables, key); }
      case Link(key, user) => if key !in s.tables.bindings && user < s.tables.users { LinkedOk(s.tables, key, user); }
      case Look(_, _, _) =>
      case Lock(_) =>
      case Recheck(_) =>
      case Abort(_) =>
      case Remove(_, _) =>
      case Mark(_, _) =>
    }
  }

  predicate Reopens(e: Event, key: Key) {
    e == Mark(key, false)
  }

  /** Of all steps only its registration or its reopening ends the rejection of an identity. */
  lemma RejectedStep(s: System, e: Event, key: Key)
    requires Blocked(s.tables, key) && !Reopens(e, key)
    ensures Blocked(Next(s, e).tables, key) <==> !Registers(s, e, key)
  {
    hide RowLocked;
    if Enabled(s, e) && e.Write? && s.logins[e.login].key == key {
      var l := s.logins[e.login];
      WriteKeepsRejected(s.tables, key, Seen(l), l.registration, e.valid);
    }
  }

  /** A login that holds the row lock breaks neither, whatever ran since its first lookup. */
  lemma LockedIsSafe(s: System, e: Event, key: Key)
    requires LocksOk(s) && e.Write? && e.login in s.logins && Seen(s.logins[e.login]).Some?
    ensures Disjoint(s.tables) ==> !RecordsBound(s, e)
    ensures Blocked(s.tables, key) ==> !Registers(s, e, key)
  {
  }

  // ---- runs

  ghost function Run(s: System, events: seq<Event>): System
    decreases |events|
  {
    if events == [] then s else Next(Run(s, events[..|events| - 1]), events[|events| - 1])
  }

  function Start(): System {
    System(Tables(map[], map[], 0), map[])
  }

  /** The system after the first `k` events of a run. */
  ghost function At(events: seq<Event>, k: nat): System
    requires k <= |events|
  {
    Run(Start(), events[..k])
  }

  lemma AtNext(events: seq<Event>, k: nat)
    requires k < |events|
    ensures At(events, k + 1) == Next(At(events, k), events[k])
  {
    hide Next;
    assert events[..k + 1][..k] == events[..k];
  }

  lemma AtStart(events: seq<Event>)
    ensures At(events, 0) == Start() && Sound(Start().tables) && Disjoint(Start().tables) && LocksOk(Start())
  {
    assert events[..0] == [];
  }

  /** In every run users have one identity per issuer, and locked rows stay as they were seen. */
  lemma {:induction false} AlwaysSound(events: seq<Event>, k: nat)
    requires k <= |events|
    ensures Sound(At(events, k).tables) && LocksOk(At(events, k))
    decreases k
  {
    hide At, Next, Sound, LocksOk;
    if k == 0 {
      AtStart(events);
    } else {
      AlwaysSound(events, k - 1);
      AtNext(events, k - 1);
      SoundStep(At(events, k - 1), events[k - 1]);
      LocksStep(At(events, k - 1), events[k - 1]);
    }
  }

  lemma {:induction false} DisjointWhile(events: seq<Event>, n: nat)
    requires n <= |events| && forall k :: 0 <= k < n ==> !RecordsBound(At(events, k), events[k])
    ensures Disjoint(At(events, n).tables)
    decreases n
  {
    hide At, Next, Disjoint, RecordsBound;
    if n == 0 {
      AtStart(events);
    } else {
      DisjointWhile(events, n - 1);
      AtNext(events, n - 1);
      DisjointStep(At(events, n - 1), events[n - 1]);
    }
  }

  /**
   Over every run, no identity is ever both bound and waiting or rejected exactly when no login
   records an identity that has been bound since its recheck; and users have one identity per issuer.
   */
  lemma NeverBothBoundAndPending(events: seq<Event>)
    ensures (forall k :: 0 <= k <= |events| ==> Disjoint(At(events, k).tables)) <==> (forall k :: 0 <= k < |events| ==> !RecordsBound(At(events, k), events[k]))
    ensures forall k :: 0 <= k <= |events| ==> Sound(At(events, k).tables)
  {
    hide At, Next, Disjoint, RecordsBound, Sound;
    if forall k :: 0 <= k <= |events| ==> Disjoint(At(events, k).tables) {
      forall k | 0 <= k < |events|
        ensures !RecordsBound(At(events, k), events[k])
      {
        AtNext(events, k);
        assert Disjoint(At(events, k).tables) && Disjoint(At(events, k + 1).tables);
        DisjointStep(At(events, k), events[k]);
      }
    }
    if forall k :: 0 <= k < |events| ==> !RecordsBound(At(events, k), events[k]) {
      forall k | 0 <= k <= |events|
        ensures Disjoint(At(events, k).tables)
      {
        DisjointWhile(events, k);
      }
    }
    forall k | 0 <= k <= |events|
      ensures Sound(At(events, k).tables)
    {
      AlwaysSound(events, k);
    }
  }

  lemma {:induction false} BlockedWhile(events: seq<Event>, from: nat, n: nat, key: Key)
    requires from <= n <= |events| && Blocked(At(events, from).tables, key)
    requires forall k :: from <= k < n ==> !Reopens(events[k], key) && !Registers(At(events, k), events[k], key)
    ensures Blocked(At(events, n).tables, key)
    decreases n
  {
    hide At, Next, Blocked, Registers;
    if n > from {
      BlockedWhile(events, from, n - 1, key);
      AtNext(events, n - 1);
      RejectedStep(At(events, n - 1), events[n - 1], key);
    }
  }

  /**
   While no administrator reopens it, a rejected identity stays rejected and unbound exactly when no
   login registers it that read its status before the rejection.
   */
  lemma RejectedUntilReopened(events: seq<Event>, from: nat, key: Key)
    requires from <= |events| && Blocked(At(events, from).tables, key) && forall k :: from <= k < |events| ==> !Reopens(events[k], key)
    ensures (forall k :: from <= k <= |events| ==> Blocked(At(events, k).tables, key)) <==> (forall k :: from <= k < |events| ==> !Registers(At(events, k), events[k], key))
  {
    hide At, Next, Blocked, Registers;
    if forall k :: from <= k <= |events| ==> Blocked(At(events, k).tables, key) {
      forall k | from <= k < |events|
        ensures !Registers(At(events, k), events[k], key)
      {
        AtNext(events, k);
        assert Blocked(At(events, k).tables, key) && Blocked(At(events, k + 1).tables, key);
        RejectedStep(At(events, k), events[k], key);
      }
    }
    if forall k :: from <= k < |events| ==> !Registers(At(events, k), events[k], key) {
      forall k | from <= k <= |events|
        ensures Blocked(At(events, k).tables, key)
      {
        BlockedWhile(events, from, k, key);
      }
    }
  }

  /** Both failures need a login that read no pending row. */
  lemma OnlyWithoutRow(events: seq<Event>, k: nat, key: Key)
    requires k < |events|
    requires (RecordsBound(At(events, k), events[k]) && Disjoint(At(events, k).tables)) || (Registers(At(events, k), events[k], key) && Blocked(At(events, k).tables, key))
    ensures var l := At(events, k).logins[events[k].login]; Seen(l).None? && l.progress.Rechecked?
  {
    hide At, Disjoint, LocksOk, Blocked, RowLocked;
    AlwaysSound(events, k);
    if Seen(At(events, k).logins[events[k].login]).Some? {
      LockedIsSafe(At(events, k), events[k], key);
      assert false;
    }
  }

  /** Linking an identity to a user rejects the identity it displaces, unless its subject is empty. */
  lemma DisplacedIsRejected(t: Tables, key: Key, user: nat, previous: Key)
    requires Disjoint(t) && Sound(t) && BoundTo(t, previous, user, key.issuer) && LinkedIf(t, key, user) != t
    ensures var t' := LinkedIf(t, key, user);
      && t'.bindings == (t.bindings - {previous})[key := user] && key !in t'.pending
      && (RowOf(t', previous) == Some(Rejected) <==> previous.subject != "")
  {
    OnlyOne(t, previous, user, key.issuer);
  }

  // ---- one identity

  function BindingOf(t: Tables, key: Key): Option<nat> {
    if key in t.bindings then Some(t.bindings[key]) else None
  }

  ghost predicate SameIdentity(t: Tables, t': Tables, key: Key) {
    BindingOf(t', key) == BindingOf(t, key) && RowOf(t', key) == RowOf(t, key)
  }

  /** A new account, which no identity was bound to, is the identity's. */
  ghost predicate Registered(t: Tables, t': Tables, key: Key) {
    BindingOf(t', key) == Some(t.users) && RowOf(t', key) == None && t'.users == t.users + 1
  }

  /** What the steps of a login do to an identity, its own or another one. */
  lemma LoginSteps(s: System, e: Event, key: Key)
    requires Enabled(s, e) && (e.Look? || e.Lock? || e.Recheck? || e.Write? || e.Abort?)
    ensures var t, t' := s.tables, Next(s, e).tables;
      match e
      case Look(_, k, _) => BindingOf(t', key) == BindingOf(t, key) && RowOf(t', key) == if key == k && key in t.bindings then None else RowOf(t, key)
      case Recheck(n) =>
        && BindingOf(t', key) == BindingOf(t, key)
        && RowOf(t', key) == if key == s.logins[n].key && key in t.bindings then None else RowOf(t, key)
      case Write(n, valid) =>
        var l := s.logins[n];
        if key != l.key then SameIdentity(t, t', key)
        else if Seen(l) == Some(Rejected) || !l.registration then
          BindingOf(t', key) == BindingOf(t, key) && RowOf(t', key) == if RowOf(t, key).None? then Some(Waiting) else RowOf(t, key)
        else if valid && BindingOf(t, key).None? then Registered(t, t', key)
        else SameIdentity(t, t', key)
      case _ => t' == t
  {
  }

  /** What an administrator does to an identity, to the one it displaces, and to others. */
  lemma AdministratorSteps(s: System, e: Event, key: Key)
    requires Enabled(s, e) && Sound(s.tables) && (e.Approve? || e.Link? || e.Remove? || e.Mark?)
    ensures var t, t' := s.tables, Next(s, e).tables;
      match e
      case Approve(k, valid) =>
        if key == k && RowOf(t, k) == Some(Waiting) && BindingOf(t, k).None? && valid then Registered(t, t', key) else SameIdentity(t, t', key)
      case Link(k, user) =>
        if !(RowOf(t, k) == Some(Waiting) && BindingOf(t, k).None? && user < t.users) then t' == t
        else if key == k then BindingOf(t', key) == Some(user) && RowOf(t', key) == None
        else if key.issuer == k.issuer && BindingOf(t, key) == Some(user) then
          BindingOf(t', key) == None && RowOf(t', key) == if key.subject != "" then Some(Rejected) else RowOf(t, key)
        else SameIdentity(t, t', key)
      case Remove(user, k) =>
        if key == k && BindingOf(t, k) == Some(user) then BindingOf(t', key) == None && RowOf(t', key) == Some(Rejected) else SameIdentity(t, t', key)
      case Mark(k, rejected) =>
        && BindingOf(t', key) == BindingOf(t, key)
        && RowOf(t', key) == if key == k && RowOf(t, key).Some? then Some(if rejected then Rejected else Waiting) else RowOf(t, key)
      case _ => true
  {
    hide RowLocked;
    if e.Link? && BindingOf(s.tables, key) == Some(e.user) && key.issuer == e.key.issuer {
      OnlyOne(s.tables, key, e.user, e.key.issuer);
    }
  }

  /** An identity gets an account only by a registration, an approval or a link, and loses it only by a removal or by a link that displaces it. */
  lemma BindingChanges(s: System, e: Event, key: Key)
    requires Sound(s.tables) && BindingOf(Next(s, e).tables, key) != BindingOf(s.tables, key)
    ensures BindingOf(s.tables, key).None? ==> Registers(s, e, key) || (e.Approve? && e.key == key && RowOf(s.tables, key) == Some(Waiting)) || (e.Link? && e.key == key && RowOf(s.tables, key) == Some(Waiting))
    ensures BindingOf(s.tables, key).Some? ==> BindingOf(Next(s, e).tables, key).None? && (e == Remove(s.tables.bindings[key], key) || (e.Link? && e.key != key && e.key.issuer == key.issuer && e.user == s.tables.bindings[key]))
  {
    hide RowLocked;
    if e.Look? || e.Lock? || e.Recheck? || e.Write? || e.Abort? {
      LoginSteps(s, e, key);
    } else {
      AdministratorSteps(s, e, key);
    }
  }

  /** How far each step takes a login. */
  lemma LoginAdvances(s: System, e: Event)
    requires Enabled(s, e)
    ensures var after := Next(s, e).logins;
      match e
      case Look(n, key, registration) => after == if key in s.tables.bindings then s.logins else s.logins[n := Login(key, registration, Looked)]
      case Lock(n) => after == s.logins[n := s.logins[n].(progress := Locked(RowOf(s.tables, s.logins[n].key)))]
      case Recheck(n) =>
        after == if s.logins[n].key in s.tables.bindings then s.logins - {n} else s.logins[n := s.logins[n].(progress := Rechecked(Seen(s.logins[n])))]
      case Write(n, _) => after == s.logins - {n}
      case Abort(n) => after == s.logins - {n}
      case _ => after == s.logins
  {
    hide RowLocked, Linked;
  }

  // ---- the two failures

  lemma RunMore(s: System, events: seq<Event>, e: Event)
    ensures Run(s, events + [e]) == Next(Run(s, events), e)
  {
    hide Next;
    assert (events + [e])[..|events|] == events;
  }

  lemma Unlocked(s: System, key: Key)
    requires forall n :: n in s.logins ==> Seen(s.logins[n]).None?
    ensures !RowLocked(s, key)
  {
  }

  /** The first three statements of a login whose identity is in neither table. */
  lemma Arrives(past: seq<Event>, n: nat, key: Key, registration: bool) returns (events: seq<Event>)
    requires var s := Run(Start(), past);
      n !in s.logins && key !in s.tables.bindings && key !in s.tables.pending && forall m :: m in s.logins ==> Seen(s.logins[m]).None?
    ensures Run(Start(), events) == Run(Start(), past).(logins := Run(Start(), past).logins[n := Login(key, registration, Rechecked(None))])
  {
    hide Run;
    var s, l := Run(Start(), past), Login(key, registration, Looked);
    var a, b, c := Look(n, key, registration), Lock(n), Recheck(n);
    events := past + [a] + [b] + [c];
    RunMore(Start(), past, a);
    RunMore(Start(), past + [a], b);
    RunMore(Start(), past + [a] + [b], c);
    Unlocked(Next(s, a), key);
    Unlocked(Next(Next(s, a), b), key);
    assert s.logins[n := l][n := l.(progress := Locked(None))][n := l.(progress := Rechecked(None))] == s.logins[n := l.(progress := Rechecked(None))];
  }

  /** Two logins of one identity that both found nothing; the second one has recorded it. */
  lemma SecondRecords(key: Key, registration: bool) returns (events: seq<Event>)
    ensures Run(Start(), events) == System(Tables(map[], map[key := Waiting], 0), map[0 := Login(key, registration, Rechecked(None))])
  {
    hide Run;
    var first, second := Login(key, registration, Rechecked(None)), Login(key, false, Rechecked(None));
    NothingRun();
    var one := Arrives([], 0, key, registration);
    var two := Arrives(one, 1, key, false);
    var s := Run(Start(), two);
    assert s == System(Start().tables, map[0 := first][1 := second]);
    Unlocked(s, key);
    events := two + [Write(1, true)];
    RunMore(Start(), two, Write(1, true));
    assert s.logins - {1} == map[0 := first];
  }

  lemma NothingRun()
    ensures Run(Start(), []) == Start()
  {
  }

  /**
   A login that saw no row is overtaken by another login of the same identity and by its approval:
   the identity ends both bound and waiting.
   */
  lemma OvertakenLogin(key: Key)
    ensures exists events :: var t := Run(Start(), events).tables; key in t.bindings && key in t.pending
  {
    hide Run;
    var events := SecondRecords(key, false);
    var s := Run(Start(), events);
    Unlocked(s, key);
    RunMore(Start(), events, Approve(key, true));
    var bound := Next(s, Approve(key, true));
    Unlocked(bound, key);
    RunMore(Start(), events + [Approve(key, true)], Write(0, true));
    var t := Run(Start(), events + [Approve(key, true)] + [Write(0, true)]).tables;
    assert key in t.bindings && key in t.pending;
  }

  /**
   A login that saw no row is overtaken by another login of the same identity and by its rejection:
   the rejected identity is registered, and nobody has reopened it.
   */
  lemma OvertakenRejection(key: Key)
    ensures exists events, k ::
      && 0 <= k <= |events| && Blocked(Run(Start(), events[..k]).tables, key)
      && (forall j :: k <= j < |events| ==> !Reopens(events[j], key))
      && key in Run(Start(), events).tables.bindings && key !in Run(Start(), events).tables.pending
  {
    hide Run;
    var events := SecondRecords(key, true);
    var s := Run(Start(), events);
    Unlocked(s, key);
    var rejected := events + [Mark(key, true)];
    RunMore(Start(), events, Mark(key, true));
    Unlocked(Next(s, Mark(key, true)), key);
    var all := rejected + [Write(0, true)];
    RunMore(Start(), rejected, Write(0, true));
    assert all[..|rejected|] == rejected;
    assert Blocked(Run(Start(), all[..|rejected|]).tables, key);
  }
}
