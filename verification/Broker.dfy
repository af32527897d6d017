/**
 The broker's reconciler and HTTP handlers, statement by statement, against the shared object store.
 Before every access other writers may act; every access is an event of the protocol.
 */
module Broker {
  import opened Quantities
  import opened Ledger
  import opened Reservations
  import opened Protocol
  import opened Runs
  import Ranking

  /** How a drive of the reconciler ended. */
  datatype Outcome = NothingDue | Wrote(phase: Phase) | Gone | Errored

  /** What the surroundings answer during one drive of the reconciler. */
  datatype Pass = Pass(
    found: bool,                    // the reservation is read
    ranked: Option<ClusterId>,      // the cluster that SelectTarget yields
    missing: set<nat>,              // the lock attempts that find no advertisement of the target
    listed: bool,                   // the target is listed when releasing
    confirmedAt: int)               // the time at which the lock is confirmed

  /** How posting an advertisement ended. */
  datatype PostResult = Registered | Merged | NotCreated | NotMerged

  datatype LockResult = Granted | TargetNotFound | Insufficient | GaveUp

  // ----- what a drive may rely on while others act

  predicate IsBy(e: Event, i: nat, who: Actor) {
    match e
    case LockAttempt(j, w, _) => j == i && w == who
    case Refusal(j, w, _) => j == i && w == who
    case FreeAttempt(j, _, _) => j == i && who == Reconciler
    case Local(j, local) =>
      j == i && (match local
                 case AddFinalizer(w) => w == who
                 case MarkReserved(w, _, _) => w == who
                 case MarkFailed(w, _) => w == who
                 case Quit(w) => w == who
                 case Signal(_, _) => false
                 case Delete => false
                 case _ => who == Reconciler)
    case _ => false
  }

  ghost predicate SameDrive(a: Slot, b: Slot, who: Actor) {
    DriveOf(a, who) == DriveOf(b, who) && a.spec == b.spec && a.history <= b.history
    && (who == Reconciler ==> a.frees == b.frees)
  }

  /** Versions stay readable, and the drive of reservation i is where it was. */
  ghost predicate Relies(s: State, t: State, i: nat, who: Actor) {
    && i < |s.slots| <= |t.slots|
    && SameDrive(s.slots[i], t.slots[i], who)
    && (forall c <- s.clusters :: c in t.clusters && s.clusters[c].history <= t.clusters[c].history)
  }

  lemma OthersKeepSlot(slot: Slot, e: SlotEvent, who: Actor)
    requires Sound(slot) && Enabled(slot, e) && !IsBy(Local(0, e), 0, who)
    requires !e.LockDone? && !e.LockConflict? && !e.Refuse? && !e.FreeDone? && !e.FreeConflict?
    ensures SameDrive(slot, StepSlot(slot, e), who)
  {
  }

  lemma OthersKeepAttempts(slot: Slot, e: SlotEvent, who: Actor)
    requires Sound(slot) && Enabled(slot, e)
    requires e.LockDone? || e.LockConflict? || e.Refuse? || e.FreeDone? || e.FreeConflict?
    requires if e.FreeDone? || e.FreeConflict? then who != Reconciler else e.who != who
    ensures SameDrive(slot, StepSlot(slot, e), who)
  {
  }

  lemma StepRelies(s: State, e: Event, i: nat, who: Actor)
    requires IsEnabled(s, e) && i < |s.slots| && !IsBy(e, i, who)
    ensures Relies(s, Step(s, e), i, who)
  {
    if AtSlot(e) && e.i == i {
      var local := SlotEventOf(s, e);
      if e.Local? {
        OthersKeepSlot(s.slots[i], local, who);
      } else {
        OthersKeepAttempts(s.slots[i], local, who);
      }
    }
    hide StepSlot, Enabled, Sound, Apply;
  }

  lemma HistoriesGrow(s: State, e: Event)
    requires IsEnabled(s, e)
    ensures forall c <- s.clusters ::
              c in Step(s, e).clusters && s.clusters[c].history <= Step(s, e).clusters[c].history
  {
    hide StepSlot, Enabled, Sound, Apply;
  }

  lemma ReliesTwice(s: State, t: State, u: State, i: nat, who: Actor)
    requires Relies(s, t, i, who) && Relies(t, u, i, who)
    ensures Relies(s, u, i, who)
  {
    forall c <- s.clusters
      ensures c in u.clusters && s.clusters[c].history <= u.clusters[c].history
    {
      assert s.clusters[c].history <= t.clusters[c].history <= u.clusters[c].history;
    }
  }

  lemma RunAppend(s: State, es: seq<Event>, t: State, e: Event)
    requires Run(s, es, t) && IsEnabled(t, e)
    ensures Run(s, es + [e], Step(t, e))
    decreases |es|
  {
    if |es| == 0 {
      assert es + [e] == [e];
    } else {
      hide IsEnabled, Step;
      RunAppend(Step(s, es[0]), es[1..], t, e);
      assert (es + [e])[1..] == es[1..] + [e];
    }
  }

  /** The store, with the whole run that led to its state. */
  class ApiServer {
    var st: State
    ghost var trace: seq<Event>
    ghost var prev: State    // before the last event

    ghost predicate Valid()
      reads this
    {
      Inv(st) && Run(EMPTY, trace, st)
    }

    constructor ()
      ensures Valid() && st == EMPTY
    {
      st := EMPTY;
      trace := [];
      prev := EMPTY;
    }

    method Do(e: Event)
      requires Valid() && IsEnabled(st, e)
      modifies this
      ensures Valid() && st == Step(old(st), e) && trace == old(trace) + [e] && prev == old(st)
    {
      InvStep(st, e);
      RunAppend(EMPTY, trace, st, e);
      hide Run, IsEnabled, Step;
      prev := st;
      st := Step(st, e);
      trace := trace + [e];
    }

    /** Any number of events of any other drives, writers and users. */
    method Others(i: nat, who: Actor)
      requires Valid() && i < |st.slots|
      modifies this
      ensures Valid() && Relies(old(st), st, i, who) && old(trace) <= trace
      ensures forall k :: |old(trace)| <= k < |trace| ==> !IsBy(trace[k], i, who)
    {
      hide Run, Inv, Step, IsBy;
      var n: int := *;
      while n > 0
        invariant Valid() && Relies(old(st), st, i, who) && old(trace) <= trace
        invariant forall k :: |old(trace)| <= k < |trace| ==> !IsBy(trace[k], i, who)
      {
        var e: Event := *;
        if IsEnabled(st, e) && !IsBy(e, i, who) {
          StepRelies(st, e, i, who);
          ReliesTwice(old(st), st, Step(st, e), i, who);
          Do(e);
        }
        n := n - 1;
      }
    }

    /** Any number of events of anyone else, seen by a writer that is no drive. */
    method OtherWriters()
      requires Valid()
      modifies this
      ensures Valid() && old(trace) <= trace
      ensures forall c <- old(st.clusters) :: c in st.clusters && old(st.clusters)[c].history <= st.clusters[c].history
    {
      hide Run, Inv, Step;
      var n: int := *;
      while n > 0
        invariant Valid() && old(trace) <= trace
        invariant forall c <- old(st.clusters) ::
                    c in st.clusters && old(st.clusters)[c].history <= st.clusters[c].history
      {
        var e: Event := *;
        if IsEnabled(st, e) {
          HistoriesGrow(st, e);
          Do(e);
        }
        n := n - 1;
      }
    }

    /** One access of the drive that touches no advertisement, after others have acted. */
    method Access(i: nat, e: SlotEvent)
      requires Valid() && i < |st.slots| && Sound(st.slots[i])
      requires IsLocal(e) && Enabled(st.slots[i], e)
      modifies this
      ensures Valid() && i < |st.slots| && Sound(st.slots[i]) && Coherent(st.slots[i])
      ensures st.slots[i] == StepSlot(old(st.slots[i]), e) && st.clusters == old(st.clusters)
      ensures trace == old(trace) + [Local(i, e)] && prev == old(st)
    {
      LocalStep(st, i, e);
      CoherentStep(st.slots[i], e);
      hide Inv, StepSlot, Enabled;
      Do(Local(i, e));
    }

    /** Others act; the drive still reads what it read. */
    method Interfere(i: nat, who: Actor)
      requires Valid() && i < |st.slots|
      modifies this
      ensures Valid() && old(trace) <= trace && i < |st.slots|
      ensures Sound(old(st.slots[i])) && Sound(st.slots[i]) && Coherent(st.slots[i])
      ensures SameDrive(old(st.slots[i]), st.slots[i], who)
      ensures forall k :: |old(trace)| <= k < |trace| ==> !IsBy(trace[k], i, who)
      ensures forall c <- old(st.clusters) ::
                c in st.clusters && old(st.clusters)[c].history <= st.clusters[c].history
    {
      ghost var s := st;
      hide Inv;
      Others(i, who);
      ReadStays(s, st, i, who);
    }
  }

  // ----- events seen from one drive

  /** Where a drive of reservation i stands. */
  ghost predicate At(s: State, i: nat, who: Actor, d: Drive) {
    Inv(s) && i < |s.slots| && Sound(s.slots[i]) && DriveOf(s.slots[i], who) == d
  }

  lemma LocalStep(s: State, i: nat, e: SlotEvent)
    requires Inv(s) && i < |s.slots| && Sound(s.slots[i]) && IsLocal(e) && Enabled(s.slots[i], e)
    ensures IsEnabled(s, Local(i, e))
    ensures Step(s, Local(i, e)) == s.(slots := s.slots[i := StepSlot(s.slots[i], e)])
  {
  }

  /** The drive still reads what it read, whoever acted in between. */
  lemma ReadStays(s: State, t: State, i: nat, who: Actor)
    requires Inv(s) && Inv(t) && Relies(s, t, i, who)
    ensures Sound(s.slots[i]) && Sound(t.slots[i]) && Coherent(t.slots[i])
    ensures t.slots[i].spec == s.slots[i].spec && DriveOf(t.slots[i], who) == DriveOf(s.slots[i], who)
    ensures var d := DriveOf(s.slots[i], who);
            !d.Idle? ==> t.slots[i].history[d.base] == s.slots[i].history[d.base]
  {
  }

  /** An access that did not do what it was for: a write from an outdated version, or the last of all tries. */
  ghost predicate Faulty(s: State, e: Event) {
    match e
    case Local(i, local) =>
      && i < |s.slots| && Sound(s.slots[i])
      && (match local
          case AddFinalizer(who) =>
            !DriveOf(s.slots[i], who).Idle? && !CanWrite(s.slots[i], DriveOf(s.slots[i], who).base)
          case Select(_) => !s.slots[i].recon.Idle? && !CanWrite(s.slots[i], s.slots[i].recon.base)
          case Settle => !s.slots[i].recon.Idle? && !CanWrite(s.slots[i], s.slots[i].recon.base)
          case MarkReserved(_, v, _) => !CanWrite(s.slots[i], v)
          case MarkFailed(_, v) => !CanWrite(s.slots[i], v)
          case Quit(who) => NothingToRelease(s, TargetRead(s.slots[i], who))
          case _ => false)
    case LockAttempt(i, who, v) =>
      && i < |s.slots| && Sound(s.slots[i]) && DriveOf(s.slots[i], who).Working?
      && DriveOf(s.slots[i], who).tries == MAX_TRIES - 1 && Outdated(s, TargetRead(s.slots[i], who), v)
    case FreeAttempt(i, v, _) =>
      i < |s.slots| && Sound(s.slots[i]) && Outdated(s, TargetRead(s.slots[i], Reconciler), v)
    case Advertise(c, v, _) => Outdated(s, Some(c), v)
    case _ => false
  }

  ghost predicate Outdated(s: State, c: Option<ClusterId>, v: nat) {
    c.Some? && c.value in s.clusters && v + 1 < |s.clusters[c.value].history|
  }

  /** Some version of the target's advertisement has no reserved amount to release from. */
  ghost predicate NothingToRelease(s: State, c: Option<ClusterId>) {
    c.Some? && c.value in s.clusters && exists a <- s.clusters[c.value].history :: a.reserved.None?
  }

  /** A drive of reservation i is about to lock. */
  ghost predicate Locking(s: State, i: nat, who: Actor, base: nat, tries: nat) {
    && At(s, i, who, Working(base, tries)) && tries < MAX_TRIES
    && s.slots[i].history[base].target.Some?
    && (who == Reconciler ==> WantsLock(s.slots[i].spec, s.slots[i].history[base]))
  }

  lemma LockingStays(s: State, t: State, i: nat, who: Actor, base: nat, tries: nat)
    requires Locking(s, i, who, base, tries) && Inv(t) && Relies(s, t, i, who)
    ensures Locking(t, i, who, base, tries)
    ensures t.slots[i].spec == s.slots[i].spec && t.slots[i].history[base] == s.slots[i].history[base]
  {
    ReadStays(s, t, i, who);
  }

  lemma AttemptStep(s: State, i: nat, who: Actor, base: nat, tries: nat, v: nat)
    requires Locking(s, i, who, base, tries)
    requires var c := s.slots[i].history[base].target.value;
             && c in s.clusters && v < |s.clusters[c].history|
             && Ledger.CanReserve(s.clusters[c].history[v], s.slots[i].spec.request)
    ensures IsEnabled(s, LockAttempt(i, who, v))
    ensures var t, c := Step(s, LockAttempt(i, who, v)), s.slots[i].history[base].target.value;
            && i < |t.slots| && c in t.clusters && t.clusters[c].history != [] && t.clusters.Keys == s.clusters.Keys
            && t.slots[i].spec == s.slots[i].spec && t.slots[i].history == s.slots[i].history
            && (if v == |s.clusters[c].history| - 1
                then DriveOf(t.slots[i], who) == Locked(base, 0)
                     && t.clusters[c].history
                        == s.clusters[c].history + [Lock(s.clusters[c].history[v], s.slots[i].spec.request)]
                else DriveOf(t.slots[i], who) == AfterConflict(Working(base, tries), who) && t.clusters == s.clusters)
  {
    hide Coherent, Serial, Summarise, Sum;
  }

  lemma LockingAgain(s: State, t: State, i: nat, who: Actor, base: nat, tries: nat)
    requires Locking(s, i, who, base, tries) && Inv(t) && tries + 1 < MAX_TRIES
    requires i < |t.slots| && t.slots[i].spec == s.slots[i].spec && t.slots[i].history == s.slots[i].history
    requires DriveOf(t.slots[i], who) == AfterConflict(Working(base, tries), who)
    ensures Locking(t, i, who, base, tries + 1)
  {
    SoundNow(t, i);
  }

  lemma RefusalStep(s: State, i: nat, who: Actor, base: nat, tries: nat, seen: Option<nat>)
    requires Locking(s, i, who, base, tries)
    requires seen.Some? ==>
               var c := s.slots[i].history[base].target.value;
               && c in s.clusters && seen.value < |s.clusters[c].history|
               && !Ledger.CanReserve(s.clusters[c].history[seen.value], s.slots[i].spec.request)
    ensures IsEnabled(s, Refusal(i, who, seen))
    ensures var t := Step(s, Refusal(i, who, seen));
            && i < |t.slots| && DriveOf(t.slots[i], who) == Refused(base, 0) && t.clusters == s.clusters
            && t.slots[i].spec == s.slots[i].spec && t.slots[i].history == s.slots[i].history
  {
    hide Coherent, Serial, Summarise, Sum;
  }

  ghost predicate IsOwnLast(trace: seq<Event>, i: nat, who: Actor) {
    trace != [] && IsBy(Last(trace), i, who)
  }

  /** Why locking may be refused: no advertisement was found, or a stored version of it has too little. */
  ghost predicate Refusable(s: State, t: State, c: ClusterId, request: Amount, missing: set<nat>) {
    (exists k <- missing :: k < MAX_TRIES)
    || c !in s.clusters
    || (c in t.clusters && exists a <- t.clusters[c].history :: !Ledger.CanReserve(a, request))
  }

  /** The newest advertisement is the previous one with the request locked, which it had available. */
  ghost predicate JustLocked(s: State, c: ClusterId, request: Amount) {
    && c in s.clusters && |s.clusters[c].history| >= 2
    && var before := s.clusters[c].history[|s.clusters[c].history| - 2];
       Ledger.CanReserve(before, request) && Now(s, c) == Lock(before, request)
  }

  /** The conditional update of a lock, computed from version v. */
  method AttemptLock(server: ApiServer, i: nat, who: Actor, ghost base: nat, ghost tries: nat, c: ClusterId, v: nat)
    returns (ok: bool)
    requires server.Valid() && Locking(server.st, i, who, base, tries)
    requires server.st.slots[i].history[base].target == Some(c) && c in server.st.clusters
    requires v < |server.st.clusters[c].history|
    requires Ledger.CanReserve(server.st.clusters[c].history[v], server.st.slots[i].spec.request)
    modifies server
    ensures server.Valid() && old(server.trace) < server.trace && i < |server.st.slots|
    ensures old(server.st.slots[i].history) <= server.st.slots[i].history
    ensures server.st.slots[i].spec == old(server.st.slots[i].spec)
    ensures forall c <- old(server.st.clusters) :: c in server.st.clusters
    ensures IsBy(Last(server.trace), i, who) && Last(server.trace).LockAttempt?
    ensures ok ==> DriveOf(server.st.slots[i], who) == Locked(base, 0)
    ensures ok ==> JustLocked(server.st, c, server.st.slots[i].spec.request)
                   && Now(server.st, c) == Lock(old(server.st.clusters[c].history)[v], server.st.slots[i].spec.request)
    ensures !ok ==> DriveOf(server.st.slots[i], who) == AfterConflict(Working(base, tries), who)
    ensures !ok && tries + 1 < MAX_TRIES ==> Locking(server.st, i, who, base, tries + 1)
    ensures !ok && tries + 1 == MAX_TRIES ==> Faulty(server.prev, Last(server.trace))
  {
    hide Inv, Run, IsEnabled, Step, Coherent, Enabled, StepSlot, MayLock, Serial, Summarise, Apply;
    ghost var s := server.st;
    server.Others(i, who);
    LockingStays(s, server.st, i, who, base, tries);
    assert server.st.clusters[c].history[v] == s.clusters[c].history[v];
    AttemptStep(server.st, i, who, base, tries, v);
    server.Do(LockAttempt(i, who, v));
    ok := DriveOf(server.st.slots[i], who).Locked?;
    if !ok && tries + 1 < MAX_TRIES {
      LockingAgain(server.prev, server.st, i, who, base, tries);
    }
  }

  /**
   One try of the lock: the closure that RetryOnConflict runs, for the reconciler and for the handler. None asks for
   another try. `missing` are the tries that find no advertisement.
   */
  method LockOnce(server: ApiServer, i: nat, who: Actor, ghost base: nat, tries: nat, missing: set<nat>)
    returns (result: Option<LockResult>)
    requires server.Valid() && Locking(server.st, i, who, base, tries)
    modifies server
    ensures server.Valid() && old(server.trace) < server.trace && i < |server.st.slots|
    ensures old(server.st.slots[i].history) <= server.st.slots[i].history
    ensures server.st.slots[i].spec == old(server.st.slots[i].spec)
    ensures forall c <- old(server.st.clusters) :: c in server.st.clusters
    ensures IsOwnLast(server.trace, i, who)
    ensures var d := DriveOf(server.st.slots[i], who);
            match result
            case Some(Granted) => d == Locked(base, 0) && Last(server.trace).LockAttempt?
            case Some(TargetNotFound) => d == Refused(base, 0) && Last(server.trace) == Refusal(i, who, None)
            case Some(Insufficient) =>
              d == Refused(base, 0) && Last(server.trace).Refusal? && Last(server.trace).seen.Some?
            case Some(GaveUp) => false
            case None => d == AfterConflict(Working(base, tries), who) && Last(server.trace).LockAttempt?
    ensures result.None? && tries + 1 < MAX_TRIES ==> Locking(server.st, i, who, base, tries + 1)
    ensures result.None? && tries + 1 == MAX_TRIES ==> Faulty(server.prev, Last(server.trace))
    ensures old(server.st.slots[i].history)[base].target.Some?
    ensures result == Some(Granted) ==>
              JustLocked(server.st, old(server.st.slots[i].history)[base].target.value, server.st.slots[i].spec.request)
    ensures result == Some(TargetNotFound) || result == Some(Insufficient) ==>
              Refusable(old(server.st), server.st, old(server.st.slots[i].history)[base].target.value,
                        server.st.slots[i].spec.request, missing)
  {
    hide Inv, Run, IsEnabled, Step, Coherent, Enabled, StepSlot, MayLock, Serial, Summarise, Apply, Faulty;
    ghost var s0 := server.st;
    server.Others(i, who);
    LockingStays(s0, server.st, i, who, base, tries);
    var slot := server.st.slots[i];
    var target := slot.history[DriveOf(slot, who).base].target.value;
    if tries in missing || target !in server.st.clusters {
      RefusalStep(server.st, i, who, base, tries, None);
      server.Do(Refusal(i, who, None));
      return Some(TargetNotFound);
    }
    SomeVersion(server.st, target);
    var v: nat :| v < |server.st.clusters[target].history|;  // the version in the cache
    var copy := new ClusterAdvertisement(server.st.clusters[target].history[v]);
    var enough := copy.CanReserve(slot.spec.request);
    if !enough {
      RefusalStep(server.st, i, who, base, tries, Some(v));
      server.Do(Refusal(i, who, Some(v)));
      return Some(Insufficient);
    }
    copy.AddReservation(slot.spec.request);
    var ok := AttemptLock(server, i, who, base, tries, target, v);
    assert ok ==> Now(server.st, target) == copy.Spec();
    return if ok then Some(Granted) else None;
  }

  /** RetryOnConflict around the lock. */
  method LockWithRetry(server: ApiServer, i: nat, who: Actor, ghost base: nat, missing: set<nat>)
    returns (result: LockResult)
    requires server.Valid() && Locking(server.st, i, who, base, 0)
    modifies server
    ensures server.Valid() && old(server.trace) <= server.trace && i < |server.st.slots|
    ensures base < |old(server.st.slots[i].history)| && old(server.st.slots[i].history) <= server.st.slots[i].history
    ensures server.st.slots[i].spec == old(server.st.slots[i].spec)
    ensures var d := DriveOf(server.st.slots[i], who);
            && IsOwnLast(server.trace, i, who) && |old(server.trace)| < |server.trace|
            && match result
               case Granted => d == Locked(base, 0) && Last(server.trace).LockAttempt?
               case GaveUp =>
                 && d == AfterConflict(Working(base, MAX_TRIES - 1), who)
                 && Last(server.trace).LockAttempt? && Faulty(server.prev, Last(server.trace))
               case TargetNotFound => d == Refused(base, 0) && Last(server.trace) == Refusal(i, who, None)
               case Insufficient =>
                 d == Refused(base, 0) && Last(server.trace).Refusal? && Last(server.trace).seen.Some?
    ensures old(server.st.slots[i].history)[base].target.Some?
    ensures result == Granted ==>
              JustLocked(server.st, old(server.st.slots[i].history)[base].target.value, server.st.slots[i].spec.request)
    ensures result == TargetNotFound || result == Insufficient ==>
              Refusable(old(server.st), server.st, old(server.st.slots[i].history)[base].target.value,
                        server.st.slots[i].spec.request, missing)
  {
    hide Inv, Run, IsEnabled, Step, Coherent, Enabled, StepSlot, MayLock, Serial, Summarise, Apply, Faulty;
    var tries := 0;
    while true
      invariant server.Valid() && Locking(server.st, i, who, base, tries) && old(server.trace) <= server.trace
      invariant old(server.st.slots[i].history) <= server.st.slots[i].history
      invariant server.st.slots[i].spec == old(server.st.slots[i].spec)
      invariant forall c <- old(server.st.clusters) :: c in server.st.clusters
      decreases MAX_TRIES - tries
    {
      var tried := LockOnce(server, i, who, base, tries, missing);
      if tried.Some? {
        return tried.value;
      }
      tries := tries + 1;
      if tries == MAX_TRIES {
        return GaveUp;
      }
    }
  }

  lemma RefusableStays(s: State, t: State, u: State, c: ClusterId, request: Amount, missing: set<nat>)
    requires Refusable(s, t, c, request, missing)
    requires forall c <- t.clusters :: c in u.clusters && t.clusters[c].history <= u.clusters[c].history
    ensures Refusable(s, u, c, request, missing)
  {
    if c in t.clusters {
      assert t.clusters[c].history <= u.clusters[c].history;
      forall a <- t.clusters[c].history
        ensures a in u.clusters[c].history
      {
        var k :| 0 <= k < |t.clusters[c].history| && t.clusters[c].history[k] == a;
        assert u.clusters[c].history[k] == a;
      }
    }
  }

  lemma SomeVersion(s: State, c: ClusterId)
    requires Inv(s) && c in s.clusters
    ensures s.clusters[c].history != []
  {
  }

  /** A release attempt on the version that was read. */
  lemma FreeStep(s: State, i: nat, base: nat, v: nat, now: int)
    requires At(s, i, Reconciler, Working(base, 0)) && MayFree(s.slots[i], now)
    requires var c := s.slots[i].history[base].target.value;
             c in s.clusters && v < |s.clusters[c].history| && s.clusters[c].history[v].reserved.Some?
    ensures IsEnabled(s, FreeAttempt(i, v, now))
    ensures var t, c := Step(s, FreeAttempt(i, v, now)), s.slots[i].history[base].target.value;
            && i < |t.slots| && c in t.clusters && t.clusters[c].history != []
            && t.slots[i].spec == s.slots[i].spec && t.slots[i].history == s.slots[i].history
            && t.slots[i].frees == s.slots[i].frees + (if v == |s.clusters[c].history| - 1 then 1 else 0)
            && (if v == |s.clusters[c].history| - 1
                then t.slots[i].recon == Freed(base, Due(s.slots[i].spec, s.slots[i].history[base], now).value, true)
                     && Now(t, c) == Unlock(s.clusters[c].history[v], s.slots[i].spec.request)
                else t.slots[i].recon == Idle && t.clusters == s.clusters)
  {
    hide Coherent, Serial, Summarise, Sum;
  }

  lemma SoundNow(s: State, i: nat)
    requires Inv(s) && i < |s.slots|
    ensures Sound(s.slots[i]) && Coherent(s.slots[i])
  {
  }

  lemma RefuseStep(s: State, i: nat)
    requires Inv(s) && i < |s.slots| && Sound(s.slots[i]) && Enabled(s.slots[i], Refuse(Reconciler))
    ensures IsEnabled(s, Refusal(i, Reconciler, None))
    ensures Step(s, Refusal(i, Reconciler, None)) == s.(slots := s.slots[i := StepSlot(s.slots[i], Refuse(Reconciler))])
  {
  }

  lemma CreateStep(s: State, spec: ReservationSpec, target: ClusterId)
    requires Inv(s) && spec.Valid()
    ensures IsEnabled(s, Create(spec, Some(target), Handler))
    ensures Step(s, Create(spec, Some(target), Handler))
            == s.(slots := s.slots + [NewSlot(spec, Some(target), Handler)])
  {
  }

  lemma RegisterStep(s: State, c: ClusterId, advert: Advert)
    requires Inv(s) && c !in s.clusters
    ensures IsEnabled(s, Register(c, advert))
    ensures Step(s, Register(c, advert)).clusters == s.clusters[c := Cluster([advert], [])]
  {
  }

  lemma MergeStep(s: State, c: ClusterId, v: nat, incoming: Advert)
    requires Inv(s) && c in s.clusters && v < |s.clusters[c].history|
    ensures IsEnabled(s, Advertise(c, v, incoming))
    ensures var t := Step(s, Advertise(c, v, incoming));
            && c in t.clusters && t.clusters[c].history != []
            && (if v == |s.clusters[c].history| - 1
                then t.clusters[c].history == s.clusters[c].history + [Merge(s.clusters[c].history[v], incoming)]
                else t == s)
  {
    hide Coherent, Serial, Summarise, Sum;
  }

  function OutcomeOf(goal: Goal): Outcome {
    match goal
    case GoActive => Wrote(Active)
    case GoReleased => Wrote(Released)
    case GoAway => Gone
  }

  /** What the reconciler has to do with a version, unless an access fails. */
  predicate Appropriate(spec: ReservationSpec, r: Version, now: int, o: Outcome) {
    || o == Errored
    || (if r.deleting then o == (if r.finalizer then Gone else NothingDue)
        else if !spec.Valid() then o == Wrote(Failed)
        else match r.phase
          case Pending => o == Wrote(Reserved) || o == Wrote(Failed)
          case Reserved => o == AfterReserved(r.active, r.expiresAt, now)
          case Active => o == AfterActive(r.released, r.expiresAt, now)
          case _ => o == NothingDue)
  }

  /** Where a Reserved reservation goes: on once the requester is active, otherwise away when its time is over. */
  function AfterReserved(active: bool, expiresAt: Option<int>, now: int): Outcome {
    if active then Wrote(Active)
    else if expiresAt.Some? && expiresAt.value < now then Wrote(Released)
    else NothingDue
  }

  /** Where an Active reservation goes: away when the requester says so or its time is over. */
  function AfterActive(released: bool, expiresAt: Option<int>, now: int): Outcome {
    if released || (expiresAt.Some? && expiresAt.value < now) then Wrote(Released) else NothingDue
  }

  lemma AppropriateReserved(spec: ReservationSpec, r: Version, now: int, o: Outcome)
    requires Appropriate(spec, r, now, o) && !r.deleting && spec.Valid() && r.phase == Reserved
    ensures if r.active then o == Errored || o == Wrote(Active)
            else if r.expiresAt.Some? && now > r.expiresAt.value then o == Errored || o == Wrote(Released)
            else o == Errored || o == NothingDue
  {
  }

  /** A reservation that an orderly run has promoted or released is no longer counted: one lock, one release. */
  lemma SettledIsUncounted(es: seq<Event>, s: State, i: nat)
    requires i < |s.slots| && s.slots[i].history != []
    requires s.slots[i].recon.Idle? && Current(s.slots[i]).phase in {Active, Released}
    ensures OrderlyRun(EMPTY, es, s) ==> s.slots[i].locks == 1 == s.slots[i].frees && Counted(s.slots[i]) == 0
  {
    if OrderlyRun(EMPTY, es, s) {
      EmptyIsGood();
      OrderlyRunsAreGood(EMPTY, es, s);
      hide OrderlyRun, Inv;
      assert Tidy(s.slots[i]);
    }
  }

  /**
   The drive is over, its last event is the last one of the run, and the store shows what it wrote; an error means that
   this last access was at fault.
   */
  ghost predicate Ended(s: State, before: seq<Event>, prev: State, t: State, trace: seq<Event>, i: nat, o: Outcome) {
    && i < |s.slots| && i < |t.slots| && Sound(t.slots[i]) && t.slots[i].recon.Idle?
    && t.slots[i].spec == s.slots[i].spec && s.slots[i].history <= t.slots[i].history
    && before < trace && IsOwnLast(trace, i, Reconciler)
    && match o
       case Wrote(phase) => Current(t.slots[i]).phase == phase
       case Gone => !t.slots[i].live
       case Errored => Faulty(prev, Last(trace))
       case NothingDue => Last(trace) == Local(i, Quit(Reconciler))
  }

  /** What the reconciler asks the decision engine. */
  function QueryOf(spec: ReservationSpec, gpu: Option<int>, priority: int, policy: string): Ranking.Query {
    Ranking.Query(spec.requester, Quantities(spec.request.cpu, spec.request.memory, gpu), priority, 1, policy)
  }

  /** No eligible cluster comes before this one in the order of the policy, if all of them have a score. */
  ghost predicate RanksFirst(list: seq<Ranking.Cluster>, q: Ranking.Query, readings: seq<Ranking.Reading>, k: nat)
    requires k < |list| == |readings|
  {
    var from, all := Ranking.EligibleBelow(list, q, |list|), Ranking.Scorings(list, q, readings);
    (forall i <- from :: Ranking.Scoring(list, q, readings, i).score.Some?) ==>
      forall i <- from ::
        if q.policy == "latency" then
          (all[k].isActual ==> all[i].isActual)
          && (all[k].isActual == all[i].isActual ==> Ranking.NotAfter(all[k], all[i], Ranking.LowerFirst))
        else Ranking.NotAfter(all[k], all[i], if q.policy == "eco" then Ranking.LowerFirst else Ranking.HigherFirst)
  }

  lemma OnlyAnswerRanksFirst(list: seq<Ranking.Cluster>, q: Ranking.Query, readings: seq<Ranking.Reading>, k: nat)
    requires k < |list| == |readings| && k in Ranking.EligibleBelow(list, q, |list|)
    requires var from, all := Ranking.EligibleBelow(list, q, |list|), Ranking.Scorings(list, q, readings);
             (forall i <- from :: Ranking.Scoring(list, q, readings, i).score.Some?) ==>
               if q.policy == "latency" then Ranking.NewestThenBest([k], from, all)
               else
                 Ranking.BestOf([k], from, all, if q.policy == "eco" then Ranking.LowerFirst else Ranking.HigherFirst)
    ensures RanksFirst(list, q, readings, k)
  {
    hide Ranking.Eligible, Ranking.Scoring, Ranking.EligibleBelow;
    assert [k][0] == k && k in [k];
  }

  lemma EligibleHasRoom(c: Ranking.Cluster, q: Ranking.Query)
    requires Ranking.Eligible(c, q)
    ensures Ledger.CanReserve(c.spec, q.request.Lockable()) && c.id != q.requester
  {
  }

  /** The cluster in which a drive reserves: the target it read, or the one ranked first. */
  function Chosen(r: Version, pass: Pass): Option<ClusterId> {
    if r.target.Some? then r.target else pass.ranked
  }

  /** Reserved names the chosen cluster and the expiry time; Failed has a reason. */
  ghost predicate Justified(s: State, t: State, i: nat, r: Version, pass: Pass, o: Outcome) {
    && i < |t.slots| && t.slots[i].history != []
    && (o == Wrote(Reserved) ==>
          && Current(t.slots[i]).target == Chosen(r, pass)
          && (t.slots[i].spec.duration.Some? ==>
                Current(t.slots[i]).expiresAt == Some(pass.confirmedAt + t.slots[i].spec.duration.value)))
    && (o == Wrote(Failed) && t.slots[i].spec.Valid() ==>
          Chosen(r, pass).None? || Refusable(s, t, Chosen(r, pass).value, t.slots[i].spec.request, pass.missing))
  }

  lemma NoChoice(s: State, t: State, i: nat, r: Version, pass: Pass, o: Outcome)
    requires i < |t.slots| && t.slots[i].history != []
    requires o != Wrote(Reserved)
    requires o == Wrote(Failed) && t.slots[i].spec.Valid() ==> Chosen(r, pass).None?
    ensures Justified(s, t, i, r, pass, o)
  {
  }

  lemma JustifiedEarlier(s: State, s': State, t: State, i: nat, r: Version, r': Version, pass: Pass, o: Outcome)
    requires Justified(s', t, i, r', pass, o) && Chosen(r, pass) == Chosen(r', pass)
    requires forall c <- s.clusters :: c in s'.clusters
    ensures Justified(s, t, i, r, pass, o)
  {
  }

  /** The drive that read r has released the request once, if r names a target that was listed. */
  ghost predicate ReleasedOnce(s: State, t: State, i: nat, r: Version, listed: bool) {
    && i < |s.slots| && i < |t.slots|
    && (r.phase == Reserved && r.target.Some? && listed && r.target.value in s.clusters ==>
          t.slots[i].frees == s.slots[i].frees + 1)
  }

  /** The drive has done what it had to release for. */
  predicate Releases(r: Version, o: Outcome) {
    r.phase == Reserved && if r.deleting then o == Gone else o == Wrote(Active) || o == Wrote(Released)
  }

  lemma ReleasedEarlier(s: State, s': State, t: State, i: nat, r: Version, listed: bool)
    requires ReleasedOnce(s', t, i, r, listed) && i < |s.slots| && s.slots[i].frees == s'.slots[i].frees
    requires forall c <- s.clusters :: c in s'.clusters
    ensures ReleasedOnce(s, t, i, r, listed)
  {
  }

  class ReservationReconciler {
    const server: ApiServer

    constructor (server: ApiServer)
      ensures this.server == server
    {
      this.server := server;
    }

    /** The conditional update of a release, computed from version v. */
    method AttemptRelease(i: nat, ghost base: nat, now: int, c: ClusterId, v: nat) returns (ok: bool)
      requires server.Valid() && At(server.st, i, Reconciler, Working(base, 0)) && MayFree(server.st.slots[i], now)
      requires server.st.slots[i].history[base].target == Some(c) && c in server.st.clusters
      requires v < |server.st.clusters[c].history| && server.st.clusters[c].history[v].reserved.Some?
      modifies server
      ensures server.Valid() && old(server.trace) < server.trace && i < |server.st.slots|
      ensures server.st.slots[i].spec == old(server.st.slots[i].spec)
      ensures old(server.st.slots[i].history) <= server.st.slots[i].history
      ensures IsOwnLast(server.trace, i, Reconciler)
      ensures Sound(old(server.st.slots[i])) && base < |old(server.st.slots[i].history)|
      ensures ok ==> var due := Due(old(server.st.slots[i].spec), old(server.st.slots[i].history)[base], now);
                     due.Some? && server.st.slots[i].recon == Freed(base, due.value, true)
      ensures ok ==> c in server.st.clusters && server.st.clusters[c].history != []
                     && Now(server.st, c)
                        == Unlock(old(server.st.clusters[c].history)[v], old(server.st.slots[i].spec.request))
      ensures server.st.slots[i].frees == old(server.st.slots[i].frees) + if ok then 1 else 0
      ensures !ok ==> server.st.slots[i].recon == Idle && Faulty(server.prev, Last(server.trace))
    {
      hide Inv, Run, IsEnabled, Step, Coherent, Serial, Summarise, Apply;
      ghost var s := server.st;
      server.Interfere(i, Reconciler);
      assert server.st.clusters[c].history[v] == s.clusters[c].history[v];
      FreeStep(server.st, i, base, v, now);
      server.Do(FreeAttempt(i, v, now));
      ok := server.st.slots[i].recon.Freed?;
    }

    /** releaseResources: an error leaves no trace; otherwise the drive goes on to write the phase. */
    method ReleaseResources(i: nat, ghost base: nat, now: int, listed: bool) returns (ok: bool)
      requires server.Valid() && At(server.st, i, Reconciler, Working(base, 0))
      requires Due(server.st.slots[i].spec, server.st.slots[i].history[base], now).Some?
      modifies server
      ensures server.Valid() && old(server.trace) < server.trace && i < |server.st.slots|
      ensures Sound(old(server.st.slots[i])) && base < |old(server.st.slots[i].history)|
      ensures server.st.slots[i].spec == old(server.st.slots[i].spec)
      ensures old(server.st.slots[i].history) <= server.st.slots[i].history
      ensures IsOwnLast(server.trace, i, Reconciler)
      ensures server.st.slots[i].frees
              == old(server.st.slots[i].frees)
                 + if ok && server.st.slots[i].recon.Freed? && server.st.slots[i].recon.counted then 1 else 0
      ensures var d, r := server.st.slots[i].recon, old(server.st.slots[i].history)[base];
              if ok then d.Freed? && d.base == base && (d.counted ==> r.phase == Reserved)
                         && Some(d.goal) == Due(old(server.st.slots[i].spec), r, now)
                         && (!d.counted ==> r.phase != Reserved || r.target.None? || !listed
                                            || r.target.value !in old(server.st.clusters))
              else d.Idle? && r.phase == Reserved && Faulty(server.prev, Last(server.trace))
    {
      hide Inv, Run, IsEnabled, Step, Coherent, Serial, Summarise, Apply;
      server.Interfere(i, Reconciler);
      var slot := server.st.slots[i];
      var r := slot.history[slot.recon.base];
      if r.phase != Reserved || r.target.None? || !listed || r.target.value !in server.st.clusters {
        server.Access(i, FreeSkip(now));
        return true;
      }
      ok := RemoveAndUpdate(i, base, now, r.target.value);
    }

    /** The release of a listed target: the computation on the version in the cache, and the conditional update. */
    method RemoveAndUpdate(i: nat, ghost base: nat, now: int, c: ClusterId) returns (ok: bool)
      requires server.Valid() && At(server.st, i, Reconciler, Working(base, 0)) && MayFree(server.st.slots[i], now)
      requires server.st.slots[i].history[base].target == Some(c) && c in server.st.clusters
      modifies server
      ensures server.Valid() && old(server.trace) < server.trace && i < |server.st.slots|
      ensures server.st.slots[i].spec == old(server.st.slots[i].spec)
      ensures old(server.st.slots[i].history) <= server.st.slots[i].history
      ensures IsOwnLast(server.trace, i, Reconciler)
      ensures Sound(old(server.st.slots[i])) && base < |old(server.st.slots[i].history)|
      ensures ok ==> var due := Due(old(server.st.slots[i].spec), old(server.st.slots[i].history)[base], now);
                     due.Some? && server.st.slots[i].recon == Freed(base, due.value, true)
      ensures server.st.slots[i].frees == old(server.st.slots[i].frees) + if ok then 1 else 0
      ensures !ok ==> server.st.slots[i].recon == Idle && Faulty(server.prev, Last(server.trace))
    {
      hide Inv, Run, IsEnabled, Step, Coherent, Serial, Summarise, Apply;
      SoundNow(server.st, i);
      SomeVersion(server.st, c);
      var v: nat :| v < |server.st.clusters[c].history|;  // the version in the cache
      var copy := new ClusterAdvertisement(server.st.clusters[c].history[v]);
      var removed := copy.RemoveReservation(server.st.slots[i].spec.request);
      if !removed {
        server.Access(i, Quit(Reconciler));
        return false;
      }
      ok := AttemptRelease(i, base, now, c, v);
      assert ok ==> Now(server.st, c) == copy.Spec();
    }

    /** The phase write, or the finalizer removal, after a release. */
    method Conclude(i: nat, intended: Outcome) returns (o: Outcome)
      requires server.Valid() && i < |server.st.slots| && server.st.slots[i].recon.Freed?
      requires OutcomeOf(server.st.slots[i].recon.goal) == intended
      modifies server
      ensures Ended(old(server.st), old(server.trace), server.prev, server.st, server.trace, i, o)
      ensures o == Errored || o == intended
      ensures server.st.slots[i].frees == old(server.st.slots[i].frees)
      ensures server.Valid()
    {
      hide Inv, Run, Coherent;
      server.Interfere(i, Reconciler);
      var d := server.st.slots[i].recon;
      o := if CanWrite(server.st.slots[i], d.base) then intended else Errored;
      server.Access(i, Settle);
    }

    /** Releasing and the write that it is for. */
    method ReleaseAndConclude(i: nat, ghost base: nat, now: int, listed: bool, intended: Outcome) returns (o: Outcome)
      requires server.Valid() && At(server.st, i, Reconciler, Working(base, 0))
      requires var due := Due(server.st.slots[i].spec, server.st.slots[i].history[base], now);
               due.Some? && OutcomeOf(due.value) == intended
      modifies server
      ensures Ended(old(server.st), old(server.trace), server.prev, server.st, server.trace, i, o)
      ensures o == Errored || o == intended
      ensures Sound(old(server.st.slots[i])) && base < |old(server.st.slots[i].history)|
      ensures o != Errored ==> ReleasedOnce(old(server.st), server.st, i, old(server.st.slots[i].history)[base], listed)
      ensures server.Valid()
    {
      hide Inv, Run, Coherent, Due;
      var ok := ReleaseResources(i, base, now, listed);
      if !ok {
        SoundNow(server.st, i);
        return Errored;
      }
      o := Conclude(i, intended);
    }

    method Leave(i: nat, ghost base: nat) returns (o: Outcome)
      requires server.Valid() && At(server.st, i, Reconciler, Working(base, 0))
      modifies server
      ensures Ended(old(server.st), old(server.trace), server.prev, server.st, server.trace, i, o)
      ensures o == NothingDue && server.Valid()
    {
      hide Inv, Run, Coherent;
      SoundNow(server.st, i);
      server.Access(i, Quit(Reconciler));
      return NothingDue;
    }

    method Fail(i: nat) returns (o: Outcome)
      requires server.Valid() && i < |server.st.slots| && server.st.slots[i].recon.Refused?
      modifies server
      ensures Ended(old(server.st), old(server.trace), server.prev, server.st, server.trace, i, o)
      ensures o == Errored || o == Wrote(Failed)
      ensures server.Valid()
      ensures forall c <- old(server.st.clusters) ::
                c in server.st.clusters && old(server.st.clusters)[c].history <= server.st.clusters[c].history
    {
      hide Inv, Run, Coherent;
      server.Interfere(i, Reconciler);
      var base := server.st.slots[i].recon.base;
      o := if CanWrite(server.st.slots[i], base) then Wrote(Failed) else Errored;
      server.Access(i, MarkFailed(Reconciler, base));
    }

    method Confirm(i: nat, at: int) returns (o: Outcome)
      requires server.Valid() && i < |server.st.slots| && server.st.slots[i].recon.Locked?
      modifies server
      ensures Ended(old(server.st), old(server.trace), server.prev, server.st, server.trace, i, o)
      ensures o == Errored || o == Wrote(Reserved)
      ensures Sound(old(server.st.slots[i]))
      ensures o == Wrote(Reserved) ==>
                var slot, r := server.st.slots[i], old(server.st.slots[i].history)[old(server.st.slots[i].recon).base];
                Current(slot) == Confirmed(slot.spec, r, at)
      ensures server.Valid()
    {
      hide Inv, Run, Coherent;
      server.Interfere(i, Reconciler);
      var base := server.st.slots[i].recon.base;
      o := if CanWrite(server.st.slots[i], base) then Wrote(Reserved) else Errored;
      server.Access(i, MarkReserved(Reconciler, base, at));
    }

    /** reserveInTargetCluster: lock, then write the phase that the outcome calls for. */
    method ReserveInTargetCluster(i: nat, ghost base: nat, pass: Pass) returns (o: Outcome)
      requires server.Valid() && Locking(server.st, i, Reconciler, base, 0)
      modifies server
      ensures Ended(old(server.st), old(server.trace), server.prev, server.st, server.trace, i, o)
      ensures o == Errored || o == Wrote(Reserved) || o == Wrote(Failed)
      ensures base < |old(server.st.slots[i].history)|
      ensures Justified(old(server.st), server.st, i, old(server.st.slots[i].history)[base], pass, o)
      ensures server.Valid()
    {
      hide Inv, Run, Coherent;
      var result := LockWithRetry(server, i, Reconciler, base, pass.missing);
      match result
      case Granted => o := Confirm(i, pass.confirmedAt);
      case GaveUp =>
        SoundNow(server.st, i);
        o := Errored;
      case _ =>
        ghost var refused := server.st;
        o := Fail(i);
        RefusableStays(old(server.st), refused, server.st, old(server.st.slots[i].history)[base].target.value,
                       server.st.slots[i].spec.request, pass.missing);
    }

    /**
     The target of a reservation that names none, at a position of the list that the decision engine reads: the first
     one in the order of the policy. Its version in the list has room for the lock, because filter and guard agree.
     */
    method SelectTarget(list: seq<Ranking.Cluster>, spec: ReservationSpec, gpu: Option<int>, priority: int,
                        policy: string, readings: seq<Ranking.Reading>)
      returns (at: Option<nat>)
      requires |list| == |readings|
      ensures var q := QueryOf(spec, gpu, priority, policy);
              at.None? <==> || (policy == "latency" && !Ranking.RequesterLocated(list, spec.requester))
                            || forall i :: 0 <= i < |list| ==> !Ranking.Eligible(list[i], q)
      ensures at.Some? ==>
                && at.value < |list| && Ranking.Eligible(list[at.value], QueryOf(spec, gpu, priority, policy))
                && Ledger.CanReserve(list[at.value].spec, spec.request) && list[at.value].id != spec.requester
      ensures at.Some? ==> RanksFirst(list, QueryOf(spec, gpu, priority, policy), readings, at.value)
    {
      var q := QueryOf(spec, gpu, priority, policy);
      var answer := Ranking.RankClusters(list, q, readings);
      hide Ranking.Scoring, Ranking.Eligible, Ranking.RequesterLocated, Ranking.NotAfter;
      if answer.Refused? || |answer.best| == 0 {
        assert answer.Ranked? ==> Ranking.EligibleBelow(list, q, |list|) == {};
        assert forall i :: 0 <= i < |list| && Ranking.Eligible(list[i], q) ==>
                             i in Ranking.EligibleBelow(list, q, |list|);
        assert answer.Refused? ==>
                 answer.error.NoClusters? || answer.error.RequesterNotLocated? || answer.error.NoneSuitable?;
        return None;
      }
      at := Some(answer.best[0]);
      assert at.value in Ranking.EligibleBelow(list, q, |list|);
      EligibleHasRoom(list[at.value], q);
      assert answer.best == [at.value];
      hide Ranking.EligibleBelow, Ranking.NewestThenBest, Ranking.BestOf, RanksFirst;
      OnlyAnswerRanksFirst(list, q, readings, at.value);
    }

    /** handlePendingReservation: pick a target if there is none yet. */
    method HandlePending(i: nat, ghost base: nat, pass: Pass) returns (o: Outcome)
      requires server.Valid() && At(server.st, i, Reconciler, Working(base, 0))
      requires WantsLock(server.st.slots[i].spec, server.st.slots[i].history[base])
      modifies server
      ensures Ended(old(server.st), old(server.trace), server.prev, server.st, server.trace, i, o)
      ensures o == Errored || o == Wrote(Reserved) || o == Wrote(Failed)
      ensures base < |old(server.st.slots[i].history)|
      ensures Justified(old(server.st), server.st, i, old(server.st.slots[i].history)[base], pass, o)
      ensures server.Valid()
    {
      hide Inv, Run, Coherent, Justified;
      var slot := server.st.slots[i];
      if slot.history[slot.recon.base].target.Some? {
        o := ReserveInTargetCluster(i, base, pass);
        return;
      }
      if pass.ranked.None? {
        RefuseStep(server.st, i);
        server.Do(Refusal(i, Reconciler, None));
        o := Fail(i);
        NoChoice(old(server.st), server.st, i, slot.history[slot.recon.base], pass, o);
        return;
      }
      server.Interfere(i, Reconciler);
      ghost var n := |server.st.slots[i].history|;
      server.Access(i, Select(pass.ranked.value));
      if server.st.slots[i].recon.Idle? {
        NoChoice(old(server.st), server.st, i, slot.history[slot.recon.base], pass, Errored);
        return Errored;
      }
      ghost var s1 := server.st;
      o := ReserveInTargetCluster(i, n, pass);
      JustifiedEarlier(old(server.st), s1, server.st, i,
                       old(server.st.slots[i].history)[base], s1.slots[i].history[n], pass, o);
    }

    /** handleReservedReservation: promote once the requester is active, release on expiry. */
    method HandleReservedReservation(i: nat, ghost base: nat, now: int, listed: bool) returns (o: Outcome)
      requires server.Valid() && At(server.st, i, Reconciler, Working(base, 0))
      requires var r := server.st.slots[i].history[base];
               !r.deleting && r.finalizer && server.st.slots[i].spec.Valid() && r.phase == Reserved
      modifies server
      ensures Ended(old(server.st), old(server.trace), server.prev, server.st, server.trace, i, o)
      ensures Sound(old(server.st.slots[i])) && base < |old(server.st.slots[i].history)|
      ensures var r := old(server.st.slots[i].history)[base];
              if r.active then o == Errored || o == Wrote(Active)
              else if r.expiresAt.Some? && now > r.expiresAt.value then o == Errored || o == Wrote(Released)
              else o == NothingDue
      ensures o == Wrote(Active) || o == Wrote(Released) ==>
                ReleasedOnce(old(server.st), server.st, i, old(server.st.slots[i].history)[base], listed)
      ensures server.Valid()
    {
      hide Inv, Run, Coherent;
      var reservation := server.st.slots[i].history[server.st.slots[i].recon.base];
      if reservation.active {
        o := ReleaseAndConclude(i, base, now, listed, Wrote(Active));
        return;
      }
      if reservation.expiresAt.Some? && now > reservation.expiresAt.value {
        o := ReleaseAndConclude(i, base, now, listed, Wrote(Released));
        return;
      }
      o := Leave(i, base);
    }

    /** handleActiveReservation: release when the requester says so or on expiry. */
    method HandleActiveReservation(i: nat, ghost base: nat, now: int, listed: bool) returns (o: Outcome)
      requires server.Valid() && At(server.st, i, Reconciler, Working(base, 0))
      requires var r := server.st.slots[i].history[base];
               !r.deleting && r.finalizer && server.st.slots[i].spec.Valid() && r.phase == Active
      modifies server
      ensures Ended(old(server.st), old(server.trace), server.prev, server.st, server.trace, i, o)
      ensures Sound(old(server.st.slots[i])) && base < |old(server.st.slots[i].history)|
      ensures var r := old(server.st.slots[i].history)[base];
              if r.released || (r.expiresAt.Some? && now > r.expiresAt.value) then o == Errored || o == Wrote(Released)
              else o == NothingDue
      ensures server.Valid()
    {
      hide Inv, Run, Coherent;
      var reservation := server.st.slots[i].history[server.st.slots[i].recon.base];
      if reservation.released {
        o := ReleaseAndConclude(i, base, now, listed, Wrote(Released));
        return;
      }
      if reservation.expiresAt.Some? && now > reservation.expiresAt.value {
        o := ReleaseAndConclude(i, base, now, listed, Wrote(Released));
        return;
      }
      o := Leave(i, base);
    }

    /** The deletion branch of Reconcile: release, then remove the finalizer. */
    method HandleDeletion(i: nat, ghost base: nat, now: int, listed: bool) returns (o: Outcome)
      requires server.Valid() && At(server.st, i, Reconciler, Working(base, 0))
      requires server.st.slots[i].history[base].deleting
      modifies server
      ensures Ended(old(server.st), old(server.trace), server.prev, server.st, server.trace, i, o)
      ensures Sound(old(server.st.slots[i])) && base < |old(server.st.slots[i].history)|
      ensures if old(server.st.slots[i].history)[base].finalizer then o == Errored || o == Gone else o == NothingDue
      ensures o == Gone ==> ReleasedOnce(old(server.st), server.st, i, old(server.st.slots[i].history)[base], listed)
      ensures Appropriate(old(server.st.slots[i].spec), old(server.st.slots[i].history)[base], now, o)
      ensures o != Wrote(Reserved) && o != Wrote(Failed)
      ensures server.Valid()
    {
      hide Inv, Run, Coherent;
      if server.st.slots[i].history[server.st.slots[i].recon.base].finalizer {
        o := ReleaseAndConclude(i, base, now, listed, Gone);
        return;
      }
      o := Leave(i, base);
    }

    /** What follows once the finalizer is in place: validation and the switch over the phase. */
    method Process(i: nat, ghost base: nat, now: int, pass: Pass) returns (o: Outcome)
      requires server.Valid() && At(server.st, i, Reconciler, Working(base, 0))
      requires !server.st.slots[i].history[base].deleting && server.st.slots[i].history[base].finalizer
      modifies server
      ensures Ended(old(server.st), old(server.trace), server.prev, server.st, server.trace, i, o)
      ensures Sound(old(server.st.slots[i])) && base < |old(server.st.slots[i].history)|
      ensures Appropriate(old(server.st.slots[i].spec), old(server.st.slots[i].history)[base], now, o)
      ensures Releases(old(server.st.slots[i].history)[base], o) ==>
                ReleasedOnce(old(server.st), server.st, i, old(server.st.slots[i].history)[base], pass.listed)
      ensures Justified(old(server.st), server.st, i, old(server.st.slots[i].history)[base], pass, o)
      ensures server.Valid()
    {
      hide Inv, Run, Coherent, Justified;
      var slot := server.st.slots[i];
      ghost var r := slot.history[slot.recon.base];
      if !slot.spec.Valid() {
        RefuseStep(server.st, i);
        server.Do(Refusal(i, Reconciler, None));
        o := Fail(i);
        NoChoice(old(server.st), server.st, i, r, pass, o);
        return;
      }
      match slot.history[slot.recon.base].phase {
        case Pending =>
          o := HandlePending(i, base, pass);
          return;
        case Reserved => o := HandleReservedReservation(i, base, now, pass.listed);
        case Active => o := HandleActiveReservation(i, base, now, pass.listed);
        case _ => o := Leave(i, base);
      }
      NoChoice(old(server.st), server.st, i, r, pass, o);
    }

    method ProtectAndProcess(i: nat, ghost base: nat, now: int, pass: Pass) returns (o: Outcome)
      requires server.Valid() && At(server.st, i, Reconciler, Working(base, 0))
      requires !server.st.slots[i].history[base].deleting
      modifies server
      ensures Ended(old(server.st), old(server.trace), server.prev, server.st, server.trace, i, o)
      ensures Sound(old(server.st.slots[i])) && base < |old(server.st.slots[i].history)|
      ensures Appropriate(old(server.st.slots[i].spec), old(server.st.slots[i].history)[base], now, o)
      ensures Releases(old(server.st.slots[i].history)[base], o) ==>
                ReleasedOnce(old(server.st), server.st, i, old(server.st.slots[i].history)[base], pass.listed)
      ensures Justified(old(server.st), server.st, i, old(server.st.slots[i].history)[base], pass, o)
      ensures server.Valid()
    {
      hide Inv, Run, Coherent, Justified;
      ghost var r := server.st.slots[i].history[base];
      if server.st.slots[i].history[server.st.slots[i].recon.base].finalizer {
        o := Process(i, base, now, pass);
        return;
      }
      server.Interfere(i, Reconciler);
      ghost var n := |server.st.slots[i].history|;
      server.Access(i, AddFinalizer(Reconciler));
      if server.st.slots[i].recon.Idle? {
        NoChoice(old(server.st), server.st, i, r, pass, Errored);
        return Errored;
      }
      ghost var s1 := server.st;
      o := Process(i, n, now, pass);
      JustifiedEarlier(old(server.st), s1, server.st, i, r, s1.slots[i].history[n], pass, o);
    }

    /** What a drive does with the version it read. */
    method Work(i: nat, ghost base: nat, now: int, pass: Pass) returns (o: Outcome)
      requires server.Valid() && At(server.st, i, Reconciler, Working(base, 0))
      modifies server
      ensures Ended(old(server.st), old(server.trace), server.prev, server.st, server.trace, i, o)
      ensures Sound(old(server.st.slots[i])) && base < |old(server.st.slots[i].history)|
      ensures Appropriate(old(server.st.slots[i].spec), old(server.st.slots[i].history)[base], now, o)
      ensures Justified(old(server.st), server.st, i, old(server.st.slots[i].history)[base], pass, o)
      ensures Releases(old(server.st.slots[i].history)[base], o) ==>
                ReleasedOnce(old(server.st), server.st, i, old(server.st.slots[i].history)[base], pass.listed)
      ensures server.Valid()
    {
      hide Inv, Run, Coherent, Justified, ReleasedOnce;
      ghost var r := server.st.slots[i].history[base];
      if server.st.slots[i].history[server.st.slots[i].recon.base].deleting {
        o := HandleDeletion(i, base, now, pass.listed);
        NoChoice(old(server.st), server.st, i, r, pass, o);
      } else {
        o := ProtectAndProcess(i, base, now, pass);
      }
    }

    /** Reconcile: one drive of reservation i, from a possibly stale read to the end. */
    method Reconcile(i: nat, now: int, pass: Pass) returns (read: Option<Version>, o: Outcome)
      requires server.Valid() && i < |server.st.slots| && server.st.slots[i].recon.Idle?
      modifies server
      ensures server.Valid() && old(server.trace) <= server.trace
      ensures i < |server.st.slots| && server.st.slots[i].recon.Idle?
      ensures read.Some? <==> pass.found
      ensures read.Some? ==>
                && read.value in server.st.slots[i].history
                && Ended(old(server.st), old(server.trace), server.prev, server.st, server.trace, i, o)
                && Appropriate(server.st.slots[i].spec, read.value, now, o)
                && Justified(old(server.st), server.st, i, read.value, pass, o)
      ensures read.Some? && !read.value.deleting && server.st.slots[i].spec.Valid() && read.value.phase == Reserved ==>
                if read.value.active then o == Errored || o == Wrote(Active)
                else if read.value.expiresAt.Some? && now > read.value.expiresAt.value then
                  o == Errored || o == Wrote(Released)
                else o == Errored || o == NothingDue
      ensures read.Some? && Releases(read.value, o) ==>
                ReleasedOnce(old(server.st), server.st, i, read.value, pass.listed)
      ensures read.Some? && (o == Wrote(Active) || o == Wrote(Released))
              && OrderlyRun(EMPTY, server.trace, server.st) ==>
                server.st.slots[i].locks == 1 == server.st.slots[i].frees && Counted(server.st.slots[i]) == 0
    {
      hide Inv, Run, OrderlyRun, Coherent, Appropriate, Justified, Releases;
      server.Interfere(i, Reconciler);
      if !pass.found {
        return None, NothingDue;
      }
      var v: nat :| v < |server.st.slots[i].history|;  // the version in the cache
      ghost var before := server.st;
      server.Access(i, Begin(v));
      assert server.st.slots[i] == before.slots[i].(recon := Working(v, 0));
      hide StepSlot, ReleasedOnce;
      read := Some(server.st.slots[i].history[v]);
      ghost var s1 := server.st;
      o := Work(i, v, now, pass);
      JustifiedEarlier(old(server.st), s1, server.st, i, read.value, read.value, pass, o);
      assert server.st.slots[i].history[v] == before.slots[i].history[v];
      if Releases(read.value, o) {
        ReleasedEarlier(old(server.st), s1, server.st, i, read.value, pass.listed);
      }
      if !read.value.deleting && server.st.slots[i].spec.Valid() && read.value.phase == Reserved {
        AppropriateReserved(server.st.slots[i].spec, read.value, now, o);
      }
      if o == Wrote(Active) || o == Wrote(Released) {
        SettledIsUncounted(server.trace, server.st, i);
      }
    }
  }

  /** The newest version shows the outcome of a lock that is confirmed at a given time. */
  ghost predicate Shows(slot: Slot, granted: bool, at: int)
    requires slot.history != []
  {
    if granted then
      && Current(slot).phase == Reserved
      && (slot.spec.duration.Some? ==> Current(slot).expiresAt == Some(at + slot.spec.duration.value))
    else Current(slot).phase == Failed
  }

  /** Positions of a run, in this order, at which its events are of one kind. */
  ghost predicate Positions(at: seq<nat>, from: nat, trace: seq<Event>, kind: Event -> bool) {
    && (forall k :: 0 <= k < |at| ==> from <= at[k] < |trace| && kind(trace[at[k]]))
    && forall k, l :: 0 <= k < l < |at| ==> at[k] < at[l]
  }

  lemma OneMorePosition(at: seq<nat>, from: nat, trace: seq<Event>, longer: seq<Event>, kind: Event -> bool)
    requires Positions(at, from, trace, kind) && from <= |trace| && trace < longer && kind(Last(longer))
    ensures Positions(at + [|longer| - 1], from, longer, kind)
  {
  }

  /** A status write of the handler for reservation i. */
  ghost function MarkOf(i: nat): Event -> bool {
    (e: Event) =>
      e.Local? && e.i == i && ((e.e.MarkReserved? && e.e.who == Handler) || (e.e.MarkFailed? && e.e.who == Handler))
  }

  /** An attempt to merge this advertisement. */
  ghost function MergeOf(c: ClusterId, incoming: Advert): Event -> bool {
    (e: Event) => e.Advertise? && e.c == c && e.advert == incoming
  }

  class Handler {
    const server: ApiServer

    constructor (server: ApiServer)
      ensures this.server == server
    {
      this.server := server;
    }

    /**
     PostReservation from the creation of the object on: create, protect, lock, and write the outcome. `missing` and
     `unread` are the tries of the lock and of the status write whose read fails.
     */
    method PostReservation(spec: ReservationSpec, target: ClusterId, missing: set<nat>, unread: set<nat>, at: int)
      returns (i: nat, result: LockResult, written: bool, ghost guard: nat)
      requires server.Valid() && spec.Valid()
      modifies server
      ensures server.Valid() && old(server.trace) <= server.trace
      ensures i < |server.st.slots| && server.st.slots[i].spec == spec && Sound(server.st.slots[i])
      ensures server.st.slots[i].post.Idle? && IsOwnLast(server.trace, i, Handler)
      ensures |old(server.trace)| < |server.trace|
      ensures server.trace[|old(server.trace)|] == Create(spec, Some(target), Handler)
      ensures |old(server.trace)| < guard < |server.trace| && server.trace[guard] == Local(i, AddFinalizer(Handler))
      ensures forall k :: |old(server.trace)| < k < guard ==> !IsBy(server.trace[k], i, Handler)
      ensures result == TargetNotFound || result == Insufficient ==>
                Refusable(old(server.st), server.st, target, spec.request, missing)
      ensures if written then Shows(server.st.slots[i], result == Granted, at)
              else (exists k <- unread :: k < MAX_TRIES) || Faulty(server.prev, Last(server.trace))
    {
      hide Inv, Run, Coherent;
      CreateStep(server.st, spec, target);
      i := |server.st.slots|;
      server.Do(Create(spec, Some(target), Handler));
      assert server.trace[|old(server.trace)|] == Create(spec, Some(target), Handler);
      SoundNow(server.st, i);
      server.Interfere(i, Handler);
      guard := |server.trace|;
      server.Access(i, AddFinalizer(Handler));
      ghost var s, upToGuard := server.st, server.trace;
      result := LockWithRetry(server, i, Handler, 0, missing);
      SoundNow(server.st, i);
      ghost var t := server.st;
      ghost var marks;
      written, marks := WriteOutcome(i, result == Granted, unread, at);
      assert upToGuard <= server.trace && server.trace[guard] == upToGuard[guard];
      if result == TargetNotFound || result == Insufficient {
        RefusableStays(s, t, server.st, target, spec.request, missing);
      }
    }

    /** The status write, repeated on conflict. */
    method WriteOutcome(i: nat, granted: bool, unread: set<nat>, at: int)
      returns (written: bool, ghost marks: seq<nat>)
      requires server.Valid() && i < |server.st.slots| && Sound(server.st.slots[i])
      requires if granted then server.st.slots[i].post.Locked? else server.st.slots[i].post.Refused?
      requires server.st.slots[i].post.tries == 0
      modifies server
      ensures server.Valid() && old(server.trace) <= server.trace
      ensures i < |server.st.slots| && server.st.slots[i].spec == old(server.st.slots[i].spec)
              && Sound(server.st.slots[i])
      ensures server.st.slots[i].post.Idle? && IsOwnLast(server.trace, i, Handler)
      ensures if written then Shows(server.st.slots[i], granted, at)
              else (exists k <- unread :: k < MAX_TRIES) || Faulty(server.prev, Last(server.trace))
      ensures Positions(marks, |old(server.trace)|, server.trace, MarkOf(i))
      ensures !written ==> |marks| == 5 || (|marks| < 5 && |marks| in unread) || !server.st.slots[i].live
      ensures forall c <- old(server.st.clusters) ::
                c in server.st.clusters && old(server.st.clusters)[c].history <= server.st.clusters[c].history
    {
      hide Inv, Run, Coherent, Shows, Faulty, CanWrite;
      written, marks := false, [];
      var tries := 0;
      while !server.st.slots[i].post.Idle?
        invariant server.Valid() && i < |server.st.slots| && Sound(server.st.slots[i])
        invariant server.st.slots[i].spec == old(server.st.slots[i].spec) && old(server.trace) <= server.trace
        invariant Writing(server.st.slots[i], granted, tries)
        invariant |marks| == tries && Positions(marks, |old(server.trace)|, server.trace, MarkOf(i))
        invariant server.st.slots[i].post.Idle? ==> written || tries == MAX_TRIES || !server.st.slots[i].live
        invariant tries == 0 ==> !server.st.slots[i].post.Idle?
        invariant tries > 0 ==>
                    IsOwnLast(server.trace, i, Handler) && (written || Faulty(server.prev, Last(server.trace)))
        invariant written ==> server.st.slots[i].post.Idle? && Shows(server.st.slots[i], granted, at)
        invariant forall c <- old(server.st.clusters) ::
                    c in server.st.clusters && old(server.st.clusters)[c].history <= server.st.clusters[c].history
        decreases !server.st.slots[i].post.Idle?, MAX_TRIES - tries
      {
        if tries in unread {
          server.Interfere(i, Handler);
          server.Access(i, Quit(Handler));
          return;
        }
        ghost var before := server.trace;
        written := WriteOnce(i, granted, tries, at);
        OneMorePosition(marks, |old(server.trace)|, before, server.trace, MarkOf(i));
        marks := marks + [|server.trace| - 1];
        tries := tries + 1;
      }
    }

    ghost predicate Writing(slot: Slot, granted: bool, tries: nat) {
      var d := slot.post;
      !d.Idle? ==> (if granted then d.Locked? else d.Refused?) && d.tries == tries < MAX_TRIES
    }

    /** One try of the status write, on the version in the cache. */
    method WriteOnce(i: nat, granted: bool, ghost tries: nat, at: int) returns (written: bool)
      requires server.Valid() && i < |server.st.slots| && Sound(server.st.slots[i])
      requires !server.st.slots[i].post.Idle? && Writing(server.st.slots[i], granted, tries)
      modifies server
      ensures server.Valid() && old(server.trace) < server.trace
      ensures i < |server.st.slots| && server.st.slots[i].spec == old(server.st.slots[i].spec)
              && Sound(server.st.slots[i])
      ensures MarkOf(i)(Last(server.trace))
      ensures server.st.slots[i].post.Idle? ==> written || tries + 1 == MAX_TRIES || !server.st.slots[i].live
      ensures Writing(server.st.slots[i], granted, tries + 1) && IsOwnLast(server.trace, i, Handler)
      ensures if written then server.st.slots[i].post.Idle? && Shows(server.st.slots[i], granted, at)
              else Faulty(server.prev, Last(server.trace))
      ensures forall c <- old(server.st.clusters) ::
                c in server.st.clusters && old(server.st.clusters)[c].history <= server.st.clusters[c].history
    {
      hide Inv, Run, Coherent;
      server.Interfere(i, Handler);
      var slot := server.st.slots[i];
      var v: nat :| v < |slot.history|;  // the version in the cache
      written := CanWrite(slot, v);
      server.Access(i, if granted then MarkReserved(Handler, v, at) else MarkFailed(Handler, v));
    }

    /**
     PostAdvertisement: create the advertisement, or merge it into the stored one under retry. `missed` is whether the
     first read does not see an advertisement that exists; the store refuses to create one that exists.
     */
    method PostAdvertisement(c: ClusterId, incoming: Advert, missed: bool, unread: set<nat>)
      returns (result: PostResult, ghost attempts: seq<nat>)
      requires server.Valid()
      modifies server
      ensures server.Valid() && old(server.trace) <= server.trace
      ensures c in server.st.clusters && server.st.clusters[c].history != []
      ensures result == Registered ==>
                && c !in old(server.st.clusters) && |old(server.trace)| < |server.trace|
                && Last(server.trace) == Register(c, incoming) && server.st.clusters[c].history == [incoming]
      ensures result == Merged ==>
                && |old(server.trace)| < |server.trace|
                && var history := server.st.clusters[c].history;
                   && |history| >= 2 && Last(history) == Merge(history[|history| - 2], incoming)
                   && Last(server.trace) == Advertise(c, |history| - 2, incoming)
      ensures result == NotCreated ==> missed || c !in old(server.st.clusters)
      ensures Positions(attempts, |old(server.trace)|, server.trace, MergeOf(c, incoming))
      ensures result == NotMerged ==> |attempts| == 5 || (|attempts| < 5 && |attempts| in unread)
      ensures result == NotMerged ==>
                || (exists k <- unread :: k < MAX_TRIES)
                || (|old(server.trace)| < |server.trace| && Attempted(server.trace, c, incoming)
                    && Faulty(server.prev, Last(server.trace)))
    {
      hide Inv, Run, Coherent;
      server.OtherWriters();
      if missed || c !in server.st.clusters {
        server.OtherWriters();
        if c in server.st.clusters {
          SomeVersion(server.st, c);
          return NotCreated, [];
        }
        RegisterStep(server.st, c, incoming);
        server.Do(Register(c, incoming));
        return Registered, [];
      }
      result, attempts := MergeWithRetry(c, incoming, unread);
    }

    ghost predicate Attempted(trace: seq<Event>, c: ClusterId, incoming: Advert) {
      trace != [] && Last(trace).Advertise? && Last(trace).c == c && Last(trace).advert == incoming
    }

    /** RetryOnConflict around the merge. */
    method MergeWithRetry(c: ClusterId, incoming: Advert, unread: set<nat>)
      returns (result: PostResult, ghost attempts: seq<nat>)
      requires server.Valid() && c in server.st.clusters
      modifies server
      ensures server.Valid() && old(server.trace) <= server.trace
      ensures c in server.st.clusters && server.st.clusters[c].history != []
      ensures result == Merged || result == NotMerged
      ensures Positions(attempts, |old(server.trace)|, server.trace, MergeOf(c, incoming))
      ensures result == NotMerged ==> |attempts| == 5 || (|attempts| < 5 && |attempts| in unread)
      ensures result == Merged ==>
                && |old(server.trace)| < |server.trace|
                && var history := server.st.clusters[c].history;
                   && |history| >= 2 && Last(history) == Merge(history[|history| - 2], incoming)
                   && Last(server.trace) == Advertise(c, |history| - 2, incoming)
      ensures result == NotMerged ==>
                || (exists k <- unread :: k < MAX_TRIES)
                || (|old(server.trace)| < |server.trace| && Attempted(server.trace, c, incoming)
                    && Faulty(server.prev, Last(server.trace)))
    {
      hide Inv, Run, Coherent;
      SomeVersion(server.st, c);
      attempts := [];
      for tries := 0 to MAX_TRIES
        invariant server.Valid() && old(server.trace) <= server.trace
        invariant c in server.st.clusters && server.st.clusters[c].history != []
        invariant |attempts| == tries && Positions(attempts, |old(server.trace)|, server.trace, MergeOf(c, incoming))
        invariant tries > 0 ==> |old(server.trace)| < |server.trace| && Attempted(server.trace, c, incoming)
                                && Faulty(server.prev, Last(server.trace))
      {
        server.OtherWriters();
        SomeVersion(server.st, c);
        if tries in unread {
          return NotMerged, attempts;
        }
        ghost var before := server.trace;
        var merged := MergeOnce(c, incoming);
        OneMorePosition(attempts, |old(server.trace)|, before, server.trace, MergeOf(c, incoming));
        attempts := attempts + [|server.trace| - 1];
        if merged {
          return Merged, attempts;
        }
      }
      return NotMerged, attempts;
    }

    /** One try: merge into the version in the cache and update conditionally. */
    method MergeOnce(c: ClusterId, incoming: Advert) returns (merged: bool)
      requires server.Valid() && c in server.st.clusters && server.st.clusters[c].history != []
      modifies server
      ensures server.Valid() && old(server.trace) < server.trace
      ensures c in server.st.clusters && server.st.clusters[c].history != []
      ensures Attempted(server.trace, c, incoming)
      ensures if merged then
                var history := server.st.clusters[c].history;
                && |history| >= 2 && Last(history) == Merge(history[|history| - 2], incoming)
                && Last(server.trace).v == |history| - 2
              else Faulty(server.prev, Last(server.trace))
    {
      hide Inv, Run, Coherent;
      var v: nat :| v < |server.st.clusters[c].history|;  // the version in the cache
      var copy := new ClusterAdvertisement(server.st.clusters[c].history[v]);
      copy.MergeAdvertisement(incoming);
      ghost var s := server.st;
      server.OtherWriters();
      assert server.st.clusters[c].history[v] == s.clusters[c].history[v];
      MergeStep(server.st, c, v, incoming);
      merged := IsNewest(server.st, c, v);
      server.Do(Advertise(c, v, incoming));
      assert merged ==> Now(server.st, c) == copy.Spec();
    }

    /** GetInstructions, and the instructions that PostAdvertisement piggybacks on its response; see IsListed. */
    method GetInstructions(c: ClusterId, cached: seq<Option<nat>>) returns (instructions: seq<Slot>)
      requires server.Valid() && |cached| <= |server.st.slots|
      ensures instructions == Instructions(server.st.slots, cached, c)
    {
      hide Inv, Run;
      instructions := [];
      var slots := server.st.slots;
      for k := 0 to |cached|
        invariant instructions == Instructions(slots, cached[..k], c)
      {
        assert cached[..k + 1][..k] == cached[..k];
        if IsListed(slots[k], cached[k], c) {
          instructions := instructions + [slots[k]];
        }
      }
      assert cached[..|cached|] == cached;
    }
  }

  /** The cached list shows some stored version of the reservation, and there it is Reserved in this cluster. */
  predicate IsListed(slot: Slot, version: Option<nat>, c: ClusterId) {
    && version.Some? && version.value < |slot.history|
    && slot.history[version.value].phase == Reserved && slot.history[version.value].target == Some(c)
  }

  /** The reservations that a provider is told to hold back, by the versions in the cache. */
  function Instructions(slots: seq<Slot>, cached: seq<Option<nat>>, c: ClusterId): seq<Slot>
    requires |cached| <= |slots|
  {
    if |cached| == 0 then []
    else
      var n := |cached| - 1;
      Instructions(slots, cached[..n], c) + if IsListed(slots[n], cached[n], c) then [slots[n]] else []
  }

  /** These positions are, in order, those of the listed reservations, and these are the reservations. */
  ghost predicate ListedAt(at: seq<nat>, found: seq<Slot>, slots: seq<Slot>, cached: seq<Option<nat>>, c: ClusterId)
    requires |cached| <= |slots|
  {
    && |at| == |found| && (forall k :: 0 <= k < |at| ==> at[k] < |cached| && found[k] == slots[at[k]])
    && (forall k, l :: 0 <= k < l < |at| ==> at[k] < at[l])
    && forall j :: 0 <= j < |cached| ==> (j in at <==> IsListed(slots[j], cached[j], c))
  }

  lemma OneMoreListed(at: seq<nat>, found: seq<Slot>, slots: seq<Slot>, cached: seq<Option<nat>>, version: Option<nat>,
                      c: ClusterId)
    requires |cached| < |slots| && ListedAt(at, found, slots, cached, c)
    ensures var n := |cached|;
            if IsListed(slots[n], version, c) then ListedAt(at + [n], found + [slots[n]], slots, cached + [version], c)
            else ListedAt(at, found, slots, cached + [version], c)
  {
    hide IsListed;
    var n := |cached|;
    assert n !in at;
    assert forall j :: j in at + [n] <==> j in at || j == n;
  }

  /** They are exactly the listed ones, in the order of the list. */
  lemma {:induction false} InstructionsAreTheListed(slots: seq<Slot>, cached: seq<Option<nat>>, c: ClusterId)
    returns (at: seq<nat>)
    requires |cached| <= |slots|
    ensures ListedAt(at, Instructions(slots, cached, c), slots, cached, c)
    decreases |cached|
  {
    at := [];
    if |cached| > 0 {
      var n := |cached| - 1;
      at := InstructionsAreTheListed(slots, cached[..n], c);
      assert cached == cached[..n] + [cached[n]];
      hide ListedAt, IsListed;
      OneMoreListed(at, Instructions(slots, cached[..n], c), slots, cached[..n], cached[n], c);
      if IsListed(slots[n], cached[n], c) {
        at := at + [n];
      } else {
        assert Instructions(slots, cached, c) == Instructions(slots, cached[..n], c);
      }
    }
  }

  /** A cache that is up to date. */
  function Newest(slots: seq<Slot>): (cached: seq<Option<nat>>)
    ensures |cached| == |slots|
    ensures forall k :: 0 <= k < |slots| ==>
              cached[k] == if slots[k].live && slots[k].history != [] then Some(|slots[k].history| - 1) else None
  {
    seq(|slots|, k requires 0 <= k < |slots| =>
      if slots[k].live && slots[k].history != [] then Some(|slots[k].history| - 1) else None)
  }

  function Requested(): Slot -> Amount {
    (slot: Slot) => slot.spec.request
  }

  lemma {:induction false} InstructionsSum(slots: seq<Slot>, cached: seq<Option<nat>>, c: ClusterId)
    requires forall slot <- slots :: slot.recon.Idle? && slot.post.Idle?
    requires |cached| <= |slots| && forall k :: 0 <= k < |cached| ==> cached[k] == Newest(slots)[k]
    ensures SumOf(Instructions(slots, cached, c), Requested()) == Sum(slots[..|cached|], c, Owed)
    decreases |cached|
  {
    hide IsListed, Share, SumOf, Newest;
    if |cached| == 0 {
      NoSum(slots[..0], c);
    } else {
      var n := |cached| - 1;
      var fewer := Instructions(slots, cached[..n], c);
      InstructionsSum(slots, cached[..n], c);
      InstructionShare(slots[n], cached[n], c);
      OwedAppend(slots, n, c);
      if IsListed(slots[n], cached[n], c) {
        SumAppend(fewer, slots[n], Requested());
      } else {
        assert fewer + [] == fewer;
        PlusZero(Sum(slots[..n], c, Owed));
      }
    }
  }

  lemma NoSum(slots: seq<Slot>, c: ClusterId)
    requires slots == []
    ensures Sum(slots, c, Owed) == ZERO == SumOf(slots, Requested())
  {
  }

  lemma OwedAppend(slots: seq<Slot>, n: nat, c: ClusterId)
    requires n < |slots|
    ensures Sum(slots[..n + 1], c, Owed) == Sum(slots[..n], c, Owed).Plus(Share(c, Owed)(slots[n]))
  {
    hide Share, SumOf;
    assert slots[..n + 1] == slots[..n] + [slots[n]];
    SumAppend(slots[..n], slots[n], Share(c, Owed));
  }

  lemma InstructionShare(slot: Slot, version: Option<nat>, c: ClusterId)
    requires slot.recon.Idle? && slot.post.Idle?
    requires version == if slot.live && slot.history != [] then Some(|slot.history| - 1) else None
    ensures Share(c, Owed)(slot) == if IsListed(slot, version, c) then slot.spec.request else ZERO
  {
    hide Copies;
    CopiesUnit(RequestOn(slot, c));
    NoCopies(RequestOn(slot, c));
    assert Owed(slot) == 1 || Owed(slot) == 0;
    assert Share(c, Owed)(slot) == Copies(RequestOn(slot, c), Owed(slot));
    assert IsListed(slot, version, c) <==> Owed(slot) == 1 && TargetOf(slot) == Some(c);
  }

  /**
   Whenever no operation is in flight in an orderly run, the instructions that a provider fetches through an up-to-date
   cache add up to exactly what the broker holds reserved on it.
   */
  lemma InstructionsMatchTheLedger(es: seq<Event>, s: State, c: ClusterId)
    requires OrderlyRun(EMPTY, es, s) && c in s.clusters && s.clusters[c].history != []
    requires forall slot <- s.slots :: slot.recon.Idle? && slot.post.Idle?
    ensures SumOf(Instructions(s.slots, Newest(s.slots), c), Requested()) == Now(s, c).Held()
  {
    LedgerIsExact(es, s, c);
    InstructionsSum(s.slots, Newest(s.slots), c);
    assert s.slots[..|s.slots|] == s.slots;
  }
}
