/**
 One reservation: its stored versions, and the drives that work on it. A drive is a run of the reconciler, or the
 HTTP handler that created the reservation. Every stored version stays readable, because clients read through a cache.
 */
module Reservations {
  import opened Quantities

  type ClusterId = string

  datatype Phase = Pending | Reserved | Active | Failed | Released  // Pending also stands for the empty phase

  datatype ReservationSpec = ReservationSpec(requester: string, request: Amount, duration: Option<int>) {
    predicate Valid() {
      requester != "" && request.Positive()
    }
  }

  /** One stored version; the rest of the specification never changes. */
  datatype Version = Version(
    target: Option<ClusterId>,
    phase: Phase,
    finalizer: bool,
    deleting: bool,
    active: bool,        // condition RequesterActive
    released: bool,      // condition RequesterReleased
    expiresAt: Option<int>)
  {
    predicate Expired(now: int) {
      expiresAt.Some? && now > expiresAt.value
    }
  }

  datatype Actor = Reconciler | Handler

  datatype Goal = GoActive | GoReleased | GoAway

  datatype Drive =
    | Idle
    | Working(base: nat, tries: nat)                // the version read, and lock attempts that conflicted
    | Locked(base: nat, tries: nat)                 // the ledger counts the request, the phase does not say so yet
    | Refused(base: nat, tries: nat)                // the phase Failed is to be written
    | Freed(base: nat, goal: Goal, counted: bool)   // the release is done (or skipped), the phase does not say so yet

  datatype Slot = Slot(
    spec: ReservationSpec,
    history: seq<Version>,
    live: bool,           // whether the object is still in the store
    recon: Drive,
    post: Drive,
    locks: nat,           // committed locks and releases, ever
    frees: nat)

  datatype SlotEvent =
    | Begin(v: nat)
    | AddFinalizer(who: Actor)
    | Select(target: ClusterId)
    | LockDone(who: Actor)
    | LockConflict(who: Actor)
    | Refuse(who: Actor)
    | MarkReserved(who: Actor, v: nat, now: int)
    | MarkFailed(who: Actor, v: nat)
    | FreeDone(now: int)
    | FreeConflict(now: int)
    | FreeSkip(now: int)
    | Settle
    | Quit(who: Actor)
    | Signal(active: bool, released: bool)
    | Delete

  const MAX_TRIES := 5

  function Current(s: Slot): Version
    requires s.history != []
  {
    s.history[|s.history| - 1]
  }

  function DriveOf(s: Slot, who: Actor): Drive {
    if who == Reconciler then s.recon else s.post
  }

  function SetDrive(s: Slot, who: Actor, d: Drive): Slot {
    if who == Reconciler then s.(recon := d) else s.(post := d)
  }

  /** A conditional update succeeds only on the newest version of an object that still exists. */
  predicate CanWrite(s: Slot, v: nat) {
    s.live && v == |s.history| - 1
  }

  function Write(s: Slot, r: Version): Slot {
    s.(history := s.history + [r])
  }

  function NewSlot(spec: ReservationSpec, target: Option<ClusterId>, who: Actor): Slot {
    Slot(spec, [Version(target, Pending, false, false, false, false, None)], true,
         Idle, if who == Handler then Working(0, 0) else Idle, 0, 0)
  }

  // ----- what a drive does with the version it read

  predicate WantsLock(spec: ReservationSpec, r: Version) {
    !r.deleting && r.finalizer && spec.Valid() && r.phase == Pending
  }

  /** What a drive has to do after releasing, if it has to release at all. */
  function Due(spec: ReservationSpec, r: Version, now: int): Option<Goal> {
    if r.deleting then
      if r.finalizer then Some(GoAway) else None
    else if !r.finalizer || !spec.Valid() then None
    else match r.phase
      case Reserved => if r.active then Some(GoActive) else if r.Expired(now) then Some(GoReleased) else None
      case Active => if r.released || r.Expired(now) then Some(GoReleased) else None
      case _ => None
  }

  predicate Enabled(s: Slot, e: SlotEvent)
    requires Sound(s)
  {
    match e
    case Begin(v) => s.recon.Idle? && v < |s.history|
    case AddFinalizer(who) =>
      var d := DriveOf(s, who);
      && d.Working? && d.tries == 0
      && (who == Reconciler ==> !s.history[d.base].deleting && !s.history[d.base].finalizer)
    case Select(_) =>
      s.recon.Working? && WantsLock(s.spec, s.history[s.recon.base]) && s.history[s.recon.base].target.None?
    case LockDone(who) => MayLock(s, who)
    case LockConflict(who) => MayLock(s, who)
    case Refuse(who) =>
      var d := DriveOf(s, who);
      && d.Working?
      && (who == Reconciler ==>
            var r := s.history[d.base];
            !r.deleting && r.finalizer && (!s.spec.Valid() || r.phase == Pending))
    case MarkReserved(who, v, _) =>
      var d := DriveOf(s, who);
      d.Locked? && v < |s.history| && (who == Reconciler ==> v == d.base)
    case MarkFailed(who, v) =>
      var d := DriveOf(s, who);
      d.Refused? && v < |s.history| && (who == Reconciler ==> v == d.base)
    case FreeDone(now) => MayFree(s, now)
    case FreeConflict(now) => MayFree(s, now)
    case FreeSkip(now) => s.recon.Working? && Due(s.spec, s.history[s.recon.base], now).Some?
    case Settle => s.recon.Freed?
    case Quit(who) => !DriveOf(s, who).Idle?
    case Signal(_, _) => s.live
    case Delete => s.live
  }

  predicate MayLock(s: Slot, who: Actor)
    requires Sound(s)
  {
    var d := DriveOf(s, who);
    && d.Working? && d.tries < MAX_TRIES && s.history[d.base].target.Some?
    && (who == Reconciler ==> WantsLock(s.spec, s.history[d.base]))
  }

  predicate MayFree(s: Slot, now: int)
    requires Sound(s)
  {
    && s.recon.Working?
    && var r := s.history[s.recon.base];
       r.phase == Reserved && r.target.Some? && Due(s.spec, r, now).Some?
  }

  /** Well-formedness: drives refer to stored versions. */
  predicate Sound(s: Slot) {
    && s.history != []
    && (!s.recon.Idle? ==> s.recon.base < |s.history|)
    && (!s.post.Idle? ==> s.post.base < |s.history|)
  }

  function StepSlot(s: Slot, e: SlotEvent): Slot
    requires Sound(s) && Enabled(s, e)
  {
    match e
    case Begin(v) => s.(recon := Working(v, 0))
    case AddFinalizer(who) => StepFinalizer(s, who)
    case Select(target) =>
      if CanWrite(s, s.recon.base)
      then Write(s, Current(s).(target := Some(target))).(recon := Working(|s.history|, 0))
      else s.(recon := Idle)
    case LockDone(who) => SetDrive(s.(locks := s.locks + 1), who, Locked(DriveOf(s, who).base, 0))
    case LockConflict(who) => SetDrive(s, who, AfterConflict(DriveOf(s, who), who))
    case Refuse(who) => SetDrive(s, who, Refused(DriveOf(s, who).base, 0))
    case MarkReserved(who, v, now) =>
      if CanWrite(s, v) then SetDrive(Write(s, Confirmed(s.spec, Current(s), now)), who, Idle)
      else SetDrive(s, who, AfterLostMark(s, DriveOf(s, who), who))
    case MarkFailed(who, v) =>
      if CanWrite(s, v) then SetDrive(Write(s, Current(s).(phase := Failed)), who, Idle)
      else SetDrive(s, who, AfterLostMark(s, DriveOf(s, who), who))
    case FreeDone(now) =>
      s.(frees := s.frees + 1, recon := Freed(s.recon.base, Due(s.spec, s.history[s.recon.base], now).value, true))
    case FreeConflict(now) => s.(recon := Idle)
    case FreeSkip(now) =>
      s.(recon := Freed(s.recon.base, Due(s.spec, s.history[s.recon.base], now).value, false))
    case Settle =>
      if CanWrite(s, s.recon.base) then StepGoal(s, s.recon.goal).(recon := Idle) else s.(recon := Idle)
    case Quit(who) => SetDrive(s, who, Idle)
    case Signal(active, released) => Write(s, Current(s).(active := active, released := released))
    case Delete => if Current(s).finalizer then Write(s, Current(s).(deleting := true)) else s.(live := false)
  }

  function StepFinalizer(s: Slot, who: Actor): Slot
    requires Sound(s) && DriveOf(s, who).Working?
  {
    if CanWrite(s, DriveOf(s, who).base) then
      var w := Write(s, Current(s).(finalizer := true));
      if who == Reconciler then w.(recon := Working(|s.history|, 0)) else w
    else if who == Reconciler then s.(recon := Idle)
    else s
  }

  /** A conflicting lock attempt is repeated; after the last one the reconciler gives up and the handler refuses. */
  function AfterConflict(d: Drive, who: Actor): Drive
    requires d.Working?
  {
    if d.tries + 1 < MAX_TRIES then Working(d.base, d.tries + 1)
    else if who == Reconciler then Idle
    else Refused(d.base, 0)
  }

  /** A phase write that did not commit: the handler repeats it, the reconciler returns the error. */
  function AfterLostMark(s: Slot, d: Drive, who: Actor): Drive
    requires d.Locked? || d.Refused?
  {
    if who == Handler && s.live && d.tries + 1 < MAX_TRIES
    then if d.Locked? then Locked(d.base, d.tries + 1) else Refused(d.base, d.tries + 1)
    else Idle
  }

  function Confirmed(spec: ReservationSpec, r: Version, now: int): Version {
    r.(phase := Reserved, expiresAt := if spec.duration.Some? then Some(now + spec.duration.value) else r.expiresAt)
  }

  function StepGoal(s: Slot, goal: Goal): Slot
    requires s.history != []
  {
    match goal
    case GoActive => Write(s, Current(s).(phase := Active))
    case GoReleased => Write(s, Current(s).(phase := Released))
    case GoAway => s.(live := false)
  }

  // ----- what holds in every run, whatever is lost, repeated or read late

  predicate Confirms(phase: Phase) {
    phase == Reserved || phase == Active || phase == Released
  }

  ghost predicate Coherent(s: Slot) {
    && Sound(s)
    && (forall r <- s.history :: r.target.Some? ==> r.target == Current(s).target)
    && (forall r <- s.history :: Confirms(r.phase) ==> s.spec.Valid() && r.target.Some?)
    && (s.locks + s.frees > 0 ==> s.spec.Valid() && Current(s).target.Some?)
    && (!s.post.Idle? ==> s.spec.Valid() && s.history[s.post.base].target.Some?)
    && ReconCoherent(s)
  }

  ghost predicate ReconCoherent(s: Slot)
    requires Sound(s)
  {
    match s.recon
    case Idle => true
    case Working(_, _) => true
    case Locked(base, _) => WantsLock(s.spec, s.history[base]) && s.history[base].target.Some?
    case Refused(base, _) =>
      var r := s.history[base];
      r.finalizer && !r.deleting && (!s.spec.Valid() || r.phase == Pending)
    case Freed(base, goal, counted) =>
      var r := s.history[base];
      && r.finalizer
      && (counted ==> r.phase == Reserved && r.target.Some?)
      && (goal == GoAway <==> r.deleting)
      && (goal != GoAway ==> s.spec.Valid())
      && (goal == GoActive ==> r.phase == Reserved)
      && (goal == GoReleased ==> r.phase == Reserved || r.phase == Active)
  }

  lemma NewSlotCoherent(spec: ReservationSpec, target: Option<ClusterId>, who: Actor)
    requires who == Handler ==> spec.Valid() && target.Some?
    ensures Coherent(NewSlot(spec, target, who))
  {
  }

  lemma WriteCoherent(s: Slot, r: Version)
    requires Coherent(s)
    requires Current(s).target.Some? ==> r.target == Current(s).target
    requires Confirms(r.phase) ==> s.spec.Valid() && r.target.Some?
    ensures Coherent(Write(s, r))
  {
    var w := Write(s, r);
    forall q <- w.history
      ensures q.target.Some? ==> q.target == Current(w).target
      ensures Confirms(q.phase) ==> w.spec.Valid() && q.target.Some?
    {
      assert q in s.history || q == r;
    }
  }

  lemma CoherentEdit(s: Slot, e: SlotEvent)
    requires Coherent(s) && Enabled(s, e)
    requires e.Begin? || e.AddFinalizer? || e.Select? || e.Signal? || e.Delete? || e.Quit?
    ensures Coherent(StepSlot(s, e))
  {
    var r := Current(s);
    assert r in s.history;
    match e
    case AddFinalizer(_) => CoherentWrite(s, e);
    case Select(_) => CoherentWrite(s, e);
    case Signal(active, released) => WriteCoherent(s, r.(active := active, released := released));
    case Delete => WriteCoherent(s, r.(deleting := true));
    case _ =>
  }

  lemma CoherentWrite(s: Slot, e: SlotEvent)
    requires Coherent(s) && Enabled(s, e) && (e.AddFinalizer? || e.Select?)
    ensures Coherent(StepSlot(s, e))
  {
    var r := Current(s);
    assert r in s.history;
    if e.AddFinalizer? {
      WriteCoherent(s, r.(finalizer := true));
    } else if CanWrite(s, s.recon.base) {
      WriteCoherent(s, r.(target := Some(e.target)));
    }
  }

  lemma CoherentLock(s: Slot, e: SlotEvent)
    requires Coherent(s) && Enabled(s, e)
    requires e.LockDone? || e.LockConflict? || e.Refuse?
    ensures Coherent(StepSlot(s, e))
  {
    assert s.history[DriveOf(s, e.who).base] in s.history;
  }

  lemma CoherentMark(s: Slot, e: SlotEvent)
    requires Coherent(s) && Enabled(s, e)
    requires e.MarkReserved? || e.MarkFailed?
    ensures Coherent(StepSlot(s, e))
  {
    if CanWrite(s, e.v) {
      if e.MarkReserved? {
        MarkIsJustified(s, e);
        WriteCoherent(s, Confirmed(s.spec, Current(s), e.now));
        RestCoherent(Write(s, Confirmed(s.spec, Current(s), e.now)), e.who);
      } else {
        assert Current(s) in s.history;
        WriteCoherent(s, Current(s).(phase := Failed));
        RestCoherent(Write(s, Current(s).(phase := Failed)), e.who);
      }
      hide Coherent, Enabled;
    }
  }

  lemma RestCoherent(s: Slot, who: Actor)
    requires Coherent(s)
    ensures Coherent(SetDrive(s, who, Idle))
  {
  }

  lemma MarkIsJustified(s: Slot, e: SlotEvent)
    requires Coherent(s) && Enabled(s, e) && e.MarkReserved?
    ensures s.spec.Valid() && Current(s).target.Some?
  {
    assert s.history[DriveOf(s, e.who).base] in s.history;
    hide StepSlot;
  }

  lemma CoherentFree(s: Slot, e: SlotEvent)
    requires Coherent(s) && Enabled(s, e)
    requires e.FreeDone? || e.FreeConflict? || e.FreeSkip?
    ensures Coherent(StepSlot(s, e))
  {
    assert s.history[s.recon.base] in s.history;
  }

  lemma CoherentSettle(s: Slot)
    requires Coherent(s) && Enabled(s, Settle)
    ensures Coherent(StepSlot(s, Settle))
  {
    var r := s.history[s.recon.base];
    assert r in s.history;
    if CanWrite(s, s.recon.base) && s.recon.goal != GoAway {
      WriteCoherent(s, r.(phase := if s.recon.goal == GoActive then Active else Released));
    }
  }

  lemma CoherentStep(s: Slot, e: SlotEvent)
    requires Coherent(s) && Enabled(s, e)
    ensures Coherent(StepSlot(s, e))
  {
    match e
    case LockDone(_) => CoherentLock(s, e);
    case LockConflict(_) => CoherentLock(s, e);
    case Refuse(_) => CoherentLock(s, e);
    case MarkReserved(_, _, _) => CoherentMark(s, e);
    case MarkFailed(_, _) => CoherentMark(s, e);
    case FreeDone(_) => CoherentFree(s, e);
    case FreeConflict(_) => CoherentFree(s, e);
    case FreeSkip(_) => CoherentFree(s, e);
    case Settle => CoherentSettle(s);
    case _ => CoherentEdit(s, e);
  }

  /** Only committed locks and releases count. */
  lemma CountsStep(s: Slot, e: SlotEvent)
    requires Sound(s) && Enabled(s, e)
    ensures var t := StepSlot(s, e);
            t.spec == s.spec && t.locks == s.locks + Indicator(e.LockDone?)
              && t.frees == s.frees + Indicator(e.FreeDone?)
  {
  }

  /** A drive locks and releases where the reservation points, and that never changes afterwards. */
  lemma TargetStep(s: Slot, e: SlotEvent)
    requires Coherent(s) && Enabled(s, e)
    ensures e.LockDone? ==> Current(s).target.Some? && s.history[DriveOf(s, e.who).base].target == Current(s).target
    ensures e.FreeDone? ==> Current(s).target.Some? && s.history[s.recon.base].target == Current(s).target
    ensures Current(s).target.Some? ==> Current(StepSlot(s, e)).target == Current(s).target
  {
    TargetIsRead(s, e);
    if Current(s).target.Some? {
      TargetStays(s, e);
    }
  }

  lemma TargetIsRead(s: Slot, e: SlotEvent)
    requires Coherent(s) && Enabled(s, e)
    ensures e.LockDone? ==> Current(s).target.Some? && s.history[DriveOf(s, e.who).base].target == Current(s).target
    ensures e.FreeDone? ==> Current(s).target.Some? && s.history[s.recon.base].target == Current(s).target
  {
    hide StepSlot, ReconCoherent;
    assert !s.recon.Idle? ==> s.history[s.recon.base] in s.history;
    assert !s.post.Idle? ==> s.history[s.post.base] in s.history;
  }

  lemma TargetStays(s: Slot, e: SlotEvent)
    requires Sound(s) && Enabled(s, e) && Current(s).target.Some?
    ensures Current(StepSlot(s, e)).target == Current(s).target
  {
    if e.AddFinalizer? || e.Select? || e.Signal? || e.Delete? {
      EditKeepsTarget(s, e);
    } else if e.MarkReserved? || e.MarkFailed? || e.Settle? {
      PhaseWriteKeepsTarget(s, e);
    } else {
      assert StepSlot(s, e).history == s.history;
    }
  }

  lemma EditKeepsTarget(s: Slot, e: SlotEvent)
    requires Sound(s) && Enabled(s, e) && Current(s).target.Some?
    requires e.AddFinalizer? || e.Select? || e.Signal? || e.Delete?
    ensures Current(StepSlot(s, e)).target == Current(s).target
  {
  }

  lemma PhaseWriteKeepsTarget(s: Slot, e: SlotEvent)
    requires Sound(s) && Enabled(s, e) && (e.MarkReserved? || e.MarkFailed? || e.Settle?)
    ensures Current(StepSlot(s, e)).target == Current(s).target
  {
  }

  // ----- phases

  function Rank(phase: Phase): nat {
    match phase
    case Pending => 0
    case Reserved => 1
    case Active => 2
    case _ => 3
  }

  predicate Terminal(phase: Phase) {
    phase == Failed || phase == Released
  }

  /** A phase moves on, and Failed and Released are final. */
  predicate Forward(before: Phase, after: Phase) {
    Rank(before) <= Rank(after) && (Terminal(before) ==> after == before)
  }

  /** A handler's phase write commits on a phase that has moved on meanwhile. */
  predicate Overwrites(s: Slot, e: SlotEvent)
    requires Sound(s)
  {
    var phase := Current(s).phase;
    || (e.MarkReserved? && e.who == Handler && CanWrite(s, e.v) && Rank(phase) > 1)
    || (e.MarkFailed? && e.who == Handler && CanWrite(s, e.v) && phase == Released)
  }

  /** However stale its reads, the reconciler never moves a phase back; only an overwriting handler does. */
  lemma PhaseNeverFallsBack(s: Slot, e: SlotEvent)
    requires Coherent(s) && Enabled(s, e)
    ensures Forward(Current(s).phase, Current(StepSlot(s, e)).phase) <==> !Overwrites(s, e)
    ensures s.post.Idle? ==> !Overwrites(s, e)
  {
    assert Current(s) in s.history;
    if e.MarkReserved? || e.MarkFailed? {
      MarkMovesPhase(s, e);
    }
  }

  lemma MarkMovesPhase(s: Slot, e: SlotEvent)
    requires Coherent(s) && Enabled(s, e) && (e.MarkReserved? || e.MarkFailed?)
    ensures Current(StepSlot(s, e)).phase
            == if !CanWrite(s, e.v) then Current(s).phase else if e.MarkReserved? then Reserved else Failed
    ensures e.who == Reconciler && CanWrite(s, e.v) ==>
              Current(s).phase == Pending || (e.MarkFailed? && !s.spec.Valid() && !Confirms(Current(s).phase))
  {
    assert Current(s) in s.history;
  }

  /** The conditions, the finalizer and the deletion mark are written by one kind of access each. */
  lemma WhoWritesWhat(s: Slot, e: SlotEvent)
    requires Sound(s) && Enabled(s, e)
    ensures StepSlot(s, e).history != []
    ensures var r, n := Current(s), Current(StepSlot(s, e));
            && (n.active != r.active || n.released != r.released ==> e.Signal?)
            && (e.Signal? ==> n.active == e.active && n.released == e.released)
            && (n.finalizer != r.finalizer ==> e.AddFinalizer? && n.finalizer)
            && (n.deleting != r.deleting ==> e.Delete? && n.deleting)
  {
    if e.MarkReserved? || e.MarkFailed? || e.Settle? {
      PhaseWriteKeepsConditions(s, e);
      hide StepSlot, Enabled;
    }
  }

  /** What these accesses achieve: a deletion marks what has a finalizer and removes what has none. */
  lemma WhatIsWritten(s: Slot, e: SlotEvent)
    requires Sound(s) && Enabled(s, e)
    ensures StepSlot(s, e).history != []
    ensures var r, t := Current(s), StepSlot(s, e);
            && (e.Delete? ==> if r.finalizer then t.live && Current(t).deleting else !t.live)
            && (e.AddFinalizer? && CanWrite(s, DriveOf(s, e.who).base) ==> t.live && Current(t).finalizer)
            && (e.Select? && CanWrite(s, s.recon.base) ==> t.live && Current(t).target == Some(e.target))
  {
  }

  lemma PhaseWriteKeepsConditions(s: Slot, e: SlotEvent)
    requires Sound(s) && Enabled(s, e) && (e.MarkReserved? || e.MarkFailed? || e.Settle?)
    ensures StepSlot(s, e).history != []
    ensures var r, n := Current(s), Current(StepSlot(s, e));
            n.active == r.active && n.released == r.released && n.finalizer == r.finalizer && n.deleting == r.deleting
  {
    var r := Current(s);
    match e
    case MarkReserved(who, _, now) => AfterWrite(s, Confirmed(s.spec, r, now), who);
    case MarkFailed(who, _) => AfterWrite(s, r.(phase := Failed), who);
    case Settle =>
      AfterWrite(s, r.(phase := Active), Reconciler);
      AfterWrite(s, r.(phase := Released), Reconciler);
    case _ =>
  }

  lemma AfterWrite(s: Slot, r: Version, who: Actor)
    requires s.history != []
    ensures SetDrive(Write(s, r), who, Idle).history == s.history + [r]
    ensures Current(SetDrive(Write(s, r), who, Idle)) == r
    ensures forall d :: SetDrive(s, who, d).history == s.history
  {
  }

  /** The phase, the expiry time and the object's life have their own accesses; only a confirmation sets an expiry. */
  lemma WhatMovesOn(s: Slot, e: SlotEvent)
    requires Sound(s) && Enabled(s, e)
    ensures StepSlot(s, e).history != []
    ensures var r, n := Current(s), Current(StepSlot(s, e));
            && (n.phase != r.phase ==> e.MarkReserved? || e.MarkFailed? || e.Settle?)
            && (n.expiresAt != r.expiresAt ==>
                  e.MarkReserved? && s.spec.duration.Some? && n.expiresAt == Some(e.now + s.spec.duration.value))
    ensures s.live && !StepSlot(s, e).live ==> e.Delete? || e.Settle?
  {
  }

  // ----- what the ledger counts against what the phase says

  function Indicator(b: bool): int {
    if b then 1 else 0
  }

  /** How often the ledger counts the request. */
  function Counted(s: Slot): int {
    s.locks - s.frees
  }

  /** How often it should: for the phase Reserved, plus locks in flight, minus releases in flight. */
  function Owed(s: Slot): int {
    Indicator(s.live && s.history != [] && Current(s).phase == Reserved)
    + Indicator(s.recon.Locked?) + Indicator(s.post.Locked?)
    - Indicator(s.recon.Freed? && s.recon.counted)
  }

  function Drift(s: Slot): int {
    Counted(s) - Owed(s)
  }

  /**
   The events after which the books and the phase part ways. +1 leaves the request counted with nothing to show for it
   (a lost phase write after a lock, a phase Reserved overwritten, a release skipped, an unprotected deletion);
   -1 is a lost phase write after a release, which will be released again.
   */
  function Slippage(s: Slot, e: SlotEvent): int
    requires Sound(s) && Enabled(s, e)
  {
    var reserved := Current(s).phase == Reserved;
    match e
    case MarkReserved(who, v, _) =>
      Indicator(if CanWrite(s, v) then reserved else AfterLostMark(s, DriveOf(s, who), who).Idle?)
    case MarkFailed(_, v) => Indicator(CanWrite(s, v) && reserved)
    case Settle =>
      if CanWrite(s, s.recon.base) then Indicator(!s.recon.counted && reserved) else -Indicator(s.recon.counted)
    case Quit(who) =>
      var d := DriveOf(s, who);
      Indicator(d.Locked?) - Indicator(who == Reconciler && d.Freed? && d.counted)
    case Delete => Indicator(!Current(s).finalizer && reserved)
    case _ => 0
  }

  lemma DriftMark(s: Slot, e: SlotEvent)
    requires Coherent(s) && Enabled(s, e) && (e.MarkReserved? || e.MarkFailed?)
    ensures Drift(StepSlot(s, e)) == Drift(s) + Slippage(s, e)
  {
    hide Coherent;
    assert e.MarkReserved? <==> DriveOf(s, e.who).Locked?;
  }

  lemma DriftRelease(s: Slot, e: SlotEvent)
    requires Coherent(s) && Enabled(s, e) && (e.FreeDone? || e.FreeSkip? || e.FreeConflict? || e.Settle?)
    ensures Drift(StepSlot(s, e)) == Drift(s) + Slippage(s, e)
  {
  }

  lemma DriftLock(s: Slot, e: SlotEvent)
    requires Sound(s) && Enabled(s, e) && (e.LockDone? || e.LockConflict? || e.Refuse?)
    ensures Drift(StepSlot(s, e)) == Drift(s) + Slippage(s, e)
  {
  }

  lemma DriftEdit(s: Slot, e: SlotEvent)
    requires Sound(s) && Enabled(s, e)
    requires e.Begin? || e.AddFinalizer? || e.Select? || e.Signal? || e.Delete?
    ensures Drift(StepSlot(s, e)) == Drift(s) + Slippage(s, e)
  {
  }

  lemma DriftQuit(s: Slot, e: SlotEvent)
    requires Coherent(s) && Enabled(s, e) && e.Quit?
    ensures Drift(StepSlot(s, e)) == Drift(s) + Slippage(s, e)
  {
  }

  /** The drift changes at exactly those events: the books stay exact if and only if there is none. */
  lemma DriftStep(s: Slot, e: SlotEvent)
    requires Coherent(s) && Enabled(s, e)
    ensures Drift(StepSlot(s, e)) == Drift(s) + Slippage(s, e)
  {
    match e
    case MarkReserved(_, _, _) => DriftMark(s, e);
    case MarkFailed(_, _) => DriftMark(s, e);
    case FreeDone(_) => DriftRelease(s, e);
    case FreeConflict(_) => DriftRelease(s, e);
    case FreeSkip(_) => DriftRelease(s, e);
    case Settle => DriftRelease(s, e);
    case LockDone(_) => DriftLock(s, e);
    case LockConflict(_) => DriftLock(s, e);
    case Refuse(_) => DriftLock(s, e);
    case Quit(_) => DriftQuit(s, e);
    case _ => DriftEdit(s, e);
  }

  // ----- releases of what is not locked

  /** A release commits although the ledger does not count the request. */
  predicate Overreleases(s: Slot, e: SlotEvent) {
    e.FreeDone? && Counted(s) <= 0
  }

  /** The ledger never counts less than nothing, exactly unless there is such a release. */
  lemma OverreleaseStep(s: Slot, e: SlotEvent)
    requires Sound(s) && Enabled(s, e) && Counted(s) >= 0
    ensures Counted(StepSlot(s, e)) >= 0 <==> !Overreleases(s, e)
  {
    CountsStep(s, e);
    hide StepSlot, Enabled;
  }

  /** A phase write is lost after a committed release, or a release starts from an outdated or removed object. */
  predicate Repeats(s: Slot, e: SlotEvent)
    requires Sound(s) && Enabled(s, e)
  {
    Slippage(s, e) < 0 || (e.FreeDone? && !CanWrite(s, s.recon.base))
  }

  /** While neither happens, whatever else is lost or driven twice, only what is locked is released. */
  lemma OverreleaseTakesRepeat(s: Slot, e: SlotEvent)
    requires Coherent(s) && Enabled(s, e) && Drift(s) >= 0 && !Repeats(s, e)
    ensures !Overreleases(s, e) && Drift(StepSlot(s, e)) >= 0
  {
    DriftStep(s, e);
    hide StepSlot;
  }

  // ----- one driver at a time, current reads, no slips

  predicate Orderly(s: Slot, e: SlotEvent)
    requires Sound(s) && Enabled(s, e)
  {
    && Slippage(s, e) == 0
    && (e.Begin? ==> s.live && e.v == |s.history| - 1 && s.post.Idle?)
  }

  /** The life of a reservation under this discipline: phase by phase, how often it was locked and released. */
  ghost predicate Tidy(s: Slot)
    requires Sound(s)
  {
    var p := Current(s).phase;
    && (s.recon.Idle? || s.post.Idle?)
    && (if s.recon.Locked? || s.post.Locked? then p == Pending && s.locks == 1 && s.frees == 0
        else if s.recon.Freed? && s.recon.counted then s.live && p == Reserved && s.locks == 1 && s.frees == 1
        else match p
          case Pending => s.locks == 0 && s.frees == 0
          case Failed => s.locks == 0 && s.frees == 0
          case Reserved => s.locks == 1 && s.frees == Indicator(!s.live)
          case _ => s.locks == 1 && s.frees == 1)
    && (!s.post.Idle? ==> p == Pending && !s.post.Freed?)
    && (!s.recon.Idle? ==>
          var r := s.history[s.recon.base];
          r.phase == p && (r.finalizer ==> s.live && Current(s).finalizer))
  }

  lemma TidyEdit(s: Slot, e: SlotEvent)
    requires Coherent(s) && Tidy(s) && Enabled(s, e) && Orderly(s, e)
    requires e.Begin? || e.AddFinalizer? || e.Select? || e.Signal? || e.Delete?
    ensures Tidy(StepSlot(s, e))
  {
    assert Current(s) in s.history;
  }

  lemma TidyStep(s: Slot, e: SlotEvent)
    requires Coherent(s) && Tidy(s) && Enabled(s, e) && Orderly(s, e)
    ensures Tidy(StepSlot(s, e))
  {
    if e.Begin? || e.AddFinalizer? || e.Select? || e.Signal? || e.Delete? {
      TidyEdit(s, e);
    } else if e.MarkReserved? || e.MarkFailed? || e.Quit? {
      TidyMark(s, e);
    } else {
      TidyCount(s, e);
    }
  }

  lemma TidyMark(s: Slot, e: SlotEvent)
    requires Coherent(s) && Tidy(s) && Enabled(s, e) && Orderly(s, e) && (e.MarkReserved? || e.MarkFailed? || e.Quit?)
    ensures Tidy(StepSlot(s, e))
  {
    assert Current(s) in s.history;
  }

  /** An orderly release finds its request locked. */
  lemma TidyReleasesLocked(s: Slot, e: SlotEvent)
    requires Sound(s) && Tidy(s) && Enabled(s, e)
    ensures !Overreleases(s, e)
  {
  }

  lemma TidyCount(s: Slot, e: SlotEvent)
    requires Coherent(s) && Tidy(s) && Enabled(s, e) && Orderly(s, e)
    requires e.LockDone? || e.LockConflict? || e.Refuse? || e.FreeDone? || e.FreeConflict? || e.FreeSkip? || e.Settle?
    ensures Tidy(StepSlot(s, e))
  {
    assert Current(s) in s.history;
  }

  /** At most one lock and one release each, and a release only of what was locked. */
  lemma TidyMeaning(s: Slot)
    requires Sound(s) && Tidy(s)
    ensures s.frees <= s.locks <= 1 && Drift(s) == 0
    ensures s.live && s.recon.Idle? && s.post.Idle? ==> (Counted(s) == 1 <==> Current(s).phase == Reserved)
  {
  }

  /** In tidy reservations a handler writes the phase of a pending one, so that nothing is overwritten. */
  lemma TidyIsNeverOverwritten(s: Slot, e: SlotEvent)
    requires Sound(s) && Tidy(s) && Enabled(s, e)
    ensures !Overwrites(s, e)
  {
  }

  // ----- deletion

  /** A counted reservation is in the store and protected by the finalizer. */
  predicate Protected(s: Slot)
    requires s.history != []
  {
    Counted(s) > 0 ==> s.live && Current(s).finalizer
  }

  /** A handler locks for an object that is gone or has no finalizer. */
  predicate LocksUnguarded(s: Slot, e: SlotEvent)
    requires Sound(s)
  {
    e == LockDone(Handler) && !(s.live && Current(s).finalizer)
  }

  /** Only a handler that locks for an object without finalizer can leave a counted reservation unprotected. */
  lemma ProtectedStep(s: Slot, e: SlotEvent)
    requires Coherent(s) && Tidy(s) && Protected(s) && Enabled(s, e) && Orderly(s, e)
    ensures Protected(StepSlot(s, e)) <==> !LocksUnguarded(s, e)
    ensures s.live && !StepSlot(s, e).live ==> Counted(StepSlot(s, e)) == 0
  {
  }
}
