/**
 The broker as a concurrent protocol over a versioned object store. Every stored version of an object stays readable;
 a write commits only on the newest version. Any number of writers interleave event by event.
 */
module Protocol {
  import opened Quantities
  import opened Ledger
  import opened Reservations

  /** One ClusterAdvertisement: its stored versions and the updates that produced them. */
  datatype Cluster = Cluster(history: seq<Advert>, ops: seq<Op>)

  datatype State = State(clusters: map<ClusterId, Cluster>, slots: seq<Slot>)

  datatype Event =
    | Register(c: ClusterId, advert: Advert)
    | Advertise(c: ClusterId, v: nat, advert: Advert)
    | Annotated(c: ClusterId, v: nat, carbon: seq<int>, at: int)
    | Create(spec: ReservationSpec, target: Option<ClusterId>, who: Actor)
    | LockAttempt(i: nat, who: Actor, v: nat)
    | Refusal(i: nat, who: Actor, seen: Option<nat>)
    | FreeAttempt(i: nat, v: nat, now: int)
    | Local(i: nat, e: SlotEvent)

  predicate WellFormed(s: State) {
    && (forall c <- s.clusters :: s.clusters[c].history != [])
    && (forall slot <- s.slots :: Sound(slot))
  }

  function Now(s: State, c: ClusterId): Advert
    requires c in s.clusters && s.clusters[c].history != []
  {
    Last(s.clusters[c].history)
  }

  /** What a writer that read version v tries to commit. */
  predicate CanAttempt(s: State, c: ClusterId, v: nat, op: Op) {
    c in s.clusters && v < |s.clusters[c].history| && Permitted(s.clusters[c].history[v], op)
  }

  predicate IsNewest(s: State, c: ClusterId, v: nat)
    requires c in s.clusters
  {
    v == |s.clusters[c].history| - 1
  }

  /** The conditional update: the value computed from version v, if v is still the newest version. */
  function Commit(s: State, c: ClusterId, v: nat, op: Op): State
    requires CanAttempt(s, c, v, op)
  {
    var cluster := s.clusters[c];
    if IsNewest(s, c, v)
    then s.(clusters := s.clusters[c := Cluster(cluster.history + [Apply(cluster.history[v], op)], cluster.ops + [op])])
    else s
  }

  /** The cluster that a drive works on, as the version it read says. */
  function TargetRead(slot: Slot, who: Actor): Option<ClusterId>
    requires Sound(slot)
  {
    var d := DriveOf(slot, who);
    if d.Idle? then None else slot.history[d.base].target
  }

  predicate IsEnabled(s: State, e: Event) {
    && WellFormed(s)
    && match e
       case Register(c, _) => c !in s.clusters
       case Advertise(c, v, advert) => CanAttempt(s, c, v, MergeOp(advert))
       case Annotated(c, v, carbon, at) => CanAttempt(s, c, v, AnnotateOp(carbon, at))
       case Create(spec, target, who) => who == Handler ==> spec.Valid() && target.Some?
       case LockAttempt(i, who, v) =>
         && i < |s.slots| && MayLock(s.slots[i], who)
         && CanAttempt(s, TargetRead(s.slots[i], who).value, v, LockOp(s.slots[i].spec.request))
       case Refusal(i, who, seen) =>
         && i < |s.slots| && Enabled(s.slots[i], Refuse(who))
         && (seen.Some? ==>
               var target := TargetRead(s.slots[i], who);
               && target.Some? && target.value in s.clusters && seen.value < |s.clusters[target.value].history|
               && !CanReserve(s.clusters[target.value].history[seen.value], s.slots[i].spec.request))
       case FreeAttempt(i, v, now) =>
         && i < |s.slots| && MayFree(s.slots[i], now)
         && CanAttempt(s, TargetRead(s.slots[i], Reconciler).value, v, UnlockOp(s.slots[i].spec.request))
       case Local(i, local) => i < |s.slots| && IsLocal(local) && Enabled(s.slots[i], local)
  }

  /** Events of one reservation that touch no advertisement. */
  predicate IsLocal(e: SlotEvent) {
    !e.LockDone? && !e.LockConflict? && !e.Refuse? && !e.FreeDone? && !e.FreeConflict?
  }

  function Step(s: State, e: Event): State
    requires IsEnabled(s, e)
  {
    match e
    case Register(c, advert) => s.(clusters := s.clusters[c := Cluster([advert], [])])
    case Advertise(c, v, advert) => Commit(s, c, v, MergeOp(advert))
    case Annotated(c, v, carbon, at) => Commit(s, c, v, AnnotateOp(carbon, at))
    case Create(spec, target, who) => s.(slots := s.slots + [NewSlot(spec, target, who)])
    case LockAttempt(i, who, v) =>
      var c := TargetRead(s.slots[i], who).value;
      StepAt(Commit(s, c, v, LockOp(s.slots[i].spec.request)), i, SlotEventOf(s, e))
    case FreeAttempt(i, v, now) =>
      var c := TargetRead(s.slots[i], Reconciler).value;
      StepAt(Commit(s, c, v, UnlockOp(s.slots[i].spec.request)), i, SlotEventOf(s, e))
    case _ => StepAt(s, e.i, SlotEventOf(s, e))
  }

  function StepAt(s: State, i: nat, e: SlotEvent): State
    requires i < |s.slots| && Sound(s.slots[i]) && Enabled(s.slots[i], e)
  {
    s.(slots := s.slots[i := StepSlot(s.slots[i], e)])
  }

  predicate AtSlot(e: Event) {
    e.LockAttempt? || e.Refusal? || e.FreeAttempt? || e.Local?
  }

  /** The part of an event that concerns its reservation. */
  function SlotEventOf(s: State, e: Event): (local: SlotEvent)
    requires IsEnabled(s, e) && AtSlot(e)
    ensures Enabled(s.slots[e.i], local)
  {
    match e
    case LockAttempt(i, who, v) =>
      if IsNewest(s, TargetRead(s.slots[i], who).value, v) then LockDone(who) else LockConflict(who)
    case Refusal(i, who, _) => Refuse(who)
    case FreeAttempt(i, v, now) =>
      if IsNewest(s, TargetRead(s.slots[i], Reconciler).value, v) then FreeDone(now) else FreeConflict(now)
    case Local(i, local) => local
  }

  // ----- sums over reservations

  function TargetOf(slot: Slot): Option<ClusterId> {
    if slot.history == [] then None else Current(slot).target
  }

  /** What a reservation asks of one cluster. */
  function RequestOn(slot: Slot, c: ClusterId): Amount {
    if TargetOf(slot) == Some(c) then slot.spec.request else ZERO
  }

  function Share(c: ClusterId, weight: Slot -> int): Slot -> Amount {
    (slot: Slot) => Copies(RequestOn(slot, c), weight(slot))
  }

  function Sum(slots: seq<Slot>, c: ClusterId, weight: Slot -> int): Amount {
    SumOf(slots, Share(c, weight))
  }

  lemma ShareSplits(slot: Slot, c: ClusterId, all: Slot -> int, some: Slot -> int, rest: Slot -> int)
    requires all(slot) == some(slot) + rest(slot)
    ensures Share(c, all)(slot) == Share(c, some)(slot).Plus(Share(c, rest)(slot))
  {
    hide Copies, RequestOn;
    CopiesSplit(RequestOn(slot, c), some(slot), rest(slot));
  }

  lemma WeightsSplit(slots: seq<Slot>, c: ClusterId, all: Slot -> int, some: Slot -> int, rest: Slot -> int)
    requires forall slot <- slots :: all(slot) == some(slot) + rest(slot)
    ensures Sum(slots, c, all) == Sum(slots, c, some).Plus(Sum(slots, c, rest))
  {
    hide Share, SumOf;
    forall slot <- slots
      ensures Share(c, all)(slot) == Share(c, some)(slot).Plus(Share(c, rest)(slot))
    {
      ShareSplits(slot, c, all, some, rest);
    }
    SumSplit(slots, Share(c, all), Share(c, some), Share(c, rest));
  }

  /** Counted is owed plus drift, summed up. */
  lemma CountedIsOwedPlusDrift(slots: seq<Slot>, c: ClusterId)
    ensures Sum(slots, c, Counted) == Sum(slots, c, Owed).Plus(Sum(slots, c, Drift))
  {
    WeightsSplit(slots, c, Counted, Owed, Drift);
  }

  // ----- the books, in every run

  /** The cluster's ledger entry has been opened: some lock created the Reserved field. */
  ghost predicate Opened(s: State, slot: Slot)
    requires WellFormed(s)
  {
    slot.locks + slot.frees > 0 ==>
      var target := TargetOf(slot);
      target.Some? && target.value in s.clusters && Now(s, target.value).reserved.Some?
  }

  /** Each cluster's history is the serial application of its committed updates, and their net is what is counted. */
  ghost predicate Booked(s: State, c: ClusterId)
    requires c in s.clusters
  {
    && Serial(s.clusters[c].history, s.clusters[c].ops)
    && Summarise(s.clusters[c].ops).net == Sum(s.slots, c, Counted)
  }

  ghost predicate SlotsInOrder(s: State)
    requires WellFormed(s)
  {
    forall slot <- s.slots :: Coherent(slot) && Opened(s, slot)
  }

  ghost predicate AllBooked(s: State) {
    forall c <- s.clusters :: Booked(s, c)
  }

  ghost predicate Inv(s: State) {
    WellFormed(s) && SlotsInOrder(s) && AllBooked(s)
  }

  /** The net effect of an update on a ledger. */
  function NetOf(op: Op): Amount {
    match op
    case LockOp(request) => request
    case UnlockOp(request) => ZERO.Minus(request)
    case _ => ZERO
  }

  /** Committing extends one serial history by one update, or leaves no trace at all. */
  lemma CommitKeepsSerial(s: State, c: ClusterId, v: nat, op: Op)
    requires WellFormed(s) && CanAttempt(s, c, v, op)
    requires Serial(s.clusters[c].history, s.clusters[c].ops)
    ensures var t := Commit(s, c, v, op);
            && t.slots == s.slots && t.clusters.Keys == s.clusters.Keys
            && (forall c' <- s.clusters :: c' != c || !IsNewest(s, c, v) ==> t.clusters[c'] == s.clusters[c'])
            && (IsNewest(s, c, v) ==>
                  && t.clusters[c].ops == s.clusters[c].ops + [op]
                  && t.clusters[c].history == s.clusters[c].history + [Apply(Now(s, c), op)]
                  && Serial(t.clusters[c].history, t.clusters[c].ops)
                  && Summarise(t.clusters[c].ops).net == Summarise(s.clusters[c].ops).net.Plus(NetOf(op)))
  {
    var cluster := s.clusters[c];
    if IsNewest(s, c, v) {
      assert (cluster.ops + [op])[..|cluster.ops|] == cluster.ops;
      hide Permitted, Apply, Sound, Advert.Held, Advert.Total;
      SerialExtends(cluster.history, cluster.ops, op);
    }
  }

  lemma SerialExtends(history: seq<Advert>, ops: seq<Op>, op: Op)
    requires Serial(history, ops) && Permitted(Last(history), op)
    ensures Serial(history + [Apply(Last(history), op)], ops + [op])
  {
    hide Permitted, Apply;
    var more, all := history + [Apply(Last(history), op)], ops + [op];
    forall i | 0 <= i < |all|
      ensures Permitted(more[i], all[i]) && more[i + 1] == Apply(more[i], all[i])
    {
      assert i < |ops| ==> all[i] == ops[i];
    }
  }

  /** What an event of a reservation adds to the count on a cluster. */
  function Effect(slot: Slot, e: SlotEvent, c: ClusterId): Amount {
    Copies(RequestOn(slot, c), Indicator(e.LockDone?) - Indicator(e.FreeDone?))
  }

  lemma ShareChange(slot: Slot, next: Slot, c: ClusterId)
    requires slot.spec == next.spec
    requires TargetOf(slot) == TargetOf(next) || Counted(slot) == 0 == Counted(next)
    ensures Share(c, Counted)(next)
            == Share(c, Counted)(slot).Plus(Copies(RequestOn(slot, c), Counted(next) - Counted(slot)))
  {
    CopiesChange(RequestOn(slot, c), Counted(slot), RequestOn(next, c), Counted(next));
  }

  lemma CountStep(slot: Slot, e: SlotEvent, c: ClusterId)
    requires Coherent(slot) && Enabled(slot, e)
    ensures Share(c, Counted)(StepSlot(slot, e)) == Share(c, Counted)(slot).Plus(Effect(slot, e, c))
  {
    CountsStep(slot, e);
    TargetIsKept(slot, e);
    hide StepSlot, Enabled, Coherent, Sound, Copies, RequestOn, TargetOf;
    ShareChange(slot, StepSlot(slot, e), c);
  }

  /** The target stays, or nothing has been counted yet. */
  lemma TargetIsKept(slot: Slot, e: SlotEvent)
    requires Coherent(slot) && Enabled(slot, e)
    ensures TargetOf(slot) == TargetOf(StepSlot(slot, e)) || Counted(slot) == 0 == Counted(StepSlot(slot, e))
  {
    CountsStep(slot, e);
    TargetIsRead(slot, e);
    CoherentStep(slot, e);
    CoherentIsSound(StepSlot(slot, e));
    if Current(slot).target.Some? {
      TargetStays(slot, e);
    }
    hide StepSlot, Enabled, ReconCoherent;
  }

  lemma SumStep(slots: seq<Slot>, i: nat, e: SlotEvent, c: ClusterId)
    requires i < |slots| && Coherent(slots[i]) && Enabled(slots[i], e)
    ensures Sum(slots[i := StepSlot(slots[i], e)], c, Counted) == Sum(slots, c, Counted).Plus(Effect(slots[i], e, c))
  {
    SumUpdate(slots, i, StepSlot(slots[i], e), Share(c, Counted));
    CountStep(slots[i], e, c);
  }

  /** An event that is neither a lock nor a release changes no sum. */
  lemma SumStays(slots: seq<Slot>, i: nat, e: SlotEvent, c: ClusterId)
    requires i < |slots| && Coherent(slots[i]) && Enabled(slots[i], e) && !e.LockDone? && !e.FreeDone?
    ensures Sum(slots[i := StepSlot(slots[i], e)], c, Counted) == Sum(slots, c, Counted)
  {
    hide StepSlot, Enabled, Coherent, Sound, Copies, RequestOn, Sum;
    SumStep(slots, i, e, c);
    assert Indicator(e.LockDone?) - Indicator(e.FreeDone?) == 0;
    NoCopies(RequestOn(slots[i], c));
    PlusZero(Sum(slots, c, Counted));
  }

  lemma PlusZero(a: Amount)
    ensures a.Plus(ZERO) == a
  {
  }

  lemma CoherentIsSound(slot: Slot)
    requires Coherent(slot)
    ensures Sound(slot)
  {
  }

  /** Progress of one reservation, while no ledger entry is closed. */
  lemma SlotsStayInOrder(s: State, t: State, i: nat, slot: Slot)
    requires WellFormed(s) && SlotsInOrder(s) && i < |s.slots| && t.slots == s.slots[i := slot]
    requires forall c <- t.clusters :: t.clusters[c].history != []
    requires forall c <- s.clusters :: c in t.clusters && (Now(s, c).reserved.Some? ==> Now(t, c).reserved.Some?)
    requires Coherent(slot)
    requires slot.locks + slot.frees > 0 ==>
               TargetOf(slot).Some? && TargetOf(slot).value in t.clusters && Now(t, TargetOf(slot).value).reserved.Some?
    ensures WellFormed(t) && SlotsInOrder(t)
  {
    hide Coherent;
    CoherentIsSound(slot);
    forall other <- t.slots
      ensures Sound(other)
    {
      assert other == slot || other in s.slots;
    }
    forall other <- t.slots
      ensures Coherent(other) && Opened(t, other)
    {
      if other != slot {
        assert other in s.slots;
        assert Opened(s, other);
      }
    }
  }

  lemma InvSlotOnly(s: State, i: nat, e: SlotEvent)
    requires Inv(s) && i < |s.slots| && Enabled(s.slots[i], e) && !e.LockDone? && !e.FreeDone?
    ensures Inv(StepAt(s, i, e))
  {
    var slot, t := s.slots[i], StepAt(s, i, e);
    SlotsStayInOrderAt(s, i, e);
    hide Coherent, StepSlot, Enabled, Serial, Summarise, Sum, Opened, SlotsInOrder;
    assert slot in s.slots;
    forall c <- t.clusters
      ensures Booked(t, c)
    {
      assert Booked(s, c);
      assert Coherent(slot) by {
        InOrder(s, slot);
      }
      SumStays(s.slots, i, e, c);
    }
  }

  lemma InOrder(s: State, slot: Slot)
    requires WellFormed(s) && SlotsInOrder(s) && slot in s.slots
    ensures Coherent(slot) && Opened(s, slot)
  {
  }

  lemma SlotsStayInOrderAt(s: State, i: nat, e: SlotEvent)
    requires WellFormed(s) && SlotsInOrder(s) && i < |s.slots| && Enabled(s.slots[i], e) && !e.LockDone? && !e.FreeDone?
    ensures WellFormed(StepAt(s, i, e)) && SlotsInOrder(StepAt(s, i, e))
  {
    var slot := s.slots[i];
    InOrder(s, slot);
    CoherentStep(slot, e);
    CountsStep(slot, e);
    TargetIsKept(slot, e);
    hide Coherent, StepSlot, Enabled, Sound;
    SlotsStayInOrder(s, StepAt(s, i, e), i, StepSlot(slot, e));
  }

  lemma InvCommit(s: State, c: ClusterId, v: nat, op: Op)
    requires Inv(s) && CanAttempt(s, c, v, op) && NetOf(op) == ZERO
    ensures Inv(Commit(s, c, v, op))
  {
    hide Coherent, Serial, Summarise, Sum;
    var t := Commit(s, c, v, op);
    assert Booked(s, c);
    CommitKeepsSerial(s, c, v, op);
    ReservedStays(s.clusters[c].history[v], op);
    forall c' <- t.clusters
      ensures Booked(t, c')
    {
      assert Booked(s, c');
    }
    forall slot <- t.slots
      ensures Opened(t, slot)
    {
      assert Opened(s, slot);
    }
  }

  /** What a committed lock or release adds to the net of the history is what it adds to the count. */
  ghost predicate Matches(slot: Slot, e: SlotEvent, op: Op) {
    || (e.LockDone? && op == LockOp(slot.spec.request))
    || (e.FreeDone? && op == UnlockOp(slot.spec.request))
  }

  lemma MatchingEffect(slot: Slot, e: SlotEvent, c: ClusterId, op: Op)
    requires Matches(slot, e, op)
    ensures Effect(slot, e, c) == if TargetOf(slot) == Some(c) then NetOf(op) else ZERO
  {
    hide Copies;
    CopiesUnit(RequestOn(slot, c));
  }

  lemma BooksStayExact(s: State, i: nat, e: SlotEvent, c: ClusterId, v: nat, op: Op)
    requires Inv(s) && i < |s.slots| && Enabled(s.slots[i], e) && CanAttempt(s, c, v, op) && IsNewest(s, c, v)
    requires TargetOf(s.slots[i]) == Some(c) && Matches(s.slots[i], e, op)
    ensures AllBooked(StepAt(Commit(s, c, v, op), i, e))
  {
    hide Coherent, StepSlot, Enabled, Serial, Summarise, Apply, Permitted, Sum, Effect, NetOf, Sound;
    var t := StepAt(Commit(s, c, v, op), i, e);
    assert Booked(s, c);
    CommitKeepsSerial(s, c, v, op);
    forall c' <- t.clusters
      ensures Booked(t, c')
    {
      assert Booked(s, c');
      SumStep(s.slots, i, e, c');
      MatchingEffect(s.slots[i], e, c', op);
    }
  }

  /** A committed lock or release and the drive's progress, together. */
  lemma InvCount(s: State, i: nat, e: SlotEvent, c: ClusterId, v: nat, op: Op)
    requires Inv(s) && i < |s.slots| && Enabled(s.slots[i], e) && CanAttempt(s, c, v, op) && IsNewest(s, c, v)
    requires TargetOf(s.slots[i]) == Some(c) && Matches(s.slots[i], e, op)
    ensures Inv(StepAt(Commit(s, c, v, op), i, e))
  {
    hide Coherent, StepSlot, Enabled, Serial, Summarise, Apply, Permitted, AllBooked, Sum, Sound;
    var slot, t := s.slots[i], StepAt(Commit(s, c, v, op), i, e);
    assert slot in s.slots;
    InOrder(s, slot);
    CoherentStep(slot, e);
    TargetStays(slot, e);
    CoherentIsSound(StepSlot(slot, e));
    BooksStayExact(s, i, e, c, v, op);
    CommitOpens(s, c, v, op);
    SlotsStayInOrder(s, t, i, StepSlot(slot, e));
  }

  /** A committed lock or release leaves the ledger open, and closes no other. */
  lemma CommitOpens(s: State, c: ClusterId, v: nat, op: Op)
    requires WellFormed(s) && CanAttempt(s, c, v, op) && IsNewest(s, c, v) && (op.LockOp? || op.UnlockOp?)
    ensures var t := Commit(s, c, v, op);
            && (forall c' <- t.clusters :: t.clusters[c'].history != [])
            && (forall c' <- s.clusters ::
                  c' in t.clusters && (Now(s, c').reserved.Some? ==> Now(t, c').reserved.Some?))
            && Now(t, c).reserved.Some?
  {
    ReservedStays(s.clusters[c].history[v], op);
    hide Sound, Apply;
  }

  lemma NothingCounted(s: State, c: ClusterId)
    requires WellFormed(s) && SlotsInOrder(s) && c !in s.clusters
    ensures Sum(s.slots, c, Counted) == ZERO
  {
    hide Coherent;
    forall slot <- s.slots
      ensures Share(c, Counted)(slot) == ZERO
    {
      assert Opened(s, slot);
      NoCopies(RequestOn(slot, c));
      CopiesOfZero(Counted(slot));
    }
    SumZero(s.slots, Share(c, Counted));
  }

  lemma InvRegister(s: State, c: ClusterId, advert: Advert)
    requires Inv(s) && c !in s.clusters
    ensures Inv(s.(clusters := s.clusters[c := Cluster([advert], [])]))
  {
    hide Coherent, Apply, Permitted, Sum;
    var t := s.(clusters := s.clusters[c := Cluster([advert], [])]);
    NothingCounted(s, c);
    forall slot <- t.slots
      ensures Opened(t, slot)
    {
      assert Opened(s, slot);
    }
    forall c' <- t.clusters
      ensures Booked(t, c')
    {
      assert c' != c ==> Booked(s, c');
    }
  }

  /** A reservation that counts nothing changes no sum. */
  lemma NothingAdded(slots: seq<Slot>, slot: Slot, c: ClusterId)
    requires Counted(slot) == 0
    ensures Sum(slots + [slot], c, Counted) == Sum(slots, c, Counted)
  {
    hide Copies, RequestOn, SumOf;
    SumAppend(slots, slot, Share(c, Counted));
    NoCopies(RequestOn(slot, c));
    assert Share(c, Counted)(slot) == ZERO;
    PlusZero(Sum(slots, c, Counted));
  }

  lemma InvCreate(s: State, slot: Slot)
    requires Inv(s) && Coherent(slot) && slot.locks == 0 == slot.frees
    ensures Inv(s.(slots := s.slots + [slot]))
  {
    hide Coherent, Serial, Summarise, Sum;
    var t := s.(slots := s.slots + [slot]);
    CoherentIsSound(slot);
    forall other <- t.slots
      ensures Coherent(other) && Opened(t, other)
    {
      assert other in s.slots ==> Opened(s, other);
    }
    forall c <- t.clusters
      ensures Booked(t, c)
    {
      assert Booked(s, c);
      NothingAdded(s.slots, slot, c);
    }
  }

  /** Every event keeps the books, however stale the reads and whoever interferes. */
  lemma InvStep(s: State, e: Event)
    requires Inv(s) && IsEnabled(s, e)
    ensures Inv(Step(s, e))
  {
    match e
    case Register(c, advert) => InvRegister(s, c, advert);
    case Advertise(c, v, advert) => InvCommit(s, c, v, MergeOp(advert));
    case Annotated(c, v, carbon, at) => InvCommit(s, c, v, AnnotateOp(carbon, at));
    case Create(spec, target, who) =>
      NewSlotCoherent(spec, target, who);
      InvCreate(s, NewSlot(spec, target, who));
    case _ => InvStepAt(s, e);
  }

  lemma InvStepAt(s: State, e: Event)
    requires Inv(s) && IsEnabled(s, e) && AtSlot(e)
    ensures Inv(Step(s, e))
  {
    var slot, local := s.slots[e.i], SlotEventOf(s, e);
    if local.LockDone? {
      TargetStep(slot, local);
      InvCount(s, e.i, local, TargetRead(slot, e.who).value, e.v, LockOp(slot.spec.request));
    } else if local.FreeDone? {
      TargetStep(slot, local);
      InvCount(s, e.i, local, TargetRead(slot, Reconciler).value, e.v, UnlockOp(slot.spec.request));
    } else {
      InvSlotOnly(s, e.i, local);
    }
  }
}
