/** Concrete runs in which something goes wrong. */
module Mishaps {
  import opened Quantities
  import opened Ledger
  import opened Reservations
  import opened Protocol
  import opened Runs

  lemma RunPrefix(s: State, e: Event, es: seq<Event>, t: State)
    requires IsEnabled(s, e) && Run(Step(s, e), es, t)
    ensures Run(s, [e] + es, t)
  {
    assert ([e] + es)[1..] == es;
  }

  const TEN := Quantities(10, 10, None)
  const OFFER := Advert(TEN, Quantities(0, 0, None), TEN, None, "", [], 0, None)
  const SCARCE := OFFER.(available := Quantities(7, 7, None))
  const ASKED := ReservationSpec("r", Amount(4, 4), None)
  const CREATED := Version(Some("p"), Pending, false, false, false, false, None)
  const GUARDED := CREATED.(finalizer := true)

  function Scene(c: Cluster, slot: Slot): State {
    State(map["p" := c], [slot])
  }

  /** In a scene, an event of the reservation is a step of its slot. */
  lemma SceneLocal(c: Cluster, slot: Slot, e: SlotEvent, next: Slot, es: seq<Event>, t: State)
    requires c.history != [] && Sound(slot) && IsLocal(e) && Enabled(slot, e) && StepSlot(slot, e) == next
    requires Run(Scene(c, next), es, t)
    ensures Run(Scene(c, slot), [Local(0, e)] + es, t)
  {
    hide StepSlot, Enabled;
    assert Step(Scene(c, slot), Local(0, e)) == Scene(c, next);
    RunPrefix(Scene(c, slot), Local(0, e), es, t);
  }

  /** And a lock attempt that read the newest advertisement also moves the ledger. */
  lemma SceneLock(c: Cluster, slot: Slot, who: Actor, next: Slot, es: seq<Event>, t: State)
    requires c.history != [] && Sound(slot) && MayLock(slot, who) && TargetRead(slot, who) == Some("p")
    requires Ledger.CanReserve(Last(c.history), slot.spec.request) && StepSlot(slot, LockDone(who)) == next
    requires Run(Scene(Cluster(c.history + [Lock(Last(c.history), slot.spec.request)],
                               c.ops + [LockOp(slot.spec.request)]), next), es, t)
    ensures Run(Scene(c, slot), [LockAttempt(0, who, |c.history| - 1)] + es, t)
  {
    hide StepSlot;
    var e, s := LockAttempt(0, who, |c.history| - 1), Scene(c, slot);
    var d := Cluster(c.history + [Lock(Last(c.history), slot.spec.request)], c.ops + [LockOp(slot.spec.request)]);
    assert IsEnabled(s, e);
    assert Step(s, e).clusters == map["p" := d];
    assert Step(s, e) == Scene(d, next);
    RunPrefix(s, e, es, t);
  }

  const LOCKED_ONCE := Lock(OFFER, ASKED.request)
  const LOCKED_TWICE := Lock(LOCKED_ONCE, ASKED.request)

  function Ledger0(offer: Advert): Cluster { Cluster([offer], []) }
  function Ledger1(offer: Advert): Cluster { Cluster([offer, Lock(offer, ASKED.request)], [LockOp(ASKED.request)]) }
  function Ledger2(): Cluster {
    Cluster([OFFER, LOCKED_ONCE, LOCKED_TWICE], [LockOp(ASKED.request), LockOp(ASKED.request)])
  }

  /** The handler creates the object. */
  lemma HandlerCreates(offer: Advert, es: seq<Event>, t: State)
    requires Run(Scene(Ledger0(offer), NewSlot(ASKED, Some("p"), Handler)), es, t)
    ensures Run(EMPTY, [Register("p", offer)] + ([Create(ASKED, Some("p"), Handler)] + es), t)
  {
    var e1, e2 := Register("p", offer), Create(ASKED, Some("p"), Handler);
    var s1 := State(map["p" := Ledger0(offer)], []);
    assert Step(EMPTY, e1) == s1;
    assert Step(s1, e2) == Scene(Ledger0(offer), NewSlot(ASKED, Some("p"), Handler));
    RunPrefix(s1, e2, es, t);
    RunPrefix(EMPTY, e1, [e2] + es, t);
  }

  /** It adds the finalizer while the reconciler, woken by the creation, reads the object. */
  lemma BothDrive(c: Cluster, es: seq<Event>, t: State)
    requires c.history != []
    requires Run(Scene(c, Slot(ASKED, [CREATED, GUARDED], true, Working(1, 0), Working(0, 0), 0, 0)), es, t)
    ensures Run(Scene(c, NewSlot(ASKED, Some("p"), Handler)),
                [Local(0, AddFinalizer(Handler))] + ([Local(0, Begin(1))] + es), t)
  {
    var guarded := Slot(ASKED, [CREATED, GUARDED], true, Idle, Working(0, 0), 0, 0);
    var both := guarded.(recon := Working(1, 0));
    SceneLocal(c, guarded, Begin(1), both, es, t);
    assert [CREATED] + [GUARDED] == [CREATED, GUARDED];
    SceneLocal(c, NewSlot(ASKED, Some("p"), Handler), AddFinalizer(Handler), guarded, [Local(0, Begin(1))] + es, t);
  }

  lemma HandlerLocks(offer: Advert, es: seq<Event>, t: State)
    requires Ledger.CanReserve(offer, ASKED.request)
    requires Run(Scene(Ledger1(offer), Slot(ASKED, [CREATED, GUARDED], true, Working(1, 0), Locked(0, 0), 1, 0)), es, t)
    ensures Run(Scene(Ledger0(offer), Slot(ASKED, [CREATED, GUARDED], true, Working(1, 0), Working(0, 0), 0, 0)),
                [LockAttempt(0, Handler, 0)] + es, t)
  {
    var both := Slot(ASKED, [CREATED, GUARDED], true, Working(1, 0), Working(0, 0), 0, 0);
    var one := both.(post := Locked(0, 0), locks := 1);
    assert [offer] + [Lock(offer, ASKED.request)] == Ledger1(offer).history;
    assert [] + [LockOp(ASKED.request)] == Ledger1(offer).ops;
    SceneLock(Ledger0(offer), both, Handler, one, es, t);
  }

  /** Both lock, one after the other. */
  lemma BothLock(es: seq<Event>, t: State)
    requires Run(Scene(Ledger2(), Slot(ASKED, [CREATED, GUARDED], true, Locked(1, 0), Locked(0, 0), 2, 0)), es, t)
    ensures Run(Scene(Ledger0(OFFER), Slot(ASKED, [CREATED, GUARDED], true, Working(1, 0), Working(0, 0), 0, 0)),
                [LockAttempt(0, Handler, 0)] + ([LockAttempt(0, Reconciler, 1)] + es), t)
  {
    var one := Slot(ASKED, [CREATED, GUARDED], true, Working(1, 0), Locked(0, 0), 1, 0);
    var two := one.(recon := Locked(1, 0), locks := 2);
    assert [OFFER, LOCKED_ONCE] + [LOCKED_TWICE] == Ledger2().history;
    assert [LockOp(ASKED.request)] + [LockOp(ASKED.request)] == Ledger2().ops;
    SceneLock(Ledger1(OFFER), one, Reconciler, two, es, t);
    hide *;
    HandlerLocks(OFFER, [LockAttempt(0, Reconciler, 1)] + es, t);
  }

  /** Both mark the reservation as Reserved. */
  lemma BothMark(c: Cluster, es: seq<Event>, t: State)
    requires c.history != []
    requires var marked := GUARDED.(phase := Reserved);
             Run(Scene(c, Slot(ASKED, [CREATED, GUARDED, marked, marked], true, Idle, Idle, 2, 0)), es, t)
    ensures Run(Scene(c, Slot(ASKED, [CREATED, GUARDED], true, Locked(1, 0), Locked(0, 0), 2, 0)),
                [Local(0, MarkReserved(Reconciler, 1, 0))] + ([Local(0, MarkReserved(Handler, 2, 0))] + es), t)
  {
    var marked := GUARDED.(phase := Reserved);
    var two := Slot(ASKED, [CREATED, GUARDED], true, Locked(1, 0), Locked(0, 0), 2, 0);
    var one := two.(history := [CREATED, GUARDED, marked], recon := Idle);
    var none := one.(history := [CREATED, GUARDED, marked, marked], post := Idle);
    assert [CREATED, GUARDED, marked] + [marked] == [CREATED, GUARDED, marked, marked];
    SceneLocal(c, one, MarkReserved(Handler, 2, 0), none, es, t);
    assert [CREATED, GUARDED] + [marked] == [CREATED, GUARDED, marked];
    SceneLocal(c, two, MarkReserved(Reconciler, 1, 0), one, [Local(0, MarkReserved(Handler, 2, 0))] + es, t);
  }

  /**
   Creating the object in PostReservation also wakes the reconciler, and then both lock: a run, without any failure,
   after which the ledger holds the request of a single Reserved reservation twice.
   */
  lemma TwoDriversLockTwice() returns (es: seq<Event>, s: State)
    ensures Run(EMPTY, es, s)
    ensures |s.slots| == 1 && s.slots[0].recon == Idle && s.slots[0].post == Idle && s.slots[0].history != []
    ensures Current(s.slots[0]).phase == Reserved && s.slots[0].spec.request == Amount(4, 4)
    ensures "p" in s.clusters && s.clusters["p"].history != [] && Now(s, "p").Held() == Amount(8, 8)
  {
    s := BothMarked();
    es := [];
    BothMark(Ledger2(), es, s);
    es := [Local(0, MarkReserved(Reconciler, 1, 0))] + ([Local(0, MarkReserved(Handler, 2, 0))] + es);
    hide Run;
    BothLock(es, s);
    es := [LockAttempt(0, Handler, 0)] + ([LockAttempt(0, Reconciler, 1)] + es);
    BothDrive(Ledger0(OFFER), es, s);
    es := [Local(0, AddFinalizer(Handler))] + ([Local(0, Begin(1))] + es);
    HandlerCreates(OFFER, es, s);
    es := [Register("p", OFFER)] + ([Create(ASKED, Some("p"), Handler)] + es);
  }

  function BothMarked(): State {
    var marked := GUARDED.(phase := Reserved);
    Scene(Ledger2(), Slot(ASKED, [CREATED, GUARDED, marked, marked], true, Idle, Idle, 2, 0))
  }

  // ----- a lost phase write

  const NOTED := GUARDED.(active := true)

  /** An object that comes without a handler is picked up by one drive. */
  lemma DriveStarts(es: seq<Event>, t: State)
    requires Run(Scene(Ledger0(OFFER), Slot(ASKED, [CREATED, GUARDED], true, Working(1, 0), Idle, 0, 0)), es, t)
    ensures Run(State(map["p" := Ledger0(OFFER)], []),
                [Create(ASKED, Some("p"), Reconciler)]
                  + ([Local(0, Begin(0))] + ([Local(0, AddFinalizer(Reconciler))] + es)), t)
  {
    var created := NewSlot(ASKED, Some("p"), Reconciler);
    var begun := created.(recon := Working(0, 0));
    var guarded := Slot(ASKED, [CREATED, GUARDED], true, Working(1, 0), Idle, 0, 0);
    var create, rest := Create(ASKED, Some("p"), Reconciler), [Local(0, AddFinalizer(Reconciler))] + es;
    var empty := State(map["p" := Ledger0(OFFER)], []);
    assert [CREATED] + [GUARDED] == [CREATED, GUARDED];
    SceneLocal(Ledger0(OFFER), begun, AddFinalizer(Reconciler), guarded, es, t);
    SceneLocal(Ledger0(OFFER), created, Begin(0), begun, rest, t);
    assert Step(empty, create) == Scene(Ledger0(OFFER), created);
    RunPrefix(empty, create, [Local(0, Begin(0))] + rest, t);
  }

  lemma DriveLocks(es: seq<Event>, t: State)
    requires Run(Scene(Ledger1(OFFER), Slot(ASKED, [CREATED, GUARDED], true, Locked(1, 0), Idle, 1, 0)), es, t)
    ensures Run(Scene(Ledger0(OFFER), Slot(ASKED, [CREATED, GUARDED], true, Working(1, 0), Idle, 0, 0)),
                [LockAttempt(0, Reconciler, 0)] + es, t)
  {
    var guarded := Slot(ASKED, [CREATED, GUARDED], true, Working(1, 0), Idle, 0, 0);
    hide Run;
    assert [OFFER] + [LOCKED_ONCE] == Ledger1(OFFER).history && [] + [LockOp(ASKED.request)] == Ledger1(OFFER).ops;
    SceneLock(Ledger0(OFFER), guarded, Reconciler, guarded.(recon := Locked(1, 0), locks := 1), es, t);
  }

  lemma WriteIsLost(c: Cluster, es: seq<Event>, t: State)
    requires c.history != []
    requires Run(Scene(c, Slot(ASKED, [CREATED, GUARDED, NOTED], true, Idle, Idle, 1, 0)), es, t)
    ensures Run(Scene(c, Slot(ASKED, [CREATED, GUARDED, NOTED], true, Locked(1, 0), Idle, 1, 0)),
                [Local(0, MarkReserved(Reconciler, 1, 0))] + es, t)
  {
    var noted := Slot(ASKED, [CREATED, GUARDED, NOTED], true, Locked(1, 0), Idle, 1, 0);
    SceneLocal(c, noted, MarkReserved(Reconciler, 1, 0), noted.(recon := Idle), es, t);
  }

  /** It locks; before it marks the reservation as Reserved, someone else writes the object. */
  lemma MarkIsLost(es: seq<Event>, t: State)
    requires Run(Scene(Ledger1(OFFER), Slot(ASKED, [CREATED, GUARDED, NOTED], true, Idle, Idle, 1, 0)), es, t)
    ensures Run(Scene(Ledger0(OFFER), Slot(ASKED, [CREATED, GUARDED], true, Working(1, 0), Idle, 0, 0)),
                [LockAttempt(0, Reconciler, 0)]
                + ([Local(0, Signal(true, false))] + ([Local(0, MarkReserved(Reconciler, 1, 0))] + es)), t)
  {
    var locked := Slot(ASKED, [CREATED, GUARDED], true, Locked(1, 0), Idle, 1, 0);
    var lost := Local(0, MarkReserved(Reconciler, 1, 0));
    WriteIsLost(Ledger1(OFFER), es, t);
    hide Run;
    assert [CREATED, GUARDED] + [NOTED] == [CREATED, GUARDED, NOTED];
    SceneLocal(Ledger1(OFFER), locked, Signal(true, false), locked.(history := [CREATED, GUARDED, NOTED]),
               [lost] + es, t);
    DriveLocks([Local(0, Signal(true, false))] + ([lost] + es), t);
  }

  /** The advertisement, and a reservation that is guarded by its first drive. */
  lemma DriveBegins(rest: seq<Event>, t: State) returns (es: seq<Event>)
    requires Run(Scene(Ledger0(OFFER), Slot(ASKED, [CREATED, GUARDED], true, Working(1, 0), Idle, 0, 0)), rest, t)
    ensures Run(EMPTY, es, t)
  {
    DriveStarts(rest, t);
    es := [Create(ASKED, Some("p"), Reconciler)]
      + ([Local(0, Begin(0))] + ([Local(0, AddFinalizer(Reconciler))] + rest));
    assert Step(EMPTY, Register("p", OFFER)) == State(map["p" := Ledger0(OFFER)], []);
    RunPrefix(EMPTY, Register("p", OFFER), es, t);
    es := [Register("p", OFFER)] + es;
  }

  /**
   A run with a single driver whose phase write conflicts: the reservation is Pending and nobody works on it, but the
   ledger holds its request.
   */
  lemma LostMarkKeepsTheLock() returns (es: seq<Event>, s: State)
    ensures Run(EMPTY, es, s)
    ensures |s.slots| == 1 && s.slots[0].recon == Idle && s.slots[0].post == Idle && s.slots[0].history != []
    ensures s.slots[0].live && Current(s.slots[0]).phase == Pending && Sum(s.slots, "p", Owed) == ZERO
    ensures "p" in s.clusters && s.clusters["p"].history != [] && Now(s, "p").Held() == Amount(4, 4)
  {
    s := Scene(Ledger1(OFFER), Slot(ASKED, [CREATED, GUARDED, NOTED], true, Idle, Idle, 1, 0));
    assert Run(s, [], s);
    MarkIsLost([], s);
    es := DriveBegins([LockAttempt(0, Reconciler, 0)]
                      + ([Local(0, Signal(true, false))] + ([Local(0, MarkReserved(Reconciler, 1, 0))] + [])), s);
    NothingOwed(s.slots);
  }

  lemma NothingOwed(slots: seq<Slot>)
    requires forall slot <- slots :: Owed(slot) == 0
    ensures Sum(slots, "p", Owed) == ZERO
  {
    forall slot <- slots
      ensures Share("p", Owed)(slot) == ZERO
    {
      NoCopies(RequestOn(slot, "p"));
    }
    SumZero(slots, Share("p", Owed));
  }

  // ----- a phase overwritten

  const FAILED := GUARDED.(phase := Phase.Failed)
  const REVIVED := GUARDED.(phase := Reserved)

  lemma MarkedFailed(c: Cluster, es: seq<Event>, t: State)
    requires c.history != []
    requires Run(Scene(c, Slot(ASKED, [CREATED, GUARDED, FAILED], true, Idle, Locked(0, 0), 1, 0)), es, t)
    ensures Run(Scene(c, Slot(ASKED, [CREATED, GUARDED], true, Refused(1, 0), Locked(0, 0), 1, 0)),
                [Local(0, MarkFailed(Reconciler, 1))] + es, t)
  {
    var failed := Slot(ASKED, [CREATED, GUARDED, FAILED], true, Idle, Locked(0, 0), 1, 0);
    assert [CREATED, GUARDED] + [FAILED] == [CREATED, GUARDED, FAILED];
    SceneLocal(c, failed.(history := [CREATED, GUARDED], recon := Refused(1, 0)), MarkFailed(Reconciler, 1), failed,
               es, t);
  }

  /** After the handler's lock too little is left for the reconciler's own, and it gives the reservation up. */
  lemma ReconcilerGivesUp(c: Cluster, es: seq<Event>, t: State)
    requires c.history != [] && !Ledger.CanReserve(Last(c.history), ASKED.request)
    requires Run(Scene(c, Slot(ASKED, [CREATED, GUARDED, FAILED], true, Idle, Locked(0, 0), 1, 0)), es, t)
    ensures Run(Scene(c, Slot(ASKED, [CREATED, GUARDED], true, Working(1, 0), Locked(0, 0), 1, 0)),
                [Refusal(0, Reconciler, Some(|c.history| - 1))] + ([Local(0, MarkFailed(Reconciler, 1))] + es), t)
  {
    var both := Slot(ASKED, [CREATED, GUARDED], true, Working(1, 0), Locked(0, 0), 1, 0);
    MarkedFailed(c, es, t);
    hide Run;
    var refusal := Refusal(0, Reconciler, Some(|c.history| - 1));
    assert Step(Scene(c, both), refusal) == Scene(c, both.(recon := Refused(1, 0)));
    RunPrefix(Scene(c, both), refusal, [Local(0, MarkFailed(Reconciler, 1))] + es, t);
  }

  function GivenUp(): State {
    Scene(Ledger1(SCARCE), Slot(ASKED, [CREATED, GUARDED, FAILED], true, Idle, Locked(0, 0), 1, 0))
  }

  lemma HandlerRevives(last: Event)
    requires last == Local(0, MarkReserved(Handler, 2, 0))
    ensures IsEnabled(GivenUp(), last) && IsOverwrite(GivenUp(), last)
    ensures |Step(GivenUp(), last).slots| == 1 && Step(GivenUp(), last).slots[0].history != []
    ensures Current(Step(GivenUp(), last).slots[0]).phase == Reserved
  {
    assert Step(GivenUp(), last).slots[0].history == [CREATED, GUARDED, FAILED] + [REVIVED];
  }

  /**
   A run without any failure, in which the reconciler marks a reservation as Failed, because after the handler's lock
   too little is left, and the handler marks it as Reserved afterwards: the last event moves a final phase back.
   */
  lemma FailedIsRevived() returns (es: seq<Event>, s: State, last: Event)
    ensures Run(EMPTY, es, s) && |s.slots| == 1 && s.slots[0].history != [] && Current(s.slots[0]).phase == Phase.Failed
    ensures IsEnabled(s, last) && IsOverwrite(s, last)
    ensures |Step(s, last).slots| == 1 && Step(s, last).slots[0].history != []
    ensures Current(Step(s, last).slots[0]).phase == Reserved
  {
    hide Step, IsEnabled, IsOverwrite;
    s := GivenUp();
    last := Local(0, MarkReserved(Handler, 2, 0));
    HandlerRevives(last);
    es := [];
    assert Run(s, es, s);
    hide Run;
    ReconcilerGivesUp(Ledger1(SCARCE), es, s);
    es := [Refusal(0, Reconciler, Some(1))] + ([Local(0, MarkFailed(Reconciler, 1))] + es);
    HandlerLocks(SCARCE, es, s);
    es := [LockAttempt(0, Handler, 0)] + es;
    BothDrive(Ledger0(SCARCE), es, s);
    es := [Local(0, AddFinalizer(Handler))] + ([Local(0, Begin(1))] + es);
    HandlerCreates(SCARCE, es, s);
    es := [Register("p", SCARCE)] + ([Create(ASKED, Some("p"), Handler)] + es);
  }

  // ----- a lock orphaned

  const ORPHANED := Slot(ASKED, [CREATED], false, Idle, Locked(0, 0), 1, 0)

  lemma LocksThenDeleted(es: seq<Event>, t: State)
    requires Run(Scene(Ledger1(OFFER), ORPHANED), es, t)
    ensures Run(Scene(Ledger0(OFFER), NewSlot(ASKED, Some("p"), Handler)),
                [LockAttempt(0, Handler, 0)] + ([Local(0, Delete)] + es), t)
  {
    var locked := ORPHANED.(live := true);
    hide Run;
    SceneLocal(Ledger1(OFFER), locked, Delete, ORPHANED, es, t);
    assert [OFFER] + [LOCKED_ONCE] == Ledger1(OFFER).history && [] + [LockOp(ASKED.request)] == Ledger1(OFFER).ops;
    SceneLock(Ledger0(OFFER), NewSlot(ASKED, Some("p"), Handler), Handler, locked, [Local(0, Delete)] + es, t);
  }

  /** The handler, whose finalizer was not stored, locks for an object that is then deleted. */
  lemma DeletedWhileLocked() returns (es: seq<Event>, s: State)
    ensures Run(EMPTY, es, s) && |s.slots| == 1 && s.slots[0].history != [] && !s.slots[0].live
    ensures !Protected(s.slots[0]) && "p" in s.clusters && s.clusters["p"].history != []
    ensures Now(s, "p").Held() == Amount(4, 4)
  {
    s := Scene(Ledger1(OFFER), ORPHANED);
    es := [];
    assert Run(s, es, s);
    hide Run;
    LocksThenDeleted(es, s);
    es := [LockAttempt(0, Handler, 0)] + ([Local(0, Delete)] + es);
    HandlerCreates(OFFER, es, s);
    es := [Register("p", OFFER)] + ([Create(ASKED, Some("p"), Handler)] + es);
  }
}
