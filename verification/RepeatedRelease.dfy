/** A concrete run in which one lock is released twice, and what that can lead to. */
module RepeatedRelease {
  import opened Quantities
  import opened Ledger
  import opened Reservations
  import opened Protocol
  import opened Runs
  import opened Overcommit
  import opened Mishaps

  const MARKED := GUARDED.(phase := Reserved)
  const IN_USE := MARKED.(active := true)
  const PROMOTED := IN_USE.(phase := Active)
  const RELEASED_ONCE := Unlock(LOCKED_ONCE, ASKED.request)
  const RELEASED_TWICE := Unlock(RELEASED_ONCE, ASKED.request)

  function Stage(history: seq<Version>, recon: Drive, locks: nat, frees: nat): Slot {
    Slot(ASKED, history, true, recon, Idle, locks, frees)
  }

  function Freed1(): Cluster {
    Cluster([OFFER, LOCKED_ONCE, RELEASED_ONCE], [LockOp(ASKED.request), UnlockOp(ASKED.request)])
  }

  function Freed2(): Cluster {
    Cluster([OFFER, LOCKED_ONCE, RELEASED_ONCE, RELEASED_TWICE],
            [LockOp(ASKED.request), UnlockOp(ASKED.request), UnlockOp(ASKED.request)])
  }

  /** A release attempt that read the newest advertisement moves slot and ledger. */
  lemma SceneFree(c: Cluster, slot: Slot, d: Cluster, es: seq<Event>, t: State)
    requires c.history != [] && Sound(slot) && MayFree(slot, 0) && TargetRead(slot, Reconciler) == Some("p")
    requires Last(c.history).reserved.Some?
    requires d == Cluster(c.history + [Unlock(Last(c.history), slot.spec.request)],
                          c.ops + [UnlockOp(slot.spec.request)])
    requires Run(Scene(d, StepSlot(slot, FreeDone(0))), es, t)
    ensures Run(Scene(c, slot), [FreeAttempt(0, |c.history| - 1, 0)] + es, t)
  {
    hide StepSlot, Run, Due;
    var e, s := FreeAttempt(0, |c.history| - 1, 0), Scene(c, slot);
    assert IsEnabled(s, e);
    assert Step(s, e).clusters == map["p" := d];
    assert Step(s, e) == Scene(d, StepSlot(slot, FreeDone(0)));
    RunPrefix(s, e, es, t);
  }

  /** One drive locks and marks the reservation as Reserved. */
  lemma DriveConfirms(es: seq<Event>, t: State)
    requires Run(Scene(Ledger1(OFFER), Stage([CREATED, GUARDED, MARKED], Idle, 1, 0)), es, t)
    ensures Run(Scene(Ledger0(OFFER), Stage([CREATED, GUARDED], Working(1, 0), 0, 0)),
                [LockAttempt(0, Reconciler, 0)] + ([Local(0, MarkReserved(Reconciler, 1, 0))] + es), t)
  {
    var locked := Stage([CREATED, GUARDED], Locked(1, 0), 1, 0);
    var marked := Stage([CREATED, GUARDED, MARKED], Idle, 1, 0);
    hide Run;
    assert [CREATED, GUARDED] + [MARKED] == [CREATED, GUARDED, MARKED];
    SceneLocal(Ledger1(OFFER), locked, MarkReserved(Reconciler, 1, 0), marked, es, t);
    DriveLocks([Local(0, MarkReserved(Reconciler, 1, 0))] + es, t);
  }

  /** The requester reports that it is active, which the next drive reads. */
  lemma UseBegins(es: seq<Event>, t: State)
    requires Run(Scene(Ledger1(OFFER), Stage([CREATED, GUARDED, MARKED, IN_USE], Working(3, 0), 1, 0)), es, t)
    ensures Run(Scene(Ledger1(OFFER), Stage([CREATED, GUARDED, MARKED], Idle, 1, 0)),
                [Local(0, Signal(true, false))] + ([Local(0, Begin(3))] + es), t)
  {
    var used := Stage([CREATED, GUARDED, MARKED, IN_USE], Idle, 1, 0);
    hide Run;
    SceneLocal(Ledger1(OFFER), used, Begin(3), used.(recon := Working(3, 0)), es, t);
    assert [CREATED, GUARDED, MARKED] + [IN_USE] == used.history;
    SceneLocal(Ledger1(OFFER), Stage([CREATED, GUARDED, MARKED], Idle, 1, 0), Signal(true, false), used,
               [Local(0, Begin(3))] + es, t);
  }

  /** The drive settles what it released for; the next one starts from the copy that the first one read. */
  lemma StaleRead(es: seq<Event>, t: State)
    requires Run(Scene(Freed1(), Stage([CREATED, GUARDED, MARKED, IN_USE, PROMOTED], Working(3, 0), 1, 1)), es, t)
    ensures Run(Scene(Freed1(), Stage([CREATED, GUARDED, MARKED, IN_USE], Freed(3, GoActive, true), 1, 1)),
                [Local(0, Settle)] + ([Local(0, Begin(3))] + es), t)
  {
    var freed := Stage([CREATED, GUARDED, MARKED, IN_USE], Freed(3, GoActive, true), 1, 1);
    var settled := Stage([CREATED, GUARDED, MARKED, IN_USE, PROMOTED], Idle, 1, 1);
    hide Run;
    SceneLocal(Freed1(), settled, Begin(3), settled.(recon := Working(3, 0)), es, t);
    assert [CREATED, GUARDED, MARKED, IN_USE] + [PROMOTED] == settled.history;
    SceneLocal(Freed1(), freed, Settle, settled, [Local(0, Begin(3))] + es, t);
  }

  lemma DriveReleases(es: seq<Event>, t: State)
    requires Run(Scene(Freed1(), Stage([CREATED, GUARDED, MARKED, IN_USE], Freed(3, GoActive, true), 1, 1)), es, t)
    ensures Run(Scene(Ledger1(OFFER), Stage([CREATED, GUARDED, MARKED, IN_USE], Working(3, 0), 1, 0)),
                [FreeAttempt(0, 1, 0)] + es, t)
  {
    var used := Stage([CREATED, GUARDED, MARKED, IN_USE], Working(3, 0), 1, 0);
    hide Run;
    assert Freed1().history == [OFFER, LOCKED_ONCE] + [RELEASED_ONCE];
    assert Freed1().ops == [LockOp(ASKED.request)] + [UnlockOp(ASKED.request)];
    SceneFree(Ledger1(OFFER), used, Freed1(), es, t);
  }

  function Repeated(): State {
    Scene(Freed2(), Stage([CREATED, GUARDED, MARKED, IN_USE, PROMOTED], Freed(3, GoActive, true), 1, 2))
  }

  lemma DriveReleasesAgain(es: seq<Event>, t: State)
    requires Run(Repeated(), es, t)
    ensures Run(Scene(Freed1(), Stage([CREATED, GUARDED, MARKED, IN_USE, PROMOTED], Working(3, 0), 1, 1)),
                [FreeAttempt(0, 2, 0)] + es, t)
  {
    var promoted := Stage([CREATED, GUARDED, MARKED, IN_USE, PROMOTED], Working(3, 0), 1, 1);
    hide Run;
    assert Freed2().history == [OFFER, LOCKED_ONCE, RELEASED_ONCE] + [RELEASED_TWICE];
    assert Freed2().ops == [LockOp(ASKED.request), UnlockOp(ASKED.request)] + [UnlockOp(ASKED.request)];
    SceneFree(Freed1(), promoted, Freed2(), es, t);
  }

  lemma ReachRepeated(rest: seq<Event>, t: State) returns (es: seq<Event>)
    requires Run(Repeated(), rest, t)
    ensures Run(EMPTY, es, t)
  {
    hide Run;
    DriveReleasesAgain(rest, t);
    es := [FreeAttempt(0, 2, 0)] + rest;
    StaleRead(es, t);
    es := [Local(0, Settle)] + ([Local(0, Begin(3))] + es);
    DriveReleases(es, t);
    es := [FreeAttempt(0, 1, 0)] + es;
    UseBegins(es, t);
    es := [Local(0, Signal(true, false))] + ([Local(0, Begin(3))] + es);
    DriveConfirms(es, t);
    es := DriveBegins([LockAttempt(0, Reconciler, 0)] + ([Local(0, MarkReserved(Reconciler, 1, 0))] + es), t);
  }

  /**
   A run with a single driver and without a lost write: the last drive starts from an outdated copy and releases a lock
   for the second time. The ledger is what the phases and the drives owe, and still Reserved is negative.
   */
  lemma StaleReadReleasesTwice() returns (es: seq<Event>, s: State)
    ensures Run(EMPTY, es, s) && !ReleasesBacked(EMPTY, es) && NoDrift(s)
    ensures "p" in s.clusters && s.clusters["p"].history != [] && Now(s, "p").Held() == Amount(-4, -4)
  {
    s := Repeated();
    assert Run(s, [], s);
    es := ReachRepeated([], s);
    hide Run;
    if ReleasesBacked(EMPTY, es) {
      BackedIsHeld(es, s, "p");
      assert false;
    }
  }

  // ----- and its consequence

  const CROWDED := OFFER.(allotted := Quantities(12, 12, None), available := Quantities(0, 0, None))
  const FREED := Merge(RELEASED_TWICE, CROWDED)

  function Crowded(slots: seq<Slot>): State {
    State(map["p" := Cluster(Freed2().history + [FREED], Freed2().ops + [MergeOp(CROWDED)])], slots)
  }

  /** Another reservation meets a provider whose pods need more than it can allocate. */
  lemma Arrives()
    ensures var first, second := Repeated().slots, NewSlot(ASKED, Some("p"), Handler);
            Run(Repeated(), [Advertise("p", 3, CROWDED), Create(ASKED, Some("p"), Handler)], Crowded(first + [second]))
  {
    var first, second := Repeated().slots, NewSlot(ASKED, Some("p"), Handler);
    var advertise, create := Advertise("p", 3, CROWDED), Create(ASKED, Some("p"), Handler);
    hide StepSlot;
    assert Step(Repeated(), advertise) == Crowded(first);
    assert Step(Crowded(first), create) == Crowded(first + [second]);
    assert Run(Crowded(first + [second]), [], Crowded(first + [second]));
    RunPrefix(Crowded(first), create, [], Crowded(first + [second]));
    RunPrefix(Repeated(), advertise, [create] + [], Crowded(first + [second]));
    assert [advertise] + ([create] + []) == [advertise, create];
  }

  lemma CrowdedLedger(cluster: Cluster)
    requires cluster == Crowded([]).clusters["p"]
    ensures cluster.history[0].Held() == ZERO && Opens(cluster) && Offered(cluster) == CROWDED && Backed(CROWDED, ZERO)
    ensures |cluster.history| == 5 && Last(cluster.history) == FREED && Ledger.CanReserve(FREED, ASKED.request)
  {
    var ops := cluster.ops;
    assert ops[..3] == Freed2().ops;
    assert Summarise(ops) == Summarise(ops[..3]).Extend(MergeOp(CROWDED));
  }

  lemma CrowdedGrants(s: State, lock: Event)
    requires s == Crowded(Repeated().slots + [NewSlot(ASKED, Some("p"), Handler)]) && lock == LockAttempt(1, Handler, 4)
    ensures IsEnabled(s, lock) && Commits(s, lock) && TargetRead(s.slots[lock.i], lock.who) == Some("p")
    ensures "p" in Step(s, lock).clusters && Step(s, lock).clusters["p"].history != []
    ensures Now(Step(s, lock), "p") == Lock(FREED, ASKED.request)
  {
    CrowdedLedger(s.clusters["p"]);
    hide Opens, Offered, Backed, StepSlot, Ledger.CanReserve, Freed2;
  }

  /** A lock that does not fit betrays a release of what was not locked. */
  lemma OverbookedIsUnbacked(es: seq<Event>, s: State, lock: Event, c: ClusterId)
    requires Run(EMPTY, es, s) && IsEnabled(s, lock) && Commits(s, lock)
    requires TargetRead(s.slots[lock.i], lock.who) == Some(c) && s.clusters[c].history != []
    requires Opens(s.clusters[c]) && Backed(Offered(s.clusters[c]), ZERO) && s.clusters[c].history[0].Held() == ZERO
    requires c in Step(s, lock).clusters && Step(s, lock).clusters[c].history != []
    requires !Fits(Offered(s.clusters[c]), ZERO, Now(Step(s, lock), c).Held())
    ensures !ReleasesBacked(EMPTY, es)
  {
    hide Run, Step, Opens, Offered, Backed, Fits, ReleasesBacked;
    if ReleasesBacked(EMPTY, es) {
      NoOvercommit(es, s, lock, c, ZERO);
      assert false;
    }
  }

  lemma NothingLeft()
    ensures !Fits(CROWDED, ZERO, Lock(FREED, ASKED.request).Held())
  {
  }

  /** After it, the broker grants a lock at a provider that has nothing left. */
  lemma RepeatedReleaseOverbooks() returns (es: seq<Event>, s: State, lock: Event)
    ensures Run(EMPTY, es, s) && !ReleasesBacked(EMPTY, es)
    ensures IsEnabled(s, lock) && Commits(s, lock) && TargetRead(s.slots[lock.i], lock.who) == Some("p")
    ensures s.clusters["p"].history != [] && Opens(s.clusters["p"]) && Backed(Offered(s.clusters["p"]), ZERO)
    ensures "p" in Step(s, lock).clusters && Step(s, lock).clusters["p"].history != []
    ensures !Fits(Offered(s.clusters["p"]), ZERO, Now(Step(s, lock), "p").Held())
  {
    hide Run, IsEnabled, Commits, Step, Opens, Offered, Backed, Fits, ReleasesBacked;
    hide Merge, Lock, Unlock, Repeated, Freed2;
    s, lock := Crowded(Repeated().slots + [NewSlot(ASKED, Some("p"), Handler)]), LockAttempt(1, Handler, 4);
    Arrives();
    es := ReachRepeated([Advertise("p", 3, CROWDED), Create(ASKED, Some("p"), Handler)], s);
    CrowdedLedger(s.clusters["p"]);
    CrowdedGrants(s, lock);
    NothingLeft();
    OverbookedIsUnbacked(es, s, lock, "p");
  }
}
