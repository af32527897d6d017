/** When the broker never reserves more than a provider has: over every run, up to what is released without a lock. */
module Overcommit {
  import opened Quantities
  import opened Ledger
  import opened Reservations
  import opened Protocol
  import opened Runs

  // ----- releases over whole runs

  ghost predicate IsOverrelease(s: State, e: Event)
    requires IsEnabled(s, e)
  {
    AtSlot(e) && Overreleases(s.slots[e.i], SlotEventOf(s, e))
  }

  /** Only what the ledger counts is released. */
  ghost predicate ReleasesBacked(s: State, es: seq<Event>)
    decreases |es|
  {
    |es| != 0 ==> IsEnabled(s, es[0]) && !IsOverrelease(s, es[0]) && ReleasesBacked(Step(s, es[0]), es[1..])
  }

  ghost predicate NoneOverreleased(s: State) {
    forall slot <- s.slots :: Counted(slot) >= 0
  }

  /** No reservation is released more often than locked, before, between and after the events. */
  ghost predicate NeverOverreleased(s: State, es: seq<Event>)
    decreases |es|
  {
    NoneOverreleased(s) && (|es| != 0 ==> IsEnabled(s, es[0]) && NeverOverreleased(Step(s, es[0]), es[1..]))
  }

  lemma NoneOverreleasedStep(s: State, e: Event)
    requires Inv(s) && NoneOverreleased(s) && IsEnabled(s, e)
    ensures NoneOverreleased(Step(s, e)) <==> !IsOverrelease(s, e)
  {
    if AtSlot(e) {
      var slot, local := s.slots[e.i], SlotEventOf(s, e);
      var next := StepSlot(slot, local);
      OverreleaseStep(slot, local);
      assert Step(s, e).slots == s.slots[e.i := next];
      hide Counted, StepSlot, Enabled, Coherent, Sound, Overreleases;
      UpdateMembers(s.slots, e.i, next);
      assert s.slots[e.i := next][e.i] == next;
    } else if e.Create? {
      var slot := NewSlot(e.spec, e.target, e.who);
      assert Counted(slot) == 0;
      hide Counted, Sound, NewSlot;
      assert forall other <- Step(s, e).slots :: other == slot || other in s.slots;
    } else {
      hide Counted, Sound;
      assert Step(s, e).slots == s.slots;
    }
  }

  /** With any drivers, reads and failures: no reservation is over-released exactly if no release lacks its lock. */
  lemma {:induction false} NeverOverreleasedIffBacked(s: State, es: seq<Event>, t: State)
    requires Inv(s) && NoneOverreleased(s) && Run(s, es, t)
    ensures NeverOverreleased(s, es) <==> ReleasesBacked(s, es)
    ensures ReleasesBacked(s, es) ==> NoneOverreleased(t)
    decreases |es|
  {
    if |es| != 0 {
      InvStep(s, es[0]);
      NoneOverreleasedStep(s, es[0]);
      var next := Step(s, es[0]);
      hide Inv, IsEnabled, IsOverrelease, Step, NoneOverreleased;
      if NoneOverreleased(next) {
        NeverOverreleasedIffBacked(next, es[1..], t);
      } else {
        assert !NeverOverreleased(next, es[1..]);
      }
    }
  }

  /** Then Reserved never falls below what the advertisement was created with. */
  lemma BackedIsHeld(es: seq<Event>, s: State, c: ClusterId)
    requires Run(EMPTY, es, s) && ReleasesBacked(EMPTY, es) && c in s.clusters
    ensures Inv(s)
    ensures s.clusters[c].history[0].Held().AtMost(Now(s, c).Held())
  {
    EmptyInv();
    RunKeepsBooks(EMPTY, es, s);
    NeverOverreleasedIffBacked(EMPTY, es, s);
    Accounting(s, c);
    hide Run, ReleasesBacked, Coherent;
    SumIsNonNegative(s.slots, c);
  }

  // ----- what keeps releases backed

  ghost predicate IsRepeat(s: State, e: Event)
    requires IsEnabled(s, e)
  {
    AtSlot(e) && Repeats(s.slots[e.i], SlotEventOf(s, e))
  }

  /** No phase write is lost after a committed release, and releases start from objects that are up to date. */
  ghost predicate RepeatFree(s: State, es: seq<Event>)
    decreases |es|
  {
    |es| != 0 ==> IsEnabled(s, es[0]) && !IsRepeat(s, es[0]) && RepeatFree(Step(s, es[0]), es[1..])
  }

  ghost predicate NothingMissing(s: State) {
    forall slot <- s.slots :: Drift(slot) >= 0
  }

  lemma NothingMissingStep(s: State, e: Event)
    requires Inv(s) && NothingMissing(s) && IsEnabled(s, e) && !IsRepeat(s, e)
    ensures NothingMissing(Step(s, e)) && !IsOverrelease(s, e)
  {
    if AtSlot(e) {
      var slot, local := s.slots[e.i], SlotEventOf(s, e);
      var next := StepSlot(slot, local);
      assert Coherent(slot) && Drift(slot) >= 0;
      OverreleaseTakesRepeat(slot, local);
      assert Step(s, e).slots == s.slots[e.i := next];
      hide Drift, StepSlot, Enabled, Coherent, Sound, Overreleases, Repeats;
      UpdateMembers(s.slots, e.i, next);
    } else if e.Create? {
      var slot := NewSlot(e.spec, e.target, e.who);
      assert Drift(slot) == 0;
      hide Drift, Sound, NewSlot;
      assert forall other <- Step(s, e).slots :: other == slot || other in s.slots;
    } else {
      hide Drift, Sound;
      assert Step(s, e).slots == s.slots;
    }
  }

  /**
   Two drivers at once, phase writes lost after a lock and unprotected deletions included: as long as no release is
   repeated or outdated, only what is locked is released.
   */
  lemma {:induction false} RepeatFreeIsBacked(s: State, es: seq<Event>, t: State)
    requires Inv(s) && NothingMissing(s) && Run(s, es, t) && RepeatFree(s, es)
    ensures ReleasesBacked(s, es)
    decreases |es|
  {
    if |es| != 0 {
      InvStep(s, es[0]);
      NothingMissingStep(s, es[0]);
      hide Inv, IsEnabled, IsOverrelease, IsRepeat, Step, NothingMissing;
      RepeatFreeIsBacked(Step(s, es[0]), es[1..], t);
    }
  }

  /** Orderly runs are of that kind. */
  lemma {:induction false} OrderlyIsBacked(s: State, es: seq<Event>, t: State)
    requires Good(s) && OrderlyRun(s, es, t)
    ensures Run(s, es, t) && ReleasesBacked(s, es)
    decreases |es|
  {
    if |es| != 0 {
      GoodStep(s, es[0]);
      if AtSlot(es[0]) {
        assert s.slots[es[0].i] in s.slots;
        TidyReleasesLocked(s.slots[es[0].i], SlotEventOf(s, es[0]));
      }
      hide Good, IsEnabled, OrderlyEvent, IsOverrelease, Step;
      OrderlyIsBacked(Step(s, es[0]), es[1..], t);
    }
  }

  // ----- no overcommit

  ghost predicate Commits(s: State, e: Event)
    requires IsEnabled(s, e)
  {
    e.LockAttempt? && IsNewest(s, TargetRead(s.slots[e.i], e.who).value, e.v)
  }

  /** The last advertisement of a cluster. */
  ghost function Offered(cluster: Cluster): Advert
    requires cluster.history != []
  {
    Summarise(cluster.ops).Advertised(cluster.history[0])
  }

  /** The ledger started from nothing reserved, or has been advertised since. */
  ghost predicate Opens(cluster: Cluster)
    requires cluster.history != []
  {
    cluster.history[0].Held() == ZERO || Summarise(cluster.ops).merged.Some?
  }

  /** What the pods use and the agent holds back fits into what the provider can allocate. */
  predicate Fits(offer: Advert, agentReserved: Amount, held: Amount) {
    offer.allotted.Lockable().Plus(agentReserved).Plus(held).AtMost(offer.allocatable.Lockable())
  }

  /** Nothing of a resource is reserved below zero, unless the provider has room for it anyway. */
  predicate Sane(offer: Advert, agentReserved: Amount, held: Amount) {
    && (held.cpu >= 0 || offer.allotted.cpu + agentReserved.cpu <= offer.allocatable.cpu)
    && (held.memory >= 0 || offer.allotted.memory + agentReserved.memory <= offer.allocatable.memory)
  }

  /**
   In every consistent state, a committed lock leaves nothing negative, and what the provider's pods use, what its agent
   already holds back and what the broker has reserved fit together into what the provider can allocate, if before
   the lock Reserved was not negative or the provider not overbooked by itself.
   */
  lemma NoOvercommitAt(s: State, e: Event, c: ClusterId, agentReserved: Amount)
    requires Inv(s) && IsEnabled(s, e) && Commits(s, e)
    requires c == TargetRead(s.slots[e.i], e.who).value && s.clusters[c].history != []
    requires Opens(s.clusters[c]) && Backed(Offered(s.clusters[c]), agentReserved)
    requires Sane(Offered(s.clusters[c]), agentReserved, Now(s, c).Held())
    ensures c in Step(s, e).clusters && Step(s, e).clusters[c].history != []
    ensures var now, offer := Now(Step(s, e), c), Offered(s.clusters[c]);
            && ZERO.AtMost(now.available.Lockable())
            && Fits(offer, agentReserved, now.Held())
            && now.allotted == offer.allotted && now.allocatable == offer.allocatable
  {
    assert s.slots[e.i] in s.slots;
    LockerIsValid(s.slots[e.i], e.who);
    LockResult(s, e, c);
    assert Booked(s, c);
    HistoryMeaning(s.clusters[c].history, s.clusters[c].ops);
    var before, now, request := Now(s, c), Now(Step(s, e), c), s.slots[e.i].spec.request;
    hide Inv, IsEnabled, Commits, Step, Coherent, Serial, Means, Summarise, Backed, Ledger.CanReserve, Lock;
    LockFits(s.clusters[c].history[0], before, Summarise(s.clusters[c].ops), request, agentReserved);
  }

  lemma LockResult(s: State, e: Event, c: ClusterId)
    requires Inv(s) && IsEnabled(s, e) && Commits(s, e) && c == TargetRead(s.slots[e.i], e.who).value
    ensures Ledger.CanReserve(Now(s, c), s.slots[e.i].spec.request)
    ensures c in Step(s, e).clusters && Step(s, e).clusters[c].history != []
    ensures Now(Step(s, e), c) == Lock(Now(s, c), s.slots[e.i].spec.request)
  {
    hide Coherent, Serial, Summarise, Sum, StepSlot, Enabled;
  }

  lemma LockerIsValid(slot: Slot, who: Actor)
    requires Coherent(slot) && MayLock(slot, who)
    ensures slot.spec.Valid()
  {
  }

  lemma LockFits(created: Advert, now: Advert, sum: Summary, request: Amount, agentReserved: Amount)
    requires Means(created, now, sum) && (created.Held() == ZERO || sum.merged.Some?)
    requires request.Positive() && Ledger.CanReserve(now, request)
    requires Backed(sum.Advertised(created), agentReserved)
    requires Sane(sum.Advertised(created), agentReserved, now.Held())
    ensures var locked, offer := Lock(now, request), sum.Advertised(created);
            && ZERO.AtMost(locked.available.Lockable())
            && Fits(offer, agentReserved, locked.Held())
            && locked.allotted == offer.allotted && locked.allocatable == offer.allocatable
  {
  }

  /**
   After every committed lock of a run, however many drivers there are and whatever is lost or read late: pods, the
   agent's reservations and the broker's fit together, if only what is locked is released; and even that does not
   matter to a provider that is not overbooked by its own pods and reservations.
   */
  lemma NoOvercommit(es: seq<Event>, s: State, e: Event, c: ClusterId, agentReserved: Amount)
    requires Run(EMPTY, es, s) && IsEnabled(s, e) && Commits(s, e)
    requires c == TargetRead(s.slots[e.i], e.who).value && s.clusters[c].history != []
    requires Opens(s.clusters[c]) && Backed(Offered(s.clusters[c]), agentReserved)
    requires || (ReleasesBacked(EMPTY, es) && ZERO.AtMost(s.clusters[c].history[0].Held()))
             || Fits(Offered(s.clusters[c]), agentReserved, ZERO)
    ensures c in Step(s, e).clusters && Step(s, e).clusters[c].history != []
    ensures var now, offer := Now(Step(s, e), c), Offered(s.clusters[c]);
            && ZERO.AtMost(now.available.Lockable())
            && Fits(offer, agentReserved, now.Held())
            && now.allotted == offer.allotted && now.allocatable == offer.allocatable
  {
    EmptyInv();
    RunKeepsBooks(EMPTY, es, s);
    hide Inv, Run, ReleasesBacked, Commits, Step, Offered, Opens, Backed;
    if ReleasesBacked(EMPTY, es) && ZERO.AtMost(s.clusters[c].history[0].Held()) {
      BackedIsHeld(es, s, c);
    }
    NoOvercommitAt(s, e, c, agentReserved);
  }
}
