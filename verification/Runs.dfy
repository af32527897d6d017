/** What every run of the protocol guarantees, and what exactly it takes for the ledger to be exact. */
module Runs {
  import opened Quantities
  import opened Ledger
  import opened Reservations
  import opened Protocol

  const EMPTY := State(map[], [])

  ghost predicate Run(s: State, es: seq<Event>, t: State)
    decreases |es|
  {
    if |es| == 0 then s == t
    else IsEnabled(s, es[0]) && Run(Step(s, es[0]), es[1..], t)
  }

  lemma EmptyInv()
    ensures Inv(EMPTY)
  {
  }

  /** Any number of writers, reads as stale as they like, failures at any point: every ledger history is serial. */
  lemma {:induction false} RunKeepsBooks(s: State, es: seq<Event>, t: State)
    requires Inv(s) && Run(s, es, t)
    ensures Inv(t)
    decreases |es|
  {
    if |es| != 0 {
      InvStep(s, es[0]);
      hide Inv, IsEnabled;
      RunKeepsBooks(Step(s, es[0]), es[1..], t);
    }
  }

  /** No committed update of Reserved is ever lost: the field is the initial amount plus locks minus releases. */
  lemma Accounting(s: State, c: ClusterId)
    requires Inv(s) && c in s.clusters
    ensures Now(s, c).Held() == s.clusters[c].history[0].Held().Plus(Sum(s.slots, c, Counted))
  {
    hide Coherent, Serial, Sum;
    assert Booked(s, c);
    HistoryMeaning(s.clusters[c].history, s.clusters[c].ops);
  }

  /** In every reachable state an advertisement has the policy that it was created with, however often agents repost. */
  lemma PolicyOutlivesReposts(s: State, c: ClusterId)
    requires Inv(s) && c in s.clusters
    ensures Now(s, c).policy == s.clusters[c].history[0].policy
  {
    assert Booked(s, c);
    PolicyStays(s.clusters[c].history, s.clusters[c].ops);
  }

  /** The ledger is extended by one update of its newest value. */
  ghost predicate Extends(before: Cluster, after: Cluster) {
    && before.history != []
    && exists op :: Permitted(Last(before.history), op)
              && after.ops == before.ops + [op] && after.history == before.history + [Apply(Last(before.history), op)]
  }

  /** A conditional update computed from a version that is no longer the newest one. */
  ghost predicate Conflicts(s: State, e: Event)
    requires IsEnabled(s, e)
  {
    match e
    case Advertise(c, v, _) => !IsNewest(s, c, v)
    case Annotated(c, v, _, _) => !IsNewest(s, c, v)
    case LockAttempt(i, who, v) => !IsNewest(s, TargetRead(s.slots[i], who).value, v)
    case FreeAttempt(i, v, _) => !IsNewest(s, TargetRead(s.slots[i], Reconciler).value, v)
    case _ => false
  }

  /** An event changes at most one ledger, by one update of its newest value; a conflicting attempt changes none. */
  lemma EventsCommitOnTheNewestValue(s: State, e: Event)
    requires Inv(s) && IsEnabled(s, e)
    ensures var t := Step(s, e);
            && (forall c <- s.clusters :: c in t.clusters
                                    && (t.clusters[c] == s.clusters[c] || Extends(s.clusters[c], t.clusters[c])))
            && (forall c <- s.clusters, c' <- s.clusters ::
                  t.clusters[c] != s.clusters[c] && t.clusters[c'] != s.clusters[c'] ==> c == c')
            && (Conflicts(s, e) ==> t.clusters == s.clusters)
  {
    hide Coherent, Sum, StepSlot, Enabled, Serial, Summarise, Permitted, Apply;
    match e
    case Advertise(c, v, advert) => CommitExtends(s, c, v, MergeOp(advert));
    case Annotated(c, v, carbon, at) => CommitExtends(s, c, v, AnnotateOp(carbon, at));
    case LockAttempt(i, who, v) =>
      CommitExtends(s, TargetRead(s.slots[i], who).value, v, LockOp(s.slots[i].spec.request));
    case FreeAttempt(i, v, now) =>
      CommitExtends(s, TargetRead(s.slots[i], Reconciler).value, v, UnlockOp(s.slots[i].spec.request));
    case _ =>
  }

  lemma CommitExtends(s: State, c: ClusterId, v: nat, op: Op)
    requires WellFormed(s) && CanAttempt(s, c, v, op)
    ensures var t := Commit(s, c, v, op);
            && t.clusters.Keys == s.clusters.Keys
            && (forall c' <- s.clusters :: c' != c || !IsNewest(s, c, v) ==> t.clusters[c'] == s.clusters[c'])
            && (IsNewest(s, c, v) ==> Extends(s.clusters[c], t.clusters[c]))
  {
    hide Permitted, Apply, Sound;
    if IsNewest(s, c, v) {
      assert Permitted(Last(s.clusters[c].history), op);
    }
  }

  // ----- exactness

  /** For every cluster, what the ledger counts is what the phases and the operations in flight say. */
  ghost predicate Exact(s: State) {
    forall c: ClusterId :: Sum(s.slots, c, Counted) == Sum(s.slots, c, Owed)
  }

  ghost predicate NoDrift(s: State) {
    forall slot <- s.slots :: Drift(slot) == 0
  }

  lemma NoDriftIsExact(s: State)
    requires NoDrift(s)
    ensures Exact(s)
  {
    forall c: ClusterId
      ensures Sum(s.slots, c, Counted) == Sum(s.slots, c, Owed)
    {
      CountedIsOwedPlusDrift(s.slots, c);
      NoDriftNoSum(s.slots, c);
    }
  }

  lemma ExactIsHeld(s: State, c: ClusterId)
    requires Inv(s) && Exact(s) && c in s.clusters
    ensures Now(s, c).Held() == s.clusters[c].history[0].Held().Plus(Sum(s.slots, c, Owed))
  {
    Accounting(s, c);
  }

  /** A slip concerns a valid request with a target. */
  lemma SlipsAreReal(slot: Slot, e: SlotEvent)
    requires Coherent(slot) && Enabled(slot, e) && Slippage(slot, e) != 0
    ensures slot.spec.Valid() && TargetOf(slot).Some? && TargetOf(StepSlot(slot, e)) == TargetOf(slot)
    ensures Slippage(slot, e) == 1 || Slippage(slot, e) == -1
  {
    assert Current(slot) in slot.history;
    assert !slot.recon.Idle? ==> slot.history[slot.recon.base] in slot.history;
    assert !slot.post.Idle? ==> slot.history[slot.post.base] in slot.history;
    TargetStep(slot, e);
  }

  lemma DriftSum(slots: seq<Slot>, i: nat, slot: Slot, c: ClusterId)
    requires i < |slots| && (forall other <- slots :: Drift(other) == 0)
    ensures Sum(slots[i := slot], c, Drift) == Copies(RequestOn(slot, c), Drift(slot))
  {
    hide Drift, RequestOn, Copies;
    assert Drift(slots[i]) == 0;
    NoCopies(RequestOn(slots[i], c));
    assert Sum(slots, c, Drift) == ZERO by {
      NoDriftNoSum(slots, c);
    }
    SumSingle(slots, i, slot, Share(c, Drift));
  }

  lemma NoDriftNoSum(slots: seq<Slot>, c: ClusterId)
    requires forall slot <- slots :: Drift(slot) == 0
    ensures Sum(slots, c, Drift) == ZERO
  {
    forall slot <- slots
      ensures Share(c, Drift)(slot) == ZERO
    {
      NoCopies(RequestOn(slot, c));
    }
    SumZero(slots, Share(c, Drift));
  }

  /** One reservation with a drift throws the sum of its cluster off. */
  lemma DriftShows(slots: seq<Slot>, i: nat, slot: Slot, c: ClusterId)
    requires i < |slots| && (forall other <- slots :: Drift(other) == 0)
    requires TargetOf(slot) == Some(c) && slot.spec.request.Positive() && (Drift(slot) == 1 || Drift(slot) == -1)
    ensures Sum(slots[i := slot], c, Counted) != Sum(slots[i := slot], c, Owed)
  {
    hide Drift, TargetOf, Copies, Sum;
    DriftSum(slots, i, slot, c);
    CopiesUnit(slot.spec.request);
    assert RequestOn(slot, c) == slot.spec.request;
    CountedIsOwedPlusDrift(slots[i := slot], c);
  }

  /**
   While the books are exact, an event keeps them exact if and only if it is not a slip. So the hypotheses that exclude
   slips (one driver per reservation, phase writes that commit before the next drive) are necessary as well as
   sufficient.
   */
  lemma ExactUnlessSlip(s: State, e: Event)
    requires Inv(s) && NoDrift(s) && IsEnabled(s, e) && AtSlot(e)
    ensures Exact(Step(s, e)) <==> Slippage(s.slots[e.i], SlotEventOf(s, e)) == 0
  {
    var slot, local := s.slots[e.i], SlotEventOf(s, e);
    var next := StepSlot(slot, local);
    assert slot in s.slots && Coherent(slot) && Drift(slot) == 0;
    assert Step(s, e).slots == s.slots[e.i := next];
    DriftStep(slot, local);
    if Slippage(slot, local) == 0 {
      hide Drift, StepSlot, Coherent, Enabled, Sum;
      UpdateMembers(s.slots, e.i, next);
      NoDriftIsExact(Step(s, e));
    } else {
      SlipIsNotExact(s.slots, e.i, local);
    }
  }

  lemma SlipIsNotExact(slots: seq<Slot>, i: nat, e: SlotEvent)
    requires i < |slots| && (forall slot <- slots :: Drift(slot) == 0)
    requires Coherent(slots[i]) && Enabled(slots[i], e) && Slippage(slots[i], e) != 0
    ensures TargetOf(slots[i]).Some?
    ensures var after, c := slots[i := StepSlot(slots[i], e)], TargetOf(slots[i]).value;
            Sum(after, c, Counted) != Sum(after, c, Owed)
  {
    var slot := slots[i];
    var next := StepSlot(slot, e);
    assert Drift(slot) == 0;
    DriftStep(slot, e);
    CountsStep(slot, e);
    SlipsAreReal(slot, e);
    hide Drift, StepSlot, Coherent, Enabled, Slippage, Sum, TargetOf;
    DriftShows(slots, i, next, TargetOf(slot).value);
  }

  // ----- exactness over whole runs

  ghost predicate Slips(s: State, e: Event)
    requires IsEnabled(s, e)
  {
    AtSlot(e) && Slippage(s.slots[e.i], SlotEventOf(s, e)) != 0
  }

  ghost predicate SlipFree(s: State, es: seq<Event>)
    decreases |es|
  {
    |es| != 0 ==> IsEnabled(s, es[0]) && !Slips(s, es[0]) && SlipFree(Step(s, es[0]), es[1..])
  }

  /** The ledger is exact before, between and after the events. */
  ghost predicate ExactThroughout(s: State, es: seq<Event>)
    decreases |es|
  {
    Exact(s) && (|es| != 0 ==> IsEnabled(s, es[0]) && ExactThroughout(Step(s, es[0]), es[1..]))
  }

  lemma NoDriftStep(s: State, e: Event)
    requires Inv(s) && NoDrift(s) && IsEnabled(s, e) && !Slips(s, e)
    ensures NoDrift(Step(s, e))
  {
    if AtSlot(e) {
      var slot, local := s.slots[e.i], SlotEventOf(s, e);
      assert Coherent(slot);
      DriftStep(slot, local);
      var next := StepSlot(slot, local);
      assert Step(s, e).slots == s.slots[e.i := next];
      hide Drift, Slippage, StepSlot, Enabled, Coherent, Sound;
      UpdateMembers(s.slots, e.i, next);
    } else if e.Create? {
      var slot := NewSlot(e.spec, e.target, e.who);
      assert Drift(slot) == 0;
      hide Drift, Sound, NewSlot;
      assert forall other <- Step(s, e).slots :: other == slot || other in s.slots;
    } else {
      hide Drift, Sound;
      assert Step(s, e).slots == s.slots;
    }
  }

  /**
   From any consistent state without drift, with any number of drivers and reads as stale as they like: the ledger is
   exact at every point of a run if and only if no event of the run slips.
   */
  lemma {:induction false} ExactIffSlipFree(s: State, es: seq<Event>, t: State)
    requires Inv(s) && NoDrift(s) && Run(s, es, t)
    ensures ExactThroughout(s, es) <==> SlipFree(s, es)
    ensures SlipFree(s, es) ==> NoDrift(t) && Inv(t)
    decreases |es|
  {
    NoDriftIsExact(s);
    if |es| != 0 {
      var e := es[0];
      var next := Step(s, e);
      InvStep(s, e);
      if Slips(s, e) {
        ExactUnlessSlip(s, e);
        assert !ExactThroughout(next, es[1..]);
      } else {
        NoDriftStep(s, e);
        hide Inv, NoDrift, Exact, IsEnabled, Step, Slips;
        ExactIffSlipFree(next, es[1..], t);
      }
    }
  }

  /**
   So along every run without slips, whoever drives and however late the reads, Reserved is what the advertisement was
   created with plus what the reservations owe: the Reserved ones, plus locks in flight, minus releases in flight.
   */
  lemma SlipFreeLedgerIsExact(es: seq<Event>, s: State, c: ClusterId)
    requires Run(EMPTY, es, s) && SlipFree(EMPTY, es) && c in s.clusters
    ensures WellFormed(s)
    ensures Now(s, c).Held() == s.clusters[c].history[0].Held().Plus(Sum(s.slots, c, Owed))
  {
    EmptyInv();
    ExactIffSlipFree(EMPTY, es, s);
    NoDriftIsExact(s);
    ExactIsHeld(s, c);
  }

  // ----- orderly runs

  /**
   The hypotheses under which the ledger is exact: a reservation has one driver at a time, which starts from its newest
   version; no slip; advertisements are created without a reserved amount.
   */
  ghost predicate OrderlyEvent(s: State, e: Event)
    requires IsEnabled(s, e)
  {
    && (AtSlot(e) ==> Orderly(s.slots[e.i], SlotEventOf(s, e)))
    && (e.Register? ==> e.advert.Held() == ZERO)
  }

  ghost predicate OrderlyRun(s: State, es: seq<Event>, t: State)
    decreases |es|
  {
    if |es| == 0 then s == t
    else IsEnabled(s, es[0]) && OrderlyEvent(s, es[0]) && OrderlyRun(Step(s, es[0]), es[1..], t)
  }

  ghost predicate AllTidy(s: State)
    requires WellFormed(s)
  {
    forall slot <- s.slots :: Tidy(slot)
  }

  ghost predicate OpenedEmpty(s: State)
    requires WellFormed(s)
  {
    forall c <- s.clusters :: s.clusters[c].history[0].Held() == ZERO
  }

  ghost predicate Good(s: State) {
    Inv(s) && AllTidy(s) && OpenedEmpty(s)
  }

  lemma EmptyIsGood()
    ensures Good(EMPTY)
  {
  }

  lemma TidySlots(s: State, i: nat, e: SlotEvent)
    requires Inv(s) && AllTidy(s) && i < |s.slots| && Enabled(s.slots[i], e) && Orderly(s.slots[i], e)
    ensures forall slot <- StepAt(s, i, e).slots :: Sound(slot) && Tidy(slot)
  {
    var next := StepSlot(s.slots[i], e);
    assert Coherent(s.slots[i]);
    TidyStep(s.slots[i], e);
    CoherentStep(s.slots[i], e);
    CoherentIsSound(next);
    hide Tidy, StepSlot, Orderly, Enabled, Coherent, Sound;
    forall slot <- StepAt(s, i, e).slots
      ensures Sound(slot) && Tidy(slot)
    {
      assert slot == next || slot in s.slots;
    }
  }

  lemma FirstStays(s: State, e: Event)
    requires Inv(s) && OpenedEmpty(s) && IsEnabled(s, e) && OrderlyEvent(s, e) && WellFormed(Step(s, e))
    ensures OpenedEmpty(Step(s, e))
  {
    hide Inv, Sound, StepSlot, Enabled, Orderly;
    var t := Step(s, e);
    forall c <- t.clusters
      ensures t.clusters[c].history[0].Held() == ZERO
    {
      assert c in s.clusters ==> t.clusters[c].history[0] == s.clusters[c].history[0];
    }
  }

  lemma GoodStep(s: State, e: Event)
    requires Good(s) && IsEnabled(s, e) && OrderlyEvent(s, e)
    ensures Good(Step(s, e))
  {
    InvStep(s, e);
    FirstStays(s, e);
    if AtSlot(e) {
      TidySlots(s, e.i, SlotEventOf(s, e));
      assert Step(s, e).slots == StepAt(s, e.i, SlotEventOf(s, e)).slots;
    } else if e.Create? {
      assert Tidy(NewSlot(e.spec, e.target, e.who));
    }
  }

  lemma {:induction false} OrderlyRunsAreGood(s: State, es: seq<Event>, t: State)
    requires Good(s) && OrderlyRun(s, es, t)
    ensures Good(t)
    decreases |es|
  {
    if |es| != 0 {
      GoodStep(s, es[0]);
      hide Good, IsEnabled, OrderlyEvent;
      OrderlyRunsAreGood(Step(s, es[0]), es[1..], t);
    }
  }

  lemma TidyIsExact(s: State)
    requires Good(s)
    ensures Exact(s)
  {
    forall slot <- s.slots
      ensures Drift(slot) == 0
    {
      TidyMeaning(slot);
    }
    NoDriftIsExact(s);
  }

  lemma ShareIsNonNegative(slot: Slot, c: ClusterId)
    requires Coherent(slot) && Counted(slot) >= 0
    ensures ZERO.AtMost(Share(c, Counted)(slot))
  {
    hide Copies;
    CopiesNonNegative(RequestOn(slot, c), Counted(slot));
  }

  lemma SumIsNonNegative(slots: seq<Slot>, c: ClusterId)
    requires forall slot <- slots :: Coherent(slot) && Counted(slot) >= 0
    ensures ZERO.AtMost(Sum(slots, c, Counted))
  {
    hide Coherent;
    forall slot <- slots
      ensures ZERO.AtMost(Share(c, Counted)(slot))
    {
      ShareIsNonNegative(slot, c);
    }
    SumNonNegative(slots, Share(c, Counted));
  }

  lemma HeldIsNonNegative(s: State, c: ClusterId)
    requires Good(s) && c in s.clusters
    ensures ZERO.AtMost(Now(s, c).Held())
  {
    Accounting(s, c);
    forall slot <- s.slots
      ensures Counted(slot) >= 0
    {
      TidyMeaning(slot);
    }
    SumIsNonNegative(s.slots, c);
  }

  /**
   In every orderly run, at every point between two events, Reserved is exactly the sum of the requests of the
   reservations in phase Reserved, plus those locked but not yet marked, minus those released but not yet marked.
   It is never negative, and a release of a reservation in phase Reserved finds a Reserved field to subtract from.
   */
  lemma LedgerIsExact(es: seq<Event>, s: State, c: ClusterId)
    requires OrderlyRun(EMPTY, es, s) && c in s.clusters
    ensures WellFormed(s)
    ensures Now(s, c).Held() == Sum(s.slots, c, Owed)
    ensures ZERO.AtMost(Now(s, c).Held())
    ensures forall slot <- s.slots ::
              slot.live && Current(slot).phase == Reserved ==>
                && TargetOf(slot).Some? && TargetOf(slot).value in s.clusters
                && Now(s, TargetOf(slot).value).reserved.Some?
  {
    EmptyIsGood();
    OrderlyRunsAreGood(EMPTY, es, s);
    hide OrderlyRun, Coherent, Tidy;
    TidyIsExact(s);
    ExactIsHeld(s, c);
    HeldIsNonNegative(s, c);
    ReservedIsOpen(s);
    var first := s.clusters[c].history[0].Held();
    assert first == ZERO;
    hide *;
    ZeroPlus(Sum(s.slots, c, Owed));
  }

  lemma ZeroPlus(a: Amount)
    ensures ZERO.Plus(a) == a
  {
  }

  /** Whatever is Reserved has locked, and the lock has opened the ledger of its target. */
  lemma ReservedIsOpen(s: State)
    requires Good(s)
    ensures forall slot <- s.slots ::
              slot.live && Current(slot).phase == Reserved ==>
                && TargetOf(slot).Some? && TargetOf(slot).value in s.clusters
                && Now(s, TargetOf(slot).value).reserved.Some?
  {
    hide Coherent, AllBooked;
    forall slot <- s.slots
      ensures Opened(s, slot)
      ensures slot.live && Current(slot).phase == Reserved ==> slot.locks > 0
    {
      assert Tidy(slot);
    }
  }

  /** In every orderly run each reservation locks at most once, releases at most once, and only what it locked. */
  lemma LockedAndReleasedOnce(es: seq<Event>, s: State, slot: Slot)
    requires OrderlyRun(EMPTY, es, s) && slot in s.slots
    ensures slot.frees <= slot.locks <= 1
    ensures slot.history != []
    ensures slot.live && slot.recon.Idle? && slot.post.Idle? ==>
            (Counted(slot) == 1 <==> Current(slot).phase == Reserved)
  {
    EmptyIsGood();
    OrderlyRunsAreGood(EMPTY, es, s);
    TidyMeaning(slot);
  }

  // ----- phases over whole runs

  ghost predicate NoHandlers(s: State) {
    forall slot <- s.slots :: slot.post.Idle?
  }

  /** Phases only move forward, in the order Pending, Reserved, Active, and Failed and Released are final. */
  ghost predicate MovedForward(before: seq<Slot>, after: seq<Slot>) {
    && |before| <= |after|
    && (forall slot <- before + after :: slot.history != [])
    && forall i {:trigger before[i]} :: 0 <= i < |before| ==> Forward(Current(before[i]).phase, Current(after[i]).phase)
  }

  /** The event is a handler's phase write on a phase that has moved on. */
  ghost predicate IsOverwrite(s: State, e: Event)
    requires IsEnabled(s, e)
  {
    AtSlot(e) && Overwrites(s.slots[e.i], SlotEventOf(s, e))
  }

  ghost predicate OverwriteFree(s: State, es: seq<Event>)
    decreases |es|
  {
    |es| != 0 ==> IsEnabled(s, es[0]) && !IsOverwrite(s, es[0]) && OverwriteFree(Step(s, es[0]), es[1..])
  }

  /** Every single event moves phases forward. */
  ghost predicate ForwardThroughout(s: State, es: seq<Event>)
    decreases |es|
  {
    |es| != 0 ==>
      && IsEnabled(s, es[0]) && MovedForward(s.slots, Step(s, es[0]).slots)
      && ForwardThroughout(Step(s, es[0]), es[1..])
  }

  lemma MovedForwardStep(s: State, e: Event)
    requires Inv(s) && IsEnabled(s, e)
    ensures MovedForward(s.slots, Step(s, e).slots) <==> !IsOverwrite(s, e)
  {
    var t := Step(s, e);
    hide Coherent, Serial, Summarise, Sum;
    if AtSlot(e) {
      assert s.slots[e.i] in s.slots;
      MovedForwardAt(s.slots, e.i, SlotEventOf(s, e));
    } else {
      hide Apply, Sound;
      assert s.slots <= t.slots;
      forall slot <- s.slots + t.slots
        ensures slot.history != []
      {
        assert slot in t.slots;
        assert slot in s.slots ==> Sound(slot);
      }
    }
  }

  lemma MovedForwardAt(slots: seq<Slot>, i: nat, e: SlotEvent)
    requires i < |slots| && (forall slot <- slots :: Coherent(slot))
    requires Sound(slots[i]) && Enabled(slots[i], e)
    ensures MovedForward(slots, slots[i := StepSlot(slots[i], e)]) <==> !Overwrites(slots[i], e)
  {
    var next := StepSlot(slots[i], e);
    PhaseNeverFallsBack(slots[i], e);
    CoherentStep(slots[i], e);
    hide StepSlot, Enabled, Rank, Terminal, Overwrites;
    UpdateMembers(slots, i, next);
    SomeHistories(slots);
    if MovedForward(slots, slots[i := next]) {
      assert Forward(Current(slots[i]).phase, Current(slots[i := next][i]).phase);
    }
  }

  lemma SomeHistories(slots: seq<Slot>)
    requires forall slot <- slots :: Coherent(slot)
    ensures forall slot <- slots :: slot.history != []
  {
  }

  /** Over every run, whatever is lost or read late: phases move forward exactly if no handler overwrites one. */
  lemma {:induction false} ForwardIffOverwriteFree(s: State, es: seq<Event>, t: State)
    requires Inv(s) && Run(s, es, t)
    ensures ForwardThroughout(s, es) <==> OverwriteFree(s, es)
    ensures OverwriteFree(s, es) ==> MovedForward(s.slots, t.slots)
    decreases |es|
  {
    if |es| == 0 {
      assert forall slot <- s.slots :: Sound(slot);
    } else {
      var next := Step(s, es[0]);
      InvStep(s, es[0]);
      MovedForwardStep(s, es[0]);
      hide Inv, IsEnabled, IsOverwrite, Step, MovedForward;
      ForwardIffOverwriteFree(next, es[1..], t);
      if OverwriteFree(s, es) {
        MovedForwardTwice(s.slots, next.slots, t.slots);
      }
    }
  }

  lemma MovedForwardTwice(a: seq<Slot>, b: seq<Slot>, c: seq<Slot>)
    requires MovedForward(a, b) && MovedForward(b, c)
    ensures MovedForward(a, c)
  {
    forall slot <- a + c
      ensures slot.history != []
    {
      assert slot in a + b || slot in b + c;
    }
    forall i | 0 <= i < |a|
      ensures Forward(Current(a[i]).phase, Current(c[i]).phase)
    {
      assert b[i] in a + b;
      assert Forward(Current(a[i]).phase, Current(b[i]).phase) && Forward(Current(b[i]).phase, Current(c[i]).phase);
    }
  }

  lemma PostStaysIdle(slot: Slot, e: SlotEvent)
    requires Sound(slot) && Enabled(slot, e) && slot.post.Idle?
    ensures StepSlot(slot, e).post.Idle? && !Overwrites(slot, e) && !LocksUnguarded(slot, e)
  {
  }

  lemma NoHandlersStep(s: State, e: Event)
    requires NoHandlers(s) && IsEnabled(s, e) && (e.Create? ==> e.who == Reconciler)
    ensures NoHandlers(Step(s, e)) && !IsOverwrite(s, e) && !IsUnguarded(s, e)
  {
    if AtSlot(e) {
      var slot, local := s.slots[e.i], SlotEventOf(s, e);
      assert slot in s.slots;
      PostStaysIdle(slot, local);
      hide StepSlot, Enabled, Overwrites, Sound;
      UpdateMembers(s.slots, e.i, StepSlot(slot, local));
    }
  }

  /** Over every run without HTTP handlers, whatever is lost or read late. */
  lemma {:induction false} PhasesMoveForward(s: State, es: seq<Event>, t: State)
    requires Inv(s) && NoHandlers(s) && Run(s, es, t)
    requires forall e <- es :: e.Create? ==> e.who == Reconciler
    ensures OverwriteFree(s, es) && MovedForward(s.slots, t.slots)
    decreases |es|
  {
    if |es| != 0 {
      InvStep(s, es[0]);
      NoHandlersStep(s, es[0]);
      hide Inv, IsEnabled, NoHandlers, IsOverwrite, Step, MovedForward;
      PhasesMoveForward(Step(s, es[0]), es[1..], t);
    }
    ForwardIffOverwriteFree(s, es, t);
  }

  /** And over every orderly run, handlers included. */
  lemma {:induction false} OrderlyPhasesMoveForward(s: State, es: seq<Event>, t: State)
    requires Good(s) && OrderlyRun(s, es, t)
    ensures Run(s, es, t) && OverwriteFree(s, es) && MovedForward(s.slots, t.slots)
    decreases |es|
  {
    if |es| != 0 {
      GoodStep(s, es[0]);
      if AtSlot(es[0]) {
        assert s.slots[es[0].i] in s.slots;
        TidyIsNeverOverwritten(s.slots[es[0].i], SlotEventOf(s, es[0]));
      }
      hide Good, IsEnabled, OrderlyEvent, IsOverwrite, Step, MovedForward;
      OrderlyPhasesMoveForward(Step(s, es[0]), es[1..], t);
    }
    assert Inv(s);
    ForwardIffOverwriteFree(s, es, t);
  }

  // ----- deletion over whole runs

  ghost predicate AllProtected(s: State)
    requires WellFormed(s)
  {
    forall slot <- s.slots :: Protected(slot)
  }

  /** A handler locks for an object that is gone or has no finalizer. */
  ghost predicate IsUnguarded(s: State, e: Event)
    requires IsEnabled(s, e)
  {
    AtSlot(e) && LocksUnguarded(s.slots[e.i], SlotEventOf(s, e))
  }

  ghost predicate LocksGuarded(s: State, es: seq<Event>)
    decreases |es|
  {
    |es| != 0 ==> IsEnabled(s, es[0]) && !IsUnguarded(s, es[0]) && LocksGuarded(Step(s, es[0]), es[1..])
  }

  /** Every reservation that the ledger counts is protected before, between and after the events. */
  ghost predicate ProtectedThroughout(s: State, es: seq<Event>)
    decreases |es|
  {
    && WellFormed(s) && AllProtected(s)
    && (|es| != 0 ==> IsEnabled(s, es[0]) && ProtectedThroughout(Step(s, es[0]), es[1..]))
  }

  lemma ProtectedRunStep(s: State, e: Event)
    requires Good(s) && AllProtected(s) && IsEnabled(s, e) && OrderlyEvent(s, e) && WellFormed(Step(s, e))
    ensures AllProtected(Step(s, e)) <==> !IsUnguarded(s, e)
  {
    hide StepSlot, Enabled, Coherent, Tidy, Protected, Orderly, AllBooked, Opened;
    if AtSlot(e) {
      var slot, local := s.slots[e.i], SlotEventOf(s, e);
      assert slot in s.slots && Coherent(slot) && Tidy(slot);
      ProtectedStep(slot, local);
      assert Step(s, e).slots == s.slots[e.i := StepSlot(slot, local)];
      assert Step(s, e).slots[e.i] in Step(s, e).slots;
      assert forall other <- s.slots :: Sound(other);
      ProtectedUpdate(s.slots, e.i, StepSlot(slot, local));
    } else if e.Create? {
      ProtectedCreation(e.spec, e.target, e.who);
      assert forall slot <- Step(s, e).slots :: slot in s.slots || slot == NewSlot(e.spec, e.target, e.who);
    } else {
      assert Step(s, e).slots == s.slots;
    }
  }

  lemma ProtectedUpdate(slots: seq<Slot>, i: nat, next: Slot)
    requires i < |slots| && forall slot <- slots :: slot.history != [] && Protected(slot)
    requires next.history != []
    ensures forall slot <- slots[i := next] :: slot.history != []
    ensures (forall slot <- slots[i := next] :: Protected(slot)) <==> Protected(next)
  {
    hide Protected;
    UpdateMembers(slots, i, next);
    assert slots[i := next][i] == next;
  }

  lemma ProtectedCreation(spec: ReservationSpec, target: Option<ClusterId>, who: Actor)
    ensures Protected(NewSlot(spec, target, who))
  {
  }

  lemma UpdateMembers<T>(xs: seq<T>, i: nat, x: T)
    requires i < |xs|
    ensures forall y <- xs[i := x] :: y == x || y in xs
  {
  }

  /**
   Along every orderly run, handlers included, each reservation that the ledger counts is in the store and carries the
   finalizer, so that no object leaves the store while its request is counted, if and only if handlers lock only for
   objects that carry the finalizer.
   */
  lemma {:induction false} DeletionIsSafe(s: State, es: seq<Event>, t: State)
    requires Good(s) && AllProtected(s) && OrderlyRun(s, es, t)
    ensures Good(t) && (ProtectedThroughout(s, es) <==> LocksGuarded(s, es))
    ensures LocksGuarded(s, es) ==> AllProtected(t)
    decreases |es|
  {
    if |es| != 0 {
      GoodStep(s, es[0]);
      ProtectedRunStep(s, es[0]);
      var next := Step(s, es[0]);
      hide Good, IsEnabled, OrderlyEvent, Protected, IsUnguarded, Step;
      if AllProtected(next) {
        DeletionIsSafe(next, es[1..], t);
      } else {
        OrderlyRunsAreGood(next, es[1..], t);
        assert !ProtectedThroughout(next, es[1..]);
      }
    }
  }

  /** The reconciler alone never locks for an unprotected object. */
  lemma {:induction false} ReconcilersGuardLocks(s: State, es: seq<Event>, t: State)
    requires NoHandlers(s) && Run(s, es, t) && forall e <- es :: e.Create? ==> e.who == Reconciler
    ensures LocksGuarded(s, es)
    decreases |es|
  {
    if |es| != 0 {
      NoHandlersStep(s, es[0]);
      hide IsEnabled, NoHandlers, IsUnguarded, Step;
      ReconcilersGuardLocks(Step(s, es[0]), es[1..], t);
    }
  }
}
