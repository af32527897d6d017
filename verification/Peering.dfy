/** The consumer's reservation instructions and the Liqo peerings they stand for. */
module Peering {
  import opened Quantities

  datatype Instruction = Instruction(
    target: string, expiresAt: Option<int>, finalizer: bool, deleting: bool, kubeconfig: string, delivered: bool)

  /** The instructions in the store, and the clusters with which a peering is up. */
  datatype World = World(instructions: map<string, Instruction>, live: set<string>)

  /** What the surroundings answer during one reconcile; `written` is whether its store update commits. */
  datatype Pass = Pass(now: int, wired: bool, fetched: Option<string>, peered: bool, unpeered: bool, written: bool)

  /** A reconcile works on the copy of the instruction that it read, which may be outdated, or of one that is gone. */
  datatype Event =
    | Create(name: string, target: string, expiresAt: Option<int>)
    | Delete(name: string)
    | Reconcile(name: string, copy: Option<Instruction>, pass: Pass)

  predicate Expired(i: Instruction, now: int) {
    i.expiresAt.Some? && i.expiresAt.value < now
  }

  /** Deleting an object with a finalizer only marks it. */
  function Deleted(instructions: map<string, Instruction>, name: string): map<string, Instruction> {
    if name !in instructions then instructions
    else if instructions[name].finalizer then instructions[name := instructions[name].(deleting := true)]
    else instructions - {name}
  }

  /** The conditional update commits: the copy is what is stored. */
  predicate Stores(w: World, name: string, copy: Instruction, pass: Pass) {
    pass.written && name in w.instructions && w.instructions[name] == copy
  }

  /** A reconcile of this copy runs liqoctl peer. */
  predicate Peers(i: Instruction, now: int) {
    !i.deleting && i.finalizer && !Expired(i, now) && !i.delivered && i.kubeconfig != ""
  }

  /** A reconcile of this copy tears down: it unpeers what was delivered, then drops the finalizer. */
  predicate TearsDown(i: Instruction) {
    i.deleting && i.finalizer
  }

  function Step(w: World, e: Event): World {
    match e
    case Create(name, target, expiresAt) =>
      if name in w.instructions then w
      else w.(instructions := w.instructions[name := Instruction(target, expiresAt, false, false, "", false)])
    case Delete(name) => w.(instructions := Deleted(w.instructions, name))
    case Reconcile(name, copy, pass) => if copy.None? then w else StepReconcile(w, name, copy.value, pass)
  }

  function StepReconcile(w: World, name: string, i: Instruction, pass: Pass): World {
    var stores := Stores(w, name, i, pass);
    if TearsDown(i) then
      if i.delivered && !pass.unpeered then w
      else World(if stores then w.instructions - {name} else w.instructions,
                 if i.delivered then w.live - {i.target} else w.live)
    else if Peers(i, pass.now) then
      if !pass.peered then w
      else World(if stores then w.instructions[name := i.(delivered := true)] else w.instructions, w.live + {i.target})
    else if i.deleting then w
    else if i.finalizer && Expired(i, pass.now) then
      if pass.written then w.(instructions := Deleted(w.instructions, name)) else w
    else if !stores then w
    else if !i.finalizer then w.(instructions := w.instructions[name := i.(finalizer := true)])
    else if i.delivered || !pass.wired || pass.fetched.None? || pass.fetched.value == "" then w
    else w.(instructions := w.instructions[name := i.(kubeconfig := pass.fetched.value)])
  }

  // ----- the reconciler

  class Agent {
    var instructions: map<string, Instruction>
    var live: set<string>

    constructor ()
      ensures Now() == World(map[], {})
    {
      instructions, live := map[], {};
    }

    function Now(): World
      reads this
    {
      World(instructions, live)
    }

    method ExecuteLiqoPeering(target: string, succeeds: bool) returns (ok: bool)
      modifies this`live
      ensures ok == succeeds && live == if ok then old(live) + {target} else old(live)
    {
      if succeeds {
        live := live + {target};
      }
      ok := succeeds;
    }

    method ExecuteLiqoUnpeer(target: string, succeeds: bool) returns (ok: bool)
      modifies this`live
      ensures ok == succeeds && live == if ok then old(live) - {target} else old(live)
    {
      if succeeds {
        live := live - {target};
      }
      ok := succeeds;
    }

    /** The store's delete, which a switch, an expiry or a user requests. */
    method DeleteInstruction(name: string)
      modifies this`instructions
      ensures Now() == Step(old(Now()), Delete(name))
    {
      if name in instructions {
        if instructions[name].finalizer {
          instructions := instructions[name := instructions[name].(deleting := true)];
        } else {
          instructions := instructions - {name};
        }
      }
    }

    /** Creates the instruction of a granted reservation unless it exists. */
    method CreateReservationInstruction(name: string, target: string, expiresAt: Option<int>)
      modifies this`instructions
      ensures Now() == Step(old(Now()), Create(name, target, expiresAt))
    {
      if name in instructions {
        return;
      }
      instructions := instructions[name := Instruction(target, expiresAt, false, false, "", false)];
    }

    /** The store's conditional update; none stands for the removal of the last finalizer of a deleted object. */
    method UpdateInstruction(name: string, copy: Instruction, next: Option<Instruction>, pass: Pass) returns (ok: bool)
      modifies this`instructions
      ensures ok <==> Stores(old(Now()), name, copy, pass)
      ensures instructions == if !ok then old(instructions)
                              else if next.None? then old(instructions) - {name}
                              else old(instructions)[name := next.value]
    {
      ok := pass.written && name in instructions && instructions[name] == copy;
      if ok {
        instructions := if next.None? then instructions - {name} else instructions[name := next.value];
      }
    }

    method ReconcileInstruction(name: string, copy: Option<Instruction>, pass: Pass)
      modifies this
      ensures Now() == Step(old(Now()), Reconcile(name, copy, pass))
    {
      if copy.None? {
        return;
      }
      var instruction := copy.value;
      if instruction.deleting {
        if instruction.finalizer {
          if instruction.delivered {
            var unpeered := ExecuteLiqoUnpeer(instruction.target, pass.unpeered);
            if !unpeered {
              return;
            }
          }
          var _ := UpdateInstruction(name, instruction, None, pass);
        }
        return;
      }
      if !instruction.finalizer {
        var _ := UpdateInstruction(name, instruction, Some(instruction.(finalizer := true)), pass);
        return;
      }
      if instruction.expiresAt.Some? && instruction.expiresAt.value < pass.now {
        if pass.written {
          DeleteInstruction(name);
        }
        return;
      }
      if instruction.delivered {
        return;
      }
      if instruction.kubeconfig == "" {
        if !pass.wired || pass.fetched.None? || pass.fetched.value == "" {
          return;
        }
        var _ := UpdateInstruction(name, instruction, Some(instruction.(kubeconfig := pass.fetched.value)), pass);
        return;
      }
      var peered := ExecuteLiqoPeering(instruction.target, pass.peered);
      if !peered {
        return;
      }
      var _ := UpdateInstruction(name, instruction, Some(instruction.(delivered := true)), pass);
    }
  }

  // ----- what every step keeps

  /** Delivered and deleting instructions carry the finalizer. */
  ghost predicate Bound(w: World) {
    forall n <- w.instructions :: w.instructions[n].delivered || w.instructions[n].deleting ==>
      w.instructions[n].finalizer
  }

  ghost predicate HasDelivered(w: World, target: string) {
    exists n <- w.instructions :: w.instructions[n].target == target && w.instructions[n].delivered
                             && w.instructions[n].finalizer
  }

  /** Every live peering has an instruction that is delivered and carries the finalizer. */
  ghost predicate Covered(w: World) {
    forall c <- w.live :: HasDelivered(w, c)
  }

  /** Peering succeeds but recording the delivery does not commit, and no other instruction vouches for the cluster. */
  ghost predicate Loses(w: World, e: Event) {
    && e.Reconcile? && e.copy.Some? && Peers(e.copy.value, e.pass.now) && e.pass.peered
    && !Stores(w, e.name, e.copy.value, e.pass) && !HasDelivered(w, e.copy.value.target)
  }

  lemma BoundStep(w: World, e: Event)
    requires Bound(w)
    ensures Bound(Step(w, e))
  {
  }

  lemma StillDelivered(w: World, e: Event, c: string)
    requires Bound(w) && HasDelivered(w, c) && c in Step(w, e).live
    ensures HasDelivered(Step(w, e), c)
  {
    var n :| n in w.instructions && w.instructions[n].target == c && w.instructions[n].delivered
             && w.instructions[n].finalizer;
    assert n in Step(w, e).instructions && Step(w, e).instructions[n].target == c;
  }

  /** A step breaks the cover exactly if it loses a delivery. */
  lemma CoverBreaksOnlyByLoss(w: World, e: Event)
    requires Bound(w) && Covered(w)
    ensures Covered(Step(w, e)) <==> !Loses(w, e)
  {
    var after := Step(w, e);
    if Loses(w, e) {
      assert e.copy.value.target in after.live && after.instructions == w.instructions;
      assert !HasDelivered(after, e.copy.value.target);
    } else {
      forall c <- after.live
        ensures HasDelivered(after, c)
      {
        if c in w.live || HasDelivered(w, c) {
          StillDelivered(w, e, c);
        } else {
          assert e.Reconcile? && after.instructions[e.name].delivered && after.instructions[e.name].target == c;
        }
      }
    }
  }

  /** A delivered instruction leaves the store only in a teardown whose unpeering succeeded. */
  lemma DeliveredLeavesAfterUnpeering(w: World, e: Event, n: string)
    requires Bound(w) && n in w.instructions && w.instructions[n].delivered
    ensures n !in Step(w, e).instructions <==>
              && e.Reconcile? && e.name == n && e.copy == Some(w.instructions[n])
              && w.instructions[n].deleting && e.pass.unpeered && e.pass.written
    ensures n !in Step(w, e).instructions ==> w.instructions[n].target !in Step(w, e).live
    ensures n in Step(w, e).instructions ==>
              && Step(w, e).instructions[n].delivered && Step(w, e).instructions[n].target == w.instructions[n].target
              && (w.instructions[n].deleting ==> Step(w, e).instructions[n].deleting)
  {
  }

  /** Expiry and a switch both reach the teardown, whatever copy the reconcile read. */
  lemma ExpiryAndSwitchMark(w: World, n: string, copy: Instruction, pass: Pass)
    requires Bound(w) && n in w.instructions && w.instructions[n].delivered
    ensures n in Step(w, Delete(n)).instructions && TearsDown(Step(w, Delete(n)).instructions[n])
    ensures copy.finalizer && !copy.deleting && Expired(copy, pass.now) && pass.written ==>
              var after := Step(w, Reconcile(n, Some(copy), pass));
              n in after.instructions && TearsDown(after.instructions[n])
  {
  }

  /** What an instruction was created for never changes. */
  lemma TermsStay(w: World, e: Event, n: string)
    requires n in w.instructions && n in Step(w, e).instructions
    ensures Step(w, e).instructions[n].target == w.instructions[n].target
    ensures Step(w, e).instructions[n].expiresAt == w.instructions[n].expiresAt
  {
  }

  /**
   A peering comes up only from a copy that is protected, neither deleted nor expired nor delivered, and has a
   credential; and a credential comes only from a broker that is configured and has one.
   */
  lemma PeeringTakesACredential(w: World, e: Event, c: string, n: string)
    ensures c in Step(w, e).live && c !in w.live ==>
              && e.Reconcile? && e.copy.Some? && e.copy.value.target == c && e.pass.peered
              && var i := e.copy.value;
                 i.finalizer && !i.deleting && !i.delivered && i.kubeconfig != ""
                 && (i.expiresAt.Some? ==> e.pass.now <= i.expiresAt.value)
    ensures n in w.instructions && n in Step(w, e).instructions
            && Step(w, e).instructions[n].kubeconfig != w.instructions[n].kubeconfig ==>
              && e.Reconcile? && e.name == n && e.pass.wired && e.pass.fetched.Some? && e.pass.fetched.value != ""
              && Step(w, e).instructions[n].kubeconfig == e.pass.fetched.value && w.instructions[n].kubeconfig == ""
  {
  }

  // ----- runs

  function Run(w: World, es: seq<Event>): World {
    if |es| == 0 then w else Step(Run(w, es[..|es| - 1]), es[|es| - 1])
  }

  const EMPTY := World(map[], {})

  ghost predicate LossFree(w: World, es: seq<Event>) {
    forall k :: 0 <= k < |es| ==> !Loses(Run(w, es[..k]), es[k])
  }

  /** Along every run whose deliveries are all recorded, live peerings are covered. */
  lemma {:induction false} RunsStayCovered(w: World, es: seq<Event>)
    requires Bound(w) && Covered(w)
    ensures Bound(Run(w, es))
    ensures LossFree(w, es) ==> Covered(Run(w, es))
    decreases |es|
  {
    if |es| != 0 {
      var n := |es| - 1;
      RunsStayCovered(w, es[..n]);
      BoundStep(Run(w, es[..n]), es[n]);
      if LossFree(w, es) {
        forall k | 0 <= k < n
          ensures !Loses(Run(w, es[..n][..k]), es[..n][k])
        {
          assert es[..n][..k] == es[..k];
          assert !Loses(Run(w, es[..k]), es[k]);
        }
        CoverBreaksOnlyByLoss(Run(w, es[..n]), es[n]);
      }
    }
  }

  lemma RunAppend(w: World, es: seq<Event>, e: Event)
    ensures Run(w, es + [e]) == Step(Run(w, es), e)
  {
    assert (es + [e])[..|es|] == es;
  }

  /** A run keeps live peerings covered at every point exactly if every delivery is recorded. */
  lemma CoveredIffLossFree(w: World, es: seq<Event>)
    requires Bound(w) && Covered(w)
    ensures (forall k :: 0 <= k <= |es| ==> Covered(Run(w, es[..k]))) <==> LossFree(w, es)
  {
    hide Step, Covered, Bound, Loses, Run;
    if LossFree(w, es) {
      forall k | 0 <= k <= |es|
        ensures Covered(Run(w, es[..k]))
      {
        assert forall j :: 0 <= j < k ==> es[..k][..j] == es[..j] && !Loses(Run(w, es[..j]), es[j]);
        RunsStayCovered(w, es[..k]);
      }
    } else {
      var k :| 0 <= k < |es| && Loses(Run(w, es[..k]), es[k]);
      RunsStayCovered(w, es[..k]);
      RunAppend(w, es[..k], es[k]);
      assert es[..k + 1] == es[..k] + [es[k]];
      if Covered(Run(w, es[..k])) {
        CoverBreaksOnlyByLoss(Run(w, es[..k]), es[k]);
        assert !Covered(Run(w, es[..k + 1]));
      }
    }
  }

  /** From the empty world: once the instructions to a cluster are gone, so is the peering, if no delivery was lost. */
  lemma NothingLeftBehind(es: seq<Event>, c: string)
    requires LossFree(EMPTY, es)
    requires forall n <- Run(EMPTY, es).instructions :: Run(EMPTY, es).instructions[n].target != c
    ensures c !in Run(EMPTY, es).live
  {
    RunsStayCovered(EMPTY, es);
    assert !HasDelivered(Run(EMPTY, es), c);
  }

  ghost predicate Orphaned(w: World, c: string) {
    c in w.live && forall n <- w.instructions :: w.instructions[n].target != c
  }

  /** A reconcile that reads what is stored. */
  function Fresh(w: World, n: string, pass: Pass): Event {
    Reconcile(n, if n in w.instructions then Some(w.instructions[n]) else None, pass)
  }

  /** Every reconcile of the run works on what is stored. */
  ghost predicate UpToDate(w: World, es: seq<Event>) {
    forall k :: 0 <= k < |es| && es[k].Reconcile? ==> es[k] == Fresh(Run(w, es[..k]), es[k].name, es[k].pass)
  }

  lemma RunNext(w: World, es: seq<Event>, k: nat, next: World)
    requires k < |es| && next == Step(Run(w, es[..k]), es[k])
    ensures Run(w, es[..k + 1]) == next
  {
    assert es[..k + 1] == es[..k] + [es[k]];
    RunAppend(w, es[..k], es[k]);
  }

  const GOOD := Pass(0, true, Some("credential"), true, true, true)

  /** An instruction before its peering: created, guarded, provided with a credential. */
  function Made(target: string): Instruction { Instruction(target, None, false, false, "", false) }
  function Guarded(target: string): Instruction { Made(target).(finalizer := true) }
  function Ready(target: string): Instruction { Guarded(target).(kubeconfig := "credential") }

  /** What leads to a ready instruction. */
  function Preparation(name: string, target: string): seq<Event> {
    [Create(name, target, None), Reconcile(name, Some(Made(target)), GOOD),
     Reconcile(name, Some(Guarded(target)), GOOD)]
  }

  lemma Prepared(w: World, es: seq<Event>, n: nat, name: string, target: string)
    requires n + 3 <= |es| && es[n..n + 3] == Preparation(name, target) && Run(w, es[..n]).instructions.Keys !! {name}
    ensures var before := Run(w, es[..n]);
            && Run(w, es[..n + 1]) == before.(instructions := before.instructions[name := Made(target)])
            && Run(w, es[..n + 2]) == before.(instructions := before.instructions[name := Guarded(target)])
            && Run(w, es[..n + 3]) == before.(instructions := before.instructions[name := Ready(target)])
  {
    hide Run;
    var before := Run(w, es[..n]);
    assert es[n] == es[n..n + 3][0] && es[n + 1] == es[n..n + 3][1] && es[n + 2] == es[n..n + 3][2];
    RunNext(w, es, n, before.(instructions := before.instructions[name := Made(target)]));
    RunNext(w, es, n + 1, before.(instructions := before.instructions[name := Guarded(target)]));
    RunNext(w, es, n + 2, before.(instructions := before.instructions[name := Ready(target)]));
  }

  /**
   A lost delivery followed by a deletion leaves a peering without any instruction, although every reconcile works on
   what is stored, liqoctl never fails and a single update is refused.
   */
  lemma LostDeliveryOrphans(target: string) returns (es: seq<Event>, lost: nat)
    ensures Orphaned(Run(EMPTY, es), target) && UpToDate(EMPTY, es)
    ensures lost < |es| && Loses(Run(EMPTY, es[..lost]), es[lost])
    ensures forall k :: 0 <= k < |es| && es[k].Reconcile? ==>
              es[k].pass.peered && es[k].pass.unpeered && (es[k].pass.written <==> k != lost)
  {
    var ready := Ready(target);
    es := Preparation("r", target)
          + [Reconcile("r", Some(ready), GOOD.(written := false)), Delete("r"),
             Reconcile("r", Some(ready.(deleting := true)), GOOD)];
    lost := 3;
    assert Run(EMPTY, es[..0]) == EMPTY;
    hide Run;
    Prepared(EMPTY, es, 0, "r", target);
    RunNext(EMPTY, es, 3, World(map["r" := ready], {target}));
    RunNext(EMPTY, es, 4, World(map["r" := ready.(deleting := true)], {target}));
    RunNext(EMPTY, es, 5, World(map[], {target}));
    assert es[..6] == es;
  }

  /** Even when every update that can commit does: a switch deletes the instruction while liqoctl is still peering. */
  lemma DeletionDuringPeeringOrphans(target: string) returns (es: seq<Event>)
    ensures Orphaned(Run(EMPTY, es), target)
    ensures forall e <- es :: e.Reconcile? ==> e.pass.written && e.pass.peered && e.pass.unpeered
  {
    var ready := Ready(target);
    es := Preparation("r", target)
          + [Delete("r"), Reconcile("r", Some(ready), GOOD), Reconcile("r", Some(ready.(deleting := true)), GOOD)];
    assert Run(EMPTY, es[..0]) == EMPTY;
    hide Run;
    Prepared(EMPTY, es, 0, "r", target);
    RunNext(EMPTY, es, 3, World(map["r" := ready.(deleting := true)], {}));
    RunNext(EMPTY, es, 4, World(map["r" := ready.(deleting := true)], {target}));
    RunNext(EMPTY, es, 5, World(map[], {target}));
    assert es[..6] == es;
  }

  /**
   Nothing but a new reservation at that cluster, or a reconcile that still sees a delivered instruction to it being
   deleted, ever leads to tearing such a peering down.
   */
  lemma {:induction false} OrphansStay(w: World, es: seq<Event>, c: string)
    requires Orphaned(w, c) && forall e <- es :: e.Create? ==> e.target != c
    requires forall e <- es :: e.Reconcile? && e.copy.Some? && TearsDown(e.copy.value) && e.copy.value.delivered ==>
                            e.copy.value.target != c
    ensures Orphaned(Run(w, es), c)
    decreases |es|
  {
    if |es| != 0 {
      OrphansStay(w, es[..|es| - 1], c);
      assert es[|es| - 1] in es;
    }
  }

  // ----- the converse: delivered instructions have their peering

  /** Every delivered instruction that is not being deleted has its peering. */
  ghost predicate Serving(w: World) {
    forall n <- w.instructions ::
      w.instructions[n].delivered && !w.instructions[n].deleting ==> w.instructions[n].target in w.live
  }

  /** Tearing down one instruction unpeers a cluster that another delivered instruction still stands for. */
  ghost predicate Cuts(w: World, e: Event) {
    && e.Reconcile? && e.copy.Some? && TearsDown(e.copy.value) && e.copy.value.delivered && e.pass.unpeered
    && exists n <- w.instructions ::
         w.instructions[n].delivered && !w.instructions[n].deleting && w.instructions[n].target == e.copy.value.target
  }

  lemma ServingBreaksOnlyByCut(w: World, e: Event)
    requires Bound(w) && Serving(w)
    ensures Serving(Step(w, e)) <==> !Cuts(w, e)
  {
    var after := Step(w, e);
    if Cuts(w, e) {
      var n :| n in w.instructions && w.instructions[n].delivered && !w.instructions[n].deleting
               && w.instructions[n].target == e.copy.value.target;
      assert n in after.instructions && after.instructions[n] == w.instructions[n];
    }
  }

  ghost predicate CutFree(w: World, es: seq<Event>) {
    forall k :: 0 <= k < |es| ==> !Cuts(Run(w, es[..k]), es[k])
  }

  lemma {:induction false} CutFreeIsServing(w: World, es: seq<Event>)
    requires Bound(w) && Serving(w) && CutFree(w, es)
    ensures Serving(Run(w, es))
    decreases |es|
  {
    if |es| != 0 {
      var n := |es| - 1;
      forall k | 0 <= k < n
        ensures !Cuts(Run(w, es[..n][..k]), es[..n][k])
      {
        assert es[..n][..k] == es[..k];
        assert !Cuts(Run(w, es[..k]), es[k]);
      }
      CutFreeIsServing(w, es[..n]);
      RunsStayBound(w, es[..n]);
      ServingBreaksOnlyByCut(Run(w, es[..n]), es[n]);
    }
  }

  lemma {:induction false} RunsStayBound(w: World, es: seq<Event>)
    requires Bound(w)
    ensures Bound(Run(w, es))
    decreases |es|
  {
    if |es| != 0 {
      RunsStayBound(w, es[..|es| - 1]);
      BoundStep(Run(w, es[..|es| - 1]), es[|es| - 1]);
    }
  }

  /** Over a run the delivered instructions have their peerings at every point exactly if no teardown cuts one. */
  lemma ServingIffCutFree(w: World, es: seq<Event>)
    requires Bound(w) && Serving(w)
    ensures (forall k :: 0 <= k <= |es| ==> Serving(Run(w, es[..k]))) <==> CutFree(w, es)
  {
    hide Step, Serving, Bound, Cuts, Run;
    if CutFree(w, es) {
      forall k | 0 <= k <= |es|
        ensures Serving(Run(w, es[..k]))
      {
        assert forall j :: 0 <= j < k ==> es[..k][..j] == es[..j] && !Cuts(Run(w, es[..j]), es[j]);
        CutFreeIsServing(w, es[..k]);
      }
    } else {
      var k :| 0 <= k < |es| && Cuts(Run(w, es[..k]), es[k]);
      RunsStayBound(w, es[..k]);
      RunAppend(w, es[..k], es[k]);
      assert es[..k + 1] == es[..k] + [es[k]];
      if Serving(Run(w, es[..k])) {
        ServingBreaksOnlyByCut(Run(w, es[..k]), es[k]);
        assert !Serving(Run(w, es[..k + 1]));
      }
    }
  }

  /** A preparation and a successful peering. */
  function Delivery(name: string, target: string): seq<Event> {
    Preparation(name, target) + [Reconcile(name, Some(Ready(target)), GOOD)]
  }

  lemma Delivers(w: World, es: seq<Event>, n: nat, name: string, target: string)
    requires n + 4 <= |es| && es[n..n + 4] == Delivery(name, target) && name !in Run(w, es[..n]).instructions
    ensures var before := Run(w, es[..n]);
            Run(w, es[..n + 4])
            == World(before.instructions[name := Ready(target).(delivered := true)], before.live + {target})
    ensures forall k :: n <= k < n + 4 && es[k].Reconcile? ==>
              es[k] == Fresh(Run(w, es[..k]), es[k].name, es[k].pass) && es[k].pass == GOOD
  {
    hide Run;
    var before := Run(w, es[..n]);
    assert es[n..n + 3] == es[n..n + 4][..3] == Preparation(name, target);
    assert forall k :: n <= k < n + 4 ==> es[k] == Delivery(name, target)[k - n];
    Prepared(w, es, n, name, target);
    RunNext(w, es, n + 3, World(before.instructions[name := Ready(target).(delivered := true)],
                                before.live + {target}));
  }

  /** Deleting a delivered instruction, and the reconcile that tears it down. */
  lemma TornDown(w: World, es: seq<Event>, n: nat, name: string)
    requires n + 2 <= |es| && es[n] == Delete(name) && name in Run(w, es[..n]).instructions
    requires var i := Run(w, es[..n]).instructions[name];
             i.delivered && i.finalizer && es[n + 1] == Reconcile(name, Some(i.(deleting := true)), GOOD)
    ensures var before := Run(w, es[..n]);
            Run(w, es[..n + 2]) == World(before.instructions - {name}, before.live - {before.instructions[name].target})
    ensures es[n + 1] == Fresh(Run(w, es[..n + 1]), name, GOOD)
  {
    hide Run;
    var before := Run(w, es[..n]);
    var i := before.instructions[name];
    RunNext(w, es, n, before.(instructions := before.instructions[name := i.(deleting := true)]));
    RunNext(w, es, n + 1, World(before.instructions - {name}, before.live - {i.target}));
  }

  /** Two reservations at one provider share its peering: deleting one instruction leaves the other without it. */
  lemma SharedPeeringIsCut(target: string) returns (es: seq<Event>)
    ensures UpToDate(EMPTY, es) && forall e <- es :: e.Reconcile? ==> e.pass == GOOD
    ensures var w := Run(EMPTY, es);
            "b" in w.instructions && w.instructions["b"] == Ready(target).(delivered := true) && target !in w.live
  {
    var deleted := Ready(target).(delivered := true, deleting := true);
    es := Delivery("a", target) + Delivery("b", target) + [Delete("a"), Reconcile("a", Some(deleted), GOOD)];
    assert Run(EMPTY, es[..0]) == EMPTY;
    hide Run, Preparation, Step, Fresh;
    Delivers(EMPTY, es, 0, "a", target);
    Delivers(EMPTY, es, 4, "b", target);
    TornDown(EMPTY, es, 8, "a");
    assert es[..10] == es;
  }

  // ----- a peering for a time

  function MadeUntil(target: string, expiry: int): Instruction {
    Instruction(target, Some(expiry), false, false, "", false)
  }

  function DeliveredUntil(target: string, expiry: int): Instruction {
    Instruction(target, Some(expiry), true, false, "credential", true)
  }

  /** Four reconciles of an instruction at its very expiry, and two afterwards. */
  function Lifetime(target: string, expiry: int): seq<Event> {
    var timely, late := GOOD.(now := expiry), GOOD.(now := expiry + 1);
    var made, delivered := MadeUntil(target, expiry), DeliveredUntil(target, expiry);
    [Create("r", target, Some(expiry)),
     Reconcile("r", Some(made), timely),
     Reconcile("r", Some(made.(finalizer := true)), timely),
     Reconcile("r", Some(made.(finalizer := true, kubeconfig := "credential")), timely),
     Reconcile("r", Some(delivered), timely),
     Reconcile("r", Some(delivered), late),
     Reconcile("r", Some(delivered.(deleting := true)), late)]
  }

  /** Up to the expiry the instruction gets and keeps its peering. */
  lemma TimelyLife(target: string, expiry: int)
    ensures var es := Lifetime(target, expiry);
            && (forall k :: 1 <= k < 5 ==> es[k] == Fresh(Run(EMPTY, es[..k]), "r", es[k].pass))
            && Run(EMPTY, es[..4]) == Run(EMPTY, es[..5]) == World(map["r" := DeliveredUntil(target, expiry)], {target})
  {
    var es, made := Lifetime(target, expiry), MadeUntil(target, expiry);
    var delivered := DeliveredUntil(target, expiry);
    assert Run(EMPTY, es[..0]) == EMPTY;
    hide Run;
    RunNext(EMPTY, es, 0, World(map["r" := made], {}));
    RunNext(EMPTY, es, 1, World(map["r" := made.(finalizer := true)], {}));
    RunNext(EMPTY, es, 2, World(map["r" := made.(finalizer := true, kubeconfig := "credential")], {}));
    RunNext(EMPTY, es, 3, World(map["r" := delivered], {target}));
    RunNext(EMPTY, es, 4, World(map["r" := delivered], {target}));
  }

  /** An instruction created with an expiry has its peering up to that time; afterwards nothing is left of either. */
  lemma ExpiryEndsThePeering(target: string, expiry: int)
    ensures var es := Lifetime(target, expiry);
            && UpToDate(EMPTY, es) && Run(EMPTY, es[..4]).live == {target} && Run(EMPTY, es[..5]) == Run(EMPTY, es[..4])
            && Run(EMPTY, es) == EMPTY
  {
    var es, delivered := Lifetime(target, expiry), DeliveredUntil(target, expiry);
    TimelyLife(target, expiry);
    hide Run;
    RunNext(EMPTY, es, 5, World(map["r" := delivered.(deleting := true)], {target}));
    RunNext(EMPTY, es, 6, World(map[], {}));
    assert es[..7] == es;
  }
}
