/**
 The ledger of one provider: what a ClusterAdvertisement says is available and what is reserved,
 and the updates that the broker commits to it.
 */
module Ledger {
  import opened Quantities

  datatype CostInfo = CostInfo(renewable: bool, energyCost: real, currency: string)

  /** The specification part of a ClusterAdvertisement. */
  datatype Advert = Advert(
    allocatable: Quantities,
    allotted: Quantities,    // the Allocated field
    available: Quantities,
    reserved: Option<Quantities>,
    policy: string,
    carbon: seq<int>,
    carbonUpdated: int,
    cost: Option<CostInfo>)
  {
    /** The locked amount; an absent Reserved field locks nothing. */
    function Held(): Amount {
      if reserved.None? then ZERO else reserved.value.Lockable()
    }

    /** Everything the provider offers, locked or not. */
    function Total(): Amount {
      available.Lockable().Plus(Held())
    }
  }

  // ----- what each writer computes from the version it read

  predicate CanReserve(a: Advert, request: Amount) {
    request.AtMost(a.available.Lockable())
  }

  function Lock(a: Advert, request: Amount): Advert {
    var r := if a.reserved.None? then Quantities(0, 0, None) else a.reserved.value;
    a.(reserved := Some(r.(cpu := r.cpu + request.cpu, memory := r.memory + request.memory)),
       available := a.available.(cpu := a.available.cpu - request.cpu, memory := a.available.memory - request.memory))
  }

  function Unlock(a: Advert, request: Amount): Advert
    requires a.reserved.Some?
  {
    var r := a.reserved.value;
    a.(reserved := Some(r.(cpu := r.cpu - request.cpu, memory := r.memory - request.memory)),
       available := a.available.(cpu := a.available.cpu + request.cpu, memory := a.available.memory + request.memory))
  }

  function MergeCost(latest: Option<CostInfo>, incoming: Option<CostInfo>): Option<CostInfo> {
    if latest.None? || latest.value.energyCost <= 0.0 then incoming
    else if incoming.None? then Some(CostInfo(false, latest.value.energyCost, latest.value.currency))
    else if incoming.value.energyCost != 0.0 then incoming
    else Some(incoming.value.(
                energyCost := latest.value.energyCost,
                currency := if incoming.value.currency == "" then latest.value.currency else incoming.value.currency))
  }

  function SubtractReserved(available: Quantities, reserved: Option<Quantities>): Quantities {
    if reserved.None? then available
    else Quantities(
           available.cpu - reserved.value.cpu,
           available.memory - reserved.value.memory,
           if available.gpu.Some? && reserved.value.gpu.Some?
           then Some(available.gpu.value - reserved.value.gpu.value) else available.gpu)
  }

  /** An agent's new advertisement on top of the latest stored one. */
  function Merge(latest: Advert, incoming: Advert): Advert {
    var keepCarbon := incoming.carbon == [] && latest.carbon != [];
    incoming.(
      reserved := latest.reserved,
      available := SubtractReserved(incoming.available, latest.reserved),
      policy := latest.policy,
      carbon := if keepCarbon then latest.carbon else incoming.carbon,
      carbonUpdated := if keepCarbon then latest.carbonUpdated else incoming.carbonUpdated,
      cost := MergeCost(latest.cost, incoming.cost))
  }

  function Annotate(a: Advert, carbon: seq<int>, at: int): Advert {
    a.(carbon := carbon, carbonUpdated := at)
  }

  // ----- the same updates, as the broker performs them on a fetched copy

  /** A copy of a ClusterAdvertisement that a handler or reconciler mutates before writing it back. */
  class ClusterAdvertisement {
    var allocatable: Quantities
    var allotted: Quantities
    var available: Quantities
    var reserved: Option<Quantities>
    var policy: string
    var carbon: seq<int>
    var carbonUpdated: int
    var cost: Option<CostInfo>

    function Spec(): Advert
      reads this
    {
      Advert(allocatable, allotted, available, reserved, policy, carbon, carbonUpdated, cost)
    }

    constructor (spec: Advert)
      ensures Spec() == spec
    {
      allocatable, allotted, available, reserved := spec.allocatable, spec.allotted, spec.available, spec.reserved;
      policy, carbon, carbonUpdated, cost := spec.policy, spec.carbon, spec.carbonUpdated, spec.cost;
    }

    method CanReserve(request: Amount) returns (ok: bool)
      ensures ok <==> Lock(Spec(), request).available.cpu >= 0 && Lock(Spec(), request).available.memory >= 0
    {
      if available.cpu < request.cpu {
        return false;
      }
      if available.memory < request.memory {
        return false;
      }
      return true;
    }

    method AddReservation(request: Amount)
      modifies this
      ensures Spec() == Lock(old(Spec()), request)
    {
      if reserved.None? {
        reserved := Some(Quantities(0, 0, None));
      }
      reserved := Some(reserved.value.(cpu := reserved.value.cpu + request.cpu));
      reserved := Some(reserved.value.(memory := reserved.value.memory + request.memory));
      available := available.(cpu := available.cpu - request.cpu);
      available := available.(memory := available.memory - request.memory);
    }

    method RemoveReservation(request: Amount) returns (ok: bool)
      modifies this
      ensures ok <==> old(reserved).Some?
      ensures Spec() == if ok then Unlock(old(Spec()), request) else old(Spec())
    {
      if reserved.None? {
        return false;
      }
      reserved := Some(reserved.value.(cpu := reserved.value.cpu - request.cpu));
      reserved := Some(reserved.value.(memory := reserved.value.memory - request.memory));
      available := available.(cpu := available.cpu + request.cpu);
      available := available.(memory := available.memory + request.memory);
      return true;
    }

    method MergeAdvertisement(incoming: Advert)
      modifies this
      ensures Spec() == Merge(old(Spec()), incoming)
    {
      var oldReserved, oldPolicy := reserved, policy;
      var oldCarbon, oldCarbonUpdated, oldCost := carbon, carbonUpdated, cost;

      allocatable, allotted, available := incoming.allocatable, incoming.allotted, incoming.available;
      carbon, carbonUpdated, cost := incoming.carbon, incoming.carbonUpdated, incoming.cost;
      reserved := oldReserved;
      policy := oldPolicy;

      if |carbon| == 0 && |oldCarbon| > 0 {
        carbon := oldCarbon;
        carbonUpdated := oldCarbonUpdated;
      }
      PreserveCost(oldCost);
      SubtractHeld();
    }

    /** The broker's energy price survives unless the agent sent its own. */
    method PreserveCost(oldCost: Option<CostInfo>)
      modifies this`cost
      ensures cost == MergeCost(oldCost, old(cost))
    {
      if oldCost.Some? && oldCost.value.energyCost > 0.0 {
        if cost.None? {
          cost := Some(CostInfo(false, oldCost.value.energyCost, oldCost.value.currency));
        } else if cost.value.energyCost == 0.0 {
          cost := Some(cost.value.(energyCost := oldCost.value.energyCost));
          if cost.value.currency == "" {
            cost := Some(cost.value.(currency := oldCost.value.currency));
          }
        }
      }
    }

    method SubtractHeld()
      modifies this`available
      ensures available == SubtractReserved(old(available), reserved)
    {
      if reserved.Some? {
        available := available.(cpu := available.cpu - reserved.value.cpu);
        available := available.(memory := available.memory - reserved.value.memory);
        if reserved.value.gpu.Some? && available.gpu.Some? {
          available := available.(gpu := Some(available.gpu.value - reserved.value.gpu.value));
        }
      }
    }

    /** Available recomputed from scratch. */
    method UpdateAvailableResources()
      requires allocatable.gpu.Some? ==> allotted.gpu.Some?
      modifies this`available
      ensures available.Lockable() == allocatable.Lockable().Minus(allotted.Lockable()).Minus(Spec().Held())
      ensures allocatable.gpu.None? ==> available.gpu == old(available).gpu
      ensures allocatable.gpu.Some? ==>
                available.gpu == Some(CalculateAvailable(allocatable.gpu.value, allotted.gpu.value,
                                                         if reserved.None? then Some(0) else reserved.value.gpu))
    {
      var reservedCpu := if reserved.Some? then reserved.value.cpu else 0;
      available := available.(cpu := CalculateAvailable(allocatable.cpu, allotted.cpu, Some(reservedCpu)));
      var reservedMemory := if reserved.Some? then reserved.value.memory else 0;
      available := available.(memory := CalculateAvailable(allocatable.memory, allotted.memory, Some(reservedMemory)));
      if allocatable.gpu.Some? {
        var reservedGpu := 0;
        if reserved.Some? && reserved.value.gpu.Some? {
          reservedGpu := reserved.value.gpu.value;
        }
        var left := CalculateAvailable(allocatable.gpu.value, allotted.gpu.value, Some(reservedGpu));
        available := available.(gpu := Some(left));
      }
    }
  }

  function CalculateAvailable(allocatable: int, allotted: int, reserved: Option<int>): int {
    var available := allocatable - allotted;
    if reserved.Some? then available - reserved.value else available
  }

  // ----- laws of single updates

  /** Releasing undoes locking, and locking moves an amount without creating or losing any. */
  lemma ReleaseUndoesLock(a: Advert, request: Amount)
    ensures Lock(a, request).Total() == a.Total() && Lock(a, request).Held() == a.Held().Plus(request)
    ensures Unlock(Lock(a, request), request).Held() == a.Held()
    ensures Unlock(Lock(a, request), request).(reserved := a.reserved) == a
    ensures a.reserved.Some? ==> Lock(Unlock(a, request), request) == a
  {
  }

  /** Reposting an advertisement changes nothing, however often it is retried. */
  lemma MergeIsIdempotent(a: Advert, incoming: Advert)
    ensures Merge(Merge(a, incoming), incoming) == Merge(a, incoming)
  {
  }

  /** Only the last advertisement counts for resources. */
  lemma LastMergeWins(a: Advert, first: Advert, second: Advert)
    ensures var m, n := Merge(Merge(a, first), second), Merge(a, second);
            m.available == n.available && m.reserved == n.reserved
            && m.allocatable == n.allocatable && m.allotted == n.allotted
  {
  }

  /** A merge commutes with a lock and with a release. */
  lemma MergeCommutes(a: Advert, incoming: Advert, request: Amount)
    ensures Merge(Lock(a, request), incoming) == Lock(Merge(a, incoming), request)
    ensures a.reserved.Some? ==> Merge(Unlock(a, request), incoming) == Unlock(Merge(a, incoming), request)
  {
  }

  // ----- whole histories of committed updates

  datatype Op =
    | LockOp(request: Amount)
    | UnlockOp(request: Amount)
    | MergeOp(incoming: Advert)
    | AnnotateOp(carbon: seq<int>, at: int)

  predicate Permitted(a: Advert, op: Op) {
    match op
    case LockOp(request) => CanReserve(a, request)
    case UnlockOp(_) => a.reserved.Some?
    case _ => true
  }

  function Apply(a: Advert, op: Op): Advert
    requires Permitted(a, op)
  {
    match op
    case LockOp(request) => Lock(a, request)
    case UnlockOp(request) => Unlock(a, request)
    case MergeOp(incoming) => Merge(a, incoming)
    case AnnotateOp(carbon, at) => Annotate(a, carbon, at)
  }

  /** Once a lock has opened the Reserved field, no update removes it. */
  lemma ReservedStays(a: Advert, op: Op)
    requires Permitted(a, op)
    ensures Apply(a, op).reserved.Some? <==> a.reserved.Some? || op.LockOp?
  {
  }

  /** Each committed value is the previous one with one update applied to it. */
  ghost predicate Serial(history: seq<Advert>, ops: seq<Op>) {
    && |history| == |ops| + 1
    && forall i {:trigger ops[i]} :: 0 <= i < |ops| ==>
          Permitted(history[i], ops[i]) && history[i + 1] == Apply(history[i], ops[i])
  }

  function Last<T>(s: seq<T>): T
    requires s != []
  {
    s[|s| - 1]
  }

  /** What is left of a history once the order of its updates is forgotten. */
  datatype Summary = Summary(
    net: Amount,                // locks minus releases
    merged: Option<Advert>,     // the last advertisement merged in
    locked: bool)               // whether there was a lock
  {
    function Extend(op: Op): Summary {
      match op
      case LockOp(request) => Summary(net.Plus(request), merged, true)
      case UnlockOp(request) => this.(net := net.Minus(request))
      case MergeOp(incoming) => this.(merged := Some(incoming))
      case AnnotateOp(_, _) => this
    }

    /** The last advertisement the agent got committed: the created one, unless a merge followed. */
    function Advertised(created: Advert): Advert {
      if merged.Some? then merged.value else created
    }
  }

  function Summarise(ops: seq<Op>): Summary {
    if |ops| == 0 then Summary(ZERO, None, false) else Summarise(ops[..|ops| - 1]).Extend(ops[|ops| - 1])
  }

  ghost predicate Means(created: Advert, now: Advert, sum: Summary) {
    && now.Held() == created.Held().Plus(sum.net)
    && now.Total() == (if sum.merged.Some? then sum.merged.value.available.Lockable() else created.Total())
    && now.allocatable == sum.Advertised(created).allocatable
    && now.allotted == sum.Advertised(created).allotted
    && (now.reserved.Some? <==> created.reserved.Some? || sum.locked)
  }

  /** What an update does to the resources. */
  lemma EffectOnResources(a: Advert, op: Op)
    requires Permitted(a, op)
    ensures var b := Apply(a, op);
            && b.Held() == (match op
                            case LockOp(request) => a.Held().Plus(request)
                            case UnlockOp(request) => a.Held().Minus(request)
                            case _ => a.Held())
            && b.Total() == (if op.MergeOp? then op.incoming.available.Lockable() else a.Total())
            && b.allocatable == (if op.MergeOp? then op.incoming else a).allocatable
            && b.allotted == (if op.MergeOp? then op.incoming else a).allotted
            && (b.reserved.Some? <==> a.reserved.Some? || op.LockOp?)
  {
    hide MergeCost;
    match op
    case LockOp(request) => assert Lock(a, request).Held() == a.Held().Plus(request);
    case UnlockOp(request) => assert Unlock(a, request).Held() == a.Held().Minus(request);
    case MergeOp(incoming) => MergedResources(a, incoming);
    case AnnotateOp(carbon, at) =>
  }

  lemma MergedResources(a: Advert, incoming: Advert)
    ensures var b := Merge(a, incoming);
            b.Held() == a.Held() && b.Total() == incoming.available.Lockable()
            && b.allocatable == incoming.allocatable && b.allotted == incoming.allotted && b.reserved == a.reserved
  {
    hide MergeCost;
  }

  lemma MeansStep(created: Advert, now: Advert, sum: Summary, op: Op)
    requires Means(created, now, sum) && Permitted(now, op)
    ensures Means(created, Apply(now, op), sum.Extend(op))
  {
    hide *;
    match op
    case LockOp(_) => MeansLock(created, now, sum, op);
    case UnlockOp(_) => MeansUnlock(created, now, sum, op);
    case MergeOp(_) => MeansMerge(created, now, sum, op);
    case AnnotateOp(_, _) => MeansAnnotate(created, now, sum, op);
  }

  lemma MeansLock(created: Advert, now: Advert, sum: Summary, op: Op)
    requires Means(created, now, sum) && Permitted(now, op) && op.LockOp?
    ensures Means(created, Apply(now, op), sum.Extend(op))
  {
    EffectOnResources(now, op);
    hide Apply, Permitted;
  }

  lemma MeansUnlock(created: Advert, now: Advert, sum: Summary, op: Op)
    requires Means(created, now, sum) && Permitted(now, op) && op.UnlockOp?
    ensures Means(created, Apply(now, op), sum.Extend(op))
  {
    EffectOnResources(now, op);
    hide Apply, Permitted;
  }

  lemma MeansMerge(created: Advert, now: Advert, sum: Summary, op: Op)
    requires Means(created, now, sum) && Permitted(now, op) && op.MergeOp?
    ensures Means(created, Apply(now, op), sum.Extend(op))
  {
    EffectOnResources(now, op);
    hide Apply, Permitted;
  }

  lemma MeansAnnotate(created: Advert, now: Advert, sum: Summary, op: Op)
    requires Means(created, now, sum) && Permitted(now, op) && op.AnnotateOp?
    ensures Means(created, Apply(now, op), sum.Extend(op))
  {
    EffectOnResources(now, op);
    hide Apply, Permitted;
  }

  lemma MeansStart(created: Advert)
    ensures Means(created, created, Summary(ZERO, None, false))
  {
  }

  lemma {:induction false} MeaningUpTo(history: seq<Advert>, ops: seq<Op>, n: nat)
    requires Serial(history, ops) && n <= |ops|
    ensures Means(history[0], history[n], Summarise(ops[..n]))
  {
    hide Means, Permitted, Apply;
    if n == 0 {
      MeansStart(history[0]);
    } else {
      MeaningUpTo(history, ops, n - 1);
      assert ops[..n][..n - 1] == ops[..n - 1];
      assert Permitted(history[n - 1], ops[n - 1]) && history[n - 1 + 1] == Apply(history[n - 1], ops[n - 1]);
      MeansStep(history[0], history[n - 1], Summarise(ops[..n - 1]), ops[n - 1]);
    }
  }

  /**
   What a history amounts to: the held amount is the initial one plus the net of all locks and releases,
   available plus held is what was last advertised (plus a Reserved value the creating advertisement brought
   along, until the first merge), and the physical totals are the last advertised ones.
   */
  lemma HistoryMeaning(history: seq<Advert>, ops: seq<Op>)
    requires Serial(history, ops)
    ensures Means(history[0], Last(history), Summarise(ops))
  {
    MeaningUpTo(history, ops, |ops|);
    assert ops[..|ops|] == ops;
    hide Means, Summarise;
  }

  /**
   Conservation: available plus reserved is exactly what was last advertised
   if and only if the advertisement was created without a reserved amount or has been merged since.
   */
  lemma Conservation(history: seq<Advert>, ops: seq<Op>)
    requires Serial(history, ops)
    ensures Last(history).Total() == Summarise(ops).Advertised(history[0]).available.Lockable()
            <==> history[0].Held() == ZERO || Summarise(ops).merged.Some?
  {
    HistoryMeaning(history, ops);
    hide Serial, Summarise;
  }

  /** A history whose last update is a lock leaves nothing negative, so no more is reserved than was advertised. */
  lemma LockIsCovered(history: seq<Advert>, ops: seq<Op>)
    requires Serial(history, ops) && ops != [] && Last(ops).LockOp?
    ensures ZERO.AtMost(Last(history).available.Lockable())
    ensures history[0].Held() == ZERO || Summarise(ops).merged.Some? ==>
              Last(history).Held().AtMost(Summarise(ops).Advertised(history[0]).available.Lockable())
  {
    Conservation(history, ops);
    assert Permitted(history[|ops| - 1], ops[|ops| - 1]);
  }

  /** Two histories with the same net locks and the same last advertisement end with the same resources. */
  lemma OrderDoesNotMatter(history: seq<Advert>, ops: seq<Op>, history': seq<Advert>, ops': seq<Op>)
    requires Serial(history, ops) && Serial(history', ops') && history[0] == history'[0]
    requires Summarise(ops).net == Summarise(ops').net && Summarise(ops).merged == Summarise(ops').merged
    ensures Last(history).Held() == Last(history').Held()
    ensures Last(history).available.Lockable() == Last(history').available.Lockable()
  {
    HistoryMeaning(history, ops);
    HistoryMeaning(history', ops');
    var sum, sum', a, b := Summarise(ops), Summarise(ops'), Last(history), Last(history');
    hide Serial, Summarise, Last;
    assert a.Held() == b.Held() && a.Total() == b.Total();
    TotalSplits(a);
    TotalSplits(b);
  }

  lemma TotalSplits(a: Advert)
    ensures a.available.Lockable() == a.Total().Minus(a.Held())
  {
  }

  /** The agent offers no more than what its pods and its enforced reservations leave free. */
  ghost predicate Backed(offer: Advert, agentReserved: Amount) {
    && offer.available.cpu <= Max(0, offer.allocatable.cpu - offer.allotted.cpu - agentReserved.cpu)
    && offer.available.memory <= Max(0, offer.allocatable.memory - offer.allotted.memory - agentReserved.memory)
  }

  ghost predicate AgreesWithFormula(a: Advert) {
    a.available.Lockable() == a.allocatable.Lockable().Minus(a.allotted.Lockable()).Minus(a.Held())
  }

  /**
   The incremental ledger agrees with the formula of UpdateAvailableResources exactly when the last advertisement
   offered allocatable minus allocated, that is, when the agent held nothing back.
   */
  lemma FormulaAgreement(history: seq<Advert>, ops: seq<Op>)
    requires Serial(history, ops) && (history[0].Held() == ZERO || Summarise(ops).merged.Some?)
    ensures var last := Summarise(ops).Advertised(history[0]);
            AgreesWithFormula(Last(history))
            <==> last.available.Lockable() == last.allocatable.Lockable().Minus(last.allotted.Lockable())
  {
    Conservation(history, ops);
    HistoryMeaning(history, ops);
    var now, last := Last(history), Summarise(ops).Advertised(history[0]);
    hide Serial, Summarise, Last;
    assert now.Total() == last.available.Lockable();
    FormulaOn(now);
  }

  lemma FormulaOn(a: Advert)
    ensures AgreesWithFormula(a) <==> a.Total() == a.allocatable.Lockable().Minus(a.allotted.Lockable())
  {
  }

  // ----- the fields that the broker owns, over whole histories

  /** The policy is the broker's: whatever agents send, it stays what it was when the advertisement was created. */
  lemma {:induction false} PolicyStays(history: seq<Advert>, ops: seq<Op>)
    requires Serial(history, ops)
    ensures Last(history).policy == history[0].policy
    decreases |ops|
  {
    hide Permitted, MergeCost, SubtractReserved;
    if ops != [] {
      var n := |ops| - 1;
      SerialPrefix(history, ops, n);
      PolicyStays(history[..n + 1], ops[..n]);
      assert history[n + 1] == Apply(history[n], ops[n]);
    }
  }

  lemma SerialPrefix(history: seq<Advert>, ops: seq<Op>, n: nat)
    requires Serial(history, ops) && n <= |ops|
    ensures Serial(history[..n + 1], ops[..n])
  {
    hide Permitted, Apply;
    forall i | 0 <= i < n
      ensures Permitted(history[..n + 1][i], ops[..n][i])
      ensures history[..n + 1][i + 1] == Apply(history[..n + 1][i], ops[..n][i])
    {
      assert Permitted(history[i], ops[i]) && history[i + 1] == Apply(history[i], ops[i]);
    }
  }

  /** The carbon values that an update brings along, with their time: the broker's, or non-empty ones of an agent. */
  function CarbonSent(op: Op): Option<(seq<int>, int)> {
    match op
    case AnnotateOp(carbon, at) => Some((carbon, at))
    case MergeOp(incoming) => if incoming.carbon == [] then None else Some((incoming.carbon, incoming.carbonUpdated))
    case _ => None
  }

  /** The carbon values are the last ones sent; an empty list of an agent never erases them. */
  lemma {:induction false} CarbonIsTheLastSent(history: seq<Advert>, ops: seq<Op>, k: nat)
    requires Serial(history, ops) && k < |ops| && CarbonSent(ops[k]).Some?
    requires forall j :: k < j < |ops| ==> CarbonSent(ops[j]).None?
    ensures Last(history).carbon == CarbonSent(ops[k]).value.0
    ensures Last(history).carbon != [] ==> Last(history).carbonUpdated == CarbonSent(ops[k]).value.1
    decreases |ops|
  {
    hide Permitted, MergeCost, SubtractReserved;
    var n := |ops| - 1;
    assert history[n + 1] == Apply(history[n], ops[n]);
    if k < n {
      SerialPrefix(history, ops, n);
      CarbonIsTheLastSent(history[..n + 1], ops[..n], k);
    }
  }

  /** Until some are sent, they are those of the creation. */
  lemma {:induction false} CarbonIsTheFirst(history: seq<Advert>, ops: seq<Op>)
    requires Serial(history, ops) && forall j :: 0 <= j < |ops| ==> CarbonSent(ops[j]).None?
    ensures Last(history).carbon == history[0].carbon
    ensures Last(history).carbon != [] ==> Last(history).carbonUpdated == history[0].carbonUpdated
    decreases |ops|
  {
    hide Permitted, MergeCost, SubtractReserved;
    if ops != [] {
      var n := |ops| - 1;
      assert history[n + 1] == Apply(history[n], ops[n]);
      SerialPrefix(history, ops, n);
      CarbonIsTheFirst(history[..n + 1], ops[..n]);
    }
  }

  /** There is a positive energy price. */
  predicate Priced(a: Advert) {
    a.cost.Some? && a.cost.value.energyCost > 0.0
  }

  /** An agent sends an energy price of its own. */
  predicate SendsPrice(op: Op) {
    op.MergeOp? && op.incoming.cost.Some? && op.incoming.cost.value.energyCost != 0.0
  }

  /** An agent sends a currency. */
  predicate SendsCurrency(op: Op) {
    op.MergeOp? && op.incoming.cost.Some? && op.incoming.cost.value.currency != ""
  }

  /** A positive energy price survives every update but an agent's own price, and so does its currency. */
  lemma {:induction false} PriceSurvives(history: seq<Advert>, ops: seq<Op>, k: nat)
    requires Serial(history, ops) && k <= |ops| && Priced(history[k])
    requires forall j :: k <= j < |ops| ==> !SendsPrice(ops[j])
    ensures Priced(Last(history)) && Last(history).cost.value.energyCost == history[k].cost.value.energyCost
    ensures (forall j :: k <= j < |ops| ==> !SendsCurrency(ops[j])) ==>
              Last(history).cost.value.currency == history[k].cost.value.currency
    decreases |ops|
  {
    hide Permitted, SubtractReserved;
    var n := |ops| - 1;
    if k < |ops| {
      SerialPrefix(history, ops, n);
      PriceSurvives(history[..n + 1], ops[..n], k);
      assert history[n + 1] == Apply(history[n], ops[n]);
    }
  }

  /** An agent's own price replaces the cost, and where there was no positive price the agent's cost is taken over. */
  lemma OwnPriceReplaces(a: Advert, incoming: Advert)
    ensures SendsPrice(MergeOp(incoming)) || !Priced(a) ==> Merge(a, incoming).cost == incoming.cost
  {
  }

  /** Whether the energy is renewable is what the last agent said, and no without a word. */
  lemma {:induction false} RenewableIsTheAgents(history: seq<Advert>, ops: seq<Op>, k: nat)
    requires Serial(history, ops) && k < |ops| && ops[k].MergeOp?
    requires forall j :: k < j < |ops| ==> !ops[j].MergeOp?
    ensures Last(history).cost.Some? ==>
              (Last(history).cost.value.renewable <==>
               ops[k].incoming.cost.Some? && ops[k].incoming.cost.value.renewable)
    decreases |ops|
  {
    hide Permitted, SubtractReserved;
    var n := |ops| - 1;
    assert history[n + 1] == Apply(history[n], ops[n]);
    if k < n {
      SerialPrefix(history, ops, n);
      RenewableIsTheAgents(history[..n + 1], ops[..n], k);
    }
  }

  // ----- GPU

  /** The reserved GPU amount, which no lock and no release ever touches. */
  function GpuHeld(a: Advert): int {
    if a.reserved.Some? && a.reserved.value.gpu.Some? then a.reserved.value.gpu.value else 0
  }

  /** What is left of an offered GPU amount once some is held. */
  function GpuLeft(offered: Option<int>, held: int): Option<int> {
    if offered.Some? then Some(offered.value - held) else None
  }

  /** Reserved GPU stays what the creating advertisement brought along, and every merge subtracts it again. */
  ghost predicate MeansGpu(created: Advert, now: Advert, sum: Summary) {
    && GpuHeld(now) == GpuHeld(created)
    && now.available.gpu == (if sum.merged.Some? then GpuLeft(sum.merged.value.available.gpu, GpuHeld(created))
                             else created.available.gpu)
  }

  lemma MeansGpuStep(created: Advert, now: Advert, sum: Summary, op: Op)
    requires MeansGpu(created, now, sum) && Permitted(now, op)
    ensures MeansGpu(created, Apply(now, op), sum.Extend(op))
  {
    hide MergeCost;
    match op
    case MergeOp(incoming) =>
      assert Merge(now, incoming).available.gpu == GpuLeft(incoming.available.gpu, GpuHeld(now));
    case _ =>
  }

  lemma {:induction false} GpuMeaningUpTo(history: seq<Advert>, ops: seq<Op>, n: nat)
    requires Serial(history, ops) && n <= |ops|
    ensures MeansGpu(history[0], history[n], Summarise(ops[..n]))
  {
    hide Permitted, Apply;
    if n != 0 {
      GpuMeaningUpTo(history, ops, n - 1);
      assert ops[..n][..n - 1] == ops[..n - 1];
      assert Permitted(history[n - 1], ops[n - 1]) && history[n - 1 + 1] == Apply(history[n - 1], ops[n - 1]);
      MeansGpuStep(history[0], history[n - 1], Summarise(ops[..n - 1]), ops[n - 1]);
    }
  }

  /**
   After every history the available GPU amount is the last advertised one less what the creating advertisement
   had reserved, or the created one if nothing was merged since.
   */
  lemma GpuMeaning(history: seq<Advert>, ops: seq<Op>)
    requires Serial(history, ops)
    ensures MeansGpu(history[0], Last(history), Summarise(ops))
  {
    GpuMeaningUpTo(history, ops, |ops|);
    assert ops[..|ops|] == ops;
  }
}
