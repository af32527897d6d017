/**
 The agent's metrics collector: what the pods use, what the enforced provider instructions hold back, and what
 is therefore offered to the broker. Quantities are counted in nano-units, the finest that a quantity can express.
 */
module Collector {
  import opened Quantities
  import opened Ledger

  const MILLI := 1_000_000
  const ONE := 1_000_000_000

  datatype Kind = Cpu | Memory | Gpu

  /** A resource list: which kinds it mentions, and how much of each. */
  datatype Resources = Resources(cpu: Option<int>, memory: Option<int>, gpu: Option<int>) {
    function Get(kind: Kind): Option<int> {
      match kind
      case Cpu => cpu
      case Memory => memory
      case Gpu => gpu
    }

    function Amount(kind: Kind): int {
      if Get(kind).Some? then Get(kind).value else 0
    }
  }

  datatype Node = Node(ready: bool, capacity: Resources, allocatable: Resources)

  datatype PodPhase = Running | PodPending | Other

  datatype Pod = Pod(phase: PodPhase, containers: seq<Resources>, initContainers: seq<Resources>, overhead: Resources) {
    predicate IsCounted() {
      phase == Running || phase == PodPending
    }

    predicate MentionsGpu() {
      || overhead.gpu.Some?
      || (exists r <- containers :: r.gpu.Some?)
      || (exists r <- initContainers :: r.gpu.Some?)
    }
  }

  // ----- what a pod needs

  function AmountOf(kind: Kind): Resources -> int {
    (r: Resources) => r.Amount(kind)
  }

  function Largest(rs: seq<Resources>, kind: Kind): int {
    if |rs| == 0 then 0 else Max(Largest(rs[..|rs| - 1], kind), rs[|rs| - 1].Amount(kind))
  }

  /** Containers run together, init containers one at a time before them; the overhead comes on top. */
  function Need(pod: Pod, kind: Kind): int {
    if !pod.IsCounted() then 0
    else Max(IntSum(pod.containers, AmountOf(kind)), Largest(pod.initContainers, kind)) + pod.overhead.Amount(kind)
  }

  function NeedOf(kind: Kind): Pod -> int {
    (pod: Pod) => Need(pod, kind)
  }

  predicate AnyGpu(pods: seq<Pod>) {
    exists pod <- pods :: pod.IsCounted() && pod.MentionsGpu()
  }

  /** Total need of all pods: the specification of calculateAllocatedResources. */
  function TotalNeed(pods: seq<Pod>): Quantities {
    Quantities(IntSum(pods, NeedOf(Cpu)), IntSum(pods, NeedOf(Memory)),
               if AnyGpu(pods) then Some(IntSum(pods, NeedOf(Gpu))) else None)
  }

  lemma OrderOfPodsDoesNotMatter(pods: seq<Pod>, pods': seq<Pod>)
    requires multiset(pods) == multiset(pods')
    ensures TotalNeed(pods) == TotalNeed(pods')
  {
    IntSumPermutation(pods, pods', NeedOf(Cpu));
    IntSumPermutation(pods, pods', NeedOf(Memory));
    IntSumPermutation(pods, pods', NeedOf(Gpu));
    assert forall pod :: pod in pods <==> pod in multiset(pods);
    assert forall pod :: pod in pods' <==> pod in multiset(pods');
  }

  /**
   What a counted pod needs beside its overhead is the least amount that covers all its containers together and each
   init container by itself. Other pods need nothing.
   */
  lemma NeedIsLeast(pod: Pod, kind: Kind, amount: int)
    ensures !(pod.phase.Running? || pod.phase.PodPending?) ==> Need(pod, kind) == 0
    ensures pod.phase.Running? || pod.phase.PodPending? ==>
              (amount >= Need(pod, kind) - pod.overhead.Amount(kind)
               <==> && amount >= 0 && amount >= IntSum(pod.containers, AmountOf(kind))
                    && forall r <- pod.initContainers :: amount >= r.Amount(kind))
  {
    LargestIsLeast(pod.initContainers, kind, amount);
  }

  lemma {:induction false} LargestIsLeast(rs: seq<Resources>, kind: Kind, amount: int)
    ensures amount >= Largest(rs, kind) <==> amount >= 0 && forall r <- rs :: amount >= r.Amount(kind)
  {
    if |rs| != 0 {
      LargestIsLeast(rs[..|rs| - 1], kind, amount);
      assert rs == rs[..|rs| - 1] + [rs[|rs| - 1]];
    }
  }

  /** Each counted pod adds what it needs, and a GPU entry if it mentions one; a finished one adds nothing. */
  lemma OneMorePod(pods: seq<Pod>, pod: Pod)
    ensures var before, after := TotalNeed(pods), TotalNeed(pods + [pod]);
            if pod.phase.Running? || pod.phase.PodPending? then
              && after.cpu == before.cpu + Need(pod, Cpu) && after.memory == before.memory + Need(pod, Memory)
              && (after.gpu.Some? <==> before.gpu.Some? || pod.MentionsGpu())
              && (before.gpu.Some? && after.gpu.Some? ==> after.gpu.value == before.gpu.value + Need(pod, Gpu))
            else after == before
  {
    hide Need, Pod.MentionsGpu;
    AppendPod(pods, pod);
    assert !pod.IsCounted() ==> forall kind :: Need(pod, kind) == 0 by {
      forall kind
        ensures !pod.IsCounted() ==> Need(pod, kind) == 0
      {
        NeedIsLeast(pod, kind, 0);
      }
    }
  }

  lemma {:induction false} NoGpuNoAmount(rs: seq<Resources>)
    requires forall r <- rs :: r.gpu.None?
    ensures IntSum(rs, AmountOf(Gpu)) == 0 == Largest(rs, Gpu)
  {
    if |rs| != 0 {
      NoGpuNoAmount(rs[..|rs| - 1]);
      assert rs[|rs| - 1] in rs;
    }
  }

  // ----- the loops

  /** Sums over the containers of a pod. */
  method SumContainers(rs: seq<Resources>, sawGpu: bool) returns (cpu: int, memory: int, gpu: int, hasGpu: bool)
    ensures cpu == IntSum(rs, AmountOf(Cpu)) && memory == IntSum(rs, AmountOf(Memory))
            && gpu == IntSum(rs, AmountOf(Gpu))
    ensures hasGpu <==> sawGpu || exists r <- rs :: r.gpu.Some?
  {
    cpu, memory, gpu, hasGpu := 0, 0, 0, sawGpu;
    for k := 0 to |rs|
      invariant cpu == IntSum(rs[..k], AmountOf(Cpu)) && memory == IntSum(rs[..k], AmountOf(Memory))
      invariant gpu == IntSum(rs[..k], AmountOf(Gpu))
      invariant hasGpu <==> sawGpu || exists r <- rs[..k] :: r.gpu.Some?
    {
      assert rs[..k + 1] == rs[..k] + [rs[k]];
      IntSumAppend(rs[..k], rs[k], AmountOf(Cpu));
      IntSumAppend(rs[..k], rs[k], AmountOf(Memory));
      IntSumAppend(rs[..k], rs[k], AmountOf(Gpu));
      if rs[k].cpu.Some? {
        cpu := cpu + rs[k].cpu.value;
      }
      if rs[k].memory.Some? {
        memory := memory + rs[k].memory.value;
      }
      if rs[k].gpu.Some? {
        gpu := gpu + rs[k].gpu.value;
        hasGpu := true;
      }
    }
    assert rs[..|rs|] == rs;
  }

  /** Maxima over the init containers of a pod. */
  method MaxInitContainers(rs: seq<Resources>, sawGpu: bool) returns (cpu: int, memory: int, gpu: int, hasGpu: bool)
    ensures cpu == Largest(rs, Cpu) && memory == Largest(rs, Memory) && gpu == Largest(rs, Gpu)
    ensures hasGpu <==> sawGpu || exists r <- rs :: r.gpu.Some?
  {
    cpu, memory, gpu, hasGpu := 0, 0, 0, sawGpu;
    for k := 0 to |rs|
      invariant cpu == Largest(rs[..k], Cpu) && memory == Largest(rs[..k], Memory) && gpu == Largest(rs[..k], Gpu)
      invariant cpu >= 0 && memory >= 0 && gpu >= 0
      invariant hasGpu <==> sawGpu || exists r <- rs[..k] :: r.gpu.Some?
    {
      assert rs[..k + 1] == rs[..k] + [rs[k]];
      assert rs[..k + 1][..k] == rs[..k];
      if rs[k].cpu.Some? && rs[k].cpu.value > cpu {
        cpu := rs[k].cpu.value;
      }
      if rs[k].memory.Some? && rs[k].memory.value > memory {
        memory := rs[k].memory.value;
      }
      if rs[k].gpu.Some? {
        if rs[k].gpu.value > gpu {
          gpu := rs[k].gpu.value;
        }
        hasGpu := true;
      }
    }
    assert rs[..|rs|] == rs;
  }

  lemma AppendPod(pods: seq<Pod>, pod: Pod)
    ensures IntSum(pods + [pod], NeedOf(Cpu)) == IntSum(pods, NeedOf(Cpu)) + Need(pod, Cpu)
    ensures IntSum(pods + [pod], NeedOf(Memory)) == IntSum(pods, NeedOf(Memory)) + Need(pod, Memory)
    ensures IntSum(pods + [pod], NeedOf(Gpu)) == IntSum(pods, NeedOf(Gpu)) + Need(pod, Gpu)
    ensures AnyGpu(pods + [pod]) <==> AnyGpu(pods) || (pod.IsCounted() && pod.MentionsGpu())
  {
    IntSumAppend(pods, pod, NeedOf(Cpu));
    IntSumAppend(pods, pod, NeedOf(Memory));
    IntSumAppend(pods, pod, NeedOf(Gpu));
  }

  /** The contribution of one counted pod; sawGpu is the flag so far. */
  method AddPod(pod: Pod, sawGpu: bool) returns (cpu: int, memory: int, gpu: int, hasGpu: bool)
    requires pod.IsCounted()
    ensures cpu == Need(pod, Cpu) && memory == Need(pod, Memory) && gpu == Need(pod, Gpu)
    ensures hasGpu <==> sawGpu || pod.MentionsGpu()
  {
    var containersCpu, containersMemory, containersGpu, seen := SumContainers(pod.containers, sawGpu);
    var initCpu, initMemory, initGpu, seenGpu := MaxInitContainers(pod.initContainers, seen);
    hasGpu := seenGpu;
    cpu := containersCpu;
    if initCpu > cpu {
      cpu := initCpu;
    }
    memory := containersMemory;
    if initMemory > memory {
      memory := initMemory;
    }
    gpu := 0;
    if hasGpu {
      gpu := containersGpu;
      if initGpu > gpu {
        gpu := initGpu;
      }
    } else {
      NoGpuNoAmount(pod.containers);
      NoGpuNoAmount(pod.initContainers);
    }
    if pod.overhead.cpu.Some? {
      cpu := cpu + pod.overhead.cpu.value;
    }
    if pod.overhead.memory.Some? {
      memory := memory + pod.overhead.memory.value;
    }
    if pod.overhead.gpu.Some? {
      gpu := gpu + pod.overhead.gpu.value;
      hasGpu := true;
    }
  }

  method CalculateAllocatedResources(pods: seq<Pod>) returns (total: Quantities)
    ensures total == TotalNeed(pods)
  {
    var cpu, memory, gpu, hasGpu := 0, 0, 0, false;
    for k := 0 to |pods|
      invariant cpu == IntSum(pods[..k], NeedOf(Cpu)) && memory == IntSum(pods[..k], NeedOf(Memory))
      invariant gpu == IntSum(pods[..k], NeedOf(Gpu))
      invariant hasGpu <==> AnyGpu(pods[..k])
    {
      var pod := pods[k];
      assert pods[..k + 1] == pods[..k] + [pod];
      AppendPod(pods[..k], pod);
      if pod.phase != Running && pod.phase != PodPending {
        continue;
      }
      var podCpu, podMemory, podGpu, seenGpu := AddPod(pod, hasGpu);
      cpu, memory, gpu, hasGpu := cpu + podCpu, memory + podMemory, gpu + podGpu, seenGpu;
    }
    assert pods[..|pods|] == pods;
    total := Quantities(cpu, memory, if hasGpu then Some(gpu) else None);
  }

  // ----- what provider instructions hold back

  datatype Field = Empty | Unparsable | Parsed(value: int)

  datatype ProviderInstruction = ProviderInstruction(
    enforced: bool, expiresAt: Option<int>, cpu: Field, memory: Field)
  {
    predicate InForce(now: int) {
      enforced && !(expiresAt.Some? && expiresAt.value < now)
    }

    /** An unparsable CPU field drops the whole instruction; an unparsable memory field only the memory. */
    function HeldBack(now: int): Amount {
      if !InForce(now) || cpu.Unparsable? then ZERO
      else Amount(if cpu.Parsed? then cpu.value else 0, if memory.Parsed? then memory.value else 0)
    }
  }

  function HeldBackAt(now: int): ProviderInstruction -> Amount {
    (p: ProviderInstruction) => p.HeldBack(now)
  }

  /** An enforced instruction holds back what it says up to its expiry, and neither after it nor before enforcement. */
  lemma HeldUntilExpiry(p: ProviderInstruction, cpu: int, memory: int, now: int)
    requires p.cpu == Parsed(cpu) && p.memory == Parsed(memory) && (cpu != 0 || memory != 0)
    ensures p.HeldBack(now) == Amount(cpu, memory) <==> p.enforced && (p.expiresAt.Some? ==> now <= p.expiresAt.value)
    ensures p.HeldBack(now) == Amount(cpu, memory) || p.HeldBack(now) == ZERO
  {
  }

  /** A field that is missing holds back nothing; one that cannot be read takes the fields after it along. */
  lemma MalformedFieldsHoldNothing(p: ProviderInstruction, now: int)
    requires p.enforced && p.expiresAt.None?
    ensures p.cpu.Unparsable? ==> p.HeldBack(now) == ZERO
    ensures p.cpu.Empty? ==> p.HeldBack(now).cpu == 0
    ensures p.memory.Empty? || p.memory.Unparsable? ==> p.HeldBack(now).memory == 0
    ensures p.cpu.Parsed? ==> p.HeldBack(now).cpu == p.cpu.value
    ensures p.memory.Parsed? && !p.cpu.Unparsable? ==> p.HeldBack(now).memory == p.memory.value
  {
  }

  method CalculateReservedResources(instructions: seq<ProviderInstruction>, now: int) returns (reserved: Amount)
    ensures reserved == SumOf(instructions, HeldBackAt(now))
  {
    var cpu, memory := 0, 0;
    for k := 0 to |instructions|
      invariant Amount(cpu, memory) == SumOf(instructions[..k], HeldBackAt(now))
    {
      var p := instructions[k];
      assert instructions[..k + 1] == instructions[..k] + [p];
      SumAppend(instructions[..k], p, HeldBackAt(now));
      if !p.enforced {
        continue;
      }
      if p.expiresAt.Some? && p.expiresAt.value < now {
        continue;
      }
      if p.cpu != Empty {
        if p.cpu.Unparsable? {
          continue;
        }
        cpu := cpu + p.cpu.value;
      }
      if p.memory != Empty {
        if p.memory.Unparsable? {
          continue;
        }
        memory := memory + p.memory.value;
      }
    }
    assert instructions[..|instructions|] == instructions;
    reserved := Amount(cpu, memory);
  }

  // ----- sharing

  datatype Sharing = All | Percentage(percent: int) | Fixed(cpu: Field, memory: Field, gpu: Field)

  /** A quantity read in a coarser unit is rounded up. */
  function CeilDiv(x: nat, unit: nat): nat
    requires unit > 0
  {
    (x + unit - 1) / unit
  }

  /** What is offered of a free amount x. */
  function Shared(x: nat, sharing: Sharing, fixedField: Field, unit: nat): int
    requires unit > 0
  {
    match sharing
    case All => x
    case Percentage(p) => if 0 <= p < 100 then CeilDiv(x, unit) * p / 100 * unit else x
    case Fixed(_, _, _) =>
      match fixedField
      case Empty => 0
      case Unparsable => x
      case Parsed(q) => Min(q, x)
  }

  lemma ProductAtMost(m: nat, k: nat, n: nat)
    requires k <= n
    ensures m * k <= m * n
  {
  }

  /** If y is less than the next multiple, the quotient is at most q. */
  lemma QuotientAtMost(y: nat, d: nat, q: nat)
    requires d > 0 && y < (q + 1) * d
    ensures y / d <= q
  {
    var k := y / d;
    assert k * d <= y;
    if k > q {
      ProductAtMost(d, q + 1, k);
      assert false;
    }
  }

  lemma CeilAtMostNext(x: nat, unit: nat)
    requires unit > 0
    ensures CeilDiv(x, unit) <= x / unit + 1
  {
    var n := x / unit;
    assert x < n * unit + unit;
    assert (n + 2) * unit == n * unit + 2 * unit;
    QuotientAtMost(x + unit - 1, unit, n + 1);
  }

  /** A share of a rounded-up count is at most the rounded-down count. */
  lemma PercentOfCeiling(x: nat, p: nat, unit: nat)
    requires p < 100 && unit > 0
    ensures CeilDiv(x, unit) * p / 100 <= x / unit
  {
    CeilAtMostNext(x, unit);
    var c, n := CeilDiv(x, unit), x / unit;
    hide CeilDiv;
    ProductAtMost(c, p, 99);
    var product := c * p;
    assert product < 100 * n + 100;
  }

  lemma PercentShare(x: nat, p: nat, unit: nat)
    requires p < 100 && unit > 0
    ensures 0 <= CeilDiv(x, unit) * p / 100 * unit <= x
  {
    PercentOfCeiling(x, p, unit);
    var k, n := CeilDiv(x, unit) * p / 100, x / unit;
    hide CeilDiv;
    assert 0 <= k by {
      NotNegative(CeilDiv(x, unit), p);
    }
    ScaleUp(k, n, unit);
    assert x == n * unit + x % unit;
  }

  lemma NotNegative(m: nat, n: nat)
    ensures 0 <= m * n / 100
  {
  }

  lemma ScaleUp(k: nat, n: nat, unit: nat)
    requires k <= n
    ensures 0 <= k * unit <= n * unit
  {
  }

  /** Sharing never overstates, although quantities are rounded up before the percentage is taken. */
  lemma SharingNeverOverstates(x: nat, sharing: Sharing, fixedField: Field, unit: nat)
    requires unit > 0
    ensures Shared(x, sharing, fixedField, unit) <= x
    ensures Shared(x, sharing, fixedField, unit) >= 0 <==>
            !(sharing.Fixed? && fixedField.Parsed? && fixedField.value < 0)
  {
    if sharing.Percentage? && 0 <= sharing.percent < 100 {
      PercentShare(x, sharing.percent, unit);
      hide CeilDiv;
    }
  }

  /** Between a percentage of the free amount less one unit, and that percentage of the amount rounded up. */
  predicate Near(offered: int, free: nat, p: nat, unit: nat) {
    p * free < 100 * (offered + unit) && 100 * offered <= p * (free + unit - 1)
  }

  /** With a percentage, what is offered falls short of it by less than one unit. */
  lemma PercentageIsNear(x: nat, p: nat, field: Field, unit: nat)
    requires p < 100 && unit > 0
    ensures Near(Shared(x, Percentage(p), field, unit), x, p, unit)
  {
    var c := CeilDiv(x, unit);
    CeilBounds(x, unit);
    var k := c * p / 100;
    hide CeilDiv;
    ProductAtMost(p, x, c * unit);
    ProductAtMost(p, c * unit, x + unit - 1);
    assert p * (c * unit) == c * p * unit;
    NearQuotient(c * p, k, unit);
  }

  lemma CeilBounds(x: nat, unit: nat)
    requires unit > 0
    ensures x <= CeilDiv(x, unit) * unit <= x + unit - 1
  {
    var y := x + unit - 1;
    assert y == y / unit * unit + y % unit;
  }

  lemma NearQuotient(product: nat, k: nat, unit: nat)
    requires k == product / 100 && unit > 0
    ensures product * unit < 100 * (k * unit + unit) && 100 * (k * unit) <= product * unit
  {
    assert 100 * k <= product < 100 * k + 100;
    ProductAtMost(unit, 100 * k, product);
    ProductAtMost(unit, product + 1, 100 * k + 100);
    assert unit * (100 * k + 100) == 100 * (k * unit + unit);
    assert unit * (product + 1) == product * unit + unit;
  }

  /** A larger percentage of a larger free amount is no smaller an offer, and sharing everything is the largest. */
  lemma SharingIsMonotone(x: nat, y: nat, p: nat, q: nat, field: Field, unit: nat)
    requires x <= y && p <= q < 100 && unit > 0
    ensures Shared(x, Percentage(p), field, unit) <= Shared(y, Percentage(q), field, unit)
    ensures Shared(y, Percentage(q), field, unit) <= Shared(y, All, field, unit)
  {
    var c, d := CeilDiv(x, unit), CeilDiv(y, unit);
    CeilOrder(x, y, unit);
    SharingNeverOverstates(y, Percentage(q), field, unit);
    hide CeilDiv;
    ProductAtMost(c, p, q);
    ProductAtMost(q, c, d);
    ProductAtMost(unit, c * p / 100, d * q / 100);
  }

  lemma CeilOrder(x: nat, y: nat, unit: nat)
    requires x <= y && unit > 0
    ensures CeilDiv(x, unit) <= CeilDiv(y, unit)
  {
    CeilBounds(y, unit);
    var n := CeilDiv(y, unit);
    assert x + unit - 1 < (n + 1) * unit;
    QuotientAtMost(x + unit - 1, unit, n);
  }

  // ----- the whole collection

  datatype Metrics = Metrics(capacity: Quantities, allocatable: Quantities, allotted: Quantities, available: Quantities)

  function CapacityOf(kind: Kind): Node -> int {
    (n: Node) => if n.ready then n.capacity.Amount(kind) else 0
  }

  function AllocatableOf(kind: Kind): Node -> int {
    (n: Node) => if n.ready then n.allocatable.Amount(kind) else 0
  }

  predicate HasGpu(nodes: seq<Node>) {
    exists n <- nodes :: n.ready && n.capacity.gpu.Some?
  }

  function TotalCapacity(nodes: seq<Node>): Quantities {
    Quantities(IntSum(nodes, CapacityOf(Cpu)), IntSum(nodes, CapacityOf(Memory)),
               if HasGpu(nodes) then Some(IntSum(nodes, CapacityOf(Gpu))) else None)
  }

  function TotalAllocatable(nodes: seq<Node>): Quantities {
    Quantities(IntSum(nodes, AllocatableOf(Cpu)), IntSum(nodes, AllocatableOf(Memory)),
               if HasGpu(nodes) then Some(IntSum(nodes, AllocatableOf(Gpu))) else None)
  }

  method SumNodes(nodes: seq<Node>) returns (capacity: Quantities, allocatable: Quantities)
    ensures capacity == TotalCapacity(nodes) && allocatable == TotalAllocatable(nodes)
  {
    capacity, allocatable := Quantities(0, 0, None), Quantities(0, 0, None);
    var capacityGpu, allocatableGpu, hasGpu := 0, 0, false;
    for k := 0 to |nodes|
      invariant capacity == Quantities(IntSum(nodes[..k], CapacityOf(Cpu)), IntSum(nodes[..k], CapacityOf(Memory)),
                                       None)
      invariant allocatable
                == Quantities(IntSum(nodes[..k], AllocatableOf(Cpu)), IntSum(nodes[..k], AllocatableOf(Memory)), None)
      invariant capacityGpu == IntSum(nodes[..k], CapacityOf(Gpu))
      invariant allocatableGpu == IntSum(nodes[..k], AllocatableOf(Gpu))
      invariant hasGpu <==> HasGpu(nodes[..k])
    {
      var node := nodes[k];
      assert nodes[..k + 1] == nodes[..k] + [node];
      AppendNode(nodes[..k], node);
      if !node.ready {
        continue;
      }
      if node.capacity.cpu.Some? {
        capacity := capacity.(cpu := capacity.cpu + node.capacity.cpu.value);
      }
      if node.capacity.memory.Some? {
        capacity := capacity.(memory := capacity.memory + node.capacity.memory.value);
      }
      if node.capacity.gpu.Some? {
        capacityGpu := capacityGpu + node.capacity.gpu.value;
        hasGpu := true;
      }
      if node.allocatable.cpu.Some? {
        allocatable := allocatable.(cpu := allocatable.cpu + node.allocatable.cpu.value);
      }
      if node.allocatable.memory.Some? {
        allocatable := allocatable.(memory := allocatable.memory + node.allocatable.memory.value);
      }
      if node.allocatable.gpu.Some? {
        allocatableGpu := allocatableGpu + node.allocatable.gpu.value;
      }
    }
    assert nodes[..|nodes|] == nodes;
    if hasGpu {
      capacity := capacity.(gpu := Some(capacityGpu));
      allocatable := allocatable.(gpu := Some(allocatableGpu));
    }
  }

  lemma AppendNode(nodes: seq<Node>, node: Node)
    ensures forall kind ::
              IntSum(nodes + [node], CapacityOf(kind)) == IntSum(nodes, CapacityOf(kind)) + CapacityOf(kind)(node)
    ensures forall kind ::
              IntSum(nodes + [node], AllocatableOf(kind))
                == IntSum(nodes, AllocatableOf(kind)) + AllocatableOf(kind)(node)
    ensures HasGpu(nodes + [node]) <==> HasGpu(nodes) || (node.ready && node.capacity.gpu.Some?)
  {
    forall kind
      ensures IntSum(nodes + [node], CapacityOf(kind)) == IntSum(nodes, CapacityOf(kind)) + CapacityOf(kind)(node)
      ensures IntSum(nodes + [node], AllocatableOf(kind))
              == IntSum(nodes, AllocatableOf(kind)) + AllocatableOf(kind)(node)
    {
      IntSumAppend(nodes, node, CapacityOf(kind));
      IntSumAppend(nodes, node, AllocatableOf(kind));
    }
  }

  /** A ready node adds its capacity and its allocatable amounts, any other node nothing. */
  lemma OneMoreNode(nodes: seq<Node>, node: Node)
    ensures var capacity, allocatable := TotalCapacity(nodes + [node]), TotalAllocatable(nodes + [node]);
            if node.ready then
              && capacity.cpu == TotalCapacity(nodes).cpu + node.capacity.Amount(Cpu)
              && capacity.memory == TotalCapacity(nodes).memory + node.capacity.Amount(Memory)
              && allocatable.cpu == TotalAllocatable(nodes).cpu + node.allocatable.Amount(Cpu)
              && allocatable.memory == TotalAllocatable(nodes).memory + node.allocatable.Amount(Memory)
              && (capacity.gpu.Some? <==> TotalCapacity(nodes).gpu.Some? || node.capacity.gpu.Some?)
              && (allocatable.gpu.Some? <==> capacity.gpu.Some?)
              && (TotalCapacity(nodes).gpu.Some? ==>
                    && capacity.gpu.value == TotalCapacity(nodes).gpu.value + node.capacity.Amount(Gpu)
                    && allocatable.gpu.value == TotalAllocatable(nodes).gpu.value + node.allocatable.Amount(Gpu))
            else capacity == TotalCapacity(nodes) && allocatable == TotalAllocatable(nodes)
  {
    AppendNode(nodes, node);
  }

  /** Free amount: allocatable minus allocated minus reserved, clamped to zero. */
  function Free(allocatable: int, allotted: int, reserved: int): nat {
    Max(0, allocatable - allotted - reserved)
  }

  function FieldFor(sharing: Sharing, kind: Kind): Field {
    if !sharing.Fixed? then Empty
    else match kind
      case Cpu => sharing.cpu
      case Memory => sharing.memory
      case Gpu => sharing.gpu
  }

  /** Everything that collecting computes, from what it reads. */
  function Collected(nodes: seq<Node>, pods: seq<Pod>, reserved: Amount, sharing: Sharing): Metrics {
    var allocatable, allotted := TotalAllocatable(nodes), TotalNeed(pods);
    Metrics(TotalCapacity(nodes), allocatable, allotted,
            Quantities(
              Shared(Free(allocatable.cpu, allotted.cpu, reserved.cpu), sharing, FieldFor(sharing, Cpu), MILLI),
              Shared(Free(allocatable.memory, allotted.memory, reserved.memory), sharing, FieldFor(sharing, Memory),
                     ONE),
              if allocatable.gpu.None? then None
              else
                var used := if allotted.gpu.Some? then allotted.gpu.value else 0;
                Some(Shared(Free(allocatable.gpu.value, used, 0), sharing, FieldFor(sharing, Gpu), ONE))))
  }

  method CollectClusterResources(nodes: seq<Node>, pods: seq<Pod>, instructions: seq<ProviderInstruction>, now: int,
                                 sharing: Sharing)
    returns (r: Option<Metrics>)
    ensures r.Some? <==> nodes != []
    ensures r.Some? ==> r.value == Collected(nodes, pods, SumOf(instructions, HeldBackAt(now)), sharing)
  {
    if |nodes| == 0 {
      return None;
    }
    var capacity, allocatable := SumNodes(nodes);
    var allotted := CalculateAllocatedResources(pods);
    var reserved := CalculateReservedResources(instructions, now);
    hide TotalNeed, TotalCapacity, TotalAllocatable, SumOf;

    var cpu, memory := allocatable.cpu, allocatable.memory;
    cpu := cpu - allotted.cpu;
    memory := memory - allotted.memory;
    cpu := cpu - reserved.cpu;
    memory := memory - reserved.memory;
    if cpu < 0 {
      cpu := 0;
    }
    if memory < 0 {
      memory := 0;
    }
    var gpu := None;
    if allocatable.gpu.Some? {
      var free := allocatable.gpu.value;
      if allotted.gpu.Some? {
        free := free - allotted.gpu.value;
      }
      if free < 0 {
        free := 0;
      }
      gpu := Some(free);
    }
    var available := Share(cpu, memory, gpu, sharing);
    r := Some(Metrics(capacity, allocatable, allotted, available));
  }

  /** The sharing switch. */
  method Share(cpu: nat, memory: nat, gpu: Option<int>, sharing: Sharing) returns (available: Quantities)
    requires gpu.Some? ==> gpu.value >= 0
    ensures available == Quantities(
                           Shared(cpu, sharing, FieldFor(sharing, Cpu), MILLI),
                           Shared(memory, sharing, FieldFor(sharing, Memory), ONE),
                           if gpu.None? then None else Some(Shared(gpu.value, sharing, FieldFor(sharing, Gpu), ONE)))
  {
    available := Quantities(cpu, memory, gpu);
    match sharing {
      case Percentage(p) =>
        if p >= 0 && p < 100 {
          available := available.(cpu := CeilDiv(cpu, MILLI) * p / 100 * MILLI);
          available := available.(memory := CeilDiv(memory, ONE) * p / 100 * ONE);
          if available.gpu.Some? {
            available := available.(gpu := Some(CeilDiv(available.gpu.value, ONE) * p / 100 * ONE));
          }
        }
      case Fixed(fixedCpu, fixedMemory, fixedGpu) =>
        if fixedCpu != Empty {
          if fixedCpu.Parsed? && fixedCpu.value < available.cpu {
            available := available.(cpu := fixedCpu.value);
          }
        } else {
          available := available.(cpu := 0);
        }
        if fixedMemory != Empty {
          if fixedMemory.Parsed? && fixedMemory.value < available.memory {
            available := available.(memory := fixedMemory.value);
          }
        } else {
          available := available.(memory := 0);
        }
        if gpu.Some? {
          if fixedGpu != Empty {
            if fixedGpu.Parsed? && fixedGpu.value < available.gpu.value {
              available := available.(gpu := Some(fixedGpu.value));
            }
          } else {
            available := available.(gpu := Some(0));
          }
        }
      case All =>
    }
  }

  // ----- what is offered

  /** What is left of the totals: allocatable minus allocated minus held back, and nothing less than nothing. */
  function Left(m: Metrics, heldBack: Amount): Quantities {
    Quantities(
      Max(0, m.allocatable.cpu - m.allotted.cpu - heldBack.cpu),
      Max(0, m.allocatable.memory - m.allotted.memory - heldBack.memory),
      if m.allocatable.gpu.None? then None
      else Some(Max(0, m.allocatable.gpu.value - (if m.allotted.gpu.Some? then m.allotted.gpu.value else 0))))
  }

  /** Unless sharing is limited, exactly what is left is offered; a percentage outside 0 to 99 is no limit. */
  lemma EverythingIsShared(nodes: seq<Node>, pods: seq<Pod>, heldBack: Amount, sharing: Sharing)
    requires sharing.All? || (sharing.Percentage? && (sharing.percent < 0 || sharing.percent >= 100))
    ensures var m := Collected(nodes, pods, heldBack, sharing);
            m.available == Left(m, heldBack) && m.capacity == TotalCapacity(nodes)
  {
    hide TotalAllocatable, TotalNeed, TotalCapacity;
  }

  /** Of each kind of resource, about the percentage is offered. */
  lemma PercentageIsShared(nodes: seq<Node>, pods: seq<Pod>, heldBack: Amount, p: nat)
    requires p < 100
    ensures var m := Collected(nodes, pods, heldBack, Percentage(p));
            var left := Left(m, heldBack);
            && Near(m.available.cpu, left.cpu, p, MILLI) && Near(m.available.memory, left.memory, p, ONE)
            && (m.available.gpu.Some? <==> left.gpu.Some?)
            && (left.gpu.Some? ==> Near(m.available.gpu.value, left.gpu.value, p, ONE))
  {
    hide TotalAllocatable, TotalNeed, TotalCapacity, Shared, Near;
    var m := Collected(nodes, pods, heldBack, Percentage(p));
    var left := Left(m, heldBack);
    PercentageIsNear(left.cpu, p, Empty, MILLI);
    PercentageIsNear(left.memory, p, Empty, ONE);
    if left.gpu.Some? {
      PercentageIsNear(left.gpu.value, p, Empty, ONE);
    }
  }

  /** The smaller one of what is configured and what is left; without a configured amount nothing is offered. */
  function Configured(field: Field, left: int): int {
    match field
    case Empty => 0
    case Unparsable => left
    case Parsed(value) => if value < left then value else left
  }

  lemma FixedAmountsAreShared(nodes: seq<Node>, pods: seq<Pod>, heldBack: Amount, cpu: Field, memory: Field, gpu: Field)
    ensures var m := Collected(nodes, pods, heldBack, Fixed(cpu, memory, gpu));
            var left := Left(m, heldBack);
            && m.available.cpu == Configured(cpu, left.cpu) && m.available.memory == Configured(memory, left.memory)
            && m.available.gpu == if left.gpu.None? then None else Some(Configured(gpu, left.gpu.value))
  {
    hide TotalAllocatable, TotalNeed, TotalCapacity;
  }

  // ----- what the broker may rely on

  /** The advertisement that carries collected metrics. */
  function ToAdvert(m: Metrics): Advert {
    Advert(m.allocatable, m.allotted, m.available, None, "", [], 0, None)
  }

  /** Whatever the sharing mode, the offer is covered by what pods and enforced instructions leave free. */
  lemma CollectedIsBacked(nodes: seq<Node>, pods: seq<Pod>, reserved: Amount, sharing: Sharing)
    ensures Backed(ToAdvert(Collected(nodes, pods, reserved, sharing)), reserved)
  {
    hide TotalAllocatable, TotalNeed, TotalCapacity, Shared;
    var a, u := TotalAllocatable(nodes), TotalNeed(pods);
    SharingNeverOverstates(Free(a.cpu, u.cpu, reserved.cpu), sharing, FieldFor(sharing, Cpu), MILLI);
    SharingNeverOverstates(Free(a.memory, u.memory, reserved.memory), sharing, FieldFor(sharing, Memory), ONE);
  }
}
