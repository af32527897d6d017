/** How the broker filters, scores, sorts and truncates the clusters it suggests. */
module Ranking {
  import opened Quantities
  import opened Ledger

  datatype Location = Location(region: string, latitude: real, longitude: real, asName: string, isp: string)

  /** A stored ClusterAdvertisement, with what the ranking reads of it. */
  datatype Cluster = Cluster(id: string, namespace: string, spec: Advert, active: bool, location: Option<Location>)

  datatype Query = Query(requester: string, request: Quantities, priority: int, maxResults: int, policy: string)

  /** What a latency or carbon lookup yields for one cluster; flag is isActual or increase. */
  datatype Reading = Reading(score: real, flag: bool)

  /** A scored entry points at position `at` of the list; a score is None where floating point has no number for it. */
  datatype Scored = Scored(at: nat, score: Option<real>, isActual: bool, increase: bool)

  datatype RankError = NoClusters | RequesterNotLocated | NoneSuitable

  datatype Ranking = Ranked(best: seq<nat>) | Refused(error: RankError)

  // ----- filter

  predicate AsksGpu(request: Quantities) {
    request.gpu.Some? && request.gpu.value > 0
  }

  predicate HasEnoughResources(a: Advert, request: Quantities) {
    (AsksGpu(request) ==> a.available.gpu.Some? && a.available.gpu.value >= request.gpu.value)
    && a.available.cpu >= request.cpu && a.available.memory >= request.memory
  }

  predicate Eligible(c: Cluster, q: Query) {
    c.id != q.requester && c.active && HasEnoughResources(c.spec, q.request)
  }

  function EligibleBelow(list: seq<Cluster>, q: Query, n: nat): set<nat>
    requires n <= |list|
  {
    set i: nat | i < n && Eligible(list[i], q)
  }

  /** Eligible is an active cluster other than the requester, if serving the request leaves nothing negative. */
  lemma EligibleIffServable(c: Cluster, q: Query)
    ensures Eligible(c, q)
            <==> c.active && c.id != q.requester
                 && ZERO.AtMost(Lock(c.spec, q.request.Lockable()).available.Lockable())
                 && (q.request.gpu.Some? && q.request.gpu.value > 0 ==>
                       c.spec.available.gpu.Some? && c.spec.available.gpu.value - q.request.gpu.value >= 0)
  {
  }

  // ----- score

  /** 1 - utilization of one resource after the reservation, where it is a number. */
  function FreeShare(available: int, requested: int, allocatable: int): Option<real> {
    if allocatable == 0 then None
    else Some(1.0 - (1.0 - (available as real - requested as real) / allocatable as real))
  }

  /** The resource part of the score. */
  function ResourcePart(a: Advert, request: Quantities): Option<real> {
    var cpu := FreeShare(a.available.cpu, request.cpu, a.allocatable.cpu);
    var memory := FreeShare(a.available.memory, request.memory, a.allocatable.memory);
    if cpu.None? || memory.None? then None
    else if AsksGpu(request) && a.allocatable.gpu.Some? then
      if a.available.gpu.None? then None
      else if a.allocatable.gpu.value > 0 then
        Some(cpu.value * 0.33 + memory.value * 0.34
             + FreeShare(a.available.gpu.value, request.gpu.value, a.allocatable.gpu.value).value * 0.33)
      else Some(cpu.value * 0.5 + memory.value * 0.5)
    else Some(cpu.value * 0.5 + memory.value * 0.5)
  }

  /** The cost and renewable parts. */
  function CostPart(a: Advert): real {
    if a.cost.None? then 0.2
    else (1.0 - a.cost.value.energyCost) * 0.2 + if a.cost.value.renewable then 0.1 else 0.0
  }

  function CalculateScore(a: Advert, request: Quantities, priority: int): Option<real> {
    var part := ResourcePart(a, request);
    if part.None? then None else Some(part.value * 0.7 + CostPart(a) + priority as real * 0.01)
  }

  /** The score kept in a cluster's status. */
  function CalculateBaseScore(a: Advert): real {
    if a.allocatable.cpu == 0 || a.allocatable.memory == 0 then 0.0
    else
      (a.available.cpu as real / a.allocatable.cpu as real * 0.5
       + a.available.memory as real / a.allocatable.memory as real * 0.5) * 0.7 + CostPart(a)
  }

  /** Where it is not the zero default, the base score is the score of an empty request of priority 0. */
  lemma BaseScoreIsTheEmptyRequest(a: Advert)
    requires a.allocatable.cpu != 0 && a.allocatable.memory != 0
    ensures CalculateScore(a, Quantities(0, 0, None), 0) == Some(CalculateBaseScore(a))
  {
    assert FreeShare(a.available.cpu, 0, a.allocatable.cpu)
      == Some(a.available.cpu as real / a.allocatable.cpu as real);
    assert FreeShare(a.available.memory, 0, a.allocatable.memory)
        == Some(a.available.memory as real / a.allocatable.memory as real);
  }

  /** A cluster that survives the filter has a score exactly if it has CPU and memory to allocate. */
  lemma SurvivorsHaveAScore(a: Advert, request: Quantities, priority: int)
    requires HasEnoughResources(a, request)
    ensures CalculateScore(a, request, priority).Some? <==> a.allocatable.cpu != 0 && a.allocatable.memory != 0
  {
  }

  /** Nothing that is asked for is more available than allocatable. */
  predicate WithinAllocatable(a: Advert, request: Quantities) {
    a.available.Lockable().AtMost(a.allocatable.Lockable())
    && (AsksGpu(request) && a.available.gpu.Some? && a.allocatable.gpu.Some? ==>
          a.available.gpu.value <= a.allocatable.gpu.value)
  }

  lemma QuotientOrder(x: real, y: real, n: real)
    requires n > 0.0 && x <= y
    ensures x / n <= y / n
  {
    assert x / n * n == x && y / n * n == y;
  }

  lemma FreeShareBounds(available: int, requested: int, allocatable: int)
    requires 0 < requested <= available <= allocatable
    ensures FreeShare(available, requested, allocatable).Some?
    ensures 0.0 <= FreeShare(available, requested, allocatable).value < 1.0
  {
    var n := allocatable as real;
    QuotientOrder(0.0, available as real - requested as real, n);
    QuotientOrder(available as real - requested as real, n - 1.0, n);
    assert (n - 1.0) / n < 1.0;
  }

  /** For survivors within their allocatable amounts and a positive request, the resource part lies in [0, 1). */
  lemma ResourcePartIsAShare(a: Advert, request: Quantities)
    requires HasEnoughResources(a, request) && WithinAllocatable(a, request) && request.Lockable().Positive()
    ensures ResourcePart(a, request).Some? && 0.0 <= ResourcePart(a, request).value < 1.0
  {
    FreeShareBounds(a.available.cpu, request.cpu, a.allocatable.cpu);
    FreeShareBounds(a.available.memory, request.memory, a.allocatable.memory);
    if AsksGpu(request) && a.allocatable.gpu.Some? {
      FreeShareBounds(a.available.gpu.value, request.gpu.value, a.allocatable.gpu.value);
    }
  }

  predicate AtLeast(a: Quantities, b: Quantities) {
    a.cpu >= b.cpu && a.memory >= b.memory && (b.gpu.Some? ==> a.gpu.Some? && a.gpu.value >= b.gpu.value)
  }

  lemma FreeShareOrder(available: int, requested: int, available': int, requested': int, allocatable: int)
    requires allocatable > 0 && available >= available' && requested <= requested'
    ensures FreeShare(available, requested, allocatable).value >= FreeShare(available', requested', allocatable).value
  {
    QuotientOrder(available' as real - requested' as real, available as real - requested as real, allocatable as real);
  }

  /**
   More available and less requested never scores lower, as long as both requests ask for a GPU or neither does.
   */
  lemma ScoreOrder(a: Advert, b: Advert, request: Quantities, larger: Quantities, priority: int)
    requires a.allocatable == b.allocatable && a.cost == b.cost && AtLeast(a.available, b.available)
    requires a.allocatable.Lockable().Positive()
    requires AtLeast(larger, request) && (AsksGpu(larger) <==> AsksGpu(request))
    requires HasEnoughResources(b, larger)
    ensures CalculateScore(a, request, priority).Some? && CalculateScore(b, larger, priority).Some?
    ensures CalculateScore(a, request, priority).value >= CalculateScore(b, larger, priority).value
  {
    FreeShareOrder(a.available.cpu, request.cpu, b.available.cpu, larger.cpu, a.allocatable.cpu);
    FreeShareOrder(a.available.memory, request.memory, b.available.memory, larger.memory, a.allocatable.memory);
    if AsksGpu(request) && a.allocatable.gpu.Some? && a.allocatable.gpu.value > 0 {
      FreeShareOrder(a.available.gpu.value, request.gpu.value, b.available.gpu.value, larger.gpu.value,
                     a.allocatable.gpu.value);
    }
  }

  /** The same advertisement at another energy price. */
  function AtPrice(a: Advert, renewable: bool, price: real, currency: string): Advert {
    a.(cost := Some(CostInfo(renewable, price, currency)))
  }

  /** Of two advertisements alike but for the price of their energy, the cheaper one scores higher. */
  lemma CheaperScoresHigher(a: Advert, renewable: bool, low: real, high: real, currency: string, currency': string,
                            request: Quantities, priority: int)
    requires CalculateScore(a, request, priority).Some?
    ensures var x, y := CalculateScore(AtPrice(a, renewable, low, currency), request, priority),
                        CalculateScore(AtPrice(a, renewable, high, currency'), request, priority);
            x.Some? && y.Some? && (x.value > y.value <==> low < high)
  {
    hide FreeShare;
  }

  /** Renewable energy scores higher at the same price, and exactly as long as it is dearer by less than 0.5. */
  lemma RenewableIsWorthHalf(a: Advert, renewable: real, other: real, currency: string, currency': string,
                             request: Quantities, priority: int)
    requires CalculateScore(a, request, priority).Some?
    ensures var x, y := CalculateScore(AtPrice(a, true, renewable, currency), request, priority),
                        CalculateScore(AtPrice(a, false, other, currency'), request, priority);
            x.Some? && y.Some? && (x.value > y.value <==> renewable < other + 0.5)
  {
    hide FreeShare;
  }

  /** Without cost information a cluster scores as if its energy were free and not renewable. */
  lemma NoCostIsFree(a: Advert, currency: string, request: Quantities, priority: int)
    ensures CalculateScore(a.(cost := None), request, priority)
         == CalculateScore(AtPrice(a, false, 0.0, currency), request, priority)
  {
    hide FreeShare;
  }

  /** A full share of the resources makes up for energy that is dearer by 3.5. */
  lemma ShareAgainstPrice(a: Advert, b: Advert, renewable: bool, x: real, y: real, currency: string,
                          request: Quantities, priority: int)
    requires ResourcePart(a, request).Some? && ResourcePart(b, request).Some?
    ensures var s, t := CalculateScore(AtPrice(a, renewable, x, currency), request, priority),
                        CalculateScore(AtPrice(b, renewable, y, currency), request, priority);
            s.Some? && t.Some?
            && (s.value > t.value
                <==> 3.5 * (ResourcePart(a, request).value - ResourcePart(b, request).value) > x - y)
  {
    hide FreeShare;
  }

  /** The GPU share counts: a GPU is asked for and the cluster has some to allocate. */
  predicate WeighsGpu(a: Advert, request: Quantities) {
    AsksGpu(request) && a.allocatable.gpu.Some? && a.allocatable.gpu.value > 0 && a.available.gpu.Some?
  }

  /** The share of one resource that is free after the reservation. */
  lemma FreeShareIsFree(available: int, requested: int, allocatable: int)
    requires allocatable != 0
    ensures FreeShare(available, requested, allocatable).value * allocatable as real == (available - requested) as real
  {
  }

  /** If the same share of every resource stays free, the resource part is that share. */
  lemma UniformShare(a: Advert, request: Quantities, share: real)
    requires FreeShare(a.available.cpu, request.cpu, a.allocatable.cpu) == Some(share)
    requires FreeShare(a.available.memory, request.memory, a.allocatable.memory) == Some(share)
    requires WeighsGpu(a, request) ==>
               FreeShare(a.available.gpu.value, request.gpu.value, a.allocatable.gpu.value) == Some(share)
    requires AsksGpu(request) && a.allocatable.gpu.Some? ==> a.available.gpu.Some?
    ensures ResourcePart(a, request) == Some(share)
  {
    hide FreeShare;
  }

  /** Free CPU and free memory weigh the same; beside a GPU, free CPU weighs as much as free GPU. */
  lemma EqualWeights(a: Advert, b: Advert, request: Quantities)
    requires ResourcePart(a, request).Some? && ResourcePart(b, request).Some?
    requires WeighsGpu(a, request) <==> WeighsGpu(b, request)
    ensures var cpu := FreeShare(a.available.cpu, request.cpu, a.allocatable.cpu).value
                       - FreeShare(b.available.cpu, request.cpu, b.allocatable.cpu).value;
            var memory := FreeShare(a.available.memory, request.memory, a.allocatable.memory).value
                          - FreeShare(b.available.memory, request.memory, b.allocatable.memory).value;
            var better := ResourcePart(a, request).value > ResourcePart(b, request).value;
            if !WeighsGpu(a, request) then better <==> cpu + memory > 0.0
            else
              var gpu := FreeShare(a.available.gpu.value, request.gpu.value, a.allocatable.gpu.value).value
                         - FreeShare(b.available.gpu.value, request.gpu.value, b.allocatable.gpu.value).value;
              (memory == 0.0 ==> (better <==> cpu + gpu > 0.0))
              && (gpu == 0.0 ==> (better <==> 33.0 * cpu + 34.0 * memory > 0.0))
  {
    hide FreeShare;
  }

  /** An advertisement on which the weights favour a request that asks for a GPU. */
  function GpuRich(larger: Quantities): Advert
    requires AsksGpu(larger)
  {
    var gpu := 100 * larger.gpu.value;
    Advert(Quantities(8 * larger.cpu, 8 * larger.memory, Some(gpu)), Quantities(0, 0, None),
           Quantities(larger.cpu, larger.memory, Some(gpu)), None, "", [], 0, None)
  }

  lemma FreeShareAgainst(available: int, requested: int, allocatable: int, share: real)
    requires allocatable > 0
    ensures (available - requested) as real == share * allocatable as real ==>
              FreeShare(available, requested, allocatable) == Some(share)
    ensures (available - requested) as real < share * allocatable as real ==>
              FreeShare(available, requested, allocatable).value < share
  {
    var x, n := available as real - requested as real, allocatable as real;
    assert x / n * n == x && share * n / n == share;
    if x < share * n {
      QuotientOrder(x, share * n, n);
      assert x / n != share;
    }
  }

  /** Asking for a GPU on top can raise the score of any request, because it changes the weights. */
  lemma AskingForAGpuCanScoreHigher(request: Quantities, larger: Quantities, priority: int)
    requires AtLeast(larger, request) && request.Lockable().Positive() && AsksGpu(larger) && !AsksGpu(request)
    ensures var a := GpuRich(larger);
            && a.allocatable.Lockable().Positive() && HasEnoughResources(a, larger) && WithinAllocatable(a, larger)
            && CalculateScore(a, larger, priority).Some? && CalculateScore(a, request, priority).Some?
            && CalculateScore(a, larger, priority).value > CalculateScore(a, request, priority).value
  {
    var a, gpu := GpuRich(larger), larger.gpu.value;
    FreeShareAgainst(larger.cpu, larger.cpu, 8 * larger.cpu, 0.0);
    FreeShareAgainst(larger.memory, larger.memory, 8 * larger.memory, 0.0);
    FreeShareAgainst(100 * gpu, gpu, 100 * gpu, 0.99);
    FreeShareAgainst(larger.cpu, request.cpu, 8 * larger.cpu, 0.125);
    FreeShareAgainst(larger.memory, request.memory, 8 * larger.memory, 0.125);
    hide FreeShare;
    assert ResourcePart(a, larger).value == 0.99 * 0.33;
    assert ResourcePart(a, request).value < 0.125;
  }

  /** On every advertisement that has enough for it, the larger request scores no higher. */
  ghost predicate NeverScoresHigher(larger: Quantities, request: Quantities, priority: int) {
    forall a: Advert ::
      a.allocatable.Lockable().Positive() && HasEnoughResources(a, larger) && WithinAllocatable(a, larger) ==>
      && CalculateScore(a, larger, priority).Some? && CalculateScore(a, request, priority).Some?
      && CalculateScore(a, larger, priority).value <= CalculateScore(a, request, priority).value
  }

  /** A larger request scores no higher on any cluster exactly if both requests ask for a GPU or neither does. */
  lemma LargerScoresLowerIffGpuAgrees(request: Quantities, larger: Quantities, priority: int)
    requires AtLeast(larger, request) && request.Lockable().Positive()
    ensures NeverScoresHigher(larger, request, priority) <==> (AsksGpu(larger) <==> AsksGpu(request))
  {
    if AsksGpu(larger) <==> AsksGpu(request) {
      forall a: Advert | a.allocatable.Lockable().Positive() && HasEnoughResources(a, larger)
        && WithinAllocatable(a, larger)
        ensures CalculateScore(a, larger, priority).Some? && CalculateScore(a, request, priority).Some?
        ensures CalculateScore(a, larger, priority).value <= CalculateScore(a, request, priority).value
      {
        ScoreOrder(a, a, request, larger, priority);
      }
    } else {
      AskingForAGpuCanScoreHigher(request, larger, priority);
      assert !NeverScoresHigher(larger, request, priority);
    }
  }

  // ----- order

  datatype Direction = LowerFirst | HigherFirst

  predicate NotAfter(x: Scored, y: Scored, d: Direction) {
    x.score.Some? && y.score.Some? ==>
      if d.LowerFirst? then x.score.value <= y.score.value else x.score.value >= y.score.value
  }

  ghost predicate InOrder(s: seq<Scored>, d: Direction) {
    forall i, j :: 0 <= i < j < |s| ==> NotAfter(s[i], s[j], d)
  }

  ghost predicate AllDefined(s: seq<Scored>) {
    forall x <- s :: x.score.Some?
  }

  /** The order of the latency policy: a lowest never-connected entry first, everything else ascending. */
  ghost predicate NewestFirst(s: seq<Scored>) {
    if exists x <- s :: !x.isActual then
      !s[0].isActual && (forall x <- s :: !x.isActual ==> NotAfter(s[0], x, LowerFirst)) && InOrder(s[1..], LowerFirst)
    else InOrder(s, LowerFirst)
  }

  /** Positions of the list, in the order of the entries. */
  function Positions(s: seq<Scored>): (r: seq<nat>)
    ensures |r| == |s| && forall k :: 0 <= k < |s| ==> r[k] == s[k].at
  {
    seq(|s|, k requires 0 <= k < |s| => s[k].at)
  }

  function Limit(maxResults: int, n: nat): nat {
    Min(Max(0, maxResults), n)
  }

  function Key(x: Scored, d: Direction): real {
    if x.score.None? then 0.0 else if d.LowerFirst? then x.score.value else 0.0 - x.score.value
  }

  predicate Sorted(s: seq<Scored>, d: Direction) {
    forall i, j :: 0 <= i < j < |s| ==> Key(s[i], d) <= Key(s[j], d)
  }

  function Insert(x: Scored, s: seq<Scored>, d: Direction): (r: seq<Scored>)
    ensures multiset(r) == multiset(s) + multiset{x} && |r| == |s| + 1
    ensures forall k :: 0 <= k < |r| ==> r[k] == x || r[k] in s
  {
    if |s| == 0 then [x]
    else if Key(x, d) <= Key(s[0], d) then [x] + s
    else
      assert s == [s[0]] + s[1..];
      [s[0]] + Insert(x, s[1..], d)
  }

  lemma {:induction false} InsertKeepsOrder(x: Scored, s: seq<Scored>, d: Direction)
    requires Sorted(s, d)
    ensures Sorted(Insert(x, s, d), d)
  {
    if |s| != 0 && Key(x, d) > Key(s[0], d) {
      InsertKeepsOrder(x, s[1..], d);
      var t := Insert(x, s[1..], d);
      forall k | 0 <= k < |t|
        ensures Key(s[0], d) <= Key(t[k], d)
      {
        assert t[k] == x || t[k] in s[1..];
      }
      assert Insert(x, s, d) == [s[0]] + t;
    }
  }

  function Sort(s: seq<Scored>, d: Direction): (r: seq<Scored>)
    ensures multiset(r) == multiset(s) && |r| == |s|
  {
    if |s| == 0 then []
    else
      assert s == [s[0]] + s[1..];
      Insert(s[0], Sort(s[1..], d), d)
  }

  lemma {:induction false} SortSorts(s: seq<Scored>, d: Direction)
    ensures Sorted(Sort(s, d), d)
  {
    if |s| != 0 {
      SortSorts(s[1..], d);
      InsertKeepsOrder(s[0], Sort(s[1..], d), d);
    }
  }

  /** The library sort: some permutation, in order whenever every score is a number. */
  method SortSlice(a: array<Scored>, d: Direction)
    modifies a
    ensures multiset(a[..]) == multiset(old(a[..]))
    ensures AllDefined(old(a[..])) ==> InOrder(a[..], d)
  {
    ghost var was := a[..];
    var sorted := Sort(a[..], d);
    forall k | 0 <= k < a.Length {
      a[k] := sorted[k];
    }
    assert a[..] == sorted;
    if AllDefined(was) {
      SameMembers(was, sorted);
      SortSorts(was, d);
      assert forall i, j :: 0 <= i < j < |sorted| ==> Key(sorted[i], d) <= Key(sorted[j], d);
    }
  }

  lemma SameMembers(s: seq<Scored>, t: seq<Scored>)
    requires multiset(s) == multiset(t)
    ensures |s| == |t| && forall x :: x in s <==> x in t
  {
    assert |multiset(s)| == |s| && |multiset(t)| == |t|;
    forall x
      ensures x in s <==> x in t
    {
      assert x in s <==> x in multiset(s);
      assert x in t <==> x in multiset(t);
    }
  }

  /** The first entries of a ranking, as the three ranking functions collect them. */
  method Collect(a: array<Scored>, maxResults: int) returns (best: seq<nat>)
    ensures best == Positions(a[..Limit(maxResults, a.Length)])
  {
    best := [];
    for i := 0 to a.Length
      invariant best == Positions(a[..i]) && i <= Max(0, maxResults)
    {
      if i >= maxResults {
        break;
      }
      best := best + [a[i].at];
    }
  }

  method RankStandard(a: array<Scored>, maxResults: int) returns (best: seq<nat>)
    modifies a
    ensures multiset(a[..]) == multiset(old(a[..]))
    ensures AllDefined(old(a[..])) ==> InOrder(a[..], HigherFirst)
    ensures best == Positions(a[..Limit(maxResults, a.Length)])
  {
    SortSlice(a, HigherFirst);
    best := Collect(a, maxResults);
  }

  method RankEco(a: array<Scored>, maxResults: int) returns (best: seq<nat>)
    modifies a
    ensures multiset(a[..]) == multiset(old(a[..]))
    ensures AllDefined(old(a[..])) ==> InOrder(a[..], LowerFirst)
    ensures best == Positions(a[..Limit(maxResults, a.Length)])
  {
    SortSlice(a, LowerFirst);
    best := Collect(a, maxResults);
  }

  method RankLatency(a: array<Scored>, maxResults: int) returns (best: seq<nat>)
    modifies a
    ensures multiset(a[..]) == multiset(old(a[..]))
    ensures (exists x <- a[..] :: !x.isActual) ==> !a[0].isActual
    ensures AllDefined(old(a[..])) ==> NewestFirst(a[..])
    ensures best == Positions(a[..Limit(maxResults, a.Length)])
  {
    SortSlice(a, LowerFirst);
    ghost var sorted := a[..];
    for i := 0 to a.Length
      invariant a[..] == sorted
      invariant forall k :: 0 <= k < i ==> sorted[k].isActual
    {
      if !a[i].isActual {
        var promoted := a[i];
        forall k | 1 <= k < i + 1 {
          a[k] := a[k - 1];
        }
        a[0] := promoted;
        assert a[..] == Promoted(sorted, i);
        hide Promoted, NewestFirst, AllDefined;
        Promote(sorted, i);
        break;
      }
    }
    best := Collect(a, maxResults);
  }

  ghost function Promoted(s: seq<Scored>, i: nat): seq<Scored>
    requires i < |s|
  {
    [s[i]] + (s[..i] + s[i + 1..])
  }

  lemma Promote(s: seq<Scored>, i: nat)
    requires i < |s| && !s[i].isActual && forall k :: 0 <= k < i ==> s[k].isActual
    ensures multiset(Promoted(s, i)) == multiset(s)
    ensures InOrder(s, LowerFirst) ==> NewestFirst(Promoted(s, i))
  {
    assert s == s[..i] + [s[i]] + s[i + 1..];
    if InOrder(s, LowerFirst) {
      PromotedOrder(s, i);
    }
  }

  lemma PromotedOrder(s: seq<Scored>, i: nat)
    requires i < |s| && !s[i].isActual && InOrder(s, LowerFirst) && forall k :: 0 <= k < i ==> s[k].isActual
    ensures NewestFirst(Promoted(s, i))
  {
    var t, rest := Promoted(s, i), s[..i] + s[i + 1..];
    assert t[0] == s[i] && t[0] in t && t[1..] == rest;
    RestInOrder(s, i);
    forall x <- t | !x.isActual
      ensures NotAfter(s[i], x, LowerFirst)
    {
      var k :| 0 <= k < |t| && t[k] == x;
      if k > 0 {
        assert x == rest[k - 1];
      }
    }
    hide NotAfter, InOrder;
  }

  lemma RestInOrder(s: seq<Scored>, i: nat)
    requires i < |s| && InOrder(s, LowerFirst)
    ensures InOrder(s[..i] + s[i + 1..], LowerFirst)
    ensures var rest := s[..i] + s[i + 1..];
            forall k :: i <= k < |rest| ==> NotAfter(s[i], rest[k], LowerFirst)
    ensures NotAfter(s[i], s[i], LowerFirst)
  {
    var rest := s[..i] + s[i + 1..];
    assert forall k :: 0 <= k < |rest| ==> rest[k] == s[if k < i then k else k + 1];
  }

  // ----- the whole query

  /** The entry of position i: which score it gets depends on the policy. */
  function Scoring(list: seq<Cluster>, q: Query, readings: seq<Reading>, i: nat): Scored
    requires i < |list| == |readings|
  {
    if q.policy == "latency" && list[i].location.Some? then Scored(i, Some(readings[i].score), readings[i].flag, false)
    else if q.policy == "eco" then Scored(i, Some(readings[i].score), false, readings[i].flag)
    else Scored(i, CalculateScore(list[i].spec, q.request, q.priority), false, false)
  }

  function Scorings(list: seq<Cluster>, q: Query, readings: seq<Reading>): (all: seq<Scored>)
    requires |list| == |readings|
    ensures |all| == |list| && forall i :: 0 <= i < |all| ==> all[i] == Scoring(list, q, readings, i)
  {
    seq(|list|, i requires 0 <= i < |list| => Scoring(list, q, readings, i))
  }

  /** The latency policy needs the location of the first advertisement under the requester's name. */
  predicate RequesterLocated(list: seq<Cluster>, requester: string) {
    exists i :: 0 <= i < |list| && list[i].id == requester && list[i].location.Some?
                && forall j :: 0 <= j < i ==> list[j].id != requester
  }

  /** Distinct members of `from`, as many as asked for and there are. */
  ghost predicate Selection(best: seq<nat>, from: set<nat>, n: int) {
    (forall i, j :: 0 <= i < j < |best| ==> best[i] != best[j])
    && (forall k :: 0 <= k < |best| ==> best[k] in from)
    && |best| == Limit(n, |from|)
  }

  /** In order, and nothing left out should have come before something returned. */
  ghost predicate BestOf(best: seq<nat>, from: set<nat>, all: seq<Scored>, d: Direction)
    requires (forall k :: 0 <= k < |best| ==> best[k] < |all|) && (forall i <- from :: i < |all|)
  {
    (forall k, l :: 0 <= k < l < |best| ==> NotAfter(all[best[k]], all[best[l]], d))
    && (forall i, j :: i in best && j in from && j !in best ==> NotAfter(all[i], all[j], d))
  }

  /** The latency order: a lowest never-connected cluster first if there is one, the best of the others after it. */
  ghost predicate NewestThenBest(best: seq<nat>, from: set<nat>, all: seq<Scored>)
    requires (forall k :: 0 <= k < |best| ==> best[k] < |all|) && (forall i <- from :: i < |all|)
  {
    if exists i <- from :: !all[i].isActual then
      best != [] ==>
        && !all[best[0]].isActual
        && (forall i <- from :: !all[i].isActual ==> NotAfter(all[best[0]], all[i], LowerFirst))
        && BestOf(best[1..], from - {best[0]}, all, LowerFirst)
    else BestOf(best, from, all, LowerFirst)
  }

  /** How many are returned: all of them, if there are at most so many, and none of a limit that is not positive. */
  lemma SelectionSize(best: seq<nat>, from: set<nat>, n: int)
    requires Selection(best, from, n)
    ensures n >= |from| ==> |best| == |from| && forall i <- from :: i in best
    ensures 0 <= n < |from| ==> |best| == n
    ensures n <= 0 ==> best == []
  {
    if n >= |from| {
      var chosen := set k | 0 <= k < |best| :: best[k];
      DistinctCount(best);
      assert chosen <= from;
      EqualCount(chosen, from);
    }
  }

  lemma {:induction false} DistinctCount(best: seq<nat>)
    requires forall i, j :: 0 <= i < j < |best| ==> best[i] != best[j]
    ensures |set k | 0 <= k < |best| :: best[k]| == |best|
  {
    if best != [] {
      var n := |best| - 1;
      DistinctCount(best[..n]);
      assert (set k | 0 <= k < |best| :: best[k]) == (set k | 0 <= k < n :: best[..n][k]) + {best[n]};
    }
  }

  lemma EqualCount(a: set<nat>, b: set<nat>)
    requires a <= b && |a| == |b|
    ensures a == b
  {
    assert |b - a| == |b| - |a|;
  }

  /** s holds exactly the entries of the positions in `from`, each once. */
  ghost predicate Enumerates(s: seq<Scored>, from: set<nat>, all: seq<Scored>) {
    (forall x <- s :: x.at in from && x.at < |all| && all[x.at] == x)
    && (forall i <- from :: i < |all| && all[i].at == i && all[i] in s)
    && (forall k, l :: 0 <= k < l < |s| ==> s[k].at != s[l].at)
    && |s| == |from|
  }

  lemma PermutationEnumerates(s: seq<Scored>, t: seq<Scored>, from: set<nat>, all: seq<Scored>)
    requires Enumerates(s, from, all) && multiset(s) == multiset(t)
    ensures Enumerates(t, from, all)
  {
    SameMembers(s, t);
    forall k, l | 0 <= k < l < |t|
      ensures t[k].at != t[l].at
    {
      if t[k].at == t[l].at {
        assert t[k] in s && t[l] in s;
        assert t[k] == t[l];
        TwiceInTwice(t, k, l);
        var m :| 0 <= m < |s| && s[m] == t[k];
        OnceIfDistinct(s, m);
        assert false;
      }
    }
  }

  lemma OnceIfDistinct(s: seq<Scored>, m: nat)
    requires m < |s| && forall k, l :: 0 <= k < l < |s| ==> s[k].at != s[l].at
    ensures multiset(s)[s[m]] == 1
  {
    assert s == s[..m] + [s[m]] + s[m + 1..];
    assert s[m] !in s[..m] && s[m] !in s[m + 1..];
  }

  lemma TwiceInTwice(t: seq<Scored>, k: nat, l: nat)
    requires k < l < |t| && t[k] == t[l]
    ensures multiset(t)[t[k]] >= 2
  {
    assert t == t[..k] + [t[k]] + t[k + 1..l] + [t[l]] + t[l + 1..];
  }

  lemma PrefixIsBest(t: seq<Scored>, from: set<nat>, all: seq<Scored>, n: int, d: Direction)
    requires Enumerates(t, from, all)
    ensures Selection(Positions(t[..Limit(n, |t|)]), from, n)
    ensures InOrder(t, d) ==> BestOf(Positions(t[..Limit(n, |t|)]), from, all, d)
  {
    var m := Limit(n, |t|);
    var best := Positions(t[..m]);
    assert forall k :: 0 <= k < m ==> best[k] == t[k].at && t[k] in t && t[k].at in best;
    if InOrder(t, d) {
      forall i, j | i in best && j in from && j !in best
        ensures NotAfter(all[i], all[j], d)
      {
        var k :| 0 <= k < m && best[k] == i;
        var l :| 0 <= l < |t| && t[l] == all[j];
      }
    }
  }

  lemma TailEnumerates(t: seq<Scored>, from: set<nat>, all: seq<Scored>)
    requires Enumerates(t, from, all) && t != []
    ensures Enumerates(t[1..], from - {t[0].at}, all)
  {
    var rest := t[1..];
    assert t[0] in t;
    forall i <- from - {t[0].at}
      ensures all[i] in rest
    {
      var k :| 0 <= k < |t| && t[k] == all[i];
      assert rest[k - 1] == all[i];
    }
  }

  lemma NewestPrefix(t: seq<Scored>, from: set<nat>, all: seq<Scored>, n: int)
    requires Enumerates(t, from, all) && NewestFirst(t)
    ensures Selection(Positions(t[..Limit(n, |t|)]), from, n)
    ensures NewestThenBest(Positions(t[..Limit(n, |t|)]), from, all)
  {
    PrefixIsBest(t, from, all, n, LowerFirst);
    var best := Positions(t[..Limit(n, |t|)]);
    if exists x <- t :: !x.isActual {
      HeadIsNewest(t, from, all);
      if best != [] {
        TailIsBest(t, from, all, n);
      }
    } else {
      NoneIsNew(t, from, all);
    }
  }

  lemma NoneIsNew(t: seq<Scored>, from: set<nat>, all: seq<Scored>)
    requires Enumerates(t, from, all) && forall x <- t :: x.isActual
    ensures forall i <- from :: all[i].isActual
  {
  }

  /** What follows the head is the best of the rest. */
  lemma TailIsBest(t: seq<Scored>, from: set<nat>, all: seq<Scored>, n: int)
    requires Enumerates(t, from, all) && t != [] && n > 0 && InOrder(t[1..], LowerFirst)
    ensures var best := Positions(t[..Limit(n, |t|)]);
            best[0] == t[0].at && BestOf(best[1..], from - {t[0].at}, all, LowerFirst)
  {
    var rest, best := t[1..], Positions(t[..Limit(n, |t|)]);
    TailEnumerates(t, from, all);
    hide Enumerates, BestOf, InOrder, Selection;
    PositionsOfTail(t, n);
    hide Limit, Positions;
    PrefixIsBest(rest, from - {t[0].at}, all, n - 1, LowerFirst);
  }

  lemma PositionsOfTail(t: seq<Scored>, n: int)
    requires t != [] && n > 0
    ensures Limit(n, |t|) > 0
    ensures var best := Positions(t[..Limit(n, |t|)]);
            best[0] == t[0].at && best[1..] == Positions(t[1..][..Limit(n - 1, |t| - 1)])
  {
  }

  lemma HeadIsNewest(t: seq<Scored>, from: set<nat>, all: seq<Scored>)
    requires Enumerates(t, from, all) && NewestFirst(t) && exists x <- t :: !x.isActual
    ensures t != [] && t[0].at in from && all[t[0].at] == t[0] && !t[0].isActual && InOrder(t[1..], LowerFirst)
    ensures forall i <- from :: !all[i].isActual ==> NotAfter(t[0], all[i], LowerFirst)
  {
    assert t[0] in t;
  }

  /**
   What a query answers: an error in exactly three situations, and otherwise the best eligible clusters. Positions point
   into the list that the broker read, with refreshed costs; readings are what the lookups of the latency and eco
   policies yield.
   */
  method RankClusters(list: seq<Cluster>, q: Query, readings: seq<Reading>) returns (r: Ranking)
    requires |list| == |readings|
    ensures r == Refused(NoClusters) <==> list == []
    ensures r == Refused(RequesterNotLocated)
            <==> list != [] && q.policy == "latency" && !RequesterLocated(list, q.requester)
    ensures r == Refused(NoneSuitable)
            <==> list != [] && (q.policy == "latency" ==> RequesterLocated(list, q.requester))
                 && forall i :: 0 <= i < |list| ==> !Eligible(list[i], q)
    ensures r.Ranked? ==> Selection(r.best, EligibleBelow(list, q, |list|), q.maxResults)
    ensures r.Ranked? && (forall i <- EligibleBelow(list, q, |list|) :: Scoring(list, q, readings, i).score.Some?) ==>
              if q.policy == "latency" then
                NewestThenBest(r.best, EligibleBelow(list, q, |list|), Scorings(list, q, readings))
              else
                BestOf(r.best, EligibleBelow(list, q, |list|), Scorings(list, q, readings),
                       if q.policy == "eco" then LowerFirst else HigherFirst)
  {
    if |list| == 0 {
      return Refused(NoClusters);
    }
    if q.policy == "latency" {
      var located := FindRequester(list, q.requester);
      if !located {
        return Refused(RequesterNotLocated);
      }
    }
    var scored := ScoreAll(list, q, readings);
    if |scored| == 0 {
      assert EligibleBelow(list, q, |list|) == {};
      assert forall i :: 0 <= i < |list| && Eligible(list[i], q) ==> i in EligibleBelow(list, q, |list|);
      return Refused(NoneSuitable);
    }
    assert exists i :: 0 <= i < |list| && Eligible(list[i], q) by {
      assert scored[0] in scored;
    }
    ghost var from, all := EligibleBelow(list, q, |list|), Scorings(list, q, readings);
    EntriesAreDefined(list, q, readings, scored);
    hide Enumerates, EligibleBelow, Scorings, Scoring, Eligible, RequesterLocated;
    var best := RankEntries(scored, q, from, all);
    r := Ranked(best);
  }

  lemma EntriesAreDefined(list: seq<Cluster>, q: Query, readings: seq<Reading>, scored: seq<Scored>)
    requires |list| == |readings|
    requires Enumerates(scored, EligibleBelow(list, q, |list|), Scorings(list, q, readings))
    ensures (forall i <- EligibleBelow(list, q, |list|) :: Scoring(list, q, readings, i).score.Some?) ==>
            AllDefined(scored)
    ensures forall i <- EligibleBelow(list, q, |list|) :: i < |Scorings(list, q, readings)|
  {
    hide CalculateScore, Eligible;
  }

  /** The ranking function of the policy, on the entries that the filter let through. */
  method RankEntries(scored: seq<Scored>, q: Query, ghost from: set<nat>, ghost all: seq<Scored>)
    returns (best: seq<nat>)
    requires Enumerates(scored, from, all)
    ensures Selection(best, from, q.maxResults)
    ensures forall i <- from :: i < |all|
    ensures AllDefined(scored) ==>
              if q.policy == "latency" then NewestThenBest(best, from, all)
              else BestOf(best, from, all, if q.policy == "eco" then LowerFirst else HigherFirst)
  {
    hide Selection, BestOf, NewestThenBest, NewestFirst, InOrder, AllDefined;
    var a := new Scored[|scored|](i requires 0 <= i < |scored| => scored[i]);
    assert a[..] == scored;
    match q.policy {
      case "latency" => best := RankLatency(a, q.maxResults);
      case "eco" => best := RankEco(a, q.maxResults);
      case _ => best := RankStandard(a, q.maxResults);
    }
    PermutationEnumerates(scored, a[..], from, all);
    PrefixIsBest(a[..], from, all, q.maxResults, if q.policy == "eco" then LowerFirst else HigherFirst);
    if q.policy == "latency" && NewestFirst(a[..]) {
      NewestPrefix(a[..], from, all, q.maxResults);
    }
    hide Enumerates;
  }

  method FindRequester(list: seq<Cluster>, requester: string) returns (located: bool)
    ensures located <==> RequesterLocated(list, requester)
  {
    for i := 0 to |list|
      invariant forall j :: 0 <= j < i ==> list[j].id != requester
    {
      if list[i].id == requester {
        return list[i].location.Some?;
      }
    }
    return false;
  }

  lemma EnumeratesOneMore(s: seq<Scored>, list: seq<Cluster>, q: Query, i: nat, all: seq<Scored>)
    requires i < |list| == |all| && all[i].at == i && Enumerates(s, EligibleBelow(list, q, i), all)
    ensures if Eligible(list[i], q) then Enumerates(s + [all[i]], EligibleBelow(list, q, i + 1), all)
            else Enumerates(s, EligibleBelow(list, q, i + 1), all)
  {
    if Eligible(list[i], q) {
      assert EligibleBelow(list, q, i + 1) == EligibleBelow(list, q, i) + {i};
    } else {
      assert EligibleBelow(list, q, i + 1) == EligibleBelow(list, q, i);
    }
  }

  /** The filtering and scoring loop. */
  method ScoreAll(list: seq<Cluster>, q: Query, readings: seq<Reading>) returns (scored: seq<Scored>)
    requires |list| == |readings|
    ensures Enumerates(scored, EligibleBelow(list, q, |list|), Scorings(list, q, readings))
  {
    hide Enumerates, CalculateScore, HasEnoughResources;
    scored := [];
    ghost var all := Scorings(list, q, readings);
    NoneYet(list, q, all);
    for i := 0 to |list|
      invariant Enumerates(scored, EligibleBelow(list, q, i), all)
    {
      EnumeratesOneMore(scored, list, q, i, all);
      if list[i].id == q.requester {
        continue;
      }
      if !list[i].active {
        continue;
      }
      if !HasEnoughResources(list[i].spec, q.request) {
        continue;
      }
      if q.policy == "latency" && list[i].location.Some? {
        scored := scored + [Scored(i, Some(readings[i].score), readings[i].flag, false)];
      } else if q.policy == "eco" {
        scored := scored + [Scored(i, Some(readings[i].score), false, readings[i].flag)];
      } else {
        scored := scored + [Scored(i, CalculateScore(list[i].spec, q.request, q.priority), false, false)];
      }
    }
  }

  lemma NoneYet(list: seq<Cluster>, q: Query, all: seq<Scored>)
    ensures Enumerates([], EligibleBelow(list, q, 0), all)
  {
    assert EligibleBelow(list, q, 0) == {};
  }

  // ----- what the order means for two clusters

  /** An entry that belongs strictly before another one is returned, and earlier, whenever the other one is. */
  lemma BetterComesFirst(best: seq<nat>, from: set<nat>, all: seq<Scored>, d: Direction, i: nat, j: nat, k: nat)
    requires (forall k :: 0 <= k < |best| ==> best[k] < |all|) && (forall i <- from :: i < |all|)
    requires BestOf(best, from, all, d) && i in from && j < |all| && !NotAfter(all[j], all[i], d)
    requires k < |best| && best[k] == j
    ensures exists l :: 0 <= l < k && best[l] == i
  {
    assert j in best && i in best;
    var l :| 0 <= l < |best| && best[l] == i;
    assert !(k < l);
  }

  /** Under the default policy the cluster with the higher score comes first. */
  lemma HigherScoreComesFirst(list: seq<Cluster>, q: Query, readings: seq<Reading>, best: seq<nat>,
                              i: nat, j: nat, k: nat)
    requires |list| == |readings| && q.policy != "latency" && q.policy != "eco"
    requires Selection(best, EligibleBelow(list, q, |list|), q.maxResults)
    requires BestOf(best, EligibleBelow(list, q, |list|), Scorings(list, q, readings), HigherFirst)
    requires i < |list| && j < |list| && Eligible(list[i], q) && k < |best| && best[k] == j
    requires var x, y := CalculateScore(list[i].spec, q.request, q.priority),
                         CalculateScore(list[j].spec, q.request, q.priority);
             x.Some? && y.Some? && x.value > y.value
    ensures exists l :: 0 <= l < k && best[l] == i
  {
    hide CalculateScore, Eligible;
    BetterComesFirst(best, EligibleBelow(list, q, |list|), Scorings(list, q, readings), HigherFirst, i, j, k);
  }

  /**
   Of two eligible clusters that are alike but for the price of their energy, the dearer one is never returned before or
   instead of the cheaper one.
   */
  lemma CheaperComesFirst(list: seq<Cluster>, q: Query, readings: seq<Reading>, best: seq<nat>, i: nat, j: nat, k: nat,
                          a: Advert, renewable: bool, low: real, high: real, currency: string, currency': string)
    requires |list| == |readings| && q.policy != "latency" && q.policy != "eco"
    requires Selection(best, EligibleBelow(list, q, |list|), q.maxResults)
    requires BestOf(best, EligibleBelow(list, q, |list|), Scorings(list, q, readings), HigherFirst)
    requires i < |list| && j < |list| && Eligible(list[i], q) && k < |best| && best[k] == j
    requires list[i].spec == AtPrice(a, renewable, low, currency)
    requires list[j].spec == AtPrice(a, renewable, high, currency')
    requires low < high && CalculateScore(a, q.request, q.priority).Some?
    ensures exists l :: 0 <= l < k && best[l] == i
  {
    CheaperScoresHigher(a, renewable, low, high, currency, currency', q.request, q.priority);
    hide CalculateScore, Eligible, AtPrice, BestOf;
    HigherScoreComesFirst(list, q, readings, best, i, j, k);
  }

  /** Under the eco policy the cluster with the lower carbon score comes first. */
  lemma CleanerComesFirst(list: seq<Cluster>, q: Query, readings: seq<Reading>, best: seq<nat>, i: nat, j: nat, k: nat)
    requires |list| == |readings| && q.policy == "eco"
    requires Selection(best, EligibleBelow(list, q, |list|), q.maxResults)
    requires BestOf(best, EligibleBelow(list, q, |list|), Scorings(list, q, readings), LowerFirst)
    requires i < |list| && j < |list| && Eligible(list[i], q) && k < |best| && best[k] == j
    requires readings[i].score < readings[j].score
    ensures exists l :: 0 <= l < k && best[l] == i
  {
    hide Eligible;
    BetterComesFirst(best, EligibleBelow(list, q, |list|), Scorings(list, q, readings), LowerFirst, i, j, k);
  }

  /** Under the latency policy the faster one of two located clusters comes first, but for the one that is promoted. */
  lemma FasterComesFirst(list: seq<Cluster>, q: Query, readings: seq<Reading>, best: seq<nat>, i: nat, j: nat, k: nat)
    requires |list| == |readings| && q.policy == "latency"
    requires Selection(best, EligibleBelow(list, q, |list|), q.maxResults)
    requires NewestThenBest(best, EligibleBelow(list, q, |list|), Scorings(list, q, readings))
    requires i < |list| && j < |list| && Eligible(list[i], q) && 0 < k < |best| && best[k] == j
    requires list[i].location.Some? && list[j].location.Some? && readings[i].score < readings[j].score
    ensures exists l :: 0 <= l < k && best[l] == i
  {
    hide Eligible;
    var from, all := EligibleBelow(list, q, |list|), Scorings(list, q, readings);
    assert i in from;
    if exists i <- from :: !all[i].isActual {
      if best[0] != i {
        BetterComesFirst(best[1..], from - {best[0]}, all, LowerFirst, i, j, k - 1);
        var l :| 0 <= l < k - 1 && best[1..][l] == i;
        assert best[l + 1] == i;
      }
    } else {
      BetterComesFirst(best, from, all, LowerFirst, i, j, k);
    }
  }

  /** And the promoted one is a never-connected cluster if there is one, and no slower than any other of them. */
  lemma NewestComesFirst(list: seq<Cluster>, q: Query, readings: seq<Reading>, best: seq<nat>, i: nat)
    requires |list| == |readings| && q.policy == "latency"
    requires Selection(best, EligibleBelow(list, q, |list|), q.maxResults) && best != []
    requires NewestThenBest(best, EligibleBelow(list, q, |list|), Scorings(list, q, readings))
    requires i < |list| && Eligible(list[i], q) && list[i].location.Some? && !readings[i].flag
    ensures list[best[0]].location.Some? ==> !readings[best[0]].flag && readings[best[0]].score <= readings[i].score
  {
    hide Eligible;
    assert i in EligibleBelow(list, q, |list|);
  }

  /** The priority never decides between two clusters. */
  lemma PriorityIsNeutral(a: Advert, b: Advert, request: Quantities, p: int, q: int)
    ensures CalculateScore(a, request, p).Some? <==> CalculateScore(a, request, q).Some?
    ensures CalculateScore(a, request, p).Some? && CalculateScore(b, request, p).Some? ==>
              (CalculateScore(a, request, p).value >= CalculateScore(b, request, p).value
               <==> CalculateScore(a, request, q).value >= CalculateScore(b, request, q).value)
  {
    hide ResourcePart, CostPart;
  }

  /** The latency policy compares latencies of located clusters with scores of eligible ones without a location. */
  ghost predicate Mixed(list: seq<Cluster>, q: Query) {
    && q.policy == "latency"
    && (exists i: nat :: i < |list| && Eligible(list[i], q) && list[i].location.Some?)
    && exists j: nat :: j < |list| && Eligible(list[j], q) && list[j].location.None?
                   && CalculateScore(list[j].spec, q.request, q.priority).Some?
  }

  /** Two eligible clusters are ordered alike for both priorities. */
  ghost predicate SameOrder(list: seq<Cluster>, q: Query, readings: seq<Reading>, p: int)
    requires |list| == |readings|
  {
    forall i: nat, j: nat, d :: i < |list| && j < |list| && Eligible(list[i], q) && Eligible(list[j], q) ==>
      (NotAfter(Scoring(list, q, readings, i), Scoring(list, q, readings, j), d) <==>
       NotAfter(Scoring(list, q.(priority := p), readings, i), Scoring(list, q.(priority := p), readings, j), d))
  }

  /** Whatever the clusters' readings, no priority changes an order. */
  ghost predicate IgnoresPriority(list: seq<Cluster>, q: Query) {
    forall readings: seq<Reading>, p: int {:trigger SameOrder(list, q, readings, p)} ::
      |readings| == |list| ==> SameOrder(list, q, readings, p)
  }

  lemma PriorityKeepsOrder(list: seq<Cluster>, q: Query, readings: seq<Reading>, p: int)
    requires |list| == |readings| && !Mixed(list, q)
    ensures SameOrder(list, q, readings, p)
  {
    hide CalculateScore;
    forall i: nat, j: nat, d | i < |list| && j < |list| && Eligible(list[i], q) && Eligible(list[j], q)
      ensures NotAfter(Scoring(list, q, readings, i), Scoring(list, q, readings, j), d) <==>
              NotAfter(Scoring(list, q.(priority := p), readings, i), Scoring(list, q.(priority := p), readings, j), d)
    {
      PriorityIsNeutral(list[i].spec, list[j].spec, q.request, q.priority, p);
      PriorityIsNeutral(list[j].spec, list[i].spec, q.request, q.priority, p);
    }
  }

  /** In a mixed list, a priority that lifts the score above some latency changes the order. */
  lemma PriorityDecides(list: seq<Cluster>, q: Query)
    requires Mixed(list, q)
    ensures !IgnoresPriority(list, q)
  {
    var i: nat :| i < |list| && Eligible(list[i], q) && list[i].location.Some?;
    var j: nat :| j < |list| && Eligible(list[j], q) && list[j].location.None?
                  && CalculateScore(list[j].spec, q.request, q.priority).Some?;
    var score := CalculateScore(list[j].spec, q.request, q.priority).value;
    var readings := seq(|list|, _ => Reading(score, true));
    var p := q.priority - 1;
    hide ResourcePart, CostPart, Eligible;
    assert CalculateScore(list[j].spec, q.request, p).value < score;
    var before, after := Scoring(list, q, readings, i), Scoring(list, q.(priority := p), readings, i);
    assert NotAfter(before, Scoring(list, q, readings, j), LowerFirst);
    assert !NotAfter(after, Scoring(list, q.(priority := p), readings, j), LowerFirst);
    assert !SameOrder(list, q, readings, p);
  }

  /** The priority is without effect on a ranking, whatever the readings, exactly unless latencies meet scores. */
  lemma PriorityIgnoredIffNotMixed(list: seq<Cluster>, q: Query)
    ensures IgnoresPriority(list, q) <==> !Mixed(list, q)
  {
    hide SameOrder;
    if Mixed(list, q) {
      PriorityDecides(list, q);
    } else {
      hide Mixed;
      forall readings: seq<Reading>, p: int | |readings| == |list|
        ensures SameOrder(list, q, readings, p)
      {
        PriorityKeepsOrder(list, q, readings, p);
      }
    }
  }

  /** Then, whatever the policy, the answers that are right for one priority are right for any other. */
  lemma PriorityNeverMatters(list: seq<Cluster>, q: Query, readings: seq<Reading>, p: int, best: seq<nat>, d: Direction)
    requires |list| == |readings| && Selection(best, EligibleBelow(list, q, |list|), q.maxResults)
    requires !Mixed(list, q)
    ensures EligibleBelow(list, q.(priority := p), |list|) == EligibleBelow(list, q, |list|)
    ensures BestOf(best, EligibleBelow(list, q, |list|), Scorings(list, q, readings), d)
            <==> BestOf(best, EligibleBelow(list, q, |list|), Scorings(list, q.(priority := p), readings), d)
    ensures NewestThenBest(best, EligibleBelow(list, q, |list|), Scorings(list, q, readings))
            <==> NewestThenBest(best, EligibleBelow(list, q, |list|), Scorings(list, q.(priority := p), readings))
  {
    PriorityKeepsOrder(list, q, readings, p);
    assert forall c :: Eligible(c, q) <==> Eligible(c, q.(priority := p));
    hide Eligible, NotAfter, Mixed, CalculateScore;
    var before, after := Scorings(list, q, readings), Scorings(list, q.(priority := p), readings);
    assert forall i :: 0 <= i < |list| ==> before[i].isActual == after[i].isActual;
    hide Scoring;
    var from := EligibleBelow(list, q, |list|);
    SameBest(best, from, before, after, d);
    SameNewest(best, from, before, after);
  }

  ghost predicate SameOn(from: set<nat>, before: seq<Scored>, after: seq<Scored>) {
    && |before| == |after| && (forall i <- from :: i < |before|)
    && (forall i <- from :: before[i].isActual == after[i].isActual)
    && (forall i <- from, j <- from, d :: NotAfter(before[i], before[j], d) <==> NotAfter(after[i], after[j], d))
  }

  lemma SameBest(best: seq<nat>, from: set<nat>, before: seq<Scored>, after: seq<Scored>, d: Direction)
    requires SameOn(from, before, after) && forall k :: 0 <= k < |best| ==> best[k] in from
    ensures BestOf(best, from, before, d) <==> BestOf(best, from, after, d)
  {
    hide NotAfter;
  }

  lemma SameNewest(best: seq<nat>, from: set<nat>, before: seq<Scored>, after: seq<Scored>)
    requires SameOn(from, before, after) && forall k :: 0 <= k < |best| ==> best[k] in from
    requires forall k, l :: 0 <= k < l < |best| ==> best[k] != best[l]
    ensures NewestThenBest(best, from, before) <==> NewestThenBest(best, from, after)
  {
    hide NotAfter, BestOf;
    SameBest(best, from, before, after, LowerFirst);
    if best != [] {
      SameBest(best[1..], from - {best[0]}, before, after, LowerFirst);
    }
  }
}
