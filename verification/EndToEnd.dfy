/** From the pods on a provider's nodes to the locks in the broker's ledger. */
module EndToEnd {
  import opened Quantities
  import opened Ledger
  import opened Reservations
  import opened Protocol
  import opened Runs
  import opened Overcommit
  import opened Collector
  import Ranking

  /** The offer carries what the collector computed. */
  ghost predicate Carries(offer: Advert, m: Metrics) {
    offer.allocatable == m.allocatable && offer.allotted == m.allotted && offer.available == m.available
  }

  /**
   After every committed lock of a run, however many drivers there are and whatever is lost or read late: if the
   provider's last advertisement was collected from these nodes, pods and instructions, then all requests of its pods,
   everything its enforced instructions hold back and everything the broker has reserved fit into what its ready nodes
   can allocate, for CPU and memory, whatever the sharing mode. It takes that only what is locked is released, and not
   even that if the pods and the instructions fit by themselves.
   */
  lemma NodesAreNeverOverbooked(es: seq<Event>, s: State, e: Event, c: ClusterId,
                                nodes: seq<Node>, pods: seq<Pod>, instructions: seq<ProviderInstruction>, now: int,
                                sharing: Sharing)
    requires Run(EMPTY, es, s) && IsEnabled(s, e) && Commits(s, e)
    requires c == TargetRead(s.slots[e.i], e.who).value && s.clusters[c].history != [] && Opens(s.clusters[c])
    requires Carries(Offered(s.clusters[c]), Collected(nodes, pods, SumOf(instructions, HeldBackAt(now)), sharing))
    requires || (ReleasesBacked(EMPTY, es) && ZERO.AtMost(s.clusters[c].history[0].Held()))
             || TotalNeed(pods).Lockable().Plus(SumOf(instructions, HeldBackAt(now)))
                .AtMost(TotalAllocatable(nodes).Lockable())
    ensures c in Step(s, e).clusters && Step(s, e).clusters[c].history != []
    ensures TotalNeed(pods).Lockable().Plus(SumOf(instructions, HeldBackAt(now))).Plus(Now(Step(s, e), c).Held())
            .AtMost(TotalAllocatable(nodes).Lockable())
  {
    var offer, heldBack := Offered(s.clusters[c]), SumOf(instructions, HeldBackAt(now));
    CarriedIsBacked(offer, nodes, pods, heldBack, sharing);
    hide Run, ReleasesBacked, IsEnabled, Commits, Step, Opens, Collected, TotalAllocatable, TotalNeed, SumOf,
      Offered, Backed;
    WithNothing(offer, heldBack);
    hide Carries;
    NoOvercommit(es, s, e, c, heldBack);
  }

  lemma WithNothing(offer: Advert, heldBack: Amount)
    ensures Fits(offer, heldBack, ZERO)
            <==> offer.allotted.Lockable().Plus(heldBack).AtMost(offer.allocatable.Lockable())
  {
  }

  /** An offer that carries collected metrics. */
  lemma CarriedIsBacked(offer: Advert, nodes: seq<Node>, pods: seq<Pod>, heldBack: Amount, sharing: Sharing)
    requires Carries(offer, Collected(nodes, pods, heldBack, sharing))
    ensures Backed(offer, heldBack)
    ensures offer.allocatable == TotalAllocatable(nodes) && offer.allotted == TotalNeed(pods)
  {
    CollectedIsBacked(nodes, pods, heldBack, sharing);
    hide TotalAllocatable, TotalNeed, TotalCapacity, Shared, Free, FieldFor;
  }

  lemma AdvertisedTotals(created: Advert, now: Advert, sum: Summary)
    requires Means(created, now, sum)
    ensures now.allocatable == sum.Advertised(created).allocatable && now.allotted == sum.Advertised(created).allotted
  {
  }

  lemma OfferBoundsAvailable(created: Advert, now: Advert, sum: Summary, heldBack: Amount)
    requires Means(created, now, sum) && (created.Held() == ZERO || sum.merged.Some?) && ZERO.AtMost(now.Held())
    requires Backed(sum.Advertised(created), heldBack) && ZERO.AtMost(heldBack)
    requires ZERO.AtMost(now.allocatable.Lockable()) && ZERO.AtMost(now.allotted.Lockable())
    ensures now.available.Lockable().AtMost(now.allocatable.Lockable())
  {
  }

  /** The ledger after a run that releases only what is locked. */
  ghost predicate Accounted(es: seq<Event>, s: State, c: ClusterId) {
    && Run(EMPTY, es, s) && ReleasesBacked(EMPTY, es)
    && c in s.clusters && s.clusters[c].history != [] && Opens(s.clusters[c])
    && ZERO.AtMost(s.clusters[c].history[0].Held())
  }

  lemma AccountedLedger(es: seq<Event>, s: State, c: ClusterId)
    requires Accounted(es, s, c)
    ensures Inv(s) && Means(s.clusters[c].history[0], Now(s, c), Summarise(s.clusters[c].ops))
    ensures ZERO.AtMost(Now(s, c).Held())
  {
    BackedIsHeld(es, s, c);
    hide Run, ReleasesBacked, Means, Coherent, Opens;
    assert Booked(s, c);
    HistoryMeaning(s.clusters[c].history, s.clusters[c].ops);
  }

  /** After any such run, no more is available than allocatable, for CPU and memory. */
  lemma AvailableStaysWithinAllocatable(es: seq<Event>, s: State, c: ClusterId, nodes: seq<Node>, pods: seq<Pod>,
                                        heldBack: Amount, sharing: Sharing)
    requires Accounted(es, s, c) && Carries(Offered(s.clusters[c]), Collected(nodes, pods, heldBack, sharing))
    requires ZERO.AtMost(TotalAllocatable(nodes).Lockable()) && ZERO.AtMost(TotalNeed(pods).Lockable())
    requires ZERO.AtMost(heldBack)
    ensures Now(s, c).available.Lockable().AtMost(Now(s, c).allocatable.Lockable())
  {
    AccountedLedger(es, s, c);
    var cluster := s.clusters[c];
    assert cluster.history[0].Held() == ZERO || Summarise(cluster.ops).merged.Some?;
    assert Offered(cluster) == Summarise(cluster.ops).Advertised(cluster.history[0]);
    hide *;
    CarriedIsBacked(Offered(cluster), nodes, pods, heldBack, sharing);
    AdvertisedTotals(cluster.history[0], Now(s, c), Summarise(cluster.ops));
    OfferBoundsAvailable(cluster.history[0], Now(s, c), Summarise(cluster.ops), heldBack);
  }

  /** The collected totals of what a provider has and what its pods need are not negative, GPU included. */
  ghost predicate Physical(nodes: seq<Node>, pods: seq<Pod>, heldBack: Amount) {
    && ZERO.AtMost(TotalAllocatable(nodes).Lockable()) && ZERO.AtMost(TotalNeed(pods).Lockable())
    && ZERO.AtMost(heldBack)
    && (TotalAllocatable(nodes).gpu.Some? ==> TotalAllocatable(nodes).gpu.value >= 0)
    && (TotalNeed(pods).gpu.Some? ==> TotalNeed(pods).gpu.value >= 0)
  }

  lemma CollectedGpuIsWithinAllocatable(nodes: seq<Node>, pods: seq<Pod>, heldBack: Amount, sharing: Sharing)
    requires Physical(nodes, pods, heldBack)
    ensures var m := Collected(nodes, pods, heldBack, sharing);
            && (m.available.gpu.Some? <==> m.allocatable.gpu.Some?)
            && (m.available.gpu.Some? ==> m.available.gpu.value <= m.allocatable.gpu.value)
  {
    var a, u := TotalAllocatable(nodes), TotalNeed(pods);
    if a.gpu.Some? {
      var used := if u.gpu.Some? then u.gpu.value else 0;
      hide TotalAllocatable, TotalNeed, TotalCapacity, Shared;
      SharingNeverOverstates(Free(a.gpu.value, used, 0), sharing, FieldFor(sharing, Gpu), ONE);
    }
  }

  /** No more GPU is available than allocatable in any reachable state, if none was created as reserved below zero. */
  lemma GpuStaysWithinAllocatable(s: State, c: ClusterId, nodes: seq<Node>, pods: seq<Pod>,
                                  heldBack: Amount, sharing: Sharing)
    requires Inv(s) && c in s.clusters && s.clusters[c].history != []
    requires Carries(Offered(s.clusters[c]), Collected(nodes, pods, heldBack, sharing))
    requires Physical(nodes, pods, heldBack) && GpuHeld(s.clusters[c].history[0]) >= 0
    ensures Now(s, c).available.gpu.Some? <==> Now(s, c).allocatable.gpu.Some?
    ensures Now(s, c).available.gpu.Some? ==> Now(s, c).available.gpu.value <= Now(s, c).allocatable.gpu.value
  {
    var cluster := s.clusters[c];
    assert Booked(s, c);
    hide Inv, Collected, Physical, Summarise, Serial;
    CollectedGpuIsWithinAllocatable(nodes, pods, heldBack, sharing);
    HistoryMeaning(cluster.history, cluster.ops);
    GpuMeaning(cluster.history, cluster.ops);
  }

  /**
   So the score of every cluster that survives the filter is defined, with its resource part in [0, 1), whatever the
   request asks for.
   */
  lemma SurvivorsScoreWell(es: seq<Event>, s: State, c: ClusterId, nodes: seq<Node>, pods: seq<Pod>,
                           heldBack: Amount, sharing: Sharing, request: Quantities, priority: int)
    requires Accounted(es, s, c) && Carries(Offered(s.clusters[c]), Collected(nodes, pods, heldBack, sharing))
    requires Physical(nodes, pods, heldBack) && GpuHeld(s.clusters[c].history[0]) >= 0
    requires request.Lockable().Positive() && Ranking.HasEnoughResources(Now(s, c), request)
    ensures Ranking.CalculateScore(Now(s, c), request, priority).Some?
    ensures 0.0 <= Ranking.ResourcePart(Now(s, c), request).value < 1.0
  {
    AvailableStaysWithinAllocatable(es, s, c, nodes, pods, heldBack, sharing);
    AccountedLedger(es, s, c);
    hide Accounted, Inv, Collected, Carries, Means;
    GpuStaysWithinAllocatable(s, c, nodes, pods, heldBack, sharing);
    hide Physical, Offered;
    Ranking.ResourcePartIsAShare(Now(s, c), request);
  }

  /** A node with ten cores and ten units of memory. */
  function TenCores(): Node {
    var ten := Resources(Some(10 * ONE), Some(10 * ONE), None);
    Node(true, ten, ten)
  }

  lemma OneNode(node: Node)
    requires node.ready && node.capacity.gpu.None? && node.allocatable.cpu.Some? && node.allocatable.memory.Some?
    ensures TotalAllocatable([node]) == Quantities(node.allocatable.cpu.value, node.allocatable.memory.value, None)
    ensures TotalNeed([]) == Quantities(0, 0, None)
  {
    assert [node][..0] == [];
    assert IntSum([node][..0], AllocatableOf(Cpu)) == 0 == IntSum([node][..0], AllocatableOf(Memory));
  }

  /** An idle provider that shares half of what it has: its very first advertisement disagrees with the formula. */
  lemma SharingHalfDisagrees()
    ensures var offer := ToAdvert(Collected([TenCores()], [], ZERO, Percentage(50)));
            && offer.available.Lockable() == Amount(5 * ONE, 5 * ONE)
            && offer.allocatable.Lockable() == Amount(10 * ONE, 10 * ONE)
            && offer.allotted.Lockable() == ZERO && offer.Held() == ZERO
            && Serial([offer], []) && !AgreesWithFormula(offer)
  {
    OneNode(TenCores());
    var offer := ToAdvert(Collected([TenCores()], [], ZERO, Percentage(50)));
    hide TotalAllocatable, TotalNeed;
    assert Free(10 * ONE, 0, 0) == 10 * ONE;
    assert Shared(10 * ONE, Percentage(50), Empty, MILLI) == 5 * ONE;
    assert Shared(10 * ONE, Percentage(50), Empty, ONE) == 5 * ONE;
  }
}
