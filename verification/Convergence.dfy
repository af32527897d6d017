/** Whole runs of a latency-driven request: how often it switches, and where it ends. */
module Convergence {
  import opened Quantities
  import opened Ranking
  import opened Latency
  import opened Requester

  /** A fixed set of clusters and, for each provider, what scraping its latency yields. */
  datatype Scene = Scene(list: seq<Cluster>, q: Query, probe: string -> Option<real>)

  ghost predicate IsEligible(sc: Scene, i: nat) {
    i < |sc.list| && Eligible(sc.list[i], sc.q)
  }

  ghost predicate Distinct(sc: Scene) {
    forall i: nat, j: nat :: IsEligible(sc, i) && IsEligible(sc, j) && i != j ==> sc.list[i].id != sc.list[j].id
  }

  ghost predicate Known(sc: Scene, bonds: Bonds) {
    forall i: nat :: IsEligible(sc, i) ==> KeyOf(sc.q.requester, sc.list[i]) in bonds
  }

  ghost function BondOf(sc: Scene, bonds: Bonds, i: nat): Bond
    requires Known(sc, bonds) && IsEligible(sc, i)
  {
    bonds[KeyOf(sc.q.requester, sc.list[i])]
  }

  /** The latency that is, or will be, recorded for a provider. */
  ghost function LatencyOf(sc: Scene, bonds: Bonds, i: nat): real
    requires Known(sc, bonds) && IsEligible(sc, i)
  {
    var b, probe := BondOf(sc, bonds, i), sc.probe(sc.list[i].id);
    if probe.Some? then probe.value else if b.actual > 0.0 then b.actual else b.estimated
  }

  /** Latencies are positive, and what is recorded is what scraping yields. */
  ghost predicate Steady(sc: Scene, bonds: Bonds) {
    && Known(sc, bonds)
    && forall i: nat :: IsEligible(sc, i) ==>
          && BondOf(sc, bonds, i).actual >= 0.0
          && LatencyOf(sc, bonds, i) > 0.0
          && (BondOf(sc, bonds, i).actual > 0.0 ==> BondOf(sc, bonds, i).actual == LatencyOf(sc, bonds, i))
  }

  /** The eligible clusters that the requester was never connected to. */
  ghost function Never(sc: Scene, bonds: Bonds): set<nat>
    requires Known(sc, bonds)
  {
    set i: nat | i < |sc.list| && IsEligible(sc, i) && BondOf(sc, bonds, i).actual <= 0.0
  }

  /** Evaluations can find the bonds of all never-connected clusters. */
  ghost predicate Visible(sc: Scene, bonds: Bonds)
    requires Known(sc, bonds)
  {
    forall i <- Never(sc, bonds) :: sc.list[i].namespace == LOOKUP
  }

  ghost predicate Fastest(sc: Scene, bonds: Bonds, b: nat)
    requires Known(sc, bonds)
  {
    IsEligible(sc, b)
    && forall j: nat :: IsEligible(sc, j) && j != b ==> LatencyOf(sc, bonds, b) < LatencyOf(sc, bonds, j)
  }

  ghost predicate At(sc: Scene, s: RequestState, i: nat) {
    IsEligible(sc, i) && s.target == sc.list[i].id
  }

  ghost predicate Inv(sc: Scene, s: RequestState, b: nat) {
    && Distinct(sc) && Steady(sc, s.bonds) && Fastest(sc, s.bonds, b)
    && s.phase != Phase.Failed
    && (s.phase == Reserved ==> exists i: nat :: At(sc, s, i))
  }

  /** Reserved at the fastest provider, with nothing left to explore. */
  ghost predicate Settled(sc: Scene, s: RequestState, b: nat)
    requires Known(sc, s.bonds)
  {
    s.phase == Reserved && At(sc, s, b) && Never(sc, s.bonds) == {}
  }

  // ----- one report, one choice

  /** A report about provider t records its latency and nothing else, if the evaluation finds the bond. */
  lemma ReportRecords(sc: Scene, bonds: Bonds, t: nat, now: int)
    requires Distinct(sc) && Steady(sc, bonds) && IsEligible(sc, t)
    ensures var bonds' := Reported(bonds, sc.q.requester, sc.list[t].id, sc.probe(sc.list[t].id), now);
            && Steady(sc, bonds')
            && (forall i: nat :: IsEligible(sc, i) ==> LatencyOf(sc, bonds', i) == LatencyOf(sc, bonds, i))
            && Never(sc, bonds') == Never(sc, bonds) - if sc.list[t].namespace == LOOKUP then {t} else {}
  {
    var bonds' := Reported(bonds, sc.q.requester, sc.list[t].id, sc.probe(sc.list[t].id), now);
    assert Known(sc, bonds');
    forall i: nat | IsEligible(sc, i)
      ensures i != t || sc.list[t].namespace != LOOKUP ==> BondOf(sc, bonds', i) == BondOf(sc, bonds, i)
    {
      assert i != t ==> sc.list[i].id != sc.list[t].id;
    }
  }

  /** The first candidate is never-connected as long as there is such a cluster, and the fastest afterwards. */
  lemma FirstCandidate(sc: Scene, bonds: Bonds, i: nat, b: nat)
    requires Steady(sc, bonds) && Fastest(sc, bonds, b) && LeadsBy(bonds, sc.list, sc.q, i)
    ensures IsEligible(sc, i)
    ensures if Never(sc, bonds) != {} then i in Never(sc, bonds) else i == b
  {
    assert IsEligible(sc, i);
    if j :| j in Never(sc, bonds) {
      LeaderAgainst(sc, bonds, i, j);
    } else {
      LeaderAgainst(sc, bonds, i, b);
      Connected(sc, bonds, i);
      Connected(sc, bonds, b);
    }
  }

  /** What leading means against one other cluster. */
  lemma LeaderAgainst(sc: Scene, bonds: Bonds, i: nat, j: nat)
    requires Known(sc, bonds) && IsEligible(sc, i) && IsEligible(sc, j) && LeadsBy(bonds, sc.list, sc.q, i)
    ensures var mine, other := BondReading(BondOf(sc, bonds, i)), BondReading(BondOf(sc, bonds, j));
            (mine.flag ==> other.flag) && (mine.flag == other.flag ==> mine.score <= other.score)
  {
    assert 0 <= j < |sc.list| && Eligible(sc.list[j], sc.q);
  }

  /** A cluster that is not among the never-connected ones scores with its latency. */
  lemma Connected(sc: Scene, bonds: Bonds, i: nat)
    requires Steady(sc, bonds) && IsEligible(sc, i) && i !in Never(sc, bonds)
    ensures BondReading(BondOf(sc, bonds, i)) == Reading(LatencyOf(sc, bonds, i), true)
  {
    assert BondOf(sc, bonds, i).actual > 0.0;
  }

  ghost predicate Least(sc: Scene, bonds: Bonds, i: nat)
    requires Known(sc, bonds)
  {
    IsEligible(sc, i) && forall k: nat :: IsEligible(sc, k) ==> LatencyOf(sc, bonds, i) <= LatencyOf(sc, bonds, k)
  }

  /** Once everything has been explored, the possible first candidates are the clusters of least latency. */
  lemma LeadsIffLeast(sc: Scene, bonds: Bonds, i: nat)
    requires Steady(sc, bonds) && Never(sc, bonds) == {}
    ensures forall j :: 0 <= j < |sc.list| && Eligible(sc.list[j], sc.q) ==> KeyOf(sc.q.requester, sc.list[j]) in bonds
    ensures LeadsBy(bonds, sc.list, sc.q, i) <==> Least(sc, bonds, i)
  {
    forall j | 0 <= j < |sc.list| && Eligible(sc.list[j], sc.q)
      ensures KeyOf(sc.q.requester, sc.list[j]) in bonds
      ensures BondReading(bonds[KeyOf(sc.q.requester, sc.list[j])]) == Reading(LatencyOf(sc, bonds, j), true)
    {
      assert IsEligible(sc, j);
      Connected(sc, bonds, j);
    }
    assert i < |sc.list| && Eligible(sc.list[i], sc.q) <==> IsEligible(sc, i);
    if LeadsBy(bonds, sc.list, sc.q, i) {
      forall k: nat | IsEligible(sc, k)
        ensures LatencyOf(sc, bonds, i) <= LatencyOf(sc, bonds, k)
      {
        LeaderAgainst(sc, bonds, i, k);
      }
    }
    if Least(sc, bonds, i) {
      forall j | 0 <= j < |sc.list| && Eligible(sc.list[j], sc.q)
        ensures LatencyOf(sc, bonds, i) <= LatencyOf(sc, bonds, j)
      {
        assert IsEligible(sc, j);
      }
    }
  }

  // ----- the measure

  /** A bound on the switches still to come. */
  ghost function Potential(sc: Scene, s: RequestState, b: nat): nat
    requires Known(sc, s.bonds)
  {
    |Never(sc, s.bonds)|
    + if s.phase == Reserved && (forall i <- Never(sc, s.bonds) :: !At(sc, s, i)) && !Settled(sc, s, b) then 1 else 0
  }

  /** A bound on the reconciles until the request has settled. */
  ghost function Work(sc: Scene, s: RequestState, b: nat): nat
    requires Known(sc, s.bonds)
  {
    2 * Potential(sc, s, b) + if s.phase == Reserved then 0 else 1
  }

  ghost predicate Moves(sc: Scene, s: RequestState, t: RequestState, now: int) {
    Step(sc.list, sc.q, sc.probe(s.target), now, s, t)
  }

  lemma WorkIsDoneWhenSettled(sc: Scene, s: RequestState, b: nat)
    requires Inv(sc, s, b)
    ensures Work(sc, s, b) == 0 <==> Settled(sc, s, b)
  {
    if Never(sc, s.bonds) != {} {
      assert |Never(sc, s.bonds)| > 0;
    }
  }

  lemma ReEvaluation(sc: Scene, s: RequestState, t: RequestState, b: nat, i: nat, now: int) returns (j: nat)
    requires Inv(sc, s, b) && Moves(sc, s, t, now) && s.phase == Reserved && At(sc, s, i)
    ensures Inv(sc, t, b)
    ensures Never(sc, t.bonds) == Never(sc, s.bonds) - if sc.list[i].namespace == LOOKUP then {i} else {}
    ensures if Never(sc, t.bonds) != {} then j in Never(sc, t.bonds) else j == b
    ensures if i == j then t.phase == Reserved && t.target == s.target else t.phase == Pending
  {
    ReportRecords(sc, s.bonds, i, now);
    var id :| MayLead(t.bonds, sc.list, sc.q, now, id)
              && (if id == s.target then t.phase == Reserved && t.target == s.target
                  else t.phase == Pending && t.target == "");
    j :| LeadsBy(t.bonds, sc.list, sc.q, j) && sc.list[j].id == id;
    hide Explored, Reported;
    FirstCandidate(sc, t.bonds, j, b);
    assert id == s.target <==> i == j;
    assert t.phase == Reserved ==> At(sc, t, i);
  }

  /** Re-evaluating a provider that the requester had never been connected to leaves one fewer such cluster. */
  lemma ReEvaluationExplores(sc: Scene, s: RequestState, t: RequestState, b: nat, i: nat, now: int)
    requires Inv(sc, s, b) && Visible(sc, s.bonds) && Moves(sc, s, t, now)
    requires s.phase == Reserved && At(sc, s, i)
    ensures Inv(sc, t, b) && Visible(sc, t.bonds) && Never(sc, t.bonds) == Never(sc, s.bonds) - {i}
    ensures i in Never(sc, s.bonds) ==> |Never(sc, t.bonds)| == |Never(sc, s.bonds)| - 1
    ensures t.phase == Reserved <==> Never(sc, t.bonds) == {} && i == b
    ensures t.phase == Reserved ==> t.target == s.target
  {
    var j := ReEvaluation(sc, s, t, b, i, now);
    hide Inv, Moves, At, Never;
    ExploredOneMore(sc, s.bonds, t.bonds, i);
  }

  lemma ExploredOneMore(sc: Scene, before: Bonds, after: Bonds, i: nat)
    requires Known(sc, before) && Known(sc, after) && Visible(sc, before) && i < |sc.list|
    requires Never(sc, after) == Never(sc, before) - if sc.list[i].namespace == LOOKUP then {i} else {}
    ensures Visible(sc, after) && Never(sc, after) == Never(sc, before) - {i}
    ensures i in Never(sc, before) ==> |Never(sc, after)| == |Never(sc, before)| - 1
  {
    hide Never, Known;
    var those, these := Never(sc, before), Never(sc, after);
    assert i in those ==> sc.list[i].namespace == LOOKUP;
    assert these == those - {i};
  }

  lemma ChoosingPicks(sc: Scene, s: RequestState, t: RequestState, b: nat, now: int) returns (j: nat)
    requires Inv(sc, s, b) && Moves(sc, s, t, now) && s.phase != Reserved
    ensures Inv(sc, t, b) && t.bonds == s.bonds && t.phase == Reserved && At(sc, t, j)
    ensures if Never(sc, t.bonds) != {} then j in Never(sc, t.bonds) else j == b
  {
    j :| LeadsBy(t.bonds, sc.list, sc.q, j) && sc.list[j].id == t.target;
    FirstCandidate(sc, t.bonds, j, b);
    assert At(sc, t, j);
  }

  ghost predicate Switched(s: RequestState, t: RequestState) {
    s.phase == Reserved && t.phase == Pending
  }

  /** The measure of a reserved request, by the position of its target. */
  lemma PotentialAt(sc: Scene, s: RequestState, b: nat, i: nat)
    requires Inv(sc, s, b) && s.phase == Reserved && At(sc, s, i)
    ensures Settled(sc, s, b) <==> Never(sc, s.bonds) == {} && i == b
    ensures Potential(sc, s, b)
         == |Never(sc, s.bonds)| + if i in Never(sc, s.bonds) || Settled(sc, s, b) then 0 else 1
  {
    assert i in Never(sc, s.bonds) <==> exists k <- Never(sc, s.bonds) :: At(sc, s, k);
  }

  lemma StepLowersWork(sc: Scene, s: RequestState, t: RequestState, b: nat, now: int)
    requires Inv(sc, s, b) && Visible(sc, s.bonds) && Moves(sc, s, t, now)
    ensures Inv(sc, t, b) && Visible(sc, t.bonds)
    ensures Potential(sc, t, b) + (if Switched(s, t) then 1 else 0) <= Potential(sc, s, b)
    ensures Work(sc, t, b) < Work(sc, s, b) || (Settled(sc, s, b) && Settled(sc, t, b) && s.target == t.target)
  {
    if s.phase == Reserved {
      var i: nat :| At(sc, s, i);
      ReEvaluationExplores(sc, s, t, b, i, now);
      StayOrGo(sc, s, t, b, i);
    } else {
      var j := ChoosingPicks(sc, s, t, b, now);
      hide Moves, Steady, Fastest;
      PotentialAt(sc, t, b, j);
    }
  }

  lemma StayOrGo(sc: Scene, s: RequestState, t: RequestState, b: nat, i: nat)
    requires Inv(sc, s, b) && Inv(sc, t, b) && s.phase == Reserved && At(sc, s, i)
    requires Never(sc, t.bonds) == Never(sc, s.bonds) - {i}
    requires t.phase == Reserved <==> Never(sc, t.bonds) == {} && i == b
    requires t.phase == Reserved ==> t.target == s.target
    ensures Potential(sc, t, b) + (if Switched(s, t) then 1 else 0) <= Potential(sc, s, b)
    ensures Work(sc, t, b) < Work(sc, s, b) || (Settled(sc, s, b) && Settled(sc, t, b) && s.target == t.target)
  {
    PotentialAt(sc, s, b, i);
    hide Steady, Fastest, Never;
    var before, after := Never(sc, s.bonds), Never(sc, t.bonds);
    if i in before {
      assert |after| == |before| - 1;
    } else {
      assert after == before;
    }
    if t.phase == Reserved {
      PotentialAt(sc, t, b, i);
    }
  }

  // ----- runs

  ghost predicate IsRun(sc: Scene, ss: seq<RequestState>, times: seq<int>) {
    |ss| == |times| + 1
    && forall k {:trigger times[k]} :: 0 <= k < |times| ==> Moves(sc, ss[k], ss[k + 1], times[k])
  }

  ghost function Switches(ss: seq<RequestState>): nat {
    if |ss| < 2 then 0
    else Switches(ss[..|ss| - 1]) + if Switched(ss[|ss| - 2], ss[|ss| - 1]) then 1 else 0
  }

  /**
   Latencies being steady and the fastest provider unique, a request switches at most once for every never-connected
   cluster, plus once if it starts at a provider it was connected to; after finitely many reconciles it is at the
   fastest provider and stays there.
   */
  lemma {:induction false} Converges(sc: Scene, ss: seq<RequestState>, times: seq<int>, b: nat)
    requires IsRun(sc, ss, times) && Inv(sc, ss[0], b) && Visible(sc, ss[0].bonds)
    ensures Inv(sc, ss[|times|], b) && Visible(sc, ss[|times|].bonds)
    ensures Switches(ss) + Potential(sc, ss[|times|], b) <= Potential(sc, ss[0], b)
    ensures Settled(sc, ss[|times|], b) || |times| + Work(sc, ss[|times|], b) <= Work(sc, ss[0], b)
    ensures |times| >= Work(sc, ss[0], b) ==> Settled(sc, ss[|times|], b)
    decreases |times|
  {
    hide Moves, Distinct, Steady, Fastest, At, Never, Visible;
    var n := |times|;
    if n == 0 {
      WorkIsDoneWhenSettled(sc, ss[0], b);
    } else {
      assert Moves(sc, ss[n - 1], ss[n - 1 + 1], times[n - 1]);
      Converges(sc, ss[..n], times[..n - 1], b);
      StepLowersWork(sc, ss[n - 1], ss[n], b, times[n - 1]);
      WorkIsDoneWhenSettled(sc, ss[n], b);
    }
  }

  /** The bounds in numbers. */
  lemma SwitchBound(sc: Scene, ss: seq<RequestState>, times: seq<int>, b: nat)
    requires IsRun(sc, ss, times) && Inv(sc, ss[0], b) && Visible(sc, ss[0].bonds)
    ensures Switches(ss) <= |Never(sc, ss[0].bonds)| + 1
    ensures ss[0].phase != Reserved || (exists i <- Never(sc, ss[0].bonds) :: At(sc, ss[0], i)) ==>
              Switches(ss) <= |Never(sc, ss[0].bonds)|
    ensures |times| >= 2 * |Never(sc, ss[0].bonds)| + 2 ==>
              ss[|times|].phase == Reserved && ss[|times|].target == sc.list[b].id
  {
    Converges(sc, ss, times, b);
  }

  // ----- ties

  ghost predicate Leaves(sc: Scene, s: RequestState, t: RequestState, now: int) {
    Moves(sc, s, t, now) && Switched(s, t)
  }

  /**
   With everything explored, a request may leave its provider exactly if another eligible cluster is at least as fast
   as all of them; at a provider of least latency that is an equally fast one, and from any other it has to leave.
   */
  lemma LeavesIffRivalled(sc: Scene, s: RequestState, i: nat, now: int)
    requires Distinct(sc) && Steady(sc, s.bonds) && Never(sc, s.bonds) == {} && s.phase == Reserved && At(sc, s, i)
    requires Explored(Reported(s.bonds, sc.q.requester, s.target, sc.probe(s.target), now), sc.list, sc.q, now)
    ensures (exists t :: Leaves(sc, s, t, now)) <==> exists j: nat :: j != i && Least(sc, s.bonds, j)
    ensures Least(sc, s.bonds, i) ==>
              ((exists t :: Leaves(sc, s, t, now)) <==>
               exists j: nat :: j != i && IsEligible(sc, j) && LatencyOf(sc, s.bonds, j) == LatencyOf(sc, s.bonds, i))
    ensures !Least(sc, s.bonds, i) ==> forall t :: Moves(sc, s, t, now) ==> Switched(s, t)
  {
    ReportRecords(sc, s.bonds, i, now);
    var bonds := Reported(s.bonds, sc.q.requester, s.target, sc.probe(s.target), now);
    hide Reported, Explored, Steady, LeadsBy, Eligible;
    forall j: nat
      ensures Least(sc, bonds, j) <==> Least(sc, s.bonds, j)
    {
    }
    if j: nat :| j != i && Least(sc, s.bonds, j) {
      LeadsIffLeast(sc, bonds, j);
      assert sc.list[j].id != s.target && MayLead(bonds, sc.list, sc.q, now, sc.list[j].id);
      assert Leaves(sc, s, RequestState(bonds, Pending, ""), now);
    }
    forall t | Moves(sc, s, t, now)
      ensures Switched(s, t) ==> exists j: nat :: j != i && Least(sc, s.bonds, j)
      ensures !Least(sc, s.bonds, i) ==> Switched(s, t)
    {
      var j := MoverLeads(sc, s, t, now);
      LeadsIffLeast(sc, bonds, j);
      assert sc.list[j].id == s.target <==> j == i;
    }
    if Least(sc, s.bonds, i) {
      forall j: nat
        ensures Least(sc, s.bonds, j)
                <==> IsEligible(sc, j) && LatencyOf(sc, s.bonds, j) == LatencyOf(sc, s.bonds, i)
      {
      }
    }
  }

  /** The first candidate of a re-evaluation. */
  lemma MoverLeads(sc: Scene, s: RequestState, t: RequestState, now: int) returns (j: nat)
    requires Moves(sc, s, t, now) && s.phase == Reserved && Known(sc, t.bonds)
    ensures t.bonds == Reported(s.bonds, sc.q.requester, s.target, sc.probe(s.target), now)
    ensures Explored(t.bonds, sc.list, sc.q, now) && LeadsBy(t.bonds, sc.list, sc.q, j)
    ensures if sc.list[j].id == s.target then t.phase == Reserved && t.target == s.target else t.phase == Pending
  {
    var id :| MayLead(t.bonds, sc.list, sc.q, now, id)
              && (if id == s.target then t.phase == Reserved && t.target == s.target
                  else t.phase == Pending && t.target == "");
    j :| LeadsBy(t.bonds, sc.list, sc.q, j) && sc.list[j].id == id;
  }

  /** Reserved at i with everything explored, j as fast as i, nothing faster, and no bond that expires until then. */
  ghost predicate Tied(sc: Scene, s: RequestState, i: nat, j: nat, until: int) {
    && Distinct(sc) && Steady(sc, s.bonds) && Never(sc, s.bonds) == {}
    && s.phase == Reserved && At(sc, s, i) && i != j
    && Least(sc, s.bonds, i) && Least(sc, s.bonds, j)
    && Explored(s.bonds, sc.list, sc.q, until)
  }

  lemma ExploredEarlier(bonds: Bonds, list: seq<Cluster>, q: Query, now: int, until: int)
    requires Explored(bonds, list, q, until) && now <= until
    ensures Explored(bonds, list, q, now)
  {
  }

  lemma ExploredAfterReport(bonds: Bonds, list: seq<Cluster>, q: Query, provider: string, measured: Option<real>,
                            now: int, until: int)
    requires Explored(bonds, list, q, until) && until - MONTH <= now
    ensures Explored(Reported(bonds, q.requester, provider, measured, now), list, q, until)
  {
  }

  /** One round: the request leaves its provider and comes back to it. */
  lemma TiedRound(sc: Scene, s: RequestState, i: nat, j: nat, now: int, later: int, until: int)
    returns (gone: RequestState, back: RequestState)
    requires Tied(sc, s, i, j, until) && until - MONTH <= now <= until && later <= until
    ensures Leaves(sc, s, gone, now)
    ensures Moves(sc, gone, back, later) && back.phase == Reserved && Tied(sc, back, i, j, until)
  {
    var bonds := Reported(s.bonds, sc.q.requester, s.target, sc.probe(s.target), now);
    gone, back := RequestState(bonds, Pending, ""), RequestState(bonds, Reserved, s.target);
    ReportRecords(sc, s.bonds, i, now);
    ExploredAfterReport(s.bonds, sc.list, sc.q, s.target, sc.probe(s.target), now, until);
    ExploredEarlier(bonds, sc.list, sc.q, now, until);
    ExploredEarlier(bonds, sc.list, sc.q, later, until);
    hide Reported, Explored, Steady, LeadsBy, Eligible;
    assert Least(sc, bonds, i) && Least(sc, bonds, j);
    LeadsIffLeast(sc, bonds, i);
    LeadsIffLeast(sc, bonds, j);
    assert MayLead(bonds, sc.list, sc.q, now, sc.list[j].id) && sc.list[j].id != s.target;
    assert MayLead(bonds, sc.list, sc.q, later, sc.list[i].id);
  }

  /**
   Two equally fast providers: whenever the request is reconciled within the month, it may switch every second time,
   and at the end it is tied as it was at the beginning.
   */
  lemma {:induction false} TiesMaySwitchForever(sc: Scene, s: RequestState, i: nat, j: nat, times: seq<int>, until: int)
    returns (ss: seq<RequestState>)
    requires Tied(sc, s, i, j, until) && |times| % 2 == 0 && forall now <- times :: until - MONTH <= now <= until
    ensures IsRun(sc, ss, times) && ss[0] == s && Tied(sc, ss[|times|], i, j, until)
    ensures Switches(ss) == |times| / 2
    decreases |times|
  {
    hide Moves, Tied, Distinct, Steady;
    if |times| == 0 {
      ss := [s];
    } else {
      var n := |times| - 2;
      assert forall now <- times[..n] :: now in times;
      var before := TiesMaySwitchForever(sc, s, i, j, times[..n], until);
      assert times[n] in times && times[n + 1] in times;
      var gone, back := TiedRound(sc, before[n], i, j, times[n], times[n + 1], until);
      ss := before + [gone, back];
      SwitchesTwoMore(before, gone, back);
      forall k | 0 <= k < |times|
        ensures Moves(sc, ss[k], ss[k + 1], times[k])
      {
        assert k < n ==> Moves(sc, before[k], before[k + 1], times[..n][k]);
      }
    }
  }

  lemma SwitchesTwoMore(ss: seq<RequestState>, gone: RequestState, back: RequestState)
    requires ss != [] && Switched(ss[|ss| - 1], gone) && back.phase == Reserved
    ensures Switches(ss + [gone, back]) == Switches(ss) + 1
  {
    var t := ss + [gone, back];
    assert t[..|t| - 1] == ss + [gone] && (ss + [gone])[..|ss|] == ss;
  }

  // ----- two equally fast providers and nobody else: no end at all

  /**
   Reserved at i, everything explored; j is the only other eligible cluster and as fast; reports find both bonds, and
   that of j does not expire until then.
   */
  ghost predicate Rivals(sc: Scene, s: RequestState, i: nat, j: nat, until: int) {
    && Distinct(sc) && Steady(sc, s.bonds) && Never(sc, s.bonds) == {}
    && s.phase == Reserved && At(sc, s, i) && IsEligible(sc, j) && i != j
    && (forall k: nat :: IsEligible(sc, k) ==> k == i || k == j)
    && LatencyOf(sc, s.bonds, i) == LatencyOf(sc, s.bonds, j)
    && (forall k <- [i, j] :: sc.list[k].namespace == LOOKUP && sc.list[k].location.Some?)
    && !Expired(BondOf(sc, s.bonds, j), until)
  }

  lemma RivalsAreLeast(sc: Scene, s: RequestState, i: nat, j: nat, until: int)
    requires Rivals(sc, s, i, j, until)
    ensures Least(sc, s.bonds, i) && Least(sc, s.bonds, j)
  {
  }

  /** A report from i refreshes its bond and leaves that of j. */
  lemma RivalReports(sc: Scene, s: RequestState, i: nat, j: nat, now: int, until: int)
    requires Rivals(sc, s, i, j, until) && now <= until
    ensures var bonds := Reported(s.bonds, sc.q.requester, s.target, sc.probe(s.target), now);
            && Known(sc, bonds) && BondOf(sc, bonds, j) == BondOf(sc, s.bonds, j)
            && BondOf(sc, bonds, i).stamp == Some(now)
            && forall later :: later <= until && later - now <= MONTH ==> Explored(bonds, sc.list, sc.q, later)
  {
    assert i in [i, j] && j in [i, j];
    assert KeyOf(sc.q.requester, sc.list[i]) != KeyOf(sc.q.requester, sc.list[j]);
    var bonds := Reported(s.bonds, sc.q.requester, s.target, sc.probe(s.target), now);
    assert KeyOf(sc.q.requester, sc.list[i]) == Key(LOOKUP, sc.q.requester, s.target);
    forall later, k: nat | later <= until && later - now <= MONTH && k < |sc.list| && Eligible(sc.list[k], sc.q)
      ensures HasBond(bonds, sc.q.requester, sc.list[k], later)
    {
      assert IsEligible(sc, k);
    }
  }

  /** One round: the request leaves i for j, and now it is the bond of i that is fresh. */
  lemma RivalRound(sc: Scene, s: RequestState, i: nat, j: nat, now: int, later: int, until: int)
    returns (gone: RequestState, there: RequestState)
    requires Rivals(sc, s, i, j, until) && now <= later <= until && later - now <= MONTH
    ensures Leaves(sc, s, gone, now)
    ensures Moves(sc, gone, there, later) && there.phase == Reserved && Rivals(sc, there, j, i, now + MONTH)
  {
    var bonds := Reported(s.bonds, sc.q.requester, s.target, sc.probe(s.target), now);
    gone, there := RequestState(bonds, Pending, ""), RequestState(bonds, Reserved, sc.list[j].id);
    ReportRecords(sc, s.bonds, i, now);
    RivalReports(sc, s, i, j, now, until);
    RivalsAreLeast(sc, s, i, j, until);
    assert j in [i, j] && i in [i, j];
    hide Reported, Explored, Steady, LeadsBy, Eligible;
    assert Rivals(sc, there, j, i, now + MONTH) by {
      assert forall k <- [j, i] :: k in [i, j];
    }
    LeadsIffLeast(sc, bonds, j);
    assert MayLead(bonds, sc.list, sc.q, now, sc.list[j].id) && MayLead(bonds, sc.list, sc.q, later, sc.list[j].id);
  }

  /** Successive reconciles are at most ten days apart. */
  ghost predicate Paced(times: seq<int>) {
    forall k :: 0 < k < |times| ==> times[k - 1] <= times[k] <= times[k - 1] + MONTH / 3
  }

  /** The rivals' request may go back and forth for ever, however long the run. */
  lemma {:induction false} RivalsMaySwitchForever(sc: Scene, s: RequestState, i: nat, j: nat, times: seq<int>,
                                                  until: int)
    returns (ss: seq<RequestState>, x: nat, y: nat)
    requires Rivals(sc, s, i, j, until) && Paced(times) && |times| % 2 == 0 && (|times| > 0 ==> times[1] <= until)
    ensures IsRun(sc, ss, times) && ss[0] == s && Switches(ss) == |times| / 2
    ensures Rivals(sc, ss[|times|], x, y, if |times| == 0 then until else times[|times| - 2] + MONTH)
    decreases |times|
  {
    hide Moves, Rivals, Distinct, Steady;
    if |times| == 0 {
      ss, x, y := [s], i, j;
    } else {
      var n := |times| - 2;
      assert Paced(times[..n]);
      var before;
      before, x, y := RivalsMaySwitchForever(sc, s, i, j, times[..n], until);
      assert n > 0 ==> times[n + 1] <= times[n - 2] + MONTH by {
        assert n > 0 ==> times[n - 1] <= times[n - 2] + MONTH / 3 && times[n] <= times[n - 1] + MONTH / 3;
        assert times[n + 1 - 1] <= times[n + 1] <= times[n + 1 - 1] + MONTH / 3;
      }
      assert times[n + 1 - 1] <= times[n + 1] <= times[n + 1 - 1] + MONTH / 3;
      var limit := if n == 0 then until else times[n - 2] + MONTH;
      var gone, there := RivalRound(sc, before[n], x, y, times[n], times[n + 1], limit);
      ss := before + [gone, there];
      x, y := y, x;
      SwitchesTwoMore(before, gone, there);
      forall k | 0 <= k < |times|
        ensures Moves(sc, ss[k], ss[k + 1], times[k])
      {
        assert k < n ==> Moves(sc, before[k], before[k + 1], times[..n][k]);
      }
    }
  }

  // ----- bonds that evaluations cannot find

  /**
   If a never-connected cluster keeps its bond outside the namespace that evaluations look in, then after any number
   of reconciles the request rests on a provider that still counts as never connected.
   */
  lemma {:induction false} HiddenBondsNeverSettle(sc: Scene, ss: seq<RequestState>, times: seq<int>, b: nat, h: nat)
    requires IsRun(sc, ss, times) && Inv(sc, ss[0], b)
    requires h in Never(sc, ss[0].bonds) && sc.list[h].namespace != LOOKUP
    ensures Inv(sc, ss[|times|], b) && h in Never(sc, ss[|times|].bonds)
    ensures |times| > 0 && ss[|times|].phase == Reserved ==>
              exists i <- Never(sc, ss[|times|].bonds) :: At(sc, ss[|times|], i)
    decreases |times|
  {
    var n := |times|;
    if n > 0 {
      assert Moves(sc, ss[n - 1], ss[n - 1 + 1], times[n - 1]);
      HiddenBondsNeverSettle(sc, ss[..n], times[..n - 1], b, h);
      HiddenStep(sc, ss[n - 1], ss[n], b, h, times[n - 1]);
    }
  }

  lemma HiddenStep(sc: Scene, s: RequestState, t: RequestState, b: nat, h: nat, now: int)
    requires Inv(sc, s, b) && Moves(sc, s, t, now)
    requires h in Never(sc, s.bonds) && sc.list[h].namespace != LOOKUP
    ensures Inv(sc, t, b) && h in Never(sc, t.bonds)
    ensures t.phase == Reserved ==> exists i <- Never(sc, t.bonds) :: At(sc, t, i)
  {
    if s.phase == Reserved {
      var i: nat :| At(sc, s, i);
      var j := ReEvaluation(sc, s, t, b, i, now);
      assert t.phase == Reserved ==> At(sc, t, j);
    } else {
      var j := ChoosingPicks(sc, s, t, b, now);
    }
  }

  /** Where a long run ends depends exactly on whether evaluations find the bonds of all never-connected clusters. */
  lemma SettlesIffVisible(sc: Scene, ss: seq<RequestState>, times: seq<int>, b: nat)
    requires IsRun(sc, ss, times) && Inv(sc, ss[0], b) && |times| >= 2 * |Never(sc, ss[0].bonds)| + 2
    ensures Known(sc, ss[|times|].bonds)
    ensures Settled(sc, ss[|times|], b) <==> Visible(sc, ss[0].bonds)
  {
    if Visible(sc, ss[0].bonds) {
      Converges(sc, ss, times, b);
    } else {
      var h :| h in Never(sc, ss[0].bonds) && sc.list[h].namespace != LOOKUP;
      HiddenBondsNeverSettle(sc, ss, times, b, h);
    }
  }
}
