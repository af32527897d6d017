/** Exploring providers by latency: network bonds, evaluation, and the requester that switches until it settles. */
module Latency {
  import opened Quantities
  import opened Ledger
  import opened Ranking

  // ----- region pairs

  predicate Before(a: string, b: string) {
    |b| != 0 && (|a| == 0 || a[0] < b[0] || (a[0] == b[0] && Before(a[1..], b[1..])))
  }

  lemma {:induction false} BeforeIsTotal(a: string, b: string)
    ensures Before(a, b) ==> !Before(b, a)
    ensures Before(a, b) || Before(b, a) || a == b
  {
    if |a| != 0 && |b| != 0 {
      BeforeIsTotal(a[1..], b[1..]);
      assert a == [a[0]] + a[1..] && b == [b[0]] + b[1..];
    }
  }

  function RegionMatch(a: Option<Location>, b: Option<Location>): string {
    if a.None? || b.None? || a.value.region == "" || b.value.region == "" then ""
    else if Before(b.value.region, a.value.region) then b.value.region + "-" + a.value.region
    else a.value.region + "-" + b.value.region
  }

  lemma RegionMatchIsSymmetric(a: Option<Location>, b: Option<Location>)
    ensures RegionMatch(a, b) == RegionMatch(b, a)
  {
    if a.Some? && b.Some? {
      BeforeIsTotal(a.value.region, b.value.region);
    }
  }

  /** The pair names both regions, and there is none if either is unknown. */
  lemma RegionMatchNamesBoth(a: Option<Location>, b: Option<Location>)
    ensures RegionMatch(a, b) == "" <==> a.None? || b.None? || a.value.region == "" || b.value.region == ""
    ensures RegionMatch(a, b) != "" ==> RegionMatch(a, b) in {a.value.region + "-" + b.value.region,
                                                              b.value.region + "-" + a.value.region}
  {
  }

  // ----- bonds

  /** A bond is stored under the namespace of the provider's advertisement; requester and provider make up its name. */
  datatype Key = Key(namespace: string, requester: string, provider: string)

  datatype Bond = Bond(estimated: real, actual: real, regions: string, stamp: Option<int>)

  type Bonds = map<Key, Bond>

  const MONTH: int := 30 * 24 * 60 * 60

  /** The namespace in which an evaluation looks up the bond to update. */
  const LOOKUP := "default"

  predicate Expired(b: Bond, now: int) {
    b.stamp.Some? && now - b.stamp.value > MONTH
  }

  function KeyOf(requester: string, c: Cluster): Key {
    Key(c.namespace, requester, c.id)
  }

  /** How an unexpired bond scores. */
  function BondReading(b: Bond): Reading {
    if b.actual > 0.0 then Reading(b.actual, true) else Reading(b.estimated, false)
  }

  /** The bonds after a report about the current provider that the store accepted. */
  function Reported(bonds: Bonds, requester: string, provider: string, measured: Option<real>, now: int): Bonds {
    var key := Key(LOOKUP, requester, provider);
    if key !in bonds then bonds
    else
      var b := bonds[key];
      var actual := if measured.Some? then measured.value else if b.actual == 0.0 then b.estimated else b.actual;
      bonds[key := b.(actual := actual, stamp := Some(now))]
  }

  /** A bond between these regions whose latency has been measured. */
  predicate Measured(b: Bond, regions: string) {
    b.regions == regions && b.actual > 0.0
  }

  /** A located cluster with an unexpired bond. */
  predicate HasBond(bonds: Bonds, requester: string, c: Cluster, now: int) {
    c.location.Some? && KeyOf(requester, c) in bonds && !Expired(bonds[KeyOf(requester, c)], now)
  }

  /** All eligible clusters have a location and an unexpired bond. */
  ghost predicate Explored(bonds: Bonds, list: seq<Cluster>, q: Query, now: int) {
    forall i :: 0 <= i < |list| && Eligible(list[i], q) ==> HasBond(bonds, q.requester, list[i], now)
  }

  /** A report lasts thirty days. */
  lemma ReportLastsThirtyDays(bonds: Bonds, requester: string, provider: string, measured: Option<real>, now: int,
                              later: int)
    requires Key("default", requester, provider) in bonds
    ensures var bond := Reported(bonds, requester, provider, measured, now)[Key("default", requester, provider)];
            Expired(bond, later) <==> later > now + 30 * 86400
  {
  }

  lemma BondsStay(was: Bonds, bonds: Bonds, requester: string, now: int)
    requires forall k <- was :: k in bonds && (!Expired(was[k], now) ==> bonds[k] == was[k])
    ensures forall c :: HasBond(was, requester, c, now) ==> HasBond(bonds, requester, c, now)
  {
  }

  ghost predicate AllLocated(list: seq<Cluster>, q: Query) {
    forall i :: 0 <= i < |list| && Eligible(list[i], q) ==> list[i].location.Some?
  }

  /** Position i may come first in the latency order of these bonds. */
  ghost predicate LeadsBy(bonds: Bonds, list: seq<Cluster>, q: Query, i: nat)
    requires forall j :: 0 <= j < |list| && Eligible(list[j], q) ==> KeyOf(q.requester, list[j]) in bonds
  {
    i < |list| && Eligible(list[i], q)
    && var mine := BondReading(bonds[KeyOf(q.requester, list[i])]);
    forall j :: 0 <= j < |list| && Eligible(list[j], q) ==>
      var other := BondReading(bonds[KeyOf(q.requester, list[j])]);
      (mine.flag ==> other.flag) && (mine.flag == other.flag ==> mine.score <= other.score)
  }

  /** No earlier cluster of the list is stored under the same name. */
  predicate Unrepeated(list: seq<Cluster>, i: nat)
    requires i < |list|
  {
    forall j :: 0 <= j < i ==> list[j].namespace != list[i].namespace || list[j].id != list[i].id
  }

  /** Eligible located clusters have a bond, and their readings are what it says. */
  ghost predicate ReadsBonds(bonds: Bonds, list: seq<Cluster>, q: Query, readings: seq<Reading>) {
    && |readings| == |list|
    && forall i :: 0 <= i < |list| && Eligible(list[i], q) && list[i].location.Some? ==>
          KeyOf(q.requester, list[i]) in bonds && readings[i] == BondReading(bonds[KeyOf(q.requester, list[i])])
  }

  /** The policy of the first advertisement under the requester's name. */
  function PolicyOf(list: seq<Cluster>, requester: string): string {
    if |list| == 0 then ""
    else if list[0].id == requester then list[0].spec.policy
    else PolicyOf(list[1..], requester)
  }

  lemma {:induction false} PolicyOfFirst(list: seq<Cluster>, requester: string, i: nat)
    requires i <= |list| && forall j :: 0 <= j < i ==> list[j].id != requester
    ensures i < |list| && list[i].id == requester ==> PolicyOf(list, requester) == list[i].spec.policy
    ensures i == |list| ==> PolicyOf(list, requester) == ""
  {
    if i > 0 {
      assert forall j :: 0 <= j < i - 1 ==> list[1..][j] == list[j + 1];
      PolicyOfFirst(list[1..], requester, i - 1);
    }
  }

  /** No candidate: nothing is registered, the latency policy misses the requester's location, or nobody is eligible. */
  ghost predicate NothingToOffer(list: seq<Cluster>, q: Query) {
    || list == []
    || (q.policy == "latency" && !RequesterLocated(list, q.requester))
    || forall i :: 0 <= i < |list| ==> !Eligible(list[i], q)
  }

  /**
   The answer names, in this order, the clusters at distinct eligible positions, as many as asked for and there are; if
   all scores are numbers, in the order of the policy by these readings, with nothing better left out.
   */
  ghost predicate Lists(r: Answer, list: seq<Cluster>, q: Query, readings: seq<Reading>, best: seq<nat>) {
    && r.Candidates? && |readings| == |list|
    && Selection(best, EligibleBelow(list, q, |list|), q.maxResults)
    && |r.ids| == |best| && (forall k :: 0 <= k < |best| ==> r.ids[k] == list[best[k]].id)
    && ((forall i <- EligibleBelow(list, q, |list|) :: Scoring(list, q, readings, i).score.Some?) ==>
          if q.policy == "latency" then
            NewestThenBest(best, EligibleBelow(list, q, |list|), Scorings(list, q, readings))
          else
            BestOf(best, EligibleBelow(list, q, |list|), Scorings(list, q, readings),
                      if q.policy == "eco" then LowerFirst else HigherFirst))
  }

  datatype Answer = BadRequest | NoSuitableCluster | Candidates(ids: seq<string>)

  const MAX_CANDIDATES := 10

  /** The requester's advertisement has a location and asks for the latency policy. */
  ghost predicate ByLatency(list: seq<Cluster>, requester: string) {
    exists i :: 0 <= i < |list| && list[i].id == requester && list[i].spec.policy == "latency"
                && list[i].location.Some? && forall j :: 0 <= j < i ==> list[j].id != requester
  }

  // ----- the broker's side

  class EvaluationHandler {
    var bonds: Bonds
    const rtt: (Location, Location) -> real

    constructor (rtt: (Location, Location) -> real)
      ensures this.rtt == rtt && bonds == map[]
    {
      this.rtt, bonds := rtt, map[];
    }

    /**
     What a located cluster may read by these bonds: an unexpired bond's latency; the estimate if the bond has expired;
     and without a bond what was measured between the same regions, or the estimate if nothing was.
     */
    ghost predicate MayRead(bonds: Bonds, requester: Cluster, c: Cluster, now: int, r: Reading)
      requires requester.location.Some? && c.location.Some?
    {
      var key, regions := KeyOf(requester.id, c), RegionMatch(requester.location, c.location);
      var estimate := rtt(requester.location.value, c.location.value);
      if key in bonds then r == if Expired(bonds[key], now) then Reading(estimate, false) else BondReading(bonds[key])
      else
        && !r.flag
        && (r.score == estimate
            || (regions != "" && exists k <- bonds :: Measured(bonds[k], regions) && r.score == bonds[k].actual))
        && (regions != "" && (exists k <- bonds :: Measured(bonds[k], regions) && !Expired(bonds[k], now)) ==>
              exists k <- bonds :: Measured(bonds[k], regions) && r.score == bonds[k].actual)
    }

    /** The score of one located cluster; the store may refuse the bond that it writes. */
    method CalculateScoreLatency(requester: Cluster, cluster: Cluster, now: int, stored: bool) returns (r: Reading)
      requires requester.location.Some? && cluster.location.Some?
      modifies this
      ensures var key := KeyOf(requester.id, cluster);
              if key !in old(bonds) then
                && !r.flag
                && bonds == (if !stored then old(bonds) else
                             old(bonds)[key := Bond(r.score, 0.0, RegionMatch(requester.location, cluster.location),
                                                    None)])
                && var regions := RegionMatch(requester.location, cluster.location);
                   if regions != "" && exists k <- old(bonds) :: Measured(old(bonds)[k], regions) then
                     exists k <- old(bonds) :: Measured(old(bonds)[k], regions) && r.score == old(bonds)[k].actual
                   else r.score == rtt(requester.location.value, cluster.location.value)
              else if Expired(old(bonds)[key], now) then
                && r == Reading(rtt(requester.location.value, cluster.location.value), false)
                && bonds == (if !stored then old(bonds) else
                             old(bonds)[key := old(bonds)[key].(estimated := r.score, actual := 0.0,
                                                                stamp := Some(now))])
              else
                r == BondReading(old(bonds)[key]) && bonds == old(bonds)
    {
      var key := KeyOf(requester.id, cluster);
      if key in bonds {
        var bond := bonds[key];
        if bond.stamp.Some? && now - bond.stamp.value > MONTH {
          bond := bond.(actual := 0.0);
          bond := bond.(estimated := rtt(requester.location.value, cluster.location.value));
          bond := bond.(stamp := Some(now));
          if stored {
            bonds := bonds[key := bond];
          }
          return Reading(bond.estimated, false);
        }
        if bond.actual > 0.0 {
          return Reading(bond.actual, true);
        }
        return Reading(bond.estimated, false);
      }
      var regions := RegionMatch(requester.location, cluster.location);
      var latency := 0.0;
      if regions != "" && exists k <- bonds :: bonds[k].regions == regions && bonds[k].actual > 0.0 {
        var k :| k in bonds && bonds[k].regions == regions && bonds[k].actual > 0.0;
        latency := bonds[k].actual;
      }
      if latency == 0.0 {
        latency := rtt(requester.location.value, cluster.location.value);
      }
      if stored {
        bonds := bonds[key := Bond(latency, 0.0, regions, None)];
      }
      r := Reading(latency, false);
    }

    /** What was written for other clusters in between makes no difference: it measures nothing. */
    lemma MayReadEarlier(bonds: Bonds, later: Bonds, requester: Cluster, c: Cluster, now: int, r: Reading)
      requires requester.location.Some? && c.location.Some? && MayRead(later, requester, c, now, r)
      requires forall k <- bonds :: k in later && (!Expired(bonds[k], now) ==> later[k] == bonds[k])
      requires forall k <- later :: k !in bonds || later[k] != bonds[k] ==>
                                 later[k].actual == 0.0 && k != KeyOf(requester.id, c)
      ensures MayRead(bonds, requester, c, now, r)
    {
    }

    /** One step of the scoring pass. */
    method ScoreOne(cluster: Cluster, q: Query, requester: Cluster, now: int, stored: bool) returns (reading: Reading)
      requires requester.location.Some? && requester.id == q.requester
      modifies this
      ensures forall k <- old(bonds) :: k in bonds && (!Expired(old(bonds)[k], now) ==> bonds[k] == old(bonds)[k])
      ensures forall k <- bonds :: k !in old(bonds) || bonds[k] != old(bonds)[k] ==>
                                k.requester == q.requester && bonds[k].actual == 0.0
      ensures Eligible(cluster, q) && HasBond(old(bonds), q.requester, cluster, now) ==>
                bonds == old(bonds) && reading == BondReading(bonds[KeyOf(q.requester, cluster)])
      ensures !Eligible(cluster, q) ==> bonds == old(bonds)
      ensures forall k <- bonds :: k !in old(bonds) || bonds[k] != old(bonds)[k] ==> k == KeyOf(q.requester, cluster)
      ensures Eligible(cluster, q) && cluster.location.Some? ==> MayRead(old(bonds), requester, cluster, now, reading)
      ensures Eligible(cluster, q) && cluster.location.Some? && stored ==>
                HasBond(bonds, q.requester, cluster, now) && reading == BondReading(bonds[KeyOf(q.requester, cluster)])
    {
      hide Eligible, RegionMatch;
      reading := Reading(0.0, false);
      if Eligible(cluster, q) && cluster.location.Some? {
        reading := CalculateScoreLatency(requester, cluster, now, stored);
      }
    }

    /** The scoring pass over all eligible located clusters. */
    method ScoreByLatency(list: seq<Cluster>, q: Query, requester: Cluster, now: int, stored: bool)
      returns (readings: seq<Reading>)
      requires requester.location.Some? && requester.id == q.requester
      modifies this
      ensures |readings| == |list|
      ensures forall k <- old(bonds) :: k in bonds && (!Expired(old(bonds)[k], now) ==> bonds[k] == old(bonds)[k])
      ensures forall k <- bonds :: k !in old(bonds) || bonds[k] != old(bonds)[k] ==>
                                k.requester == q.requester && bonds[k].actual == 0.0
      ensures Explored(old(bonds), list, q, now) ==>
                && bonds == old(bonds)
                && forall i :: 0 <= i < |list| && Eligible(list[i], q) ==>
                      readings[i] == BondReading(bonds[KeyOf(q.requester, list[i])])
      ensures stored && AllLocated(list, q) ==> Explored(bonds, list, q, now)
      ensures stored ==> ReadsBonds(bonds, list, q, readings)
      ensures forall i :: 0 <= i < |list| && Eligible(list[i], q) && list[i].location.Some? && Unrepeated(list, i) ==>
                MayRead(old(bonds), requester, list[i], now, readings[i])
    {
      hide Eligible, BondReading, Expired;
      readings := [];
      for i := 0 to |list|
        invariant |readings| == i
        invariant forall k <- old(bonds) :: k in bonds && (!Expired(old(bonds)[k], now) ==> bonds[k] == old(bonds)[k])
        invariant forall k <- bonds :: k !in old(bonds) || bonds[k] != old(bonds)[k] ==>
                                    k.requester == q.requester && bonds[k].actual == 0.0
        invariant Explored(old(bonds), list, q, now) ==>
                    && bonds == old(bonds)
                    && forall j :: 0 <= j < i && Eligible(list[j], q) ==>
                          readings[j] == BondReading(bonds[KeyOf(q.requester, list[j])])
        invariant stored && AllLocated(list, q) ==>
                    forall j :: 0 <= j < i && Eligible(list[j], q) ==> HasBond(bonds, q.requester, list[j], now)
        invariant forall k <- bonds :: k !in old(bonds) || bonds[k] != old(bonds)[k] ==>
                                    exists j :: 0 <= j < i && k == KeyOf(q.requester, list[j])
        invariant forall j :: 0 <= j < i && Eligible(list[j], q) && list[j].location.Some? && Unrepeated(list, j) ==>
                    MayRead(old(bonds), requester, list[j], now, readings[j])
        invariant stored ==>
                    forall j :: 0 <= j < i && Eligible(list[j], q) && list[j].location.Some? ==>
                      && HasBond(bonds, q.requester, list[j], now)
                      && readings[j] == BondReading(bonds[KeyOf(q.requester, list[j])])
      {
        ghost var was := bonds;
        var reading := ScoreOne(list[i], q, requester, now, stored);
        BondsStay(was, bonds, q.requester, now);
        if Eligible(list[i], q) && list[i].location.Some? && Unrepeated(list, i) {
          MayReadEarlier(old(bonds), was, requester, list[i], now, reading);
        }
        readings := readings + [reading];
      }
    }

    /** The readings are what the located requester may read of each cluster by these bonds. */
    ghost predicate ReadsRightly(bonds: Bonds, list: seq<Cluster>, q: Query, now: int, readings: seq<Reading>) {
      && |readings| == |list|
      && exists m: nat ::
           && m < |list| && list[m].id == q.requester && list[m].location.Some?
           && (forall j :: 0 <= j < m ==> list[j].id != q.requester)
           && forall i :: 0 <= i < |list| && Eligible(list[i], q) && list[i].location.Some? && Unrepeated(list, i) ==>
                 MayRead(bonds, list[m], list[i], now, readings[i])
    }

    /** Notes in the bond with the current provider what the requester reports about it. */
    method SaveLatency(requester: string, provider: string, measured: Option<real>, now: int, noted: bool)
      modifies this
      ensures bonds == if noted then Reported(old(bonds), requester, provider, measured, now) else old(bonds)
    {
      var key := Key(LOOKUP, requester, provider);
      if key in bonds {
        var bond := bonds[key];
        if measured.Some? {
          bond := bond.(actual := measured.value);
        } else if bond.actual == 0.0 {
          bond := bond.(actual := bond.estimated);
        }
        bond := bond.(stamp := Some(now));
        if noted {
          bonds := bonds[key := bond];
        }
      }
    }

    /** Scores by the bonds if the policy asks for it. */
    method ScoreByPolicy(list: seq<Cluster>, q: Query, now: int, stored: bool, eco: seq<Reading>)
      returns (readings: seq<Reading>)
      requires |eco| == |list|
      modifies this
      ensures |readings| == |list|
      ensures forall k <- old(bonds) :: k in bonds && (!Expired(old(bonds)[k], now) ==> bonds[k] == old(bonds)[k])
      ensures forall k <- bonds :: k !in old(bonds) || bonds[k] != old(bonds)[k] ==> bonds[k].actual == 0.0
      ensures if q.policy == "latency" && RequesterLocated(list, q.requester) then
                && ReadsRightly(old(bonds), list, q, now, readings)
                && (stored ==> ReadsBonds(bonds, list, q, readings))
                && (stored && AllLocated(list, q) ==> Explored(bonds, list, q, now))
                && (Explored(old(bonds), list, q, now) ==> bonds == old(bonds) && ReadsBonds(bonds, list, q, readings))
              else readings == eco && bonds == old(bonds)
    {
      var mine := FirstNamed(list, q.requester);
      readings := eco;
      hide MayRead, Eligible, Expired, BondReading;
      if q.policy == "latency" && mine < |list| && list[mine].location.Some? {
        readings := ScoreByLatency(list, q, list[mine], now, stored);
      }
    }

    /** Scores by the bonds if the policy asks for it, and ranks. */
    method RankCandidates(list: seq<Cluster>, q: Query, now: int, stored: bool, eco: seq<Reading>)
      returns (r: Answer, ghost readings: seq<Reading>, ghost best: seq<nat>)
      requires |eco| == |list| && q.maxResults > 0
      modifies this
      ensures r != BadRequest
      ensures r == NoSuitableCluster <==> NothingToOffer(list, q)
      ensures r != NoSuitableCluster ==> Lists(r, list, q, readings, best)
      ensures r != NoSuitableCluster ==>
                if q.policy == "latency" then
                  && ReadsRightly(old(bonds), list, q, now, readings)
                  && (stored ==> ReadsBonds(bonds, list, q, readings))
                else readings == eco && bonds == old(bonds)
      ensures forall k <- old(bonds) :: k in bonds && (!Expired(old(bonds)[k], now) ==> bonds[k] == old(bonds)[k])
      ensures q.policy == "latency" && RequesterLocated(list, q.requester) && stored && AllLocated(list, q) ==>
                Explored(bonds, list, q, now)
      ensures forall k <- bonds :: k !in old(bonds) || bonds[k] != old(bonds)[k] ==> bonds[k].actual == 0.0
      ensures q.policy == "latency" && RequesterLocated(list, q.requester) && Explored(old(bonds), list, q, now)
              && EligibleBelow(list, q, |list|) != {} ==>
                && bonds == old(bonds)
                && r.Candidates? && r.ids != []
                && exists i: nat :: LeadsBy(bonds, list, q, i) && list[i].id == r.ids[0]
    {
      var scores := ScoreByPolicy(list, q, now, stored, eco);
      hide ReadsRightly, ReadsBonds, Explored, AllLocated, Eligible, Scoring, RequesterLocated, NewestThenBest, BestOf;
      var ranking := RankClusters(list, q, scores);
      readings, best := scores, [];
      if ranking.Refused? {
        assert ranking.error == NoClusters || ranking.error == RequesterNotLocated || ranking.error == NoneSuitable;
        assert q.policy == "latency" && RequesterLocated(list, q.requester) ==>
          EligibleBelow(list, q, |list|) == {} by {
          SomeEligible(list, q);
        }
        return NoSuitableCluster, readings, best;
      }
      best := ranking.best;
      var ids := IdsOf(list, ranking.best);
      r := Candidates(ids);
      if q.policy == "latency" && RequesterLocated(list, q.requester) && Explored(old(bonds), list, q, now)
         && EligibleBelow(list, q, |list|) != {} {
        FirstLeads(bonds, list, q, now, readings, best);
      }
    }

    /** Answers an evaluation request; the report about the current provider comes first. */
    method PostEvaluation(list: seq<Cluster>, requester: string, request: Quantities, priority: int,
                          current: Option<string>, measured: Option<real>, now: int, noted: bool, stored: bool,
                          eco: seq<Reading>)
      returns (r: Answer, ghost readings: seq<Reading>, ghost best: seq<nat>)
      requires |eco| == |list|
      modifies this
      ensures r == BadRequest <==> request.cpu <= 0 || request.memory <= 0
      ensures r == BadRequest ==> bonds == old(bonds)
      ensures var q := Query(requester, request, priority, MAX_CANDIDATES, PolicyOf(list, requester));
              && (r == NoSuitableCluster <==> r != BadRequest && NothingToOffer(list, q))
              && (r.Candidates? ==>
                    && Lists(r, list, q, readings, best)
                    && if q.policy == "latency" then
                         && ReadsRightly(if current.Some? && noted
                                         then Reported(old(bonds), requester, current.value, measured, now)
                                         else old(bonds), list, q, now, readings)
                         && (stored ==> ReadsBonds(bonds, list, q, readings))
                       else readings == eco)
      ensures r != BadRequest ==>
                var reported := if current.Some? && noted
                                then Reported(old(bonds), requester, current.value, measured, now)
                                else old(bonds);
                forall k <- reported :: k in bonds && (!Expired(reported[k], now) ==> bonds[k] == reported[k])
      ensures var q := Query(requester, request, priority, MAX_CANDIDATES, "latency");
              r != BadRequest && ByLatency(list, requester) && stored && AllLocated(list, q) ==>
                Explored(bonds, list, q, now)
      ensures forall k <- bonds :: bonds[k].actual > 0.0 && (k !in old(bonds) || old(bonds)[k].actual <= 0.0) ==>
                                current.Some? && k == Key(LOOKUP, requester, current.value)
      ensures var reported := if current.Some? && noted
                              then Reported(old(bonds), requester, current.value, measured, now)
                              else old(bonds);
              var q := Query(requester, request, priority, MAX_CANDIDATES, "latency");
              r != BadRequest && ByLatency(list, requester) && Explored(reported, list, q, now)
              && EligibleBelow(list, q, |list|) != {} ==>
                && bonds == reported
                && r.Candidates? && r.ids != []
                && exists i: nat :: LeadsBy(bonds, list, q, i) && list[i].id == r.ids[0]
    {
      if request.cpu <= 0 || request.memory <= 0 {
        return BadRequest, [], [];
      }
      var policy := "";
      var mine := FirstNamed(list, requester);
      if mine < |list| {
        policy := list[mine].spec.policy;
      }
      if current.Some? {
        SaveLatency(requester, current.value, measured, now, noted);
      }
      ghost var reported := bonds;
      assert ByLatency(list, requester) ==> policy == "latency" && RequesterLocated(list, requester);
      PolicyOfFirst(list, requester, mine);
      hide Explored, LeadsBy, EligibleBelow, Lists, NothingToOffer, ReadsBonds, ReadsRightly, PolicyOf;
      var q := Query(requester, request, priority, MAX_CANDIDATES, policy);
      r, readings, best := RankCandidates(list, q, now, stored, eco);
    }
  }

  lemma SomeEligible(list: seq<Cluster>, q: Query)
    ensures EligibleBelow(list, q, |list|) != {} ==> exists i :: 0 <= i < |list| && Eligible(list[i], q)
  {
    if i :| i in EligibleBelow(list, q, |list|) {
      assert Eligible(list[i], q);
    }
  }

  /** The first of a latency ranking over unexpired bonds leads by these bonds. */
  lemma FirstLeads(bonds: Bonds, list: seq<Cluster>, q: Query, now: int, readings: seq<Reading>, best: seq<nat>)
    requires |readings| == |list| && q.policy == "latency" && q.maxResults > 0
    requires Explored(bonds, list, q, now) && EligibleBelow(list, q, |list|) != {}
    requires ReadsBonds(bonds, list, q, readings)
    requires Selection(best, EligibleBelow(list, q, |list|), q.maxResults)
    requires NewestThenBest(best, EligibleBelow(list, q, |list|), Scorings(list, q, readings))
    ensures best != [] && LeadsBy(bonds, list, q, best[0])
  {
    var from, all := EligibleBelow(list, q, |list|), Scorings(list, q, readings);
    assert |from| > 0;
    assert best[0] in from && best[0] in best;
    forall j | 0 <= j < |list| && Eligible(list[j], q)
      ensures (all[best[0]].isActual ==> all[j].isActual)
      ensures all[best[0]].isActual == all[j].isActual ==> all[best[0]].score.value <= all[j].score.value
    {
      assert j in from;
      if exists i <- from :: !all[i].isActual {
        assert !all[best[0]].isActual;
      } else if j !in best {
        assert NotAfter(all[best[0]], all[j], LowerFirst);
      } else {
        var k :| 0 <= k < |best| && best[k] == j;
        assert k == 0 || NotAfter(all[best[0]], all[best[k]], LowerFirst);
      }
    }
  }

  /** The loop that turns ranked positions into candidates. */
  method IdsOf(list: seq<Cluster>, best: seq<nat>) returns (ids: seq<string>)
    requires forall k :: 0 <= k < |best| ==> best[k] < |list|
    ensures |ids| == |best| && forall k :: 0 <= k < |best| ==> ids[k] == list[best[k]].id
  {
    ids := [];
    for k := 0 to |best|
      invariant |ids| == k && forall l :: 0 <= l < k ==> ids[l] == list[best[l]].id
    {
      ids := ids + [list[best[k]].id];
    }
  }

  method FirstNamed(list: seq<Cluster>, id: string) returns (i: nat)
    ensures i <= |list| && (i < |list| ==> list[i].id == id) && forall j :: 0 <= j < i ==> list[j].id != id
  {
    i := 0;
    while i < |list| && list[i].id != id
      invariant i <= |list| && forall j :: 0 <= j < i ==> list[j].id != id
    {
      i := i + 1;
    }
  }
}
