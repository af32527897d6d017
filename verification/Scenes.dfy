/** Concrete scenes in which a latency-driven request does not end up at the fastest provider. */
module Scenes {
  import opened Quantities
  import opened Ledger
  import opened Ranking
  import opened Latency
  import opened Requester
  import opened Convergence

  const PLENTY := Quantities(8, 8, None)
  const OFFER := Advert(PLENTY, Quantities(0, 0, None), PLENTY, None, "latency", [], 0, None)
  const PLACE := Location("CA", 46.2, 6.1, "", "")
  const ASKED := Query("r", Quantities(1, 1, None), 0, 10, "latency")

  function Provider(id: string, namespace: string): Cluster {
    Cluster(id, namespace, OFFER, true, Some(PLACE))
  }

  // ----- two equally fast providers

  function Twins(): Scene {
    Scene([Provider("a", LOOKUP), Provider("b", LOOKUP)], ASKED, id => Some(5.0))
  }

  function AtTwin(): RequestState {
    RequestState(map[Key(LOOKUP, "r", "a") := Bond(5.0, 5.0, "CA-CA", None),
                     Key(LOOKUP, "r", "b") := Bond(5.0, 5.0, "CA-CA", None)], Reserved, "a")
  }

  lemma TwinsAreTied(until: int)
    ensures Tied(Twins(), AtTwin(), 0, 1, until)
  {
    var sc, s := Twins(), AtTwin();
    assert forall i: nat :: IsEligible(sc, i) <==> i == 0 || i == 1;
    assert sc.list[0].id == "a" && sc.list[1].id == "b";
    assert BondOf(sc, s.bonds, 0).actual == 5.0 == BondOf(sc, s.bonds, 1).actual;
  }

  /** Whenever the twins' request is reconciled within the month, it may switch every second time. */
  lemma TwinsMaySwitchForever(times: seq<int>, until: int) returns (ss: seq<RequestState>)
    requires |times| % 2 == 0 && forall now <- times :: until - MONTH <= now <= until
    ensures IsRun(Twins(), ss, times) && ss[0] == AtTwin() && Switches(ss) == |times| / 2
  {
    hide Tied, IsRun;
    TwinsAreTied(until);
    ss := TiesMaySwitchForever(Twins(), AtTwin(), 0, 1, times, until);
  }

  /** And reconciled at least every ten days, it may do so for ever. */
  lemma TwinsNeverSettle(times: seq<int>) returns (ss: seq<RequestState>)
    requires |times| % 2 == 0 && Paced(times)
    ensures IsRun(Twins(), ss, times) && ss[0] == AtTwin() && Switches(ss) == |times| / 2
  {
    var until := if |times| == 0 then 0 else times[1];
    assert forall i: nat :: IsEligible(Twins(), i) <==> i == 0 || i == 1;
    assert Twins().list[0].id == "a" && Twins().list[1].id == "b";
    assert BondOf(Twins(), AtTwin().bonds, 0).actual == 5.0 == BondOf(Twins(), AtTwin().bonds, 1).actual;
    assert Rivals(Twins(), AtTwin(), 0, 1, until);
    hide Rivals, IsRun, Paced;
    var x, y;
    ss, x, y := RivalsMaySwitchForever(Twins(), AtTwin(), 0, 1, times, until);
  }

  // ----- a provider outside the namespace in which evaluations look bonds up

  /** The second provider is slower than its estimate promises, and its advertisement lives in another namespace. */
  function Hidden(): Scene {
    Scene([Provider("fast", LOOKUP), Provider("slow", "edge")], ASKED,
          id => if id == "fast" then Some(5.0) else Some(9.0))
  }

  function HiddenBonds(stamp: Option<int>): Bonds {
    map[Key(LOOKUP, "r", "fast") := Bond(6.0, 5.0, "CA-CA", stamp),
        Key("edge", "r", "slow") := Bond(1.0, 0.0, "CA-CA", None)]
  }

  lemma HiddenIsSteady(stamp: Option<int>)
    ensures Distinct(Hidden()) && Steady(Hidden(), HiddenBonds(stamp))
    ensures Never(Hidden(), HiddenBonds(stamp)) == {1} && Fastest(Hidden(), HiddenBonds(stamp), 0)
    ensures LeadsBy(HiddenBonds(stamp), Hidden().list, ASKED, 1)
  {
    var sc, bonds := Hidden(), HiddenBonds(stamp);
    assert forall i: nat :: IsEligible(sc, i) <==> i == 0 || i == 1;
    assert sc.list[0].id == "fast" && sc.list[1].id == "slow";
    assert BondOf(sc, bonds, 0).actual == 5.0 && BondOf(sc, bonds, 1).actual == 0.0;
    assert LatencyOf(sc, bonds, 0) == 5.0 && LatencyOf(sc, bonds, 1) == 9.0;
  }

  lemma HiddenIsExplored(stamp: int, now: int)
    requires now <= stamp + MONTH
    ensures Explored(HiddenBonds(Some(stamp)), Hidden().list, ASKED, now)
  {
  }

  lemma HiddenReports(stamp: Option<int>, now: int)
    ensures Reported(HiddenBonds(stamp), "r", "fast", Some(5.0), now) == HiddenBonds(Some(now))
    ensures Reported(HiddenBonds(stamp), "r", "slow", Some(9.0), now) == HiddenBonds(stamp)
  {
  }

  /**
   From the fast provider the request switches to the slow one and stays there: however long the run, the report never
   finds the bond that would end the exploration.
   */
  lemma HiddenProviderKeepsTheRequest(times: seq<int>) returns (ss: seq<RequestState>)
    requires |times| >= 2 && forall now <- times :: times[0] <= now <= times[0] + MONTH
    ensures IsRun(Hidden(), ss, times) && Inv(Hidden(), ss[0], 0) && ss[0].target == "fast"
    ensures ss[|times|].phase == Reserved && ss[|times|].target == "slow"
    ensures Known(Hidden(), ss[|times|].bonds) && IsEligible(Hidden(), 0) && IsEligible(Hidden(), 1)
    ensures LatencyOf(Hidden(), ss[|times|].bonds, 0) < LatencyOf(Hidden(), ss[|times|].bonds, 1)
  {
    var sc, bonds := Hidden(), HiddenBonds(Some(times[0]));
    var first, gone, there := RequestState(HiddenBonds(None), Reserved, "fast"), RequestState(bonds, Pending, ""),
                              RequestState(bonds, Reserved, "slow");
    HiddenIsSteady(None);
    HiddenIsSteady(Some(times[0]));
    assert IsEligible(sc, 0) && IsEligible(sc, 1) && At(sc, first, 0);
    ss := [first, gone] + seq(|times| - 1, _ => there);
    forall k | 0 <= k < |times|
      ensures Moves(sc, ss[k], ss[k + 1], times[k])
    {
      assert times[k] in times;
      HiddenReports(None, times[0]);
      HiddenReports(Some(times[0]), times[k]);
      HiddenIsExplored(times[0], times[k]);
      assert sc.list[1].id == "slow";
      assert MayLead(bonds, sc.list, ASKED, times[k], "slow");
    }
  }
}
