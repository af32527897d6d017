/** The consumer's resource request: it picks a provider, re-evaluates it periodically and switches to a better one. */
module Requester {
  import opened Quantities
  import opened Ranking
  import opened Latency

  datatype Phase = New | Pending | Reserved | Failed

  /** What the surroundings answer during one reconcile. */
  datatype Pass = Pass(
    wired: bool,                 // a broker communicator is configured
    measured: Option<real>,      // the scraped latency to the current provider
    answered: bool,              // the evaluation response arrives
    noted: bool,                 // the store accepts the reported latency
    stored: bool,                // the store accepts new bonds
    granted: Option<string>,     // the reservation that the broker makes
    instructed: bool,            // the instruction object exists afterwards
    pending: Writes,             // the first status update of a new request
    outcome: Writes,             // the last status update
    eco: seq<Reading>)

  /** What happens to the tries of a status update: those whose read fails, and those that conflict. */
  datatype Writes = Writes(unread: set<nat>, conflicts: set<nat>) {
    /** The update commits: its first try that does not conflict is among the allowed ones and reads the object. */
    predicate Saved() {
      exists k :: 0 <= k < TRIES && k !in unread && k !in conflicts
             && forall j :: 0 <= j < k ==> j !in unread && j in conflicts
    }
  }

  /** What a run observes: the bonds and the request's phase and target. */
  datatype RequestState = RequestState(bonds: Bonds, phase: Phase, target: string)

  const HOUR: int := 60 * 60

  /** The tries of retry.DefaultRetry. */
  const TRIES := 5

  /** The first candidate for these bonds. */
  ghost predicate MayLead(bonds: Bonds, list: seq<Cluster>, q: Query, now: int, id: string) {
    Explored(bonds, list, q, now) && exists i: nat :: LeadsBy(bonds, list, q, i) && list[i].id == id
  }

  /** One effective reconcile: a re-evaluation that stays or gives up the provider, or a choice. */
  ghost predicate Step(list: seq<Cluster>, q: Query, measured: Option<real>, now: int, s: RequestState,
                       t: RequestState) {
    match s.phase
    case Reserved =>
      && t.bonds == Reported(s.bonds, q.requester, s.target, measured, now)
      && exists id :: MayLead(t.bonds, list, q, now, id)
                && (if id == s.target then t.phase == Reserved && t.target == s.target
                    else t.phase == Pending && t.target == "")
    case Failed => t == s
    case _ => t.bonds == s.bonds && t.phase == Reserved && MayLead(t.bonds, list, q, now, t.target)
  }

  /** There is a first candidate. */
  predicate Leads(answer: Answer) {
    answer.Candidates? && |answer.ids| > 0
  }

  /** The first candidate is another provider. */
  predicate Better(answer: Answer, target: string) {
    Leads(answer) && answer.ids[0] != target
  }

  class ResourceRequest {
    var phase: Phase
    var target: string
    var reservation: string
    var updated: Option<int>
    const id: string
    const request: Quantities
    const priority: int

    constructor (id: string, request: Quantities, priority: int)
      ensures this.id == id && this.request == request && this.priority == priority
      ensures phase == New && target == "" && reservation == "" && updated == None
    {
      this.id, this.request, this.priority := id, request, priority;
      phase, target, reservation, updated := New, "", "", None;
    }

    function State(handler: EvaluationHandler): RequestState
      reads this, handler
    {
      RequestState(handler.bonds, phase, target)
    }

    /** The status write, repeated on conflict: all fields are written together, or none and an error is returned. */
    method UpdateStatus(phase: Phase, target: string, reservation: string, now: int, writes: Writes)
      returns (ok: bool)
      modifies this
      ensures ok <==> writes.Saved()
      ensures !ok ==> unchanged(this)
      ensures ok ==> this.phase == phase && this.target == target && this.reservation == reservation
                     && this.updated == Some(now)
    {
      for tries := 0 to TRIES
        invariant unchanged(this)
        invariant forall j :: 0 <= j < tries ==> j !in writes.unread && j in writes.conflicts
      {
        if tries in writes.unread {
          return false;
        }
        if tries !in writes.conflicts {
          this.phase, this.target, this.reservation, this.updated := phase, target, reservation, Some(now);
          return true;
        }
      }
      return false;
    }

    predicate IsStatus(phase: Phase, target: string, reservation: string)
      reads this
    {
      this.phase == phase && this.target == target && this.reservation == reservation
    }

    /** The first re-evaluation is due when the interval has passed since the last status update. */
    predicate Due(interval: int, now: int)
      reads this
    {
      updated.None? || now - updated.value >= (if interval == 0 then HOUR else interval)
    }

    /**
     One reconcile; `answer` is what the broker answers to the evaluation, if it was asked, `booked` the reservation
     that the broker made, and `dropped` the instruction whose deletion was requested. A request whose outcome is not
     saved keeps its status, or Pending if it was new, even though it is booked; so its next reconcile books again.
     */
    method Reconcile(handler: EvaluationHandler, list: seq<Cluster>, interval: int, pass: Pass, now: int)
      returns (answer: Option<Answer>, booked: Option<string>, dropped: Option<string>)
      requires |pass.eco| == |list|
      modifies this, handler
      ensures answer.Some?
              <==> pass.wired && old(phase) != Failed && (old(phase) == Reserved ==> old(Due(interval, now)))
                   && (old(phase) == New ==> pass.pending.Saved())
      ensures old(phase) == Reserved && pass.wired ==>
                (answer.None? <==> old(updated).Some?
                                   && now < old(updated).value + if interval == 0 then 3600 else interval)
      ensures answer.None? ==> unchanged(handler)
      ensures booked == if old(phase) in {New, Pending} && answer.Some? && pass.answered && Leads(answer.value)
                        then pass.granted else None
      ensures old(phase) == Failed ==> unchanged(this) && dropped == None
      ensures old(phase) == Reserved ==>
                if answer.Some? && pass.answered && Better(answer.value, old(target)) then
                  && dropped == Some(old(reservation))
                  && if pass.outcome.Saved() then IsStatus(Pending, "", "") && updated == Some(now) else unchanged(this)
                else
                  dropped == None && unchanged(this)
      ensures old(phase) in {New, Pending} ==>
                && dropped == None
                && if old(phase) == New && pass.wired && !pass.pending.Saved() then unchanged(this)
                   else if !pass.outcome.Saved() then
                     if old(phase) == New && pass.wired then IsStatus(Pending, "", "") && updated == Some(now)
                     else unchanged(this)
                   else
                     && updated == Some(now)
                     && if answer.None? || !pass.answered || !Leads(answer.value) then IsStatus(Failed, "", "")
                        else if booked.None? then IsStatus(Failed, answer.value.ids[0], "")
                        else IsStatus(if pass.instructed then Reserved else Failed, answer.value.ids[0], booked.value)
      ensures var q := Query(id, request, priority, MAX_CANDIDATES, "latency");
              var bonds := if old(phase) == Reserved then Reported(old(handler.bonds), id, old(target),
                                                                   pass.measured, now)
                           else old(handler.bonds);
              request.Lockable().Positive() && pass.wired && pass.answered && pass.noted
                && (old(phase) == New ==> pass.pending.Saved())
              && pass.outcome.Saved() && pass.granted.Some? && pass.instructed
              && (old(phase) == Reserved ==> old(Due(interval, now)) && old(target) != "")
              && ByLatency(list, id) && Explored(bonds, list, q, now) && EligibleBelow(list, q, |list|) != {} ==>
                Step(list, q, pass.measured, now, old(State(handler)), State(handler))
    {
      hide Explored, LeadsBy, EligibleBelow, ByLatency;
      answer, booked, dropped := None, None, None;
      if phase == Reserved {
        var reEvalInterval := interval;
        if reEvalInterval == 0 {
          reEvalInterval := HOUR;
        }
        if updated.Some? && now - updated.value < reEvalInterval {
          return;
        }
        if pass.wired {
          var current := if target != "" then Some(target) else None;
          var r, _, _ := handler.PostEvaluation(list, id, request, priority, current,
                                          if current.Some? then pass.measured else None, now, pass.noted, pass.stored,
                                          pass.eco);
          answer := Some(r);
          ghost var q := Query(id, request, priority, MAX_CANDIDATES, "latency");
          ghost var leads := r.Candidates? && |r.ids| > 0 && MayLead(handler.bonds, list, q, now, r.ids[0]);
          if pass.answered && r.Candidates? && |r.ids| > 0 && r.ids[0] != target {
            dropped := Some(reservation);
            var _ := UpdateStatus(Pending, "", "", now, pass.outcome);
          }
        }
        return;
      }
      if phase == Failed {
        return;
      }
      if !pass.wired {
        var _ := UpdateStatus(Failed, "", "", now, pass.outcome);
        return;
      }
      if phase == New {
        var ok := UpdateStatus(Pending, "", "", now, pass.pending);
        if !ok {
          return;
        }
      }
      var r, _, _ := handler.PostEvaluation(list, id, request, priority, None, None, now, pass.noted, pass.stored,
                                            pass.eco);
      answer := Some(r);
      if !pass.answered || !r.Candidates? || |r.ids| == 0 {
        var _ := UpdateStatus(Failed, "", "", now, pass.outcome);
        return;
      }
      var best := r.ids[0];
      booked := pass.granted;
      if pass.granted.None? {
        var _ := UpdateStatus(Failed, best, "", now, pass.outcome);
        return;
      }
      if !pass.instructed {
        var _ := UpdateStatus(Failed, best, pass.granted.value, now, pass.outcome);
        return;
      }
      var _ := UpdateStatus(Reserved, best, pass.granted.value, now, pass.outcome);
    }
  }
}
