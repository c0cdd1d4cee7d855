/**
 * VetoWindow: the lane where silence lets a held call run, advanced lazily by
 * whoever happens to read it. Times are milliseconds.
 */
module VetoWindows {
  import opened Wrappers

  const DEFAULT_WINDOW_MS: int := 4 * 60_000
  const DEFAULT_EXTENSION_MS: int := 6 * 60_000
  const MIN_VETO_RESPONSE_MS: int := 60_000

  datatype VetoStatus = Pending | Vetoed | Released | Extended | Held

  /**
   * The held call; `args` stands for its canonical argument bytes, and
   * `renderable` says a decision-complete rendering of it exists.
   */
  datatype Call = Call(agentId: string, tool: string, args: string, renderable: bool)

  /**
   * What a release is for. The one grant-eligible purpose is the GitHub merge;
   * `argsParse` says the closed merge schema accepts the call's arguments.
   */
  datatype Purpose =
    | MergePullRequest(policyVersion: string, argsParse: bool)
    | OtherPurpose(connector: string, operation: string, policyVersion: string)

  datatype Evidence = Evidence(deviceId: string, generation: int, at: int)
  datatype Approval = Approval(owner: string, at: int, epoch: int)

  datatype Window = Window(
    call: Call,
    purpose: Option<Purpose>,
    killEpoch: int,
    extensionMs: int,
    status: VetoStatus,
    evidence: Option<Evidence>,
    revision: int,
    deadline: int,
    releasedAt: Option<int>,
    approval: Option<Approval>,
    vetoedBy: Option<string>)

  function Opened(
    call: Call, purpose: Option<Purpose>, killEpoch: int, windowMs: int, extensionMs: int, now: int): Window
  {
    Window(call, purpose, killEpoch, extensionMs, Pending, None, 1, now + windowMs, None, None, None)
  }

  predicate IsOpen(w: Window) {
    w.status.Pending? || w.status.Extended?
  }

  /**
   * Advance the window at `now`; `stands` is the standing check's verdict on
   * the evidence the window carries.
   */
  function Ticked(w: Window, now: int, stands: bool): Window {
    if !IsOpen(w) || now < w.deadline then w
    else if w.evidence.Some? && stands then w.(status := Released, releasedAt := Some(w.deadline))
    else if w.status.Pending? then
      w.(status := Extended, evidence := None, deadline := w.deadline + w.extensionMs, revision := w.revision + 1)
    else w.(status := Held, evidence := None)
  }

  function Delivered(w: Window, e: Evidence): Window {
    if w.evidence.Some? then w else w.(evidence := Some(e))
  }

  predicate Names(w: Window, deviceId: string) {
    w.evidence.Some? && w.evidence.value.deviceId == deviceId
  }

  /** Revoking a device ticks first, then clears evidence it left on an open window. */
  function EvidenceRevoked(w: Window, deviceId: string, now: int, stands: bool): Window {
    var t := Ticked(w, now, stands);
    if IsOpen(t) && Names(t, deviceId) then t.(evidence := None) else t
  }

  predicate CanVeto(w: Window) {
    !w.status.Vetoed? && (w.purpose.Some? || IsOpen(w))
  }

  function VetoedBy(w: Window, who: string): Window {
    w.(status := Vetoed, vetoedBy := Some(who))
  }

  predicate CanApprove(w: Window) {
    !w.status.Vetoed? && w.approval.None?
  }

  function ApprovedBy(w: Window, who: string, epoch: int, now: int): Window {
    w.(approval := Some(Approval(who, now, epoch)))
  }

  class VetoWindow {
    const call: Call
    const killEpoch: int
    const purpose: Option<Purpose>
    const extensionMs: int
    var status: VetoStatus
    var delivered: bool
    var deliveredByDevice: Option<string>
    var deliveredByGeneration: Option<int>
    var deliveredAt: Option<int>
    var revision: int
    var deadline: int
    var releasedAt: Option<int>
    var approvedByOwner: Option<string>
    var approvedAt: Option<int>
    var approvalEpoch: Option<int>
    var vetoedBy: Option<string>

    /** The evidence triple is recorded and cleared as one. */
    predicate Valid()
      reads this
    {
      && deliveredByDevice.Some? == deliveredByGeneration.Some? == deliveredAt.Some? == delivered
      && approvedByOwner.Some? == approvedAt.Some? == approvalEpoch.Some?
    }

    function Value(): Window
      requires Valid()
      reads this
    {
      Window(call, purpose, killEpoch, extensionMs, status,
             if delivered
             then Some(Evidence(deliveredByDevice.value, deliveredByGeneration.value, deliveredAt.value))
             else None,
             revision, deadline, releasedAt,
             if approvedByOwner.Some?
             then Some(Approval(approvedByOwner.value, approvedAt.value, approvalEpoch.value))
             else None,
             vetoedBy)
    }

    constructor (call: Call, killEpoch: int, purpose: Option<Purpose>, windowMs: int, extensionMs: int, now: int)
      ensures Valid()
      ensures Value() == Opened(call, purpose, killEpoch, windowMs, extensionMs, now)
    {
      this.call, this.killEpoch, this.purpose, this.extensionMs := call, killEpoch, purpose, extensionMs;
      status, delivered, revision, deadline := Pending, false, 1, now + windowMs;
      deliveredByDevice, deliveredByGeneration, deliveredAt := None, None, None;
      releasedAt, approvedByOwner, approvedAt, approvalEpoch, vetoedBy := None, None, None, None, None;
    }

    method ClearEvidence()
      requires Valid()
      modifies this`delivered, this`deliveredByDevice, this`deliveredByGeneration, this`deliveredAt
      ensures Valid() && Value() == old(Value()).(evidence := None)
    {
      delivered := false;
      deliveredByDevice, deliveredByGeneration, deliveredAt := None, None, None;
    }

    method MarkDelivered(deviceId: string, generation: int, now: int)
      requires Valid()
      modifies this`delivered, this`deliveredByDevice, this`deliveredByGeneration, this`deliveredAt
      ensures Valid() && Value() == Delivered(old(Value()), Evidence(deviceId, generation, now))
      ensures delivered
      ensures if old(delivered)
              then (deliveredByDevice, deliveredAt) == (old(deliveredByDevice), old(deliveredAt))
              else (deliveredByDevice, deliveredAt) == (Some(deviceId), Some(now))
    {
      if !delivered {
        delivered := true;
        deliveredByDevice, deliveredByGeneration, deliveredAt := Some(deviceId), Some(generation), Some(now);
      }
    }

    method Tick(now: int, stands: bool) returns (r: VetoStatus)
      requires Valid()
      modifies this
      ensures Valid() && Value() == Ticked(old(Value()), now, stands)
      ensures r == status
    {
      if status != Pending && status != Extended {
        return status;
      }
      if now < deadline {
        return status;
      }
      if delivered && !stands {
        ClearEvidence();
      }
      if delivered {
        status := Released;
        releasedAt := Some(deadline);
      } else if status == Pending {
        status := Extended;
        deadline := deadline + extensionMs;
        revision := revision + 1;
      } else {
        status := Held;
      }
      return status;
    }

    method RevokeDeliveryEvidence(deviceId: string, now: int, stands: bool) returns (cleared: bool)
      requires Valid()
      modifies this
      ensures Valid() && Value() == EvidenceRevoked(old(Value()), deviceId, now, stands)
      ensures cleared <==>
                IsOpen(Ticked(old(Value()), now, stands))
                && Names(Ticked(old(Value()), now, stands), deviceId)
    {
      var reached := Tick(now, stands);
      if reached != Pending && reached != Extended {
        return false;
      }
      if !delivered || deliveredByDevice != Some(deviceId) {
        return false;
      }
      ClearEvidence();
      return true;
    }

    method Veto(who: string) returns (r: Result<()>)
      requires Valid()
      modifies this`status, this`vetoedBy
      ensures Valid()
      ensures r.Ok? <==> old(status) != Vetoed && (purpose.Some? || old(status) in {Pending, Extended})
      ensures r.Ok? ==> status == Vetoed && vetoedBy == Some(who)
      ensures r.Err? ==> status == old(status) && vetoedBy == old(vetoedBy)
      ensures r.Ok? == CanVeto(old(Value()))
      ensures Value() == if r.Ok? then VetoedBy(old(Value()), who) else old(Value())
    {
      if status == Vetoed {
        return Err;
      }
      if purpose == None && status != Pending && status != Extended {
        return Err;
      }
      status := Vetoed;
      vetoedBy := Some(who);
      return Ok(());
    }

    method Approve(who: string, epoch: int, now: int) returns (r: Result<()>)
      requires Valid()
      modifies this`approvedByOwner, this`approvedAt, this`approvalEpoch
      ensures Valid()
      ensures r.Ok? <==> old(status) != Vetoed && old(approvedByOwner).None?
      ensures r.Ok? ==> (approvedByOwner, approvedAt, approvalEpoch) == (Some(who), Some(now), Some(epoch))
      ensures r.Ok? == CanApprove(old(Value()))
      ensures Value() == if r.Ok? then ApprovedBy(old(Value()), who, epoch, now) else old(Value())
    {
      if status == Vetoed || approvedByOwner != None {
        return Err;
      }
      approvedByOwner := Some(who);
      approvedAt := Some(now);
      approvalEpoch := Some(epoch);
      return Ok(());
    }
  }

  // ---- lazy polling against the eager timeline ------------------------------------

  /** A reader's poll, or an ack request minted for one revision of the showing. */
  datatype Visit = Poll(at: int) | Ack(at: int, revision: int, deviceId: string, generation: int)

  /** How POST /veto/:id/seen treats the window; everything but timing is in order. */
  function Seen(w: Window, v: Visit, stands: bool): Window
    requires v.Ack?
  {
    var t := Ticked(w, v.at, stands);
    if w.evidence.Some? then t
    else if IsOpen(t) && v.revision == t.revision && v.at <= t.deadline - MIN_VETO_RESPONSE_MS
    then Delivered(t, Evidence(v.deviceId, v.generation, v.at))
    else t
  }

  function Visited(w: Window, v: Visit, stands: bool): Window {
    if v.Poll? then Ticked(w, v.at, stands) else Seen(w, v, stands)
  }

  function VisitAll(w: Window, vs: seq<Visit>, stands: bool): Window {
    if |vs| == 0 then w
    else Visited(VisitAll(w, vs[..|vs| - 1], stands), vs[|vs| - 1], stands)
  }

  predicate Chronological(from: int, vs: seq<Visit>) {
    && (forall i :: 0 <= i < |vs| ==> from <= vs[i].at)
    && (forall i, j :: 0 <= i < j < |vs| ==> vs[i].at <= vs[j].at)
  }

  /** Was some ack for this revision made inside [from, to]? */
  predicate AckedWithin(vs: seq<Visit>, revision: int, from: int, to: int) {
    exists i :: 0 <= i < |vs| && vs[i].Ack? && vs[i].revision == revision && from <= vs[i].at <= to
  }

  datatype Outcome = Outcome(status: VetoStatus, revision: int, deadline: int, releasedAt: Option<int>)

  function OutcomeOf(w: Window): Outcome {
    Outcome(w.status, w.revision, w.deadline, w.releasedAt)
  }

  /**
   * The eager timeline: what a clock-driven window opened at `start` shows at
   * `now`, as a closed form of the ack times alone.
   */
  function Timeline(start: int, windowMs: int, extensionMs: int, vs: seq<Visit>, stands: bool, now: int): Outcome {
    var first := start + windowMs;
    var second := first + extensionMs;
    var early := stands && AckedWithin(vs, 1, start, first - MIN_VETO_RESPONSE_MS);
    var late := stands && AckedWithin(vs, 2, first, second - MIN_VETO_RESPONSE_MS);
    if now < first then Outcome(Pending, 1, first, None)
    else if early then Outcome(Released, 1, first, Some(first))
    else if now < second then Outcome(Extended, 2, second, None)
    else if late then Outcome(Released, 2, second, Some(second))
    else Outcome(Held, 2, second, None)
  }

  /** How far a lazily read window may lag behind its timeline. */
  predicate Lagging(w: Window, start: int, windowMs: int, vs: seq<Visit>, stands: bool, now: int) {
    var first := start + windowMs;
    var second := first + w.extensionMs;
    var early := AckedWithin(vs, 1, start, first - MIN_VETO_RESPONSE_MS);
    var late := AckedWithin(vs, 2, first, second - MIN_VETO_RESPONSE_MS);
    match w.status
    case Pending =>
      OutcomeOf(w) == Outcome(Pending, 1, first, None) && !late && w.evidence.Some? == early
    case Extended =>
      && first <= now && !(stands && early)
      && OutcomeOf(w) == Outcome(Extended, 2, second, None)
      && (stands ==> w.evidence.Some? == late)
    case Held =>
      second <= now && !(stands && early) && !(stands && late) && OutcomeOf(w) == Outcome(Held, 2, second, None)
    case Released =>
      && stands
      && (if early then first <= now && OutcomeOf(w) == Outcome(Released, 1, first, Some(first))
          else late && second <= now && OutcomeOf(w) == Outcome(Released, 2, second, Some(second)))
    case Vetoed => false
  }

  lemma AckedWithinGrows(vs: seq<Visit>, v: Visit, revision: int, from: int, to: int)
    ensures AckedWithin(vs + [v], revision, from, to)
            <==> AckedWithin(vs, revision, from, to) || (v.Ack? && v.revision == revision && from <= v.at <= to)
  {
    var all := vs + [v];
    assert all[|vs|] == v;
    if AckedWithin(vs, revision, from, to) {
      var i :| 0 <= i < |vs| && vs[i].Ack? && vs[i].revision == revision && from <= vs[i].at <= to;
      assert all[i] == vs[i];
    }
  }

  lemma LaggingStep(w: Window, start: int, windowMs: int, vs: seq<Visit>, v: Visit, stands: bool, now: int)
    requires windowMs >= 0 && w.extensionMs >= 0
    requires Lagging(w, start, windowMs, vs, stands, now) && start <= now <= v.at
    ensures Lagging(Visited(w, v, stands), start, windowMs, vs + [v], stands, v.at)
  {
    var first := start + windowMs;
    AckedWithinGrows(vs, v, 1, start, first - MIN_VETO_RESPONSE_MS);
    AckedWithinGrows(vs, v, 2, first, first + w.extensionMs - MIN_VETO_RESPONSE_MS);
  }

  lemma {:induction false} LaggingRun(w: Window, start: int, windowMs: int, vs: seq<Visit>, stands: bool)
    requires windowMs >= 0 && w.extensionMs >= 0 && Chronological(start, vs)
    requires OutcomeOf(w) == Outcome(Pending, 1, start + windowMs, None) && w.evidence.None?
    ensures VisitAll(w, vs, stands).extensionMs == w.extensionMs
    ensures Lagging(VisitAll(w, vs, stands), start, windowMs, vs, stands, if |vs| == 0 then start else vs[|vs| - 1].at)
    decreases |vs|
  {
    if |vs| > 0 {
      var n := |vs| - 1;
      LaggingRun(w, start, windowMs, vs[..n], stands);
      LaggingStep(VisitAll(w, vs[..n], stands), start, windowMs, vs[..n], vs[n], stands,
                  if n == 0 then start else vs[n - 1].at);
      assert vs == vs[..n] + [vs[n]];
    }
  }

  /**
   * Lazy equals eager: however rarely or often the window was polled, two
   * ticks bring it to the closed form of its ack times.
   */
  lemma TwoTicksReachTimeline(
    call: Call, purpose: Option<Purpose>, epoch: int, windowMs: int, extensionMs: int, start: int,
    vs: seq<Visit>, stands: bool, now: int)
    requires windowMs >= 0 && extensionMs >= 0 && Chronological(start, vs) && start <= now
    requires |vs| > 0 ==> vs[|vs| - 1].at <= now
    ensures var w := VisitAll(Opened(call, purpose, epoch, windowMs, extensionMs, start), vs, stands);
            OutcomeOf(Ticked(Ticked(w, now, stands), now, stands))
            == Timeline(start, windowMs, extensionMs, vs, stands, now)
  {
    LaggingRun(Opened(call, purpose, epoch, windowMs, extensionMs, start), start, windowMs, vs, stands);
  }


  /** Two polling schedules with the same ack requests settle alike. */
  lemma SchedulesAgree(
    call: Call, purpose: Option<Purpose>, epoch: int, windowMs: int, extensionMs: int, start: int,
    vs: seq<Visit>, us: seq<Visit>, stands: bool, now: int)
    requires windowMs >= 0 && extensionMs >= 0 && start <= now
    requires Chronological(start, vs) && Chronological(start, us)
    requires (|vs| > 0 ==> vs[|vs| - 1].at <= now) && (|us| > 0 ==> us[|us| - 1].at <= now)
    requires forall v: Visit :: v.Ack? ==> (v in vs <==> v in us)
    ensures var w := Opened(call, purpose, epoch, windowMs, extensionMs, start);
            OutcomeOf(Ticked(Ticked(VisitAll(w, vs, stands), now, stands), now, stands))
            == OutcomeOf(Ticked(Ticked(VisitAll(w, us, stands), now, stands), now, stands))
  {
    TwoTicksReachTimeline(call, purpose, epoch, windowMs, extensionMs, start, vs, stands, now);
    TwoTicksReachTimeline(call, purpose, epoch, windowMs, extensionMs, start, us, stands, now);
    forall r, a, b
      ensures AckedWithin(vs, r, a, b) <==> AckedWithin(us, r, a, b)
    {
      if i :| 0 <= i < |vs| && vs[i].Ack? && vs[i].revision == r && a <= vs[i].at <= b {
        assert vs[i] in us;
      }
      if i :| 0 <= i < |us| && us[i].Ack? && us[i].revision == r && a <= us[i].at <= b {
        assert us[i] in vs;
      }
    }
  }
}
