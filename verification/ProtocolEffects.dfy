/**
 * What a registration, a kill, a revocation and an enrolment change, and what
 * they leave alone: for good where it is for good, and nobody else's.
 */
module ProtocolEffects {
  import opened Wrappers
  import opened VetoWindows
  import opened KillStateFile
  import opened Protocol
  import opened ProtocolWindows
  import opened ProtocolGrants
  import opened ProtocolAnswers
  import opened ProtocolTheorems
  import opened ProtocolLaws
  import opened ProtocolRestores
  import opened ProtocolCeremonies

  // ---- registration --------------------------------------------------------------------------------

  /**
   * A call is held exactly when its agent is well named and not killed, and a
   * merge only when it parses; it then waits four minutes unacknowledged,
   * unapproved and under the epoch in force, and no other window changes.
   */
  lemma RegisteredExactly(ss: seq<State>, es: seq<Timed>, i: nat)
    requires Run(ss, es) && i < |es| && es[i].event.Register?
    ensures var s, s', e, now := ss[i], ss[i + 1], es[i].event, es[i].now;
            && (AnswerAt(ss, es, i) == Showing(Pending)
                <==> && IsValidAgentId(e.call.agentId) && e.call.agentId !in s.kill.agents
                     && match e.purpose
                        case Some(MergePullRequest(_, argsParse)) => argsParse
                        case _ => true)
            && (AnswerAt(ss, es, i) == Showing(Pending) ==>
                  && s'.windows.Keys == s.windows.Keys + {e.id} && e.id !in s.windows
                  && (forall x :: x in s.windows ==> s'.windows[x] == s.windows[x])
                  && s'.windows[e.id]
                     == Window(e.call, e.purpose, s.kill.epoch, 360_000, Pending, None, 1, now + 240_000, None, None,
                               None)
                  && s'.history == s.history + [Registered(now, e.id, e.call, e.purpose)])
            && (AnswerAt(ss, es, i) != Showing(Pending) ==> s' == s.(clock := now))
            && s'.kill == s.kill && s'.lane == s.lane && s'.grants == s.grants
  {
  }

  // ---- kills ---------------------------------------------------------------------------------------

  /** The kill is scoped to the agent, or global: asked for so, or the table of killed agents being full. */
  function ScopeOf(kill: Kill, agentId: Option<string>): Option<string> {
    match agentId
    case Some(a) => if a in kill.agents || |kill.agents| < 64 then Some(a) else None
    case None => None
  }

  /** The epoch moves, the scope stops, every pending challenge is void, and the kill is on the record. */
  predicate Stops(s: State, s': State, at: int, scope: Option<string>) {
    && s'.kill.epoch == s.kill.epoch + 1 && s'.kill.consumed == s.kill.consumed
    && s'.kill.killed == (s.kill.killed || scope.None?)
    && s'.kill.agents == (if scope.Some? then s.kill.agents + {scope.value} else s.kill.agents)
    && s'.approvals == map[] && s'.ceremonies.challenges == map[]
    && |s'.history| > 0 && s'.history[|s'.history| - 1] == Killed(at, scope)
  }

  /** A kill is refused for a malformed agent id alone, whatever the state. */
  lemma KilledExactly(ss: seq<State>, es: seq<Timed>, i: nat)
    requires Run(ss, es) && i < |es| && es[i].event.EngageKill?
    ensures var s, s', agentId, now := ss[i], ss[i + 1], es[i].event.agentId, es[i].now;
            && (AnswerAt(ss, es, i) == Accepted <==> (agentId.Some? ==> IsValidAgentId(agentId.value)))
            && (AnswerAt(ss, es, i) == Accepted ==>
                  && Stops(s, s', now, ScopeOf(s.kill, agentId))
                  && s'.history == s.history + [Killed(now, ScopeOf(s.kill, agentId))]
                  && s'.kill.quarantineFailed == es[i].event.persistLost)
            && (AnswerAt(ss, es, i) != Accepted ==> s' == s.(clock := now))
            && s'.windows == s.windows && s'.lane == s.lane && s'.grants == s.grants
            && s'.ceremonies.records == s.ceremonies.records
  {
  }

  /** What the epoch says of the trace, wherever it was noted. */
  lemma NoApprovalIsFresh(s: State, a: int, k: int, id: string)
    requires AnswersInv(s) && ApprovedAs(s.history, a, id) && a < k < |s.history| && s.history[k].Killed?
    ensures forall b :: ApprovedAs(s.history, b, id) ==> !KillFree(s.history, b)
  {
    assert FactHolds(s, a);
    forall b | ApprovedAs(s.history, b, id)
      ensures !KillFree(s.history, b)
    {
      assert FactHolds(s, b);
    }
  }

  lemma NoRegistrationIsFresh(s: State, a: int, k: int, id: string)
    requires AnswersInv(s) && RegisteredAs(s.history, a, id) && a < k < |s.history| && s.history[k].Killed?
    ensures id in s.windows
    ensures forall b :: RegisteredAs(s.history, b, id) ==> !KillFree(s.history, b)
  {
    assert FactHolds(s, a);
    forall b | RegisteredAs(s.history, b, id)
      ensures !KillFree(s.history, b)
    {
      assert FactHolds(s, b);
    }
  }

  /** The kill accepted at i stands in every later trace, after all that was in the trace before it. */
  lemma KillStands(ss: seq<State>, es: seq<Timed>, i: nat, j: nat)
    requires Run(ss, es) && i < j < |ss| && es[i].event.EngageKill? && AnswerAt(ss, es, i) == Accepted
    ensures |ss[i].history| < |ss[j].history| && ss[j].history[|ss[i].history|].Killed?
    ensures ss[i].history <= ss[j].history
  {
    KilledExactly(ss, es, i);
    HistoryGrows(ss, es, i, j);
    HistoryGrows(ss, es, i + 1, j);
    assert ss[i + 1].history[|ss[i].history|] == ss[j].history[|ss[i].history|];
  }

  lemma MintedForOne(s: State, k: int, id: string, jti: string)
    requires AnswersInv(s) && MintedAs(s.history, k, id, jti)
    ensures forall x :: Committable(s, x, jti) ==> x == id
  {
    assert FactHolds(s, k);
    forall x | Committable(s, x, jti)
      ensures x == id
    {
      var l :| MintedAs(s.history, l, x, jti);
      assert FactHolds(s, l);
    }
  }

  /**
   * A kill, global or scoped, is forever against what was held or approved
   * before it: no restore brings back a release by silence, a grant or a
   * commit for a window registered, respectively approved, before.
   */
  lemma KillVoidsForGood(ss: seq<State>, es: seq<Timed>, i: nat, j: nat, id: string)
    requires Run(ss, es) && i < j < |es| && es[i].event.EngageKill? && AnswerAt(ss, es, i) == Accepted
    requires id in ss[i].windows
    ensures es[j].event.ReadVeto? && es[j].event.id == id ==> AnswerAt(ss, es, j) != Showing(Released)
    ensures EverApproved(ss[i].history, id) && es[j].event.ReadVeto? && es[j].event.id == id ==>
              !AnswerAt(ss, es, j).Grant?
    ensures EverApproved(ss[i].history, id) && es[j].event.Commit?
            && (exists k :: MintedAs(ss[j].history, k, id, es[j].event.jti)) ==>
              AnswerAt(ss, es, j) == CommitAnswer(false)
  {
    hide AnswersInv, KillFree, Step, Enabled;
    var s, cut := ss[j], |ss[i].history|;
    KillStands(ss, es, i, j);
    RunKeepsAnswers(ss, es, i);
    RunKeepsAnswers(ss, es, j);
    var r := RegistrationOf(ss[i], id);
    NoRegistrationIsFresh(s, r, cut, id);
    if EverApproved(ss[i].history, id) {
      var a :| ApprovedAs(ss[i].history, a, id);
      NoApprovalIsFresh(s, a, cut, id);
    }
    if es[j].event.ReadVeto? && es[j].event.id == id {
      if s.cfg.grants && IsMerge(s.windows[id]) {
        MergeReadExactly(ss, es, j);
      } else {
        PlainReadExactly(ss, es, j);
      }
    }
    if es[j].event.Commit? && exists k :: MintedAs(s.history, k, id, es[j].event.jti) {
      var k :| MintedAs(s.history, k, id, es[j].event.jti);
      MintedForOne(s, k, id, es[j].event.jti);
      CommittedExactly(ss, es, j);
    }
  }

  lemma RegistrationOf(s: State, id: string) returns (r: int)
    requires AnswersInv(s) && id in s.windows
    ensures RegisteredAs(s.history, r, id)
  {
    r :| RegisteredAs(s.history, r, id);
  }

  // ---- challenges ------------------------------------------------------------------------------------

  /** An approval challenge may be asked for exactly for a merge that is held, with no global kill in force. */
  lemma ApprovalAskedExactly(ss: seq<State>, es: seq<Timed>, i: nat)
    requires Run(ss, es) && i < |es| && es[i].event.ApprovalChallengeStart?
    ensures var s, s', e := ss[i], ss[i + 1], es[i].event;
            && (AnswerAt(ss, es, i) == Accepted
                <==> s.cfg.passkey && e.id in s.windows && IsMerge(s.windows[e.id]) && !s.kill.killed)
            && s' == s.(clock := es[i].now,
                        inFlight := if AnswerAt(ss, es, i) == Accepted
                                    then s.inFlight[e.request := ApprovalInFlight(e.id)] else s.inFlight)
  {
  }

  /**
   * A restore challenge may be asked for exactly for a ceremony of the owner
   * that no kill came after, its scope still stopped, and that the map holds:
   * it does while the ceremony is under five minutes old and unspent.
   */
  lemma RestoreAskedExactly(ss: seq<State>, es: seq<Timed>, i: nat)
    requires Run(ss, es) && i < |es| && es[i].event.RestoreChallengeStart?
    ensures var s, e := ss[i], es[i].event;
            && (AnswerAt(ss, es, i) == Accepted
                <==> && s.cfg.passkey && !s.kill.quarantineFailed && e.id in s.ceremonies.live
                     && exists j :: Alive(s, j, e.id) && s.history[j].owner == e.owner)
            && (forall j :: Spendable(s, es[i].now, j, e.id, e.owner) && e.owner != "" && e.id != "" ==>
                  e.id in s.ceremonies.live)
  {
    hide RestoresInv, RestoreTraceInv, CeremoniesInv, EverRestored;
    var s, e := ss[i], es[i].event;
    RunKeepsRestores(ss, es, i);
    RunKeepsCeremonies(ss, es, i);
    forall j | Alive(s, j, e.id)
      ensures e.id in s.ceremonies.records && s.ceremonies.records[e.id].epoch == s.kill.epoch
      ensures s.ceremonies.records[e.id].ceremony.ownerId == s.history[j].owner
      ensures s.ceremonies.records[e.id].agentId == s.history[j].agentId
      ensures Spendable(s, es[i].now, j, e.id, e.owner) && e.owner != "" && e.id != "" ==>
                e.id in s.ceremonies.live
    {
      AliveMeans(s, es[i].now, j, e.id);
    }
    if AnswerAt(ss, es, i) == Accepted {
      var j := LiveIsAlive(s, e.id);
    }
  }

  // ---- revocations ------------------------------------------------------------------------------------

  /** The request names a device of its kind that it can be answered for. */
  predicate Nameable(s: State, e: Event)
    requires e.RevokeStatic? || e.RevokeEnrolled?
  {
    && e.deviceId in s.lane.devices
    && var d := s.lane.devices[e.deviceId];
       if e.RevokeStatic? then !d.enrolled else d.enrolled && d.resolvable
  }

  /** A static device is revoked in memory; an enrolled one only once its registry has published it. */
  predicate TakesHold(e: Event)
    requires e.RevokeStatic? || e.RevokeEnrolled?
  {
    e.RevokeEnrolled? ==> e.published
  }

  function Out(d: Device, now: int): Device {
    Device(d.generation + 1, Some(now), d.enrolled, d.resolvable)
  }

  /**
   * What a revocation of a device that stands answers and does: accepted
   * exactly when it was published and exported durably, the system killed in
   * the same step whatever else failed, and the device out once published,
   * whatever the export did, with no other device changed.
   */
  predicate PutOut(s: State, e: Event, now: int, s': State, a: Answer)
    requires (e.RevokeStatic? || e.RevokeEnrolled?) && Nameable(s, e)
  {
    && a == (if TakesHold(e) && e.exported then Accepted else Refused(503))
    && (a == Accepted ==> s'.kill == s.kill && !s'.lane.quarantined)
    && (a != Accepted ==> Stops(s, s', now, None))
    && if TakesHold(e) then
         && s'.lane.quarantined == !e.exported
         && s'.lane.devices == s.lane.devices[e.deviceId := Out(s.lane.devices[e.deviceId], now)]
       else
         && s'.lane.devices.Keys == s.lane.devices.Keys
         && forall x :: x in s.lane.devices ==>
              var d := s.lane.devices[x]; s'.lane.devices[x] == d.(resolvable := d.resolvable && !d.enrolled)
  }

  /**
   * A repeated revocation changes no device. A static one retries the export
   * only while the lane is quarantined, and a failed retry leaves it so; an
   * enrolled one exports again each time, and stops everything when that fails.
   */
  predicate StaysOut(s: State, e: Event, now: int, s': State, a: Answer)
    requires e.RevokeStatic? || e.RevokeEnrolled?
  {
    && s'.lane.devices == s.lane.devices && s'.lane.quarantined == (a != Accepted)
    && a == (if e.exported || (e.RevokeStatic? && !s.lane.quarantined) then Accepted else Refused(503))
    && if a == Accepted || e.RevokeStatic? then s'.kill == s.kill && s'.history == s.history
       else Stops(s, s', now, None)
  }

  ghost predicate RevokedAs(s: State, e: Event, now: int, s': State, a: Answer)
    requires e.RevokeStatic? || e.RevokeEnrolled?
  {
    if !Nameable(s, e) then a == Refused(404) && s' == s.(clock := now)
    else if s.lane.devices[e.deviceId].revokedAt.None? then PutOut(s, e, now, s', a)
    else StaysOut(s, e, now, s', a)
  }

  lemma StaticRevokedAs(s: State, e: Event)
    requires e.RevokeStatic?
    ensures var (s', a) := DoRevokeStatic(s, e.deviceId, e.exported, e.persistLost); RevokedAs(s, e, s.clock, s', a)
  {
    hide Severed, PutOut, Exported;
    if Nameable(s, e) {
      SeveredOut(s, e);
    }
  }

  lemma EnrolledRevokedAs(s: State, e: Event)
    requires e.RevokeEnrolled?
    ensures var (s', a) := DoRevokeEnrolled(s, e.deviceId, e.published, e.exported, e.persistLost);
            RevokedAs(s, e, s.clock, s', a)
  {
    hide Severed, Cleansed, PutOut, StaysOut, Exported, Engage, Unresolved;
    if Nameable(s, e) && s.lane.devices[e.deviceId].revokedAt.Some? {
      ExportedAgain(s, e);
    } else if Nameable(s, e) && e.published {
      SeveredOut(s, e);
    } else if Nameable(s, e) {
      RegistryLostOut(s, e);
    }
  }

  lemma ExportedAgain(s: State, e: Event)
    requires e.RevokeEnrolled? && Nameable(s, e)
    ensures StaysOut(s, e, s.clock, Exported(Cleansed(s, e.deviceId), e.exported, e.persistLost),
                     if e.exported then Accepted else Refused(503))
  {
    hide Cleansed;
    CleansedSpares(s, e.deviceId);
  }

  lemma SeveredOut(s: State, e: Event)
    requires (e.RevokeStatic? || e.RevokeEnrolled?) && Nameable(s, e) && TakesHold(e)
    ensures PutOut(s, e, s.clock, Exported(Severed(s, e.deviceId), e.exported, e.persistLost),
                   if e.exported then Accepted else Refused(503))
  {
    hide Severed;
    SeveredSpares(s, e.deviceId);
  }

  lemma RegistryLostOut(s: State, e: Event)
    requires e.RevokeEnrolled? && Nameable(s, e) && !e.published
    ensures PutOut(s, e, s.clock, Engage(s.(lane := Unresolved(s.lane)), None, e.persistLost), Refused(503))
  {
  }

  /** Every revocation, static or enrolled, of any run. */
  lemma RevokedExactly(ss: seq<State>, es: seq<Timed>, i: nat)
    requires Run(ss, es) && i < |es| && (es[i].event.RevokeStatic? || es[i].event.RevokeEnrolled?)
    ensures RevokedAs(ss[i], es[i].event, es[i].now, ss[i + 1], AnswerAt(ss, es, i))
  {
    hide HandleWindows, HandleApprovals, HandleSwitch, Enabled, DoRevokeStatic, DoRevokeEnrolled, RevokedAs;
    var s, e := ss[i].(clock := es[i].now), es[i].event;
    if e.RevokeStatic? {
      StaticRevokedAs(s, e);
    } else {
      EnrolledRevokedAs(s, e);
    }
    SameButClock(ss[i], e, es[i].now, ss[i + 1], AnswerAt(ss, es, i));
  }

  lemma SameButClock(s: State, e: Event, now: int, s': State, a: Answer)
    requires e.RevokeStatic? || e.RevokeEnrolled?
    ensures RevokedAs(s.(clock := now), e, now, s', a) <==> RevokedAs(s, e, now, s', a)
  {
  }

  lemma CleansedSpares(s: State, id: string)
    ensures var s' := Cleansed(s, id);
            && s'.kill == s.kill && s'.history == s.history && s'.approvals == s.approvals && s'.cfg == s.cfg
            && s'.ceremonies == s.ceremonies && s'.grants == s.grants && s'.clock == s.clock
            && s'.lane.devices == s.lane.devices && s'.lane.quarantined == s.lane.quarantined
  {
  }

  lemma SeveredSpares(s: State, id: string)
    requires id in s.lane.devices
    ensures var s' := Severed(s, id);
            && s'.kill == s.kill && s'.approvals == s.approvals && s'.ceremonies == s.ceremonies
            && s'.cfg == s.cfg && s'.clock == s.clock && s'.history == s.history + [Revoked(s.clock, id)]
            && s'.lane.devices == s.lane.devices[id := Out(s.lane.devices[id], s.clock)]
            && s'.lane.quarantined == s.lane.quarantined
  {
  }

  /** A registry lost in the running process: no enrolled device signs or witnesses, the static ones stand as before. */
  lemma RegistryLostExactly(ss: seq<State>, es: seq<Timed>, i: nat)
    requires Run(ss, es) && i < |es| && es[i].event.RegistryLost?
    ensures var s, s' := ss[i], ss[i + 1];
            && s' == s.(clock := es[i].now, lane := s.lane.(devices := s'.lane.devices))
            && s'.lane.devices.Keys == s.lane.devices.Keys
            && forall x :: x in s.lane.devices ==>
                 var d := s.lane.devices[x]; s'.lane.devices[x] == d.(resolvable := d.resolvable && !d.enrolled)
  {
    hide HandleWindows, HandleApprovals, HandleSwitch;
  }

  /** What a clock reading leaves of a window whose witness stands or not. */
  predicate OnlyRead(s: State, now: int, w: Window, w': Window) {
    w' == Ticked(w, now, ReleasesNow(s, now, w))
  }

  /** The windows and deliveries after the device is severed. */
  ghost predicate Local(s: State, s': State, id: string, now: int) {
    && (forall k :: k in s'.lane.deliveries <==> k in s.lane.deliveries && s.lane.deliveries[k].deviceId != id)
    && (forall k :: k in s'.lane.deliveries ==> s'.lane.deliveries[k] == s.lane.deliveries[k])
    && s'.windows.Keys == s.windows.Keys
    && (forall x :: x in s.windows && !Names(s.windows[x], id) ==> OnlyRead(s, now, s.windows[x], s'.windows[x]))
    && (forall x :: x in s.windows && Names(s.windows[x], id) && IsOpen(s.windows[x]) ==>
          LosesWitness(s.windows[x], s'.windows[x], now))
  }

  /** A window whose witness was revoked: open for another, extended or held by the clock, never released. */
  predicate LosesWitness(w: Window, w': Window, now: int) {
    w'.evidence.None? && w'.status == if now < w.deadline then w.status
                                      else if w.status.Pending? then Extended else Held
  }

  lemma SeveredIsLocal(s: State, id: string)
    requires id in s.lane.devices
    ensures Local(s, Severed(s, id), id, s.clock)
  {
    hide IsOpen, Ticked, EvidenceRevoked, LosesWitness, Stands, OnlyRead, Names;
    var s' := Severed(s, id);
    var marked := s.(lane := s.lane.(devices := s.lane.devices[id := RevokedDevice(s.lane.devices[id], s.clock)]));
    forall x | x in s.windows
      ensures !Names(s.windows[x], id) ==> OnlyRead(s, s.clock, s.windows[x], s'.windows[x])
      ensures Names(s.windows[x], id) && IsOpen(s.windows[x]) ==>
                LosesWitness(s.windows[x], s'.windows[x], s.clock)
    {
      WindowAfterSevering(s, marked, id, s.windows[x]);
    }
  }

  lemma WindowAfterSevering(s: State, marked: State, id: string, w: Window)
    requires id in s.lane.devices && marked.kill == s.kill && marked.lane.quarantined == s.lane.quarantined
    requires marked.lane.devices == s.lane.devices[id := RevokedDevice(s.lane.devices[id], s.clock)]
    ensures var w' := EvidenceRevoked(w, id, s.clock, Stands(marked.kill, marked.lane, w));
            && (!Names(w, id) ==> OnlyRead(s, s.clock, w, w'))
            && (Names(w, id) && IsOpen(w) ==> LosesWitness(w, w', s.clock))
  {
  }

  /**
   * A revocation is the device's own matter: every delivery to another device
   * stays, and a window it did not acknowledge is merely read.
   */
  lemma RevocationIsLocal(ss: seq<State>, es: seq<Timed>, i: nat)
    requires Run(ss, es) && i < |es| && (es[i].event.RevokeStatic? || es[i].event.RevokeEnrolled?)
    requires Nameable(ss[i], es[i].event) && TakesHold(es[i].event)
    requires ss[i].lane.devices[es[i].event.deviceId].revokedAt.None?
    ensures Local(ss[i], ss[i + 1], es[i].event.deviceId, es[i].now)
  {
    hide HandleWindows, HandleApprovals, HandleSwitch, Enabled, Severed, Local;
    var s := ss[i].(clock := es[i].now);
    var s' := Severed(s, es[i].event.deviceId);
    SeveredIsLocal(s, es[i].event.deviceId);
    LocalSoFar(ss[i], s, s', ss[i + 1], es[i].event.deviceId, es[i].now);
  }

  /** The kill and the quarantine a failed export adds touch neither windows nor deliveries. */
  lemma LocalSoFar(s0: State, s: State, s': State, s1: State, id: string, now: int)
    requires s == s0.(clock := now) && Local(s, s', id, now)
    requires s1.windows == s'.windows && s1.lane.deliveries == s'.lane.deliveries
    ensures Local(s0, s1, id, now)
  {
    assert forall x :: x in s0.windows ==> ReleasesNow(s0, now, s0.windows[x]) == ReleasesNow(s, now, s.windows[x]);
  }

  // ---- enrolment --------------------------------------------------------------------------------------

  /** The static device goes with the enrolled key it is an alias of. */
  predicate Goes(d: Device) {
    !d.enrolled && d.revokedAt.None?
  }

  lemma {:induction false} SupersededExactly(s: State, aliases: seq<string>)
    ensures var s' := Superseded(s, aliases);
            && s'.lane.devices.Keys == s.lane.devices.Keys && s'.clock == s.clock
            && (forall x :: x in s.lane.devices ==>
                  s'.lane.devices[x]
                  == if x in aliases && Goes(s.lane.devices[x]) then Out(s.lane.devices[x], s.clock)
                     else s.lane.devices[x])
            && s'.kill == s.kill && s'.lane.quarantined == s.lane.quarantined
            && s'.approvals == s.approvals && s'.ceremonies == s.ceremonies
            && ((exists x :: x in aliases && x in s.lane.devices && Goes(s.lane.devices[x])) <==> s' != s)
            && s.history <= s'.history && (s' == s <==> s'.history == s.history)
  {
    if |aliases| > 0 {
      var front, id := aliases[..|aliases| - 1], aliases[|aliases| - 1];
      SupersededExactly(s, front);
      var before := Superseded(s, front);
      assert forall x :: x in aliases <==> x in front || x == id;
      if Supersedable(before, id) {
        SeveredSpares(before, id);
      }
    }
  }

  /**
   * An enrolment admits the phone at generation one and puts out exactly the
   * static devices named that still stood; when one did and the export failed,
   * everything stops, and otherwise nothing does.
   */
  lemma AdmittedExactly(ss: seq<State>, es: seq<Timed>, i: nat)
    requires Run(ss, es) && i < |es| && es[i].event.Admit?
    ensures var s, s', e, now := ss[i], ss[i + 1], es[i].event, es[i].now;
            var severs := exists x :: x in e.aliases && x in s.lane.devices && Goes(s.lane.devices[x]);
            && AnswerAt(ss, es, i) == Accepted
            && s'.lane.devices.Keys == s.lane.devices.Keys + {e.deviceId} && e.deviceId !in s.lane.devices
            && s'.lane.devices[e.deviceId] == Device(1, None, true, true)
            && (forall x :: x in s.lane.devices ==>
                  s'.lane.devices[x]
                  == if x in e.aliases && Goes(s.lane.devices[x]) then Out(s.lane.devices[x], now)
                     else s.lane.devices[x])
            && if severs && !e.exported
               then Stops(s, s', now, None) && s'.lane.quarantined
               else s'.kill == s.kill && s'.lane.quarantined == s.lane.quarantined
  {
    hide HandleWindows, HandleApprovals, HandleSwitch, Superseded;
    var s, e := ss[i].(clock := es[i].now), es[i].event;
    var s1 := s.(lane := s.lane.(devices := s.lane.devices[e.deviceId := Device(1, None, true, true)]));
    SupersededExactly(s1, e.aliases);
  }
}
