/**
 * When a request succeeds, and with what answer: the authority a handler acts
 * on is exactly what the trace of accepted requests says it is.
 */
module ProtocolAnswers {
  import opened Wrappers
  import opened VetoWindows
  import opened Protocol
  import opened ProtocolWindows
  import opened ProtocolGrants

  // ---- the trace and the state say the same ----------------------------------------------------

  /** The epoch noted at position j is the present one exactly while no kill came since. */
  ghost predicate Dated(s: State, j: int, epoch: int) {
    epoch <= s.kill.epoch && (epoch == s.kill.epoch <==> KillFree(s.history, j))
  }

  ghost predicate FactHolds(s: State, j: int)
    requires 0 <= j < |s.history|
  {
    match s.history[j]
    case Registered(at, id, call, purpose) =>
      id in s.windows && s.windows[id].call == call && s.windows[id].purpose == purpose
      && Dated(s, j, s.windows[id].killEpoch)
    case Approved(at, id, owner, signed) =>
      id in s.windows && s.windows[id].approval.Some? && s.windows[id].approval.value.owner == owner
      && s.windows[id].approval.value.at == at && Dated(s, j, s.windows[id].approval.value.epoch)
    case GrantMinted(at, id, jti) => jti in s.grants.minted && s.grants.minted[jti] == id
    case Committed(at, id, jti) => jti in s.grants.committed && jti in s.grants.minted && s.grants.minted[jti] == id
    case _ => true
  }

  ghost predicate RegisteredAs(h: seq<Fact>, j: int, id: string) {
    0 <= j < |h| && h[j].Registered? && h[j].windowId == id
  }

  ghost predicate ApprovedAs(h: seq<Fact>, j: int, id: string) {
    0 <= j < |h| && h[j].Approved? && h[j].windowId == id
  }

  ghost predicate MintedAs(h: seq<Fact>, j: int, id: string, jti: string) {
    0 <= j < |h| && h[j].GrantMinted? && h[j].windowId == id && h[j].jti == jti
  }

  ghost predicate CommittedAs(h: seq<Fact>, j: int, jti: string) {
    0 <= j < |h| && h[j].Committed? && h[j].jti == jti
  }

  /** Nothing in the state without the fact that put it there. */
  ghost predicate Recorded(s: State) {
    && (forall id :: id in s.windows ==> exists j :: RegisteredAs(s.history, j, id))
    && (forall id :: id in s.windows && s.windows[id].approval.Some? ==> exists j :: ApprovedAs(s.history, j, id))
    && (forall jti :: jti in s.grants.minted ==> exists j :: MintedAs(s.history, j, s.grants.minted[jti], jti))
    && (forall jti :: jti in s.grants.committed ==> exists j :: CommittedAs(s.history, j, jti))
  }

  ghost predicate AnswersInv(s: State) {
    (forall j :: 0 <= j < |s.history| ==> FactHolds(s, j)) && Recorded(s)
  }

  lemma RecordStays(h: seq<Fact>, h': seq<Fact>)
    requires |h| <= |h'| && h'[..|h|] == h
    ensures forall j, id :: RegisteredAs(h, j, id) ==> RegisteredAs(h', j, id)
    ensures forall j, id :: ApprovedAs(h, j, id) ==> ApprovedAs(h', j, id)
    ensures forall j, id, jti :: MintedAs(h, j, id, jti) ==> MintedAs(h', j, id, jti)
    ensures forall j, jti :: CommittedAs(h, j, jti) ==> CommittedAs(h', j, jti)
  {
    assert forall k :: 0 <= k < |h| ==> h'[k] == h[k];
  }

  lemma StillDated(s: State, s': State, j: int, epoch: int)
    requires 0 <= j < |s.history| && Dated(s, j, epoch) && s.kill.epoch <= s'.kill.epoch
    requires |s.history| <= |s'.history| && s'.history[..|s.history|] == s.history
    requires s.kill.epoch == s'.kill.epoch <==> KillFree(s'.history, |s.history|)
    ensures Dated(s', j, epoch)
  {
    assert forall k :: 0 <= k < |s.history| ==> s'.history[k] == s.history[k];
    if KillFree(s'.history, j) {
      assert KillFree(s.history, j);
    }
  }

  lemma DriftKeepsFact(s: State, s': State, j: int)
    requires Drifts(s, s') && 0 <= j < |s.history| && FactHolds(s, j)
    ensures FactHolds(s', j)
  {
    assert s'.history[j] == s.history[j];
    if s.history[j].Registered? {
      StillDated(s, s', j, s.windows[s.history[j].windowId].killEpoch);
    } else if s.history[j].Approved? {
      StillDated(s, s', j, s.windows[s.history[j].windowId].approval.value.epoch);
    }
  }

  lemma DriftKeepsAnswers(s: State, s': State)
    requires AnswersInv(s) && Drifts(s, s')
    ensures AnswersInv(s')
  {
    forall j | 0 <= j < |s'.history|
      ensures FactHolds(s', j)
    {
      if j < |s.history| {
        DriftKeepsFact(s, s', j);
      }
    }
    RecordStays(s.history, s'.history);
  }

  /** One more fact that is no kill: what was dated stays dated. */
  lemma DatedAfter(s: State, s': State, j: int, epoch: int)
    requires 0 <= j < |s.history| && Dated(s, j, epoch) && s'.kill == s.kill
    requires |s'.history| == |s.history| + 1 && s'.history[..|s.history|] == s.history
    requires !s'.history[|s.history|].Killed?
    ensures Dated(s', j, epoch)
  {
    StillDated(s, s', j, epoch);
  }

  /** A new fact, with what it puts into the state. */
  ghost predicate Adds(s: State, s': State) {
    && s'.kill == s.kill && |s'.history| == |s.history| + 1 && s'.history[..|s.history|] == s.history
    && match s'.history[|s.history|]
       case Registered(at, id, call, purpose) =>
         && id !in s.windows && s'.grants == s.grants && id in s'.windows
         && s'.windows == s.windows[id := s'.windows[id]]
         && s'.windows[id].call == call && s'.windows[id].purpose == purpose
         && s'.windows[id].killEpoch == s.kill.epoch && s'.windows[id].approval.None?
       case Approved(at, id, owner, signed) =>
         && id in s.windows && s.windows[id].approval.None? && s'.grants == s.grants
         && s'.windows == s.windows[id := s.windows[id].(approval := Some(Approval(owner, at, s.kill.epoch)))]
       case GrantMinted(at, id, jti) =>
         && s'.windows == s.windows && jti !in s.grants.minted && s'.grants.minted == s.grants.minted[jti := id]
         && s'.grants.committed == s.grants.committed
       case Committed(at, id, jti) =>
         && s'.windows == s.windows && jti in s.grants.minted && s.grants.minted[jti] == id
         && s'.grants == s.grants.(committed := s.grants.committed + {jti})
       case Killed(_, _) => false
       case _ => s'.windows == s.windows && s'.grants == s.grants
  }

  lemma AddKeepsFact(s: State, s': State, j: int)
    requires Adds(s, s') && 0 <= j < |s.history| && FactHolds(s, j)
    ensures FactHolds(s', j)
  {
    assert s'.history[j] == s.history[j];
    if s.history[j].Registered? {
      DatedAfter(s, s', j, s.windows[s.history[j].windowId].killEpoch);
    } else if s.history[j].Approved? {
      DatedAfter(s, s', j, s.windows[s.history[j].windowId].approval.value.epoch);
    }
  }

  lemma AddKeepsAnswers(s: State, s': State)
    requires AnswersInv(s) && Adds(s, s')
    ensures AnswersInv(s')
  {
    var n, h' := |s.history|, s'.history;
    forall j | 0 <= j < |h'|
      ensures FactHolds(s', j)
    {
      if j < n {
        AddKeepsFact(s, s', j);
      }
    }
    AddKeepsRecords(s, s');
  }

  lemma AddKeepsRecords(s: State, s': State)
    requires Recorded(s) && Adds(s, s')
    ensures Recorded(s')
  {
    var n, f := |s.history|, s'.history[|s.history|];
    RecordStays(s.history, s'.history);
    match f
    case Registered(_, id, _, _) => assert RegisteredAs(s'.history, n, id);
    case Approved(_, id, _, _) => assert ApprovedAs(s'.history, n, id);
    case GrantMinted(_, id, jti) => assert MintedAs(s'.history, n, id, jti);
    case Committed(_, id, jti) => assert CommittedAs(s'.history, n, jti);
    case _ =>
  }

  // ---- every step ---------------------------------------------------------------------------------

  lemma RegisterAnswers(s: State, e: Event)
    requires AnswersInv(s) && e.Register? && e.id !in s.windows
    ensures AnswersInv(HandleWindows(s, e).0)
  {
    hide AnswersInv;
    var s' := HandleWindows(s, e).0;
    if s' != s {
      AddKeepsAnswers(s, s');
    }
  }

  lemma ReadAnswers(s: State, e: Event)
    requires AnswersInv(s) && e.ReadVeto? && e.jti !in s.grants.minted
    ensures AnswersInv(HandleWindows(s, e).0)
  {
    hide AnswersInv, Drifts;
    var s' := HandleWindows(s, e).0;
    if e.id in s.windows {
      var s1 := s.(windows := s.windows[e.id := TickedIn(s, s.windows[e.id])]);
      OneWindowDrifts(s, s1, e.id);
      DriftKeepsAnswers(s, s1);
      if s' != s1 {
        AddKeepsAnswers(s1, s');
      }
    }
  }

  lemma CommitAnswers(s: State, jti: string)
    requires AnswersInv(s)
    ensures AnswersInv(DoCommit(s, jti).0)
  {
    hide AnswersInv;
    if CommitAllowed(s, jti) {
      AddKeepsAnswers(s, DoCommit(s, jti).0);
    }
  }

  lemma ApproveAnswers(s: State, id: string, owner: string, signed: Option<string>)
    requires AnswersInv(s)
    ensures AnswersInv(DoApprove(s, id, owner, signed).0)
  {
    hide AnswersInv, Drifts, ApprovalSigned;
    var s' := DoApprove(s, id, owner, signed).0;
    var dropped := s.(approvals := s.approvals - {id});
    ApprovalGone(s, id);
    DriftKeepsAnswers(s, dropped);
    if |s'.history| > |s.history| {
      if s.cfg.passkey {
        AddKeepsAnswers(dropped, s');
      } else {
        AddKeepsAnswers(s, s');
      }
    }
  }

  lemma ChallengeAnswers(s: State, request: string, challenge: string, rendered: bool)
    requires AnswersInv(s)
    ensures AnswersInv(DoApprovalChallengeFinish(s, request, challenge, rendered).0)
  {
    hide AnswersInv;
    var s' := DoApprovalChallengeFinish(s, request, challenge, rendered).0;
    if |s'.history| > |s.history| {
      AddKeepsAnswers(s, s');
    } else {
      SameAnswers(s, s');
    }
  }

  lemma SameAnswers(s: State, s': State)
    requires AnswersInv(s) && s'.history == s.history && s'.windows == s.windows
    requires s'.grants == s.grants && s'.kill == s.kill
    ensures AnswersInv(s')
  {
    forall j | 0 <= j < |s'.history|
      ensures FactHolds(s', j)
    {
      assert FactHolds(s, j);
    }
  }

  lemma StepKeepsAnswers(s0: State, e: Event, now: int)
    requires AnswersInv(s0) && Enabled(s0, e, now)
    ensures AnswersInv(Step(s0, e, now).0)
  {
    hide AnswersInv, HandleWindows, HandleSwitch, HandleDevices;
    hide DoApprove, DoCommit, DoApprovalChallengeStart, DoApprovalChallengeFinish;
    var s := s0.(clock := now);
    SameAnswers(s0, s);
    if e.Register? {
      RegisterAnswers(s, e);
    } else if e.ReadVeto? {
      ReadAnswers(s, e);
    } else if e.Commit? {
      CommitAnswers(s, e.jti);
    } else if e.Approve? {
      ApproveAnswers(s, e.id, e.owner, e.signed);
    } else if e.ApprovalChallengeFinish? {
      ChallengeAnswers(s, e.request, e.challenge, e.rendered);
    } else {
      OthersDrift(s, e);
      DriftKeepsAnswers(s, Handle(s, e).0);
    }
  }

  lemma {:induction false} RunKeepsAnswers(ss: seq<State>, es: seq<Timed>, i: nat)
    requires Run(ss, es) && i < |ss|
    ensures AnswersInv(ss[i])
  {
    hide Step, Enabled;
    if i == 0 {
      NothingRecorded(ss[0]);
    } else {
      RunKeepsAnswers(ss, es, i - 1);
      StepKeepsAnswers(ss[i - 1], es[i - 1].event, es[i - 1].now);
    }
  }

  lemma NothingRecorded(s: State)
    requires Init(s)
    ensures AnswersInv(s)
  {
  }
}
