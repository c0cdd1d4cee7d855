/**
 * What the registry records of a phone: exactly what it enrolled with, under
 * the owner its invite was minted for, in every registry served from then on.
 */
module RegistryRecords {
  import opened Wrappers
  import opened Disk
  import opened RegistryFile
  import opened RegistryStore
  import opened DeviceRegistry
  import opened RegistryTheorems
  import Base64Url
  import I = Invites

  // ---- enrolment -----------------------------------------------------------------------------------

  /** The record is what the phone enrolled with, under the invite's owner and name. */
  predicate EnrolledWith(d: Device, step: Step, invite: I.InviteRecord)
    requires step.Commit?
  {
    && d.deviceId == step.deviceId && d.enrolledAt == step.when
    && d.ownerId == invite.contract.ownerId && d.deviceName == invite.contract.deviceName
    && d.credentialId == step.credential.credentialId
    && d.publicKeySpki == step.credential.publicKeySpki
    && d.cheapLaneKeySpki == step.credential.cheapLaneKeySpki
    && d.signCount == step.credential.signCount
    && d.transports == step.credential.transports && d.userHandle == step.credential.userHandle
  }

  /** What a committed enrolment has put into memory. */
  lemma CommitRecords(cfg: I.Config, w: World, step: Step, w': World)
    requires step.Commit? && step.outcome.Committed? && CommitStep(cfg, w, step, w')
    ensures w.mem.Some? && step.submission.inviteId in w.invites.live
    ensures w'.mem.Some? && step.deviceId in w'.mem.value.devices
    ensures var d, invite := w'.mem.value.devices[step.deviceId], w.invites.live[step.submission.inviteId];
            && EnrolledWith(d, step, invite) && d.generation == 1 && d.revokedAt.None?
            && w'.mem.value
               == w.mem.value.(devices := w.mem.value.devices[step.deviceId := d],
                               bootstrapGeneration := w'.mem.value.bootstrapGeneration)
            && w'.mem.value.bootstrapGeneration
               == w.mem.value.bootstrapGeneration + if invite.contract.origin.Bootstrap? then 1 else 0
  {
    I.EnrolledExactly(cfg, w.invites, step.when, step.submission, LiveWitness(w.mem.value, step.live));
  }

  /**
   * Every registry served after a committed enrolment, by any process,
   * whatever crashed in between, holds the phone with exactly the credential,
   * keys, counter, transports and handle it enrolled with, and the owner and
   * name of the invite it spent; only a revocation may have marked it since.
   */
  lemma EnrolledRecordStays(cfg: I.Config, ws: seq<World>, steps: seq<Step>, i: nat, j: nat)
    requires Run(cfg, ws, steps) && i < j < |ws| && ws[j].mem.Some?
    requires steps[i].Commit? && steps[i].outcome.Committed?
    ensures steps[i].submission.inviteId in ws[i].invites.live
    ensures steps[i].deviceId in ws[j].mem.value.devices
    ensures var d := ws[j].mem.value.devices[steps[i].deviceId];
            && EnrolledWith(d, steps[i], ws[i].invites.live[steps[i].submission.inviteId])
            && d.generation == if d.revokedAt.Some? then 2 else 1
  {
    hide Next, CommitStep;
    StepOf(cfg, ws, steps, i);
    CommitRecords(cfg, ws[i], steps[i], ws[i + 1]);
    GrownSince(cfg, ws, steps, i + 1, j);
  }

  lemma StepOf(cfg: I.Config, ws: seq<World>, steps: seq<Step>, i: nat)
    requires Run(cfg, ws, steps) && i < |steps|
    ensures i + 1 < |ws|
    ensures steps[i].Commit? ==> CommitStep(cfg, ws[i], steps[i], ws[i + 1])
    ensures steps[i].Revoke? ==> RevokeStep(ws[i], steps[i].id, steps[i].revokedAt, steps[i].size, steps[i].result,
                                            ws[i + 1])
    ensures steps[i].Mint? ==> MintStep(cfg, ws[i], steps[i], ws[i + 1])
  {
    assert Next(cfg, ws[i], steps[i], ws[i + 1]);
  }

  lemma GrownSince(cfg: I.Config, ws: seq<World>, steps: seq<Step>, i: nat, j: nat)
    requires Run(cfg, ws, steps) && i <= j < |ws| && ws[i].mem.Some? && ws[j].mem.Some?
    ensures Grows(ws[i].mem.value, ws[j].mem.value)
  {
    SinceUsable(cfg, ws, steps, i, j);
    RunKeepsBacking(cfg, ws, steps, j);
    MemorySince(ws[j], ws[i].mem.value);
  }

  /** No phone anywhere in the history shares a credential or a cheap-lane key with this one. */
  predicate Fresh(r: Registry, c: Credential) {
    forall id :: id in r.devices ==>
      r.devices[id].credentialId != c.credentialId && r.devices[id].cheapLaneKeySpki.text != c.cheapLaneKeySpki.text
  }

  /** The invite's origin still vouches: an empty registry of its generation, or its issuer as it stood. */
  predicate OriginVouches(r: Registry, origin: I.Origin) {
    match origin
    case Bootstrap(g) => g == r.bootstrapGeneration && forall id :: id in r.devices ==> r.devices[id].revokedAt.Some?
    case ByDevice(id, g) =>
      id in r.devices && r.devices[id].revokedAt.None? && r.devices[id].generation == g
  }

  /** The invite is live, and every secret and fact it was minted with still holds. */
  predicate Spendable(cfg: I.Config, w: World, step: Step)
    requires step.Commit? && w.mem.Some?
  {
    var s := step.submission;
    && s.wellFormed && s.inviteId in w.invites.live && step.when < w.invites.live[s.inviteId].expiresAt
    && s.proofs(w.invites.live[s.inviteId])
    && var c := w.invites.live[s.inviteId].contract;
       && s.deviceName == c.deviceName && c.killEpoch == step.live.epoch && !step.live.killed
       && 22 <= |s.token| <= 128 && Base64Url.Canonical(s.token) && cfg.digest(s.token) == c.tokenHash
       && OriginVouches(w.mem.value, c.origin)
  }

  lemma NoneActive(devices: map<string, Device>)
    ensures |Active(devices)| == 0 <==> forall id :: id in devices ==> devices[id].revokedAt.Some?
  {
    if forall id :: id in devices ==> devices[id].revokedAt.Some? {
      assert Active(devices) == {};
    }
    if id :| id in devices && devices[id].revokedAt.None? {
      assert id in Active(devices);
    }
  }

  /** How the registry answers the invite's standing check. */
  lemma WitnessAnswers(r: Registry, kill: LiveKill, origin: I.Origin)
    requires origin.ByDevice?
    ensures I.FinalAnswer(LiveWitness(r, kill).deviceStanding) == LiveWitness(r, kill).deviceStanding
    ensures LiveWitness(r, kill).deviceStanding.Answers?
    ensures LiveWitness(r, kill).deviceStanding.stands(origin.deviceId, origin.deviceGeneration)
            <==> OriginVouches(r, origin)
  {
  }

  lemma EnrolsExactly(cfg: I.Config, w: World, step: Step)
    requires step.Commit? && w.mem.Some? && Acceptable(w.mem.value) && 0 <= step.live.epoch <= 0x1F_FFFF_FFFF_FFFF
    ensures I.PerformEnrollment(cfg, w.invites, step.when, step.submission,
                                LiveWitness(w.mem.value, step.live)).1.Enrolled?
            <==> Spendable(cfg, w, step)
  {
    var r := w.mem.value;
    I.EnrolledExactly(cfg, w.invites, step.when, step.submission, LiveWitness(r, step.live));
    NoneActive(r.devices);
    if step.submission.inviteId in w.invites.live {
      var origin := w.invites.live[step.submission.inviteId].contract.origin;
      if origin.ByDevice? {
        WitnessAnswers(r, step.live, origin);
      }
    }
  }

  /**
   * In any run a commit admits a phone exactly when the registry is usable and
   * below its ceiling, the invite can be spent, the phone's keys never lived
   * here, and the publish was durable.
   */
  lemma AdmittedExactly(cfg: I.Config, ws: seq<World>, steps: seq<Step>, i: nat)
    requires Run(cfg, ws, steps) && i < |steps| && steps[i].Commit?
    ensures steps[i].outcome.Committed?
            <==> && ws[i].mem.Some? && 0 <= steps[i].live.epoch <= 0x1F_FFFF_FFFF_FFFF
                 && |Active(ws[i].mem.value.devices)| < 64
                 && Spendable(cfg, ws[i], steps[i]) && Fresh(ws[i].mem.value, steps[i].credential)
                 && steps[i].saved == Published(true)
    ensures !steps[i].outcome.Committed? ==> ws[i + 1].mem == ws[i].mem || ws[i + 1].mem == None
  {
    hide Next, Spendable, Acceptable;
    StepOf(cfg, ws, steps, i);
    if ws[i].mem.Some? {
      MemoryIsAcceptable(cfg, ws, steps, i);
      if 0 <= steps[i].live.epoch <= 0x1F_FFFF_FFFF_FFFF {
        EnrolsExactly(cfg, ws[i], steps[i]);
      }
    }
  }

  lemma MemoryIsAcceptable(cfg: I.Config, ws: seq<World>, steps: seq<Step>, i: nat)
    requires Run(cfg, ws, steps) && i < |ws| && ws[i].mem.Some?
    ensures Acceptable(ws[i].mem.value)
  {
    RunKeepsBacking(cfg, ws, steps, i);
  }

  // ---- what is served ------------------------------------------------------------------------------

  /** The credential as a WebAuthn attestation and the cheap lane present it. */
  predicate Presentable(c: Credential) {
    && Base64Url.CanonicalWithin(c.credentialId, 1, 1024)
    && c.publicKeySpki.p256 && c.cheapLaneKeySpki.p256
    && 0 <= c.signCount <= 0x1F_FFFF_FFFF_FFFF
    && (c.transports.Some? ==>
          |c.transports.value| <= 8 && forall i :: 0 <= i < |c.transports.value| ==> 1 <= |c.transports.value[i]| <= 32)
    && (c.userHandle.Some? ==> Base64Url.CanonicalWithin(c.userHandle.value, 1, 64))
  }

  /**
   * In every reachable state, whatever crashed before it, what admitting a new
   * phone on a live invite would publish is accepted exactly when its
   * credential is presentable, its id storable, and the invite's generation
   * can still move: the owner and the name the mint fixed never stand in the way.
   */
  lemma OnlyTheCredentialDecides(
    cfg: I.Config, ws: seq<World>, steps: seq<Step>, i: nat, inviteId: string, c: Credential, deviceId: string,
    now: int)
    requires Run(cfg, ws, steps) && i < |ws| && ws[i].mem.Some? && inviteId in ws[i].invites.live
    requires deviceId !in ws[i].mem.value.devices && Fresh(ws[i].mem.value, c)
    requires |Active(ws[i].mem.value.devices)| < 64
    ensures var r, invite := ws[i].mem.value, ws[i].invites.live[inviteId];
            var boot := invite.contract.origin.Bootstrap?;
            Acceptable(WithDevice(r, NewDevice(invite, c, deviceId, now), boot))
            <==> && Presentable(c)
                 && 1 <= |deviceId| <= 128 && deviceId !in {"__proto__", "constructor", "prototype"}
                 && (boot ==> r.bootstrapGeneration < 0x1F_FFFF_FFFF_FFFF)
  {
    hide Next, Acceptable;
    var k := LiveInvitesWereMinted(cfg, ws, steps, i, inviteId);
    EnrolmentIsPublishable(cfg, ws, steps, i, inviteId, c, deviceId, now);
    OwnerNamed(cfg, ws, steps, i, inviteId);
  }

  lemma OwnerNamed(cfg: I.Config, ws: seq<World>, steps: seq<Step>, i: nat, inviteId: string)
    requires Run(cfg, ws, steps) && i < |ws| && ws[i].mem.Some? && inviteId in ws[i].invites.live
    ensures 1 <= |ws[i].invites.live[inviteId].contract.ownerId| <= 256
  {
    LiveInvitesHaveDurableOwners(cfg, ws, steps, i);
    RunKeepsBacking(cfg, ws, steps, i);
    MemoryNamesOwners(ws[i], inviteId);
  }

  /**
   * Every registry a process ever serves: its phones have two P-256 keys, a
   * credential no other record ever had and an owner with a handle of its
   * own; at most 64 of them are active.
   */
  lemma ServedIsSound(cfg: I.Config, ws: seq<World>, steps: seq<Step>, i: nat)
    requires Run(cfg, ws, steps) && i < |ws| && ws[i].mem.Some?
    ensures var r := ws[i].mem.value;
            && 1 <= r.bootstrapGeneration <= 0x1F_FFFF_FFFF_FFFF && |Active(r.devices)| <= 64 && |r.owners| <= 128
            && (forall id :: id in r.devices ==>
                  var d := r.devices[id];
                  && d.deviceId == id && 1 <= |id| <= 128 && 1 <= |d.deviceName| <= 200
                  && Presentable(Credential(d.credentialId, d.publicKeySpki, d.cheapLaneKeySpki, d.signCount,
                                            d.transports, d.userHandle))
                  && 1 <= d.generation <= 0x1F_FFFF_FFFF_FFFF
                  && d.ownerId in r.owners)
            && (forall o :: o in r.owners ==>
                  && 1 <= |o| <= 256 && o !in {"__proto__", "constructor", "prototype"}
                  && Base64Url.CanonicalWithin(r.owners[o], 16, 64)
                  && forall p :: p in r.owners && p != o ==> r.owners[p] != r.owners[o])
            && (forall a, b :: a in r.devices && b in r.devices && a != b ==>
                  && r.devices[a].credentialId != r.devices[b].credentialId
                  && r.devices[a].cheapLaneKeySpki.text != r.devices[b].cheapLaneKeySpki.text)
  {
    hide Next;
    MemoryIsAcceptable(cfg, ws, steps, i);
  }

  // ---- revocation ----------------------------------------------------------------------------------

  /**
   * After a durable revocation every registry served holds the device revoked
   * at that moment, one generation on, and otherwise as it was.
   */
  lemma RevokedRecordStays(cfg: I.Config, ws: seq<World>, steps: seq<Step>, i: nat, j: nat)
    requires Run(cfg, ws, steps) && i < j < |ws| && ws[j].mem.Some?
    requires steps[i].Revoke? && steps[i].result == Published(true)
    ensures ws[i].mem.Some? && steps[i].id in ws[i].mem.value.devices && steps[i].id in ws[j].mem.value.devices
    ensures var d, d' := ws[i].mem.value.devices[steps[i].id], ws[j].mem.value.devices[steps[i].id];
            d' == d.(revokedAt := Some(steps[i].revokedAt), generation := d.generation + 1)
  {
    hide Next;
    StepOf(cfg, ws, steps, i);
    GrownSince(cfg, ws, steps, i + 1, j);
  }

  // ---- whose phone it is -----------------------------------------------------------------------------

  /** The mint at k registered this very contract, for this owner. */
  ghost predicate MintedAt(ws: seq<World>, steps: seq<Step>, k: int, c: I.Contract) {
    && 0 <= k < |steps| && k < |ws| && steps[k].Mint? && steps[k].ok && ws[k].mem.Some?
    && !steps[k].kill.killed && c.killEpoch == steps[k].kill.epoch
    && c.inviteId == steps[k].request.inviteId && c.tokenHash == steps[k].request.tokenHash
    && c.deviceName == steps[k].request.deviceName && 1 <= |c.deviceName| <= 200
    && c.challenge == steps[k].request.challenge && c.assertionChallenge == steps[k].request.assertionChallenge
    && match steps[k].request.issuer
       case ByOperator(owner) =>
         c.ownerId == owner && c.origin == I.Bootstrap(ws[k].mem.value.bootstrapGeneration)
       case ByEnrolled(id) =>
         && id in ws[k].mem.value.devices && ws[k].mem.value.devices[id].revokedAt.None?
         && c.ownerId == ws[k].mem.value.devices[id].ownerId
         && c.origin == I.ByDevice(ws[k].mem.value.devices[id].deviceId, ws[k].mem.value.devices[id].generation)
  }

  lemma MintMints(cfg: I.Config, ws: seq<World>, steps: seq<Step>, k: nat, id: string)
    requires k < |steps| && k + 1 < |ws| && steps[k].Mint? && MintStep(cfg, ws[k], steps[k], ws[k + 1])
    requires id in ws[k + 1].invites.live
    requires id in ws[k].invites.live ==> ws[k + 1].invites.live[id] != ws[k].invites.live[id]
    ensures MintedAt(ws, steps, k, ws[k + 1].invites.live[id].contract)
  {
    var w, step, w' := ws[k], steps[k], ws[k + 1];
    if step.ok && w'.mem.Some? {
      var c := ContractFor(w.mem.value, step.kill, step.request);
      RegisteringAddsOne(cfg, w.invites, step.now, c, w'.mem.value, step.kill);
      MintsOnlyLive(cfg, w.invites, step.now, c, LiveWitness(w'.mem.value, step.kill), id);
    }
  }

  /** A registration that changed the store was one that minted. */
  lemma MintsOnlyLive(cfg: I.Config, l: I.Ledger, now: int, c: I.Contract, w: I.Witness, id: string)
    requires w.deviceStanding.Answers? && id in I.DoRegister(cfg, l, now, c, w).0.live
    requires id in l.live ==> I.DoRegister(cfg, l, now, c, w).0.live[id] != l.live[id]
    ensures !w.killed && 1 <= |c.deviceName| <= 200
  {
  }

  lemma OnlyMintsAdd(cfg: I.Config, w: World, step: Step, w': World, id: string)
    requires Next(cfg, w, step, w') && !step.Mint? && id in w'.invites.live
    ensures id in w.invites.live && w'.invites.live[id] == w.invites.live[id]
  {
    if step.Commit? && w.mem.Some? {
      SpendingOnlyRemoves(cfg, w.invites, step.when, step.submission, w.mem.value, step.live);
    }
  }

  /** Every live invite was minted in this run, for the owner its issuer's record names. */
  lemma {:induction false} LiveInvitesWereMinted(
    cfg: I.Config, ws: seq<World>, steps: seq<Step>, i: nat, id: string) returns (k: nat)
    requires Run(cfg, ws, steps) && i < |ws| && id in ws[i].invites.live
    ensures k < i && MintedAt(ws, steps, k, ws[i].invites.live[id].contract)
  {
    assert i > 0;
    assert Next(cfg, ws[i - 1], steps[i - 1], ws[i]);
    if !steps[i - 1].Mint? {
      OnlyMintsAdd(cfg, ws[i - 1], steps[i - 1], ws[i], id);
      k := LiveInvitesWereMinted(cfg, ws, steps, i - 1, id);
    } else if id in ws[i - 1].invites.live && ws[i].invites.live[id] == ws[i - 1].invites.live[id] {
      k := LiveInvitesWereMinted(cfg, ws, steps, i - 1, id);
    } else {
      k := i - 1;
      MintMints(cfg, ws, steps, k, id);
    }
  }

  /**
   * Ownership descends: a phone admitted on another's invite belongs to the
   * owner that other phone has in every registry served, then and later.
   */
  lemma OwnershipDescends(cfg: I.Config, ws: seq<World>, steps: seq<Step>, i: nat, j: nat)
    requires Run(cfg, ws, steps) && i < j < |ws| && ws[j].mem.Some?
    requires steps[i].Commit? && steps[i].outcome.Committed?
    ensures steps[i].submission.inviteId in ws[i].invites.live
    ensures var origin := ws[i].invites.live[steps[i].submission.inviteId].contract.origin;
            origin.ByDevice? ==>
              var devices := ws[j].mem.value.devices;
              && origin.deviceId in devices && steps[i].deviceId in devices
              && devices[steps[i].deviceId].ownerId == devices[origin.deviceId].ownerId
  {
    hide Next, Acceptable;
    EnrolledRecordStays(cfg, ws, steps, i, j);
    var id := steps[i].submission.inviteId;
    var c := ws[i].invites.live[id].contract;
    if c.origin.ByDevice? {
      var k := LiveInvitesWereMinted(cfg, ws, steps, i, id);
      GrownSince(cfg, ws, steps, k, j);
      RecordsNameThemselves(cfg, ws, steps, k, steps[k].request.issuer.deviceId);
    }
  }

  lemma RecordsNameThemselves(cfg: I.Config, ws: seq<World>, steps: seq<Step>, k: nat, id: string)
    requires Run(cfg, ws, steps) && k < |ws| && ws[k].mem.Some? && id in ws[k].mem.value.devices
    ensures ws[k].mem.value.devices[id].deviceId == id
  {
    MemoryIsAcceptable(cfg, ws, steps, k);
  }
}
