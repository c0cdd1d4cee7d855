/**
 * InviteStore and the one spend path through it. The standing check of a mint
 * or spend is caller code that may call back into the store; a callback is
 * modelled as the operations it performs before it answers.
 */
module Invites {
  import opened Wrappers
  import Base64Url

  const MAX_SAFE_INTEGER: int := 0x1F_FFFF_FFFF_FFFF
  const MAX_NAME_CHARS: nat := 200

  datatype Origin = Bootstrap(bootstrapGeneration: int) | ByDevice(deviceId: string, deviceGeneration: int)

  datatype Contract = Contract(
    inviteId: string, tokenHash: string, ownerId: string, deviceName: string,
    challenge: string, assertionChallenge: string, killEpoch: int, origin: Origin)

  datatype InviteRecord = InviteRecord(contract: Contract, expiresAt: int)

  datatype Witness = Witness(
    wellFormed: bool, killed: bool, killEpoch: int, bootstrapGeneration: int, activeDeviceCount: int,
    deviceStanding: Callback)

  /** Caller code: it may use the store, and then answers or throws. */
  datatype Callback =
    | Answers(stands: (string, int) -> bool)
    | Throws
    | After(op: Op, rest: Callback)

  /** An enrolment request; `proofs` stands for every proof check made against the invite. */
  datatype Submission = Submission(
    wellFormed: bool, inviteId: string, token: string, deviceName: string, proofs: InviteRecord -> bool)

  datatype Op =
    | Register(now: int, contract: Contract, facts: Witness)
    | Peek(at: int, inviteId: string)
    | Enroll(when: int, submission: Submission, live: Witness)
    | InvalidateSupersededEpoch(epoch: int)

  datatype Config = Config(ttlMs: int, maxInvites: nat, digest: string -> string)

  /** The live invites, and the tally of what was ever minted and spent. */
  datatype Ledger = Ledger(live: map<string, InviteRecord>, minted: multiset<string>, spent: multiset<string>)

  datatype Outcome =
    | Done
    | Minted(record: InviteRecord)
    | Enrolled(invite: InviteRecord)
    | Refused(inviteSurvives: bool)

  // ---- the store as a function ---------------------------------------------------------

  predicate SafeFrom(n: int, least: int) {
    least <= n <= MAX_SAFE_INTEGER
  }

  predicate Live(l: Ledger, id: string, now: int) {
    id in l.live && now < l.live[id].expiresAt
  }

  function Swept(l: Ledger, now: int): Ledger {
    l.(live := map id | id in l.live && now < l.live[id].expiresAt :: l.live[id])
  }

  function Without(l: Ledger, id: string): Ledger {
    l.(live := l.live - {id})
  }

  /** A well-formed witness says not killed and carries sane numbers. */
  predicate Sane(w: Witness) {
    w.wellFormed && !w.killed && SafeFrom(w.killEpoch, 0) && SafeFrom(w.bootstrapGeneration, -MAX_SAFE_INTEGER)
    && SafeFrom(w.activeDeviceCount, 0)
  }

  predicate WellFormedContract(c: Contract) {
    && c.inviteId != ""
    && |c.tokenHash| == 43 && Base64Url.CanonicalWithin(c.tokenHash, 32, 32)
    && c.challenge != "" && c.assertionChallenge != ""
    && 1 <= |c.deviceName| <= MAX_NAME_CHARS
    && c.ownerId != ""
    && SafeFrom(c.killEpoch, 0)
    && match c.origin
       case Bootstrap(g) => SafeFrom(g, 0)
       case ByDevice(id, g) => id != "" && SafeFrom(g, 1)
  }

  /** What a mint must agree with before the standing callback is asked. */
  predicate MintAgrees(c: Contract, w: Witness) {
    && Sane(w)
    && c.killEpoch == w.killEpoch
    && (c.origin.Bootstrap? ==> c.origin.bootstrapGeneration == w.bootstrapGeneration && w.activeDeviceCount == 0)
  }

  function Inserted(cfg: Config, l: Ledger, now: int, c: Contract): (Ledger, Outcome) {
    if |l.live| >= cfg.maxInvites then (l, Refused(false))
    else
      var r := InviteRecord(c, now + cfg.ttlMs);
      (Ledger(l.live[c.inviteId := r], l.minted + multiset{c.inviteId}, l.spent), Minted(r))
  }

  function DoRegister(cfg: Config, l0: Ledger, now: int, c: Contract, w: Witness): (Ledger, Outcome)
    decreases w, 1
  {
    var l := Swept(l0, now);
    if c.inviteId in l.live || !WellFormedContract(c) || !MintAgrees(c, w) then (l, Refused(false))
    else if c.origin.Bootstrap? then Inserted(cfg, l, now, c)
    else
      var (l1, standing) := CallBack(cfg, l, c.origin, w.deviceStanding);
      if standing == Some(true) then Inserted(cfg, l1, now, c) else (l1, Refused(false))
  }

  /** The callback's own use of the store, then its answer; None when it throws. */
  function CallBack(cfg: Config, l: Ledger, origin: Origin, cb: Callback): (Ledger, Option<bool>)
    requires origin.ByDevice?
    decreases cb
  {
    match cb
    case Answers(stands) => (l, Some(stands(origin.deviceId, origin.deviceGeneration)))
    case Throws => (l, None)
    case After(op, rest) => CallBack(cfg, Run(cfg, l, op).0, origin, rest)
  }

  function Peeked(l: Ledger, now: int, id: string): Ledger {
    if id in l.live && !Live(l, id, now) then Without(l, id) else l
  }

  predicate SecretMatches(cfg: Config, token: string, r: InviteRecord) {
    22 <= |token| <= 128 && Base64Url.Canonical(token) && cfg.digest(token) == r.contract.tokenHash
  }

  function NoBootstraps(l: Ledger): Ledger {
    l.(live := map id | id in l.live && !l.live[id].contract.origin.Bootstrap? :: l.live[id])
  }

  function Spent(l: Ledger, id: string): Ledger {
    l.(spent := l.spent + multiset{id})
  }

  /** Check-and-burn: the record is reserved before the callback may run. */
  function Consume(cfg: Config, l: Ledger, now: int, id: string, token: string, w: Witness): (Ledger, Outcome)
    decreases w, 1
  {
    if w.killed then (Without(l, id), Refused(false))
    else if !Sane(w) then (l, Refused(true))
    else if id !in l.live then (l, Refused(false))
    else if !Live(l, id, now) then (Without(l, id), Refused(false))
    else
      var r := l.live[id];
      var reserved := Without(l, id);
      if !SecretMatches(cfg, token, r) then (l, Refused(true))
      else if r.contract.killEpoch != w.killEpoch then (reserved, Refused(false))
      else
        match r.contract.origin
        case Bootstrap(g) =>
          if g != w.bootstrapGeneration || w.activeDeviceCount != 0 then (reserved, Refused(false))
          else (Spent(NoBootstraps(reserved), id), Enrolled(r))
        case ByDevice(_, _) =>
          var (after, standing) := CallBack(cfg, reserved, r.contract.origin, w.deviceStanding);
          if standing == Some(true) then (Spent(after, id), Enrolled(r)) else (after, Refused(false))
  }

  /** performEnrollment: the proof chain first, the burn last. */
  function PerformEnrollment(cfg: Config, l0: Ledger, now: int, s: Submission, w: Witness): (Ledger, Outcome)
    decreases w, 2
  {
    if !s.wellFormed then (l0, Refused(true))
    else
      var l := Peeked(l0, now, s.inviteId);
      if s.inviteId !in l.live then (l, Refused(false))
      else if s.deviceName != l.live[s.inviteId].contract.deviceName || !s.proofs(l.live[s.inviteId])
      then (l, Refused(true))
      else Consume(cfg, l, now, s.inviteId, s.token, w)
  }

  function Invalidated(l: Ledger, epoch: int): Ledger {
    l.(live := map id | id in l.live && l.live[id].contract.killEpoch == epoch :: l.live[id])
  }

  function Run(cfg: Config, l: Ledger, op: Op): (Ledger, Outcome)
    decreases op
  {
    match op
    case Register(now, c, w) => DoRegister(cfg, l, now, c, w)
    case Peek(now, id) => (Peeked(l, now, id), Done)
    case Enroll(now, s, w) => PerformEnrollment(cfg, l, now, s, w)
    case InvalidateSupersededEpoch(epoch) => (Invalidated(l, epoch), Done)
  }

  function RunAll(cfg: Config, l: Ledger, ops: seq<Op>): Ledger {
    if |ops| == 0 then l else Run(cfg, RunAll(cfg, l, ops[..|ops| - 1]), ops[|ops| - 1]).0
  }

  const Empty: Ledger := Ledger(map[], multiset{}, multiset{})

  // ---- conservation --------------------------------------------------------------------

  function LiveCount(l: Ledger, id: string): nat {
    if id in l.live then 1 else 0
  }

  /** Registrations of `id` that are neither live nor spent: expired, burned, or reserved. */
  function Retired(l: Ledger, id: string): int {
    l.minted[id] - l.spent[id] - LiveCount(l, id)
  }

  ghost predicate KeysMatch(l: Ledger) {
    forall id :: id in l.live ==> l.live[id].contract.inviteId == id
  }

  /** Retired registrations never come back, however the callback re-enters the store. */
  lemma {:induction false} CallBackRetires(cfg: Config, l: Ledger, origin: Origin, cb: Callback, id: string)
    requires KeysMatch(l) && origin.ByDevice?
    ensures KeysMatch(CallBack(cfg, l, origin, cb).0)
    ensures Retired(CallBack(cfg, l, origin, cb).0, id) >= Retired(l, id)
    decreases cb
  {
    if cb.After? {
      RunRetires(cfg, l, cb.op, id);
      CallBackRetires(cfg, Run(cfg, l, cb.op).0, origin, cb.rest, id);
    }
  }

  lemma {:induction false} RegisterRetires(cfg: Config, l: Ledger, now: int, c: Contract, w: Witness, id: string)
    requires KeysMatch(l)
    ensures KeysMatch(DoRegister(cfg, l, now, c, w).0)
    ensures Retired(DoRegister(cfg, l, now, c, w).0, id) >= Retired(l, id)
    decreases w, 1
  {
    if c.origin.ByDevice? {
      CallBackRetires(cfg, Swept(l, now), c.origin, w.deviceStanding, id);
    }
  }

  lemma {:induction false} ConsumeRetires(
    cfg: Config, l: Ledger, now: int, spend: string, token: string, w: Witness, id: string)
    requires KeysMatch(l)
    ensures KeysMatch(Consume(cfg, l, now, spend, token, w).0)
    ensures Retired(Consume(cfg, l, now, spend, token, w).0, id) >= Retired(l, id)
    decreases w, 1
  {
    if spend in l.live && l.live[spend].contract.origin.ByDevice? {
      CallBackRetires(cfg, Without(l, spend), l.live[spend].contract.origin, w.deviceStanding, id);
    }
  }

  lemma {:induction false} RunRetires(cfg: Config, l: Ledger, op: Op, id: string)
    requires KeysMatch(l)
    ensures KeysMatch(Run(cfg, l, op).0)
    ensures Retired(Run(cfg, l, op).0, id) >= Retired(l, id)
    decreases op
  {
    match op
    case Register(now, c, w) => RegisterRetires(cfg, l, now, c, w, id);
    case Peek(now, peeked) =>
    case Enroll(now, s, w) => ConsumeRetires(cfg, Peeked(l, now, s.inviteId), now, s.inviteId, s.token, w, id);
    case InvalidateSupersededEpoch(epoch) =>
  }

  /**
   * Single spend: over any run, re-entrant callbacks included, an invite is
   * spent at most as often as it was registered, and a live one is unspent.
   */
  lemma {:induction false} SpentAtMostOnce(cfg: Config, ops: seq<Op>, id: string)
    ensures KeysMatch(RunAll(cfg, Empty, ops))
    ensures var l := RunAll(cfg, Empty, ops); l.spent[id] + LiveCount(l, id) <= l.minted[id]
    decreases |ops|
  {
    if |ops| > 0 {
      SpentAtMostOnce(cfg, ops[..|ops| - 1], id);
      RunRetires(cfg, RunAll(cfg, Empty, ops[..|ops| - 1]), ops[|ops| - 1], id);
    }
  }

  // ---- what a success and a refusal mean ---------------------------------------------------

  /** The last answer of a callback, after everything it did first. */
  function FinalAnswer(cb: Callback): Callback {
    match cb
    case After(_, rest) => FinalAnswer(rest)
    case _ => cb
  }

  lemma {:induction false} CallBackAnswers(cfg: Config, l: Ledger, origin: Origin, cb: Callback)
    requires origin.ByDevice?
    ensures CallBack(cfg, l, origin, cb).1 == match FinalAnswer(cb)
              case Answers(stands) => Some(stands(origin.deviceId, origin.deviceGeneration))
              case _ => None
    decreases cb
  {
    if cb.After? {
      CallBackAnswers(cfg, Run(cfg, l, cb.op).0, origin, cb.rest);
    }
  }

  /**
   * A successful enrolment spent a live, unexpired invite whose secret it knew:
   * not killed, no kill since the mint, and either the issuer standing at its
   * minting generation, or an empty registry at the invite's own bootstrap
   * generation, with every bootstrap sibling gone in the same step.
   */
  lemma SuccessMeans(cfg: Config, l: Ledger, now: int, s: Submission, w: Witness)
    requires PerformEnrollment(cfg, l, now, s, w).1.Enrolled?
    ensures var r := PerformEnrollment(cfg, l, now, s, w).1.invite;
            && Live(l, s.inviteId, now) && l.live[s.inviteId] == r
            && s.proofs(r) && cfg.digest(s.token) == r.contract.tokenHash
            && !w.killed && r.contract.killEpoch == w.killEpoch
            && (r.contract.origin.ByDevice? ==>
                  && FinalAnswer(w.deviceStanding).Answers?
                  && FinalAnswer(w.deviceStanding).stands(r.contract.origin.deviceId,
                                                          r.contract.origin.deviceGeneration))
            && (r.contract.origin.Bootstrap? ==>
                  && r.contract.origin.bootstrapGeneration == w.bootstrapGeneration && w.activeDeviceCount == 0
                  && forall id :: id in PerformEnrollment(cfg, l, now, s, w).0.live ==>
                       PerformEnrollment(cfg, l, now, s, w).0.live[id].contract.origin.ByDevice?)
  {
    var r := l.live[s.inviteId];
    if r.contract.origin.ByDevice? {
      CallBackAnswers(cfg, Without(l, s.inviteId), r.contract.origin, w.deviceStanding);
    }
  }

  /** A success is one spend, and takes the invite out unless caller code inside it minted the id anew. */
  lemma SuccessSpends(cfg: Config, l: Ledger, now: int, s: Submission, w: Witness)
    requires KeysMatch(l) && PerformEnrollment(cfg, l, now, s, w).1.Enrolled?
    ensures var l' := PerformEnrollment(cfg, l, now, s, w).0;
            && l'.spent[s.inviteId] > 0
            && Retired(l', s.inviteId) >= Retired(l, s.inviteId)
            && (!w.deviceStanding.After? ==> s.inviteId !in l'.live && l'.spent == l.spent + multiset{s.inviteId})
  {
    var r := l.live[s.inviteId];
    if r.contract.origin.ByDevice? {
      CallBackRetires(cfg, Without(l, s.inviteId), r.contract.origin, w.deviceStanding, s.inviteId);
    }
  }

  /** A refusal that reports the invite as surviving removed no unexpired invite at all. */
  lemma SurvivingRefusalKeepsInvites(cfg: Config, l: Ledger, now: int, s: Submission, w: Witness)
    requires PerformEnrollment(cfg, l, now, s, w).1 == Refused(true)
    ensures var l' := PerformEnrollment(cfg, l, now, s, w).0;
            && l'.minted == l.minted && l'.spent == l.spent
            && forall id :: Live(l, id, now) ==> id in l'.live && l'.live[id] == l.live[id]
  {
  }

  /** And one that reports it gone has left nothing to retry against, caller re-mints aside. */
  lemma BurnedRefusalLeavesNothing(cfg: Config, l: Ledger, now: int, s: Submission, w: Witness)
    requires PerformEnrollment(cfg, l, now, s, w).1 == Refused(false) && !w.deviceStanding.After?
    ensures s.inviteId !in PerformEnrollment(cfg, l, now, s, w).0.live
  {
    var peeked := Peeked(l, now, s.inviteId);
    if s.inviteId in peeked.live && peeked.live[s.inviteId].contract.origin.ByDevice? {
      assert CallBack(cfg, Without(peeked, s.inviteId), peeked.live[s.inviteId].contract.origin, w.deviceStanding).0
             == Without(peeked, s.inviteId);
    }
  }

  /** Nothing mints under a kill, and what mints records exactly the live facts. */
  lemma MintIsLive(cfg: Config, l: Ledger, now: int, c: Contract, w: Witness)
    requires DoRegister(cfg, l, now, c, w).1.Minted?
    ensures !w.killed && c.killEpoch == w.killEpoch && WellFormedContract(c)
    ensures c.origin.Bootstrap? ==> c.origin.bootstrapGeneration == w.bootstrapGeneration && w.activeDeviceCount == 0
    ensures c.origin.ByDevice? ==>
              && FinalAnswer(w.deviceStanding).Answers?
              && FinalAnswer(w.deviceStanding).stands(c.origin.deviceId, c.origin.deviceGeneration)
    ensures DoRegister(cfg, l, now, c, w).1.record == InviteRecord(c, now + cfg.ttlMs)
    ensures c.inviteId in DoRegister(cfg, l, now, c, w).0.live
  {
    if c.origin.ByDevice? {
      CallBackAnswers(cfg, Swept(l, now), c.origin, w.deviceStanding);
    }
  }

  /** A number JavaScript holds exactly, no smaller than `least`. */
  predicate SafeInteger(n: int, least: int) {
    least <= n <= 0x1F_FFFF_FFFF_FFFF
  }

  /**
   * An enrolment succeeds exactly when its invite is live, its secret, name
   * and proofs are the invite's, no kill came since the mint, and the invite's
   * origin still vouches: a bootstrap for an empty registry of its generation,
   * or the issuer standing at its own. It yields the invite as it was minted.
   */
  lemma EnrolledExactly(cfg: Config, l: Ledger, now: int, s: Submission, w: Witness)
    ensures PerformEnrollment(cfg, l, now, s, w).1.Enrolled?
            <==> && s.wellFormed && s.inviteId in l.live && now < l.live[s.inviteId].expiresAt
                 && s.proofs(l.live[s.inviteId])
                 && w.wellFormed && !w.killed && SafeInteger(w.killEpoch, 0) && SafeInteger(w.activeDeviceCount, 0)
                 && SafeInteger(w.bootstrapGeneration, -0x1F_FFFF_FFFF_FFFF)
                 && var c := l.live[s.inviteId].contract;
                    && s.deviceName == c.deviceName && c.killEpoch == w.killEpoch
                    && 22 <= |s.token| <= 128 && Base64Url.Canonical(s.token) && cfg.digest(s.token) == c.tokenHash
                    && match c.origin
                       case Bootstrap(g) => g == w.bootstrapGeneration && w.activeDeviceCount == 0
                       case ByDevice(id, g) =>
                         FinalAnswer(w.deviceStanding).Answers? && FinalAnswer(w.deviceStanding).stands(id, g)
    ensures PerformEnrollment(cfg, l, now, s, w).1.Enrolled? ==>
              PerformEnrollment(cfg, l, now, s, w).1.invite == l.live[s.inviteId]
  {
    if s.inviteId in l.live && l.live[s.inviteId].contract.origin.ByDevice? {
      CallBackAnswers(cfg, Without(l, s.inviteId), l.live[s.inviteId].contract.origin, w.deviceStanding);
    }
  }

  /**
   * A registration mints exactly when its id is free, its contract is well
   * formed and states the live facts, its issuer stands, and there is room
   * once the dead are swept and the standing callback is done.
   */
  lemma MintedExactly(cfg: Config, l: Ledger, now: int, c: Contract, w: Witness)
    ensures var swept := Swept(l, now);
            var asked := if c.origin.ByDevice? then CallBack(cfg, swept, c.origin, w.deviceStanding).0 else swept;
            DoRegister(cfg, l, now, c, w).1.Minted?
            <==> && (c.inviteId in l.live ==> now >= l.live[c.inviteId].expiresAt)
                 && c.inviteId != "" && c.ownerId != "" && c.challenge != "" && c.assertionChallenge != ""
                 && |c.tokenHash| == 43 && Base64Url.CanonicalWithin(c.tokenHash, 32, 32)
                 && 1 <= |c.deviceName| <= 200 && SafeInteger(c.killEpoch, 0)
                 && w.wellFormed && !w.killed && SafeInteger(w.activeDeviceCount, 0)
                 && SafeInteger(w.bootstrapGeneration, -0x1F_FFFF_FFFF_FFFF) && c.killEpoch == w.killEpoch
                 && |asked.live| < cfg.maxInvites
                 && match c.origin
                    case Bootstrap(g) => SafeInteger(g, 0) && g == w.bootstrapGeneration && w.activeDeviceCount == 0
                    case ByDevice(id, g) =>
                      && id != "" && SafeInteger(g, 1)
                      && FinalAnswer(w.deviceStanding).Answers? && FinalAnswer(w.deviceStanding).stands(id, g)
  {
    if c.origin.ByDevice? {
      CallBackAnswers(cfg, Swept(l, now), c.origin, w.deviceStanding);
    }
  }

  /** Once an epoch is declared, exactly the invites minted in it live on, whatever the run did before. */
  lemma SupersededInvitesDie(cfg: Config, ops: seq<Op>, epoch: int, id: string)
    ensures var l, l' := RunAll(cfg, Empty, ops), RunAll(cfg, Empty, ops + [InvalidateSupersededEpoch(epoch)]);
            && (id in l'.live <==> id in l.live && l.live[id].contract.killEpoch == epoch)
            && (id in l'.live ==> l'.live[id] == l.live[id])
            && l'.minted == l.minted && l'.spent == l.spent
  {
    var all := ops + [InvalidateSupersededEpoch(epoch)];
    assert all[..|all| - 1] == ops;
  }

  // ---- the store itself ----------------------------------------------------------------------

  class InviteStore {
    const cfg: Config
    var invites: map<string, InviteRecord>
    ghost var minted: multiset<string>
    ghost var spent: multiset<string>

    ghost function Contents(): Ledger
      reads this
    {
      Ledger(invites, minted, spent)
    }

    constructor (cfg: Config)
      ensures this.cfg == cfg && Contents() == Empty
    {
      this.cfg, invites, minted, spent := cfg, map[], multiset{}, multiset{};
    }

    /** Drop the dead so the cap only ever counts live invites. */
    method Sweep(now: int)
      modifies this`invites
      ensures Contents() == Swept(old(Contents()), now)
    {
      ghost var before := invites;
      var left := invites.Keys;
      while left != {}
        invariant left <= invites.Keys <= before.Keys
        invariant forall id :: id in invites ==> invites[id] == before[id]
        invariant forall id :: id in before ==> (id in invites <==> id in left || now < before[id].expiresAt)
      {
        var id :| id in left;
        if now >= invites[id].expiresAt {
          invites := invites - {id};
        }
        left := left - {id};
      }
      assert invites == Swept(Ledger(before, minted, spent), now).live;
    }

    /** First phone wins: every other bootstrap invite goes with the spend. */
    method BurnBootstrapSiblings()
      modifies this`invites
      ensures Contents() == NoBootstraps(old(Contents()))
    {
      ghost var before := invites;
      var left := invites.Keys;
      while left != {}
        invariant left <= invites.Keys <= before.Keys
        invariant forall id :: id in invites ==> invites[id] == before[id]
        invariant forall id :: id in before ==>
                    (id in invites <==> id in left || !before[id].contract.origin.Bootstrap?)
      {
        var id :| id in left;
        if invites[id].contract.origin.Bootstrap? {
          invites := invites - {id};
        }
        left := left - {id};
      }
      assert invites == NoBootstraps(Ledger(before, minted, spent)).live;
    }

    method Invalidate(epoch: int) returns (removed: nat)
      modifies this`invites
      ensures Contents() == Invalidated(old(Contents()), epoch)
      ensures removed == |old(invites)| - |invites|
    {
      ghost var before := invites;
      var left := invites.Keys;
      removed := 0;
      while left != {}
        invariant left <= invites.Keys <= before.Keys
        invariant forall id :: id in invites ==> invites[id] == before[id]
        invariant forall id :: id in before ==>
                    (id in invites <==> id in left || before[id].contract.killEpoch == epoch)
        invariant removed + |invites| == |before|
      {
        var id :| id in left;
        if invites[id].contract.killEpoch != epoch {
          assert invites.Keys == (invites - {id}).Keys + {id};
          assert |invites.Keys| == |invites| && |(invites - {id}).Keys| == |invites - {id}|;
          invites := invites - {id};
          removed := removed + 1;
        }
        left := left - {id};
      }
      assert invites == Invalidated(Ledger(before, minted, spent), epoch).live;
    }

    method PeekInvite(now: int, id: string) returns (r: Option<InviteRecord>)
      modifies this`invites
      ensures Contents() == Peeked(old(Contents()), now, id)
      ensures r == if id in invites then Some(invites[id]) else None
    {
      if id !in invites {
        return None;
      }
      if now >= invites[id].expiresAt {
        invites := invites - {id};
        return None;
      }
      return Some(invites[id]);
    }

    method AskStanding(origin: Origin, cb: Callback) returns (standing: Option<bool>)
      requires origin.ByDevice?
      modifies this
      ensures (Contents(), standing) == CallBack(cfg, old(Contents()), origin, cb)
      decreases cb
    {
      match cb {
        case Answers(stands) => standing := Some(stands(origin.deviceId, origin.deviceGeneration));
        case Throws => standing := None;
        case After(op, rest) =>
          var _ := Perform(op);
          standing := AskStanding(origin, rest);
      }
    }

    method Register(now: int, c: Contract, w: Witness) returns (r: Outcome)
      modifies this
      ensures (Contents(), r) == DoRegister(cfg, old(Contents()), now, c, w)
      decreases w, 1
    {
      Sweep(now);
      if c.inviteId in invites || !WellFormedContract(c) {
        return Refused(false);
      }
      if w.killed || !Sane(w) || c.killEpoch != w.killEpoch {
        return Refused(false);
      }
      if c.origin.Bootstrap? {
        if c.origin.bootstrapGeneration != w.bootstrapGeneration || w.activeDeviceCount != 0 {
          return Refused(false);
        }
      } else {
        var standing := AskStanding(c.origin, w.deviceStanding);
        if standing != Some(true) {
          return Refused(false);
        }
      }
      if |invites| >= cfg.maxInvites {
        return Refused(false);
      }
      var record := InviteRecord(c, now + cfg.ttlMs);
      invites := invites[c.inviteId := record];
      minted := minted + multiset{c.inviteId};
      r := Minted(record);
    }

    method Spend(now: int, id: string, token: string, w: Witness) returns (r: Outcome)
      modifies this
      ensures (Contents(), r) == Consume(cfg, old(Contents()), now, id, token, w)
      decreases w, 1
    {
      if w.killed {
        invites := invites - {id};
        return Refused(false);
      }
      if !Sane(w) {
        return Refused(true);
      }
      if id !in invites {
        return Refused(false);
      }
      var record := invites[id];
      if now >= record.expiresAt {
        invites := invites - {id};
        return Refused(false);
      }
      if !SecretMatches(cfg, token, record) {
        return Refused(true);
      }
      invites := invites - {id}; // reserved before any callback runs
      if record.contract.killEpoch != w.killEpoch {
        return Refused(false);
      }
      if record.contract.origin.Bootstrap? {
        if record.contract.origin.bootstrapGeneration != w.bootstrapGeneration || w.activeDeviceCount != 0 {
          return Refused(false);
        }
        BurnBootstrapSiblings();
      } else {
        var standing := AskStanding(record.contract.origin, w.deviceStanding);
        if standing != Some(true) {
          return Refused(false);
        }
      }
      spent := spent + multiset{id};
      r := Enrolled(record);
    }

    method Enrol(now: int, s: Submission, w: Witness) returns (r: Outcome)
      modifies this
      ensures (Contents(), r) == PerformEnrollment(cfg, old(Contents()), now, s, w)
      decreases w, 2
    {
      if !s.wellFormed {
        return Refused(true);
      }
      var invite := PeekInvite(now, s.inviteId);
      if invite == None {
        return Refused(false);
      }
      if s.deviceName != invite.value.contract.deviceName || !s.proofs(invite.value) {
        return Refused(true);
      }
      r := Spend(now, s.inviteId, s.token, w);
    }

    method Perform(op: Op) returns (r: Outcome)
      modifies this
      ensures (Contents(), r) == Run(cfg, old(Contents()), op)
      decreases op
    {
      match op {
        case Register(now, c, w) => r := Register(now, c, w);
        case Peek(now, id) =>
          var _ := PeekInvite(now, id);
          r := Done;
        case Enroll(now, s, w) => r := Enrol(now, s, w);
        case InvalidateSupersededEpoch(epoch) =>
          var _ := Invalidate(epoch);
          r := Done;
      }
    }
  }
}
