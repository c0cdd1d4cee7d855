/**
 * The control plane's authority protocol as a state machine: each handler's
 * synchronous tail is one step, and requests arrive in any order. A handler
 * that checks before and after an await is two steps.
 */
module Protocol {
  import opened Wrappers
  import opened VetoWindows
  import opened KillStateFile
  import TwoGo

  const DELIVERY_TTL_MS: int := 2 * 60_000
  const APPROVAL_CHALLENGE_TTL_MS: int := 2 * 60_000
  const RESTORE_CHALLENGE_TTL_MS: int := 2 * 60_000
  const MAX_CEREMONY_RECORDS: nat := 256

  /** The run's trace: what was accepted, in order. */
  datatype Fact =
    | Killed(at: int, agentId: Option<string>)
    | CeremonyStarted(at: int, ceremonyId: string, owner: string, agentId: Option<string>)
    | RestoreChallengeMinted(at: int, ceremonyId: string, challenge: string)
    | Restored(at: int, ceremonyId: string, owner: string, agentId: Option<string>, signed: Option<string>)
    | ApprovalChallengeMinted(at: int, windowId: string, call: Call, challenge: string)
    | Approved(at: int, windowId: string, owner: string, signed: Option<string>)
    | GrantMinted(at: int, windowId: string, jti: string)
    | Committed(at: int, windowId: string, jti: string)
    | Registered(at: int, windowId: string, call: Call, purpose: Option<Purpose>)
    | Shown(at: int, deliveryId: string, windowId: string, call: Call, revision: int, deviceId: string, generation: int)
    | Acked(at: int, deliveryId: string, windowId: string, call: Call, revision: int, deadline: int, deviceId: string,
            generation: int)
    | Revoked(at: int, deviceId: string)

  datatype Config = Config(passkey: bool, dev: bool, grants: bool, grantTtlMs: int)

  datatype Kill = Kill(killed: bool, epoch: int, agents: set<string>, consumed: set<string>, quarantineFailed: bool)

  /** An owner device as resolved for signatures and standing. */
  datatype Device = Device(generation: int, revokedAt: Option<int>, enrolled: bool, resolvable: bool)

  /** A foreground-detail delivery; `content` is what its hashes bind. */
  datatype Delivery = Delivery(
    windowId: string, revision: int, content: Call, deviceId: string, deviceGeneration: int, expiresAt: int,
    consumed: bool)

  datatype Lane = Lane(devices: map<string, Device>, deliveries: map<string, Delivery>, quarantined: bool)

  datatype Grants = Grants(
    granted: set<string>, minted: map<string, string>, byWindow: map<string, string>, committed: set<string>)

  datatype ApprovalChallenge = ApprovalChallenge(challenge: string, call: Call, killEpoch: int, expiresAt: int)
  datatype RestoreChallenge = RestoreChallenge(challenge: string, killEpoch: int, expiresAt: int)

  datatype CeremonyRecord = CeremonyRecord(ceremony: TwoGo.Ceremony, epoch: int, agentId: Option<string>)

  /** Every ceremony ever started; `live` is the map's key set. */
  datatype Ceremonies = Ceremonies(
    records: map<string, CeremonyRecord>, live: set<string>, challenges: map<string, RestoreChallenge>)

  /** What a handler holds across its await. */
  datatype InFlight = ApprovalInFlight(windowId: string) | RestoreInFlight(ceremonyId: string)

  datatype State = State(
    cfg: Config,
    clock: int,
    kill: Kill,
    windows: map<string, Window>,
    lane: Lane,
    grants: Grants,
    approvals: map<string, ApprovalChallenge>,
    ceremonies: Ceremonies,
    inFlight: map<string, InFlight>,
    history: seq<Fact>)

  datatype Answer =
    | Accepted
    | Refused(status: int)
    | Showing(shown: VetoStatus)
    | Spent
    | Grant(jti: string)
    | CommitAnswer(committed: bool)

  datatype Event =
    | Register(id: string, call: Call, purpose: Option<Purpose>)
    | ReadVeto(id: string, jti: string)
    | Poll
    | Detail(id: string, deviceId: string, deliveryId: string)
    | SeenBy(id: string, deviceId: string, deliveryId: string, revision: int, content: Call)
    | Veto(id: string, who: string)
    | ApprovalChallengeStart(request: string, id: string)
    | ApprovalChallengeFinish(request: string, challenge: string, rendered: bool)
    | Approve(id: string, owner: string, signed: Option<string>)
    | Commit(jti: string)
    | EngageKill(agentId: Option<string>, persistLost: bool)
    | CeremonyStart(id: string, owner: string, agentId: Option<string>, licensed: bool)
    | RestoreChallengeStart(request: string, owner: string, id: string)
    | RestoreChallengeFinish(request: string, challenge: string)
    | Restore(owner: string, id: string, signed: Option<string>, persistLost: bool)
    | RevokeStatic(deviceId: string, exported: bool, persistLost: bool)
    | RevokeEnrolled(deviceId: string, published: bool, exported: bool, persistLost: bool)
    | Admit(deviceId: string, aliases: seq<string>, exported: bool, persistLost: bool)
    | RegistryLost

  // ---- shared pieces ------------------------------------------------------------

  function Log(s: State, f: Fact): State {
    s.(history := s.history + [f])
  }

  predicate Usable(d: Device) {
    d.resolvable && d.revokedAt.None?
  }

  /** The release-time witness check (witnessStanding). */
  predicate Stands(kill: Kill, lane: Lane, w: Window) {
    && !kill.killed
    && !lane.quarantined
    && w.evidence.Some?
    && w.evidence.value.deviceId in lane.devices
    && var d := lane.devices[w.evidence.value.deviceId];
       Usable(d) && d.generation == w.evidence.value.generation
  }

  function TickedIn(s: State, w: Window): Window {
    Ticked(w, s.clock, Stands(s.kill, s.lane, w))
  }

  function GrantEligible(w: Window): bool {
    w.purpose.Some? && w.purpose.value.MergePullRequest? && w.purpose.value.argsParse
  }

  /** A scoped kill stays scoped unless the table of killed agents is full. */
  predicate Scoped(kill: Kill, agentId: Option<string>) {
    agentId.Some? && !(agentId.value !in kill.agents && |kill.agents| >= MAX_KILLED_AGENTS)
  }

  function Engaged(kill: Kill, agentId: Option<string>, persistLost: bool): Kill {
    if Scoped(kill, agentId)
    then kill.(epoch := kill.epoch + 1, agents := kill.agents + {agentId.value}, quarantineFailed := persistLost)
    else kill.(epoch := kill.epoch + 1, killed := true, quarantineFailed := persistLost)
  }

  /** KillSwitch.engage / engageAgent, and the challenge voids every kill performs. */
  function Engage(s: State, agentId: Option<string>, persistLost: bool): State {
    Log(s.(kill := Engaged(s.kill, agentId, persistLost), approvals := map[],
           ceremonies := s.ceremonies.(challenges := map[])),
        Killed(s.clock, if Scoped(s.kill, agentId) then agentId else None))
  }

  /** A signature verifies only for a resolvable, unrevoked device. */
  predicate Authenticates(s: State, deviceId: string) {
    deviceId in s.lane.devices && Usable(s.lane.devices[deviceId])
  }

  // ---- veto windows ----------------------------------------------------------------

  function DoRegister(s: State, id: string, call: Call, purpose: Option<Purpose>): (State, Answer) {
    if !IsValidAgentId(call.agentId) then (s, Refused(400))
    else if call.agentId in s.kill.agents then (s, Refused(409))
    else if purpose.Some? && purpose.value.MergePullRequest? && !purpose.value.argsParse then (s, Refused(400))
    else
      var w := Opened(call, purpose, s.kill.epoch, DEFAULT_WINDOW_MS, DEFAULT_EXTENSION_MS, s.clock);
      (Log(s.(windows := s.windows[id := w]), Registered(s.clock, id, call, purpose)), Showing(Pending))
  }

  function DoReadVeto(s: State, id: string, jti: string): (State, Answer) {
    if id !in s.windows then (s, Refused(404))
    else
      var w := TickedIn(s, s.windows[id]);
      var s1 := s.(windows := s.windows[id := w]);
      if s.cfg.grants && GrantEligible(w) then ReadEligible(s1, id, w, jti)
      else if w.status.Released? && w.killEpoch != s.kill.epoch then (s1, Spent)
      else (s1, Showing(w.status))
  }

  /** A real merge is authorised by the owner's active approval alone, and once. */
  function ReadEligible(s: State, id: string, w: Window, jti: string): (State, Answer) {
    if w.status.Vetoed? then (s, Showing(Vetoed))
    else if w.approval.None? then (s, Showing(Pending))
    else if id in s.grants.granted then (s, Spent)
    else if s.kill.killed || w.approval.value.epoch != s.kill.epoch then (s, Spent)
    else if s.clock >= w.approval.value.at + s.cfg.grantTtlMs then (s, Spent)
    else (Log(s.(grants := MintedFor(s.grants, id, jti)), GrantMinted(s.clock, id, jti)), Grant(jti))
  }

  function MintedFor(g: Grants, id: string, jti: string): Grants {
    g.(granted := g.granted + {id}, minted := g.minted[jti := id], byWindow := g.byWindow[id := jti])
  }

  function DoPoll(s: State): (State, Answer) {
    (s.(windows := map id | id in s.windows :: TickedIn(s, s.windows[id])), Accepted)
  }

  function DoDetail(s: State, id: string, deviceId: string, deliveryId: string): (State, Answer) {
    if !Authenticates(s, deviceId) then (s, Refused(401))
    else if id !in s.windows then (s, Refused(404))
    else
      var w := TickedIn(s, s.windows[id]);
      var s1 := s.(windows := s.windows[id := w]);
      if !s.lane.quarantined && !s.kill.killed && IsOpen(w) && w.call.renderable then
        var d := Delivery(id, w.revision, w.call, deviceId, s.lane.devices[deviceId].generation,
                          s.clock + DELIVERY_TTL_MS, false);
        (Log(s1.(lane := s.lane.(deliveries := s.lane.deliveries[deliveryId := d])),
             Shown(s.clock, deliveryId, id, w.call, w.revision, deviceId, d.deviceGeneration)),
         Showing(w.status))
      else (s1, Showing(w.status))
  }

  /** Every check between an ack request and the delivered bit, window already ticked. */
  predicate AckValid(s: State, id: string, w: Window, deviceId: string, d: Delivery, revision: int, content: Call)
    requires deviceId in s.lane.devices
  {
    && !d.consumed
    && s.clock < d.expiresAt
    && d.windowId == id
    && d.deviceId == deviceId
    && d.deviceGeneration == s.lane.devices[deviceId].generation
    && d.revision == w.revision && revision == w.revision
    && w.call.renderable
    && d.content == w.call && content == w.call
    && s.clock <= w.deadline - MIN_VETO_RESPONSE_MS
  }

  function DoSeen(
    s: State, id: string, deviceId: string, deliveryId: string, revision: int, content: Call): (State, Answer)
  {
    if !Authenticates(s, deviceId) then (s, Refused(401))
    else if id !in s.windows then (s, Refused(404))
    else if s.windows[id].evidence.None? && (s.lane.quarantined || s.kill.killed) then (s, Refused(503))
    else
      var w := TickedIn(s, s.windows[id]);
      var s1 := s.(windows := s.windows[id := w]);
      if s.windows[id].evidence.Some? then (s1, Showing(w.status))
      else AcceptAck(s1, id, deviceId, deliveryId, revision, content)
  }

  /** The window is ticked and carries no evidence; the ack may become its evidence. */
  function AcceptAck(
    s: State, id: string, deviceId: string, deliveryId: string, revision: int, content: Call): (State, Answer)
    requires id in s.windows && deviceId in s.lane.devices
  {
    var w := s.windows[id];
    if !IsOpen(w) || deliveryId !in s.lane.deliveries then (s, Refused(409))
    else
      var d := s.lane.deliveries[deliveryId];
      if AckValid(s, id, w, deviceId, d, revision, content) then
        var e := Evidence(deviceId, s.lane.devices[deviceId].generation, s.clock);
        (Log(s.(windows := s.windows[id := Delivered(w, e)],
                lane := s.lane.(deliveries := s.lane.deliveries[deliveryId := d.(consumed := true)])),
             Acked(s.clock, deliveryId, id, w.call, w.revision, w.deadline, deviceId, e.generation)),
         Showing(w.status))
      else (s.(lane := s.lane.(deliveries := if DeliveryDead(s, deviceId, id, d)
                                             then s.lane.deliveries - {deliveryId} else s.lane.deliveries)),
            Refused(409))
  }

  /** A refused delivery that is dropped on the spot: expired, or of an old generation. */
  predicate DeliveryDead(s: State, deviceId: string, id: string, d: Delivery)
    requires deviceId in s.lane.devices
  {
    && !d.consumed
    && (s.clock >= d.expiresAt
        || (d.windowId == id && d.deviceId == deviceId
            && d.deviceGeneration != s.lane.devices[deviceId].generation))
  }

  /** Too late once the window's grant is committed for dispatch. */
  predicate CommittedForDispatch(g: Grants, id: string) {
    id in g.byWindow && g.byWindow[id] in g.committed
  }

  function DoVeto(s: State, id: string, who: string): (State, Answer) {
    if id !in s.windows then (s, Refused(404))
    else
      var w := s.windows[id];
      if w.status.Vetoed? then (s, Showing(Vetoed))
      else if CommittedForDispatch(s.grants, id) then (s, Refused(409))
      else if !CanVeto(w) then (s, Refused(409))
      else (s.(windows := s.windows[id := VetoedBy(w, who)]), Showing(Vetoed))
  }

  // ---- approval, grant, commit -------------------------------------------------------

  function DoApprovalChallengeStart(s: State, request: string, id: string): (State, Answer) {
    if !s.cfg.passkey then (s, Refused(501))
    else if id !in s.windows then (s, Refused(404))
    else if !GrantEligible(s.windows[id]) then (s, Refused(400))
    else if s.kill.killed then (s, Refused(409))
    else (s.(inFlight := s.inFlight[request := ApprovalInFlight(id)]), Accepted)
  }

  /** `rendered`: every field of the merge proved safe to show the owner. */
  function DoApprovalChallengeFinish(s: State, request: string, challenge: string, rendered: bool): (State, Answer) {
    if !(request in s.inFlight && s.inFlight[request].ApprovalInFlight? && s.inFlight[request].windowId in s.windows)
    then (s, Refused(400))
    else
      var id := s.inFlight[request].windowId;
      var s1 := s.(inFlight := s.inFlight - {request});
      if s.kill.killed then (s1, Refused(409))
      else if !rendered then (s1, Refused(400))
      else
        var c := ApprovalChallenge(challenge, s.windows[id].call, s.kill.epoch, s.clock + APPROVAL_CHALLENGE_TTL_MS);
        (Log(s1.(approvals := s.approvals[id := c]),
             ApprovalChallengeMinted(s.clock, id, s.windows[id].call, challenge)), Accepted)
  }

  /** The redemption of the approval ceremony: fresh, this epoch, this call, signed. */
  predicate ApprovalSigned(s: State, id: string, w: Window, signed: Option<string>) {
    && id in s.approvals
    && var c := s.approvals[id];
       s.clock < c.expiresAt && c.killEpoch == s.kill.epoch && c.call.args == w.call.args && signed == Some(c.challenge)
  }

  function DoApprove(s: State, id: string, owner: string, signed: Option<string>): (State, Answer) {
    if id !in s.windows then (s, Refused(404))
    else
      var w := s.windows[id];
      if !GrantEligible(w) then (s, Refused(400))
      else if s.kill.killed then (s, Refused(409))
      else if w.call.agentId in s.kill.agents then (s, Refused(409))
      else if s.cfg.passkey then
        var s1 := s.(approvals := s.approvals - {id});
        if !ApprovalSigned(s, id, w, signed) then (s1, Refused(401))
        else ApproveWindow(s1, id, owner, signed)
      else if !s.cfg.dev then (s, Refused(403))
      else ApproveWindow(s, id, owner, None)
  }

  function ApproveWindow(s: State, id: string, owner: string, signed: Option<string>): (State, Answer)
    requires id in s.windows
  {
    var w := s.windows[id];
    if !CanApprove(w) then (s, Refused(409))
    else (Log(s.(windows := s.windows[id := ApprovedBy(w, owner, s.kill.epoch, s.clock)]),
              Approved(s.clock, id, owner, signed)), Accepted)
  }

  /** The guard of the atomic live -> committed transition. */
  predicate CommitAllowed(s: State, jti: string) {
    && jti in s.grants.minted
    && s.grants.minted[jti] in s.windows
    && var w := s.windows[s.grants.minted[jti]];
       && !w.status.Vetoed?
       && !s.kill.killed
       && w.call.agentId !in s.kill.agents
       && w.approval.Some? && w.approval.value.epoch == s.kill.epoch
  }

  function DoCommit(s: State, jti: string): (State, Answer) {
    if CommitAllowed(s, jti) then
      (Log(s.(grants := s.grants.(committed := s.grants.committed + {jti})),
           Committed(s.clock, s.grants.minted[jti], jti)),
       CommitAnswer(true))
    else (s, CommitAnswer(false))
  }

  // ---- kill and restore -----------------------------------------------------------------

  function DoKill(s: State, agentId: Option<string>, persistLost: bool): (State, Answer) {
    if agentId.Some? && !IsValidAgentId(agentId.value) then (s, Refused(400))
    else (Engage(s, agentId, persistLost), Accepted)
  }

  predicate Restorable(kill: Kill, agentId: Option<string>) {
    if agentId.None? then kill.killed else !kill.killed && agentId.value in kill.agents
  }

  /** Unspendable by every path: expired, consumed, superseded, or agent not killed. */
  predicate Dead(s: State, r: CeremonyRecord) {
    || s.clock >= r.ceremony.startedAt + TwoGo.TTL_MS
    || r.ceremony.status.Completed?
    || r.epoch != s.kill.epoch
    || (r.agentId.Some? && r.agentId.value !in s.kill.agents)
  }

  function Purged(s: State): set<string> {
    set id | id in s.ceremonies.live && id in s.ceremonies.records && !Dead(s, s.ceremonies.records[id])
  }

  predicate HoldsFor(s: State, id: string, owner: string, agentId: Option<string>) {
    && id in s.ceremonies.records
    && s.ceremonies.records[id].ceremony.ownerId == owner
    && s.ceremonies.records[id].agentId == agentId
  }

  function DoCeremonyStart(
    s: State, id: string, owner: string, agentId: Option<string>, licensed: bool): (State, Answer)
  {
    if agentId.Some? && !IsValidAgentId(agentId.value) then (s, Refused(400))
    else if !Restorable(s.kill, agentId) then (s, Refused(409))
    else StartOrReuse(s.(ceremonies := s.ceremonies.(live := Purged(s))), id, owner, agentId, licensed)
  }

  /** One unspent ceremony an owner and scope: a repeat start hands out the one there is. */
  function StartOrReuse(
    s: State, id: string, owner: string, agentId: Option<string>, licensed: bool): (State, Answer)
  {
    var cs := s.ceremonies;
    var held := set x | x in cs.live && HoldsFor(s, x, owner, agentId);
    if held != {} then (s.(ceremonies := cs.(records := TickRecords(cs.records, held, s.clock))), Accepted)
    else if !licensed then (s, Refused(402))
    else if |cs.live| >= MAX_CEREMONY_RECORDS then (s, Refused(409))
    else
      var r := CeremonyRecord(TwoGo.Started(owner, s.clock), s.kill.epoch, agentId);
      (Log(s.(ceremonies := cs.(records := cs.records[id := r], live := cs.live + {id})),
           CeremonyStarted(s.clock, id, owner, agentId)), Accepted)
  }

  function TickRecord(r: CeremonyRecord, now: int): CeremonyRecord {
    r.(ceremony := TwoGo.Ticked(r.ceremony, now))
  }

  function TickRecords(rs: map<string, CeremonyRecord>, ids: set<string>, now: int): map<string, CeremonyRecord> {
    map id | id in rs :: if id in ids then TickRecord(rs[id], now) else rs[id]
  }

  function DoRestoreChallengeStart(s: State, request: string, owner: string, id: string): (State, Answer) {
    if !s.cfg.passkey then (s, Refused(501))
    else if s.kill.quarantineFailed then (s, Refused(409))
    else if !(id in s.ceremonies.live && id in s.ceremonies.records
              && s.ceremonies.records[id].ceremony.ownerId == owner) then (s, Refused(404))
    else
      var r := s.ceremonies.records[id];
      if !Restorable(s.kill, r.agentId) || r.epoch != s.kill.epoch then (s, Refused(409))
      else (s.(inFlight := s.inFlight[request := RestoreInFlight(id)]), Accepted)
  }

  function DoRestoreChallengeFinish(s: State, request: string, challenge: string): (State, Answer) {
    if !(request in s.inFlight && s.inFlight[request].RestoreInFlight?
         && s.inFlight[request].ceremonyId in s.ceremonies.records)
    then (s, Refused(400))
    else
      var id := s.inFlight[request].ceremonyId;
      var r := s.ceremonies.records[id];
      var s1 := s.(inFlight := s.inFlight - {request});
      if !Restorable(s.kill, r.agentId) || r.epoch != s.kill.epoch then (s1, Refused(409))
      else
        MintRestoreChallenge(s1, id, challenge)
  }

  /** The ceremony is ticked; only a ready one gets its challenge. */
  function MintRestoreChallenge(s: State, id: string, challenge: string): (State, Answer)
    requires id in s.ceremonies.records
  {
    var t := WithTicked(s, id);
    if t.ceremonies.records[id].ceremony.status.Ready? then (WithGo2(t, id, challenge), Accepted) else (t, Refused(409))
  }

  function WithTicked(s: State, id: string): State
    requires id in s.ceremonies.records
  {
    var r := TickRecord(s.ceremonies.records[id], s.clock);
    s.(ceremonies := s.ceremonies.(records := s.ceremonies.records[id := r]))
  }

  function WithGo2(s: State, id: string, challenge: string): State {
    var c := RestoreChallenge(challenge, s.kill.epoch, s.clock + RESTORE_CHALLENGE_TTL_MS);
    Log(s.(ceremonies := s.ceremonies.(challenges := s.ceremonies.challenges[id := c])),
        RestoreChallengeMinted(s.clock, id, challenge))
  }

  predicate RestoreSigned(s: State, id: string, signed: Option<string>) {
    && id in s.ceremonies.challenges
    && var c := s.ceremonies.challenges[id];
       s.clock < c.expiresAt && c.killEpoch == s.kill.epoch && signed == Some(c.challenge)
  }

  /** Checks GO 2/2 makes before it looks at a challenge or the ceremony clock. */
  predicate RestoreAdmissible(s: State, owner: string, id: string) {
    && !s.kill.quarantineFailed
    && id in s.ceremonies.live && id in s.ceremonies.records
    && var r := s.ceremonies.records[id];
       r.ceremony.ownerId == owner && r.epoch == s.kill.epoch && Restorable(s.kill, r.agentId)
  }

  function DoRestore(s: State, owner: string, id: string, signed: Option<string>, persistLost: bool): (State, Answer) {
    if !RestoreAdmissible(s, owner, id) then (s, Refused(409))
    else if s.cfg.passkey then
      var s1 := s.(ceremonies := s.ceremonies.(challenges := s.ceremonies.challenges - {id}));
      if !RestoreSigned(s, id, signed) then (s1, Refused(401))
      else ConfirmAndRestore(s1, owner, id, signed, persistLost)
    else ConfirmAndRestore(s, owner, id, None, persistLost)
  }

  /** confirm() consumes the ceremony; the switch then takes the authorization. */
  function ConfirmAndRestore(
    s: State, owner: string, id: string, signed: Option<string>, persistLost: bool): (State, Answer)
    requires id in s.ceremonies.records
  {
    var r := s.ceremonies.records[id];
    var confirmed := r.(ceremony := TwoGo.Confirmed(r.ceremony, s.clock));
    var s1 := s.(ceremonies := s.ceremonies.(records := s.ceremonies.records[id := confirmed]));
    if !TwoGo.Confirmable(r.ceremony, s.clock) then (s1, Refused(409))
    else if id == "" || r.ceremony.ownerId == "" || id in s.kill.consumed then (s1, Refused(409))
    else
      var kill := if r.agentId.None?
        then s.kill.(killed := false, consumed := s.kill.consumed + {id}, quarantineFailed := persistLost)
        else s.kill.(agents := s.kill.agents - {r.agentId.value}, consumed := s.kill.consumed + {id},
                     quarantineFailed := persistLost);
      (Log(s1.(kill := kill), Restored(s.clock, id, owner, r.agentId, signed)), Accepted)
  }

  // ---- device standing ----------------------------------------------------------------------

  function RevokedDevice(d: Device, now: int): Device {
    d.(generation := d.generation + 1, revokedAt := Some(now))
  }

  /** Purge the device's deliveries and clear the evidence it left on open windows. */
  function Cleansed(s: State, id: string): State {
    s.(lane := s.lane.(deliveries :=
         map k | k in s.lane.deliveries && s.lane.deliveries[k].deviceId != id :: s.lane.deliveries[k]),
       windows := map x | x in s.windows ::
         EvidenceRevoked(s.windows[x], id, s.clock, Stands(s.kill, s.lane, s.windows[x])))
  }

  /** The device is marked revoked before any window is ticked. */
  function Severed(s: State, id: string): State
    requires id in s.lane.devices
  {
    var marked := s.(lane := s.lane.(devices := s.lane.devices[id := RevokedDevice(s.lane.devices[id], s.clock)]));
    Log(Cleansed(marked, id), Revoked(s.clock, id))
  }

  /** The standing export after a severing: durable, or quarantine plus a kill. */
  function Exported(s: State, exported: bool, persistLost: bool): State {
    if exported then s.(lane := s.lane.(quarantined := false))
    else Engage(s.(lane := s.lane.(quarantined := true)), None, persistLost)
  }

  function DoRevokeStatic(s: State, deviceId: string, exported: bool, persistLost: bool): (State, Answer) {
    if !(deviceId in s.lane.devices && !s.lane.devices[deviceId].enrolled) then (s, Refused(404))
    else if s.lane.devices[deviceId].revokedAt.Some? then
      if !s.lane.quarantined then (s, Accepted)
      else if exported then (s.(lane := s.lane.(quarantined := false)), Accepted)
      else (s, Refused(503))
    else (Exported(Severed(s, deviceId), exported, persistLost), if exported then Accepted else Refused(503))
  }

  /** A quarantined registry resolves no enrolled device. */
  function Unresolved(lane: Lane): Lane {
    lane.(devices := map x | x in lane.devices ::
      if lane.devices[x].enrolled then lane.devices[x].(resolvable := false) else lane.devices[x])
  }

  function DoRevokeEnrolled(
    s: State, deviceId: string, published: bool, exported: bool, persistLost: bool): (State, Answer)
  {
    if !(deviceId in s.lane.devices && s.lane.devices[deviceId].enrolled && s.lane.devices[deviceId].resolvable)
    then (s, Refused(404))
    else if s.lane.devices[deviceId].revokedAt.Some? then
      (Exported(Cleansed(s, deviceId), exported, persistLost), if exported then Accepted else Refused(503))
    else if !published then (Engage(s.(lane := Unresolved(s.lane)), None, persistLost), Refused(503))
    else (Exported(Severed(s, deviceId), exported, persistLost), if exported then Accepted else Refused(503))
  }

  predicate Supersedable(s: State, id: string) {
    id in s.lane.devices && !s.lane.devices[id].enrolled && s.lane.devices[id].revokedAt.None?
  }

  /** Static devices holding the enrolled key are severed one after another. */
  function Superseded(s: State, aliases: seq<string>): State {
    if |aliases| == 0 then s
    else
      var before := Superseded(s, aliases[..|aliases| - 1]);
      var id := aliases[|aliases| - 1];
      if Supersedable(before, id) then Severed(before, id) else before
  }

  function DoAdmit(
    s: State, deviceId: string, aliases: seq<string>, exported: bool, persistLost: bool): (State, Answer)
  {
    var s1 := s.(lane := s.lane.(devices := s.lane.devices[deviceId := Device(1, None, true, true)]));
    var s2 := Superseded(s1, aliases);
    if exported || s2 == s1 then (s2, Accepted)
    else (Exported(s2, false, persistLost), Accepted)
  }

  // ---- the machine ------------------------------------------------------------------------------

  /** Fresh identifiers come from the CSPRNG and never repeat. */
  predicate Enabled(s: State, e: Event, now: int) {
    && s.clock <= now
    && (e.Register? ==> e.id !in s.windows)
    && (e.ReadVeto? ==> e.jti !in s.grants.minted)
    && (e.Detail? ==>
          forall k :: 0 <= k < |s.history| && s.history[k].Shown? ==> s.history[k].deliveryId != e.deliveryId)
    && (e.CeremonyStart? ==> e.id !in s.ceremonies.records)
    && (e.Admit? ==> e.deviceId !in s.lane.devices)
  }

  /** Requests about held calls. */
  predicate OfWindows(e: Event) {
    e.Register? || e.ReadVeto? || e.Poll? || e.Detail? || e.SeenBy? || e.Veto?
  }

  /** Requests about approvals and the grants they back. */
  predicate OfApprovals(e: Event) {
    e.ApprovalChallengeStart? || e.ApprovalChallengeFinish? || e.Approve? || e.Commit?
  }

  /** Requests about the kill switch and the ceremonies that lift it. */
  predicate OfSwitch(e: Event) {
    e.EngageKill? || e.CeremonyStart? || e.RestoreChallengeStart? || e.RestoreChallengeFinish? || e.Restore?
  }

  /** Requests that change who the owner's devices are. */
  predicate OfDevices(e: Event) {
    e.RevokeStatic? || e.RevokeEnrolled? || e.Admit? || e.RegistryLost?
  }

  function HandleWindows(s: State, e: Event): (State, Answer)
    requires OfWindows(e)
  {
    match e
    case Register(id, call, purpose) => DoRegister(s, id, call, purpose)
    case ReadVeto(id, jti) => DoReadVeto(s, id, jti)
    case Poll => DoPoll(s)
    case Detail(id, deviceId, deliveryId) => DoDetail(s, id, deviceId, deliveryId)
    case SeenBy(id, deviceId, deliveryId, revision, content) => DoSeen(s, id, deviceId, deliveryId, revision, content)
    case Veto(id, who) => DoVeto(s, id, who)
  }

  function HandleApprovals(s: State, e: Event): (State, Answer)
    requires OfApprovals(e)
  {
    match e
    case ApprovalChallengeStart(request, id) => DoApprovalChallengeStart(s, request, id)
    case ApprovalChallengeFinish(request, challenge, rendered) =>
      DoApprovalChallengeFinish(s, request, challenge, rendered)
    case Approve(id, owner, signed) => DoApprove(s, id, owner, signed)
    case Commit(jti) => DoCommit(s, jti)
  }

  function HandleSwitch(s: State, e: Event): (State, Answer)
    requires OfSwitch(e)
  {
    match e
    case EngageKill(agentId, persistLost) => DoKill(s, agentId, persistLost)
    case CeremonyStart(id, owner, agentId, licensed) => DoCeremonyStart(s, id, owner, agentId, licensed)
    case RestoreChallengeStart(request, owner, id) => DoRestoreChallengeStart(s, request, owner, id)
    case RestoreChallengeFinish(request, challenge) => DoRestoreChallengeFinish(s, request, challenge)
    case Restore(owner, id, signed, persistLost) => DoRestore(s, owner, id, signed, persistLost)
  }

  function HandleDevices(s: State, e: Event): (State, Answer)
    requires OfDevices(e)
  {
    match e
    case RevokeStatic(deviceId, exported, persistLost) => DoRevokeStatic(s, deviceId, exported, persistLost)
    case RevokeEnrolled(deviceId, published, exported, persistLost) =>
      DoRevokeEnrolled(s, deviceId, published, exported, persistLost)
    case Admit(deviceId, aliases, exported, persistLost) => DoAdmit(s, deviceId, aliases, exported, persistLost)
    case RegistryLost => (s.(lane := Unresolved(s.lane)), Accepted)
  }

  function Handle(s: State, e: Event): (State, Answer) {
    if OfWindows(e) then HandleWindows(s, e)
    else if OfApprovals(e) then HandleApprovals(s, e)
    else if OfSwitch(e) then HandleSwitch(s, e)
    else HandleDevices(s, e)
  }

  lemma HandlesByKind(s: State, e: Event)
    ensures OfWindows(e) ==> Handle(s, e) == HandleWindows(s, e)
    ensures OfApprovals(e) ==> Handle(s, e) == HandleApprovals(s, e)
    ensures OfSwitch(e) ==> Handle(s, e) == HandleSwitch(s, e)
  {
  }

  function Step(s: State, e: Event, now: int): (State, Answer) {
    Handle(s.(clock := now), e)
  }

  /** What boot hands the handlers: kill state as loaded, everything else empty. */
  predicate Init(s: State) {
    && s.windows == map[] && s.lane.deliveries == map[] && !s.lane.quarantined
    && s.grants == Grants({}, map[], map[], {})
    && s.approvals == map[] && s.inFlight == map[] && s.history == []
    && s.ceremonies == Ceremonies(map[], {}, map[])
    && s.kill.consumed == {}
  }

  datatype Timed = Timed(event: Event, now: int)

  /** A run: states between consecutive requests, in whatever order they came. */
  predicate Run(ss: seq<State>, es: seq<Timed>) {
    && |ss| == |es| + 1
    && Init(ss[0])
    && forall i :: 0 <= i < |es| ==>
         Enabled(ss[i], es[i].event, es[i].now) && ss[i + 1] == Step(ss[i], es[i].event, es[i].now).0
  }
}
