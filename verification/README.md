# OwnerSwitch control plane: a verified model

OwnerSwitch lets an owner stop agents, veto or approve what they hold, and
restore them again. This project models the control plane that decides all of
that, the crash-safe files under it, and the small codecs and engines around
it, and proves what they promise over whole runs.

- `Protocol` is the authority protocol as a state machine: each handler's
  synchronous tail is one step, requests arrive in any order, and a ghost trace
  records what was accepted. `ProtocolWindows`, `ProtocolGrants` and
  `ProtocolCeremonies` hold its invariants, and `ProtocolShowings`,
  `ProtocolAnswers`, `ProtocolRestores` and `ProtocolRevocations` what the maps
  say of the trace; `ProtocolTheorems`, `ProtocolLaws` and `ProtocolEffects` are
  what follows for every run: safety, exactly when each request is answered
  well, and what it changes. `ControlPlane` is the server object, whose methods
  are proved to take exactly the machine's steps over a `KillSwitch` with its
  own store; `Plane` composes it with the device registry and the standing
  keeper and records its life as a run, so the theorems hold of the running
  object.
- `VetoWindows` and `TwoGo` are the two clocks: the veto window, read lazily,
  and the restore ceremony.
- `Disk` is a directory whose calls may fail, with visible entries, what a power
  cut may leave of them, and the trail of states a crash may stop at.
  `KillStateFile`, `KillStateStore`, `KillSwitch`, `KillLog`; `RegistryFile`,
  `RegistryStore`, `DeviceRegistry`, `RegistryTheorems`, `RegistryRecords`,
  `RegistryBoots`; and `StandingStore`, `Standing`, `StandingLaws`,
  `StandingKeys` are the three stores on top of it. `Invites` is the invite
  store with callbacks that may re-enter it.
- `Cbor`, `CborReader`, `CborWire`, `CborText`, `Transcripts`,
  `TranscriptFields`, `Base64Url`, `Base64Text` and `Decimal` are the codecs;
  `Ladder`, `LadderTheorems`, `LadderSends`, `LadderWindows` and `LadderCaps` the
  escalation ladder; `Executor`, `Nonces` and `SignedKillState` at-most-once
  dispatch, replay protection and the signed kill-state channel.

`dafny verify dfyconfig.toml` checks everything.

Where the code does less than its comments say, the model follows the code:

- A due release is lost when its own witness is revoked, because the revoke
  handler marks the device before it ticks windows
  (`DueReleaseSurvivesRevoke`, `RevokeOvertakesDueRelease`).
- `degrade()` and `load()` trust an existence probe that also answers "no" when
  it fails; a quarantine can then be reported over a file that loads
  (`DegradePromise`), and a restart can then lose a kill; by these two lies and
  no other way (`KillSurvivesExactly`, `LyingProbeLosesKill`).
- A boot that cannot read the standing file drops the history of keys removed
  from the keys file; one export later it is gone, and a revoked phone can back
  releases again (`ForgettingIsExact`, `RevokedPhoneReturns`).
- A key enrolled in the running process has no entry in the standing history;
  if the registry is lost before the next export, its tombstone is lost too
  (`KeyReturnsExactly`, `TombstoneLost`).
- The kill epoch is monotone only across restarts that load; a corrupt boot is
  killed and starts over at one (`EpochAcrossRestart`, `EpochFalls`).
- A marker that an earlier process left with unsynced bytes is taken as it
  stands, so a usable registry may refuse after a power cut
  (`ComesBackExactly`, `UsableOverUnsyncedMarker`).
- A fractional rate cap admits one send more than its whole part
  (`CapHoldsExactlyWhenWhole`, `ThreeCallsUnderTwoAndAHalf`).
- A window opened again before the tick that drops its closed record is lost to
  the ladder (`ReopenNeedsTick`).
- UTF-8 is not injective on strings with lone surrogates
  (`Utf8InjectiveExactly`), and the CBOR text decoder drops a leading
  byte-order mark (`RoundTripExactly`, `FirstRoundTrip`).

Assumptions, stated where they are used: one nondecreasing clock sample per
step; identifiers, challenges and nonces drawn from the CSPRNG never repeat;
the MAC is unforgeable and canonical JSON injective; every signature, WebAuthn,
SPKI and argument-schema check is a truth value or an uninterpreted function of
what it is made over.

## Model

| member | source | states |
|---|---|---|
| ProtocolTheorems.CurrentEpochMeansLive | packages/control-plane/src/server.ts:3051-3112 | in every reachable state a current approval epoch, or a current epoch on a released window, implies not killed and agent not scope-killed |
| ProtocolTheorems.CommitNeedsOnlyTheEpoch | packages/control-plane/src/server.ts:1361-1379 | the commit guard is equivalent to minted, not vetoed and approval epoch current: its kill and agent checks are implied |
| ProtocolTheorems.NothingReleasedUnderAKill | packages/control-plane/src/server.ts:3037-3112 | GET /veto answers "released", or hands out a grant, only while neither the system nor the agent is killed |
| ProtocolTheorems.GrantRestsOnApproval | packages/control-plane/src/server.ts:3087-3107 | a handed-out grant rests on an approval of its window, younger than the grant TTL, with no kill of any kind since |
| ProtocolTheorems.OneGrantPerWindow | packages/control-plane/src/server.ts:3073-3107 | a window yields at most one grant over a run, and the two grant maps stay mutually inverse |
| ProtocolTheorems.CommitsAreApproved | packages/control-plane/src/server.ts:1316-1391 | every commit spends an approval of its own window with no global or scoped kill in between; with a passkey the approval redeemed a fresh challenge likewise |
| ProtocolTheorems.NeverVetoedAndCommitted | packages/control-plane/src/server.ts:2097-2142 | no window is vetoed at one time and committed at another, whatever the order of veto and commit requests |
| ProtocolTheorems.SilenceIsWitnessed | packages/control-plane/src/server.ts:1043-1054 | a window released in a step had an accepted ack for its current showing and call at least 60 s before the deadline it released at, redeeming a showing of that call to that very device, which stands unrevoked at that generation; and the system was neither killed nor quarantined |
| ProtocolTheorems.ReleasedWasAcked | packages/control-plane/src/veto.ts:194-238 | in any later state a released window still shows that ack and the showing behind it, and releasedAt is its deadline |
| ProtocolTheorems.DueReleaseSurvivesRevoke | packages/control-plane/src/server.ts:2520-2528 | a due, witnessed window is released by a revocation exactly when the revoked device is not its witness; veto.ts:133 promises it always is |
| ProtocolTheorems.RevokeOvertakesDueRelease | packages/control-plane/src/veto.ts:131-151 | from any boot with a usable static device: two runs that register, show and acknowledge a window alike; the one that revokes the witness at the deadline never releases, the one that polls first does and keeps it |
| ProtocolTheorems.UnkillIsEarned | packages/control-plane/src/server.ts:1781-1892 | every un-kill is a restore of exactly that scope, backed by one ceremony of the same owner and scope, 30 s to 5 min old with no kill in between, which over the whole run restores nothing else |
| ProtocolTheorems.RepeatStartChangesNoClock | packages/control-plane/src/server.ts:1526-1655 | the ceremony map never holds two records for one owner and scope; repeat starts open no record and move no clock |
| ProtocolLaws.VetoedExactly | packages/control-plane/src/server.ts:2097-2142 | over any run: a veto is answered "vetoed" if and only if the window exists, was not committed for dispatch, and is vetoed already, open or purposed; its status then is vetoed, and any other veto changes no window |
| ProtocolLaws.VetoIsFinal | packages/control-plane/src/veto.ts:162-183 | from a veto answered on: the window never changes, every read answers "vetoed", no commit of its grant answers true |
| ProtocolLaws.MergeReadExactly | packages/control-plane/src/server.ts:3037-3112 | a merge read answers "vetoed" iff vetoed, "pending" iff never approved, and with a grant iff a fresh approval no kill came after has yielded none yet; a grant goes on the record |
| ProtocolLaws.PlainReadExactly | packages/control-plane/src/server.ts:3037-3112 | any other read: "released" iff it was, or is due with its witness standing, and no kill came since it was registered; spent if one did; otherwise the status by the clock |
| ProtocolLaws.ShownExactly | packages/control-plane/src/server.ts:2274-2347 | a detail is a showing iff the device is known, nothing is killed or quarantined, and the window has something renderable to show; the delivery records exactly that showing, for two minutes |
| ProtocolLaws.AckedExactly | packages/control-plane/src/server.ts:2349-2456 | an ack is accepted iff the window has none and the device redeems its own unspent, unexpired delivery of what the window shows now; the window then carries it and the delivery is spent |
| ProtocolLaws.ApprovedExactly | packages/control-plane/src/server.ts:2021-2061 | an approval is accepted iff the merge is neither vetoed nor ever approved, nothing stops its agent, and the pending challenge was signed in time; it records owner, time and epoch |
| ProtocolLaws.PendingChallengeMeans | packages/control-plane/src/server.ts:2801-2842 | a pending approval challenge was minted for its window's call under two minutes before it expires, with no kill since |
| ProtocolLaws.ChallengePendsExactly | packages/control-plane/src/server.ts:2801-2842 | a challenge request let through before its await leaves a pending challenge iff its window stands, nothing is killed and it could be rendered |
| ProtocolLaws.CommittedExactly | packages/control-plane/src/server.ts:1316-1391 | a commit answers true iff the grant was minted, its window is not vetoed and no kill came after the approval; otherwise it moves nothing |
| ProtocolLaws.RestoredExactly | packages/control-plane/src/server.ts:1781-1892 | a restore is accepted iff a ceremony of its owner started 30 s to 5 min ago, its scope is stopped, no kill and no restore used it up, the challenge is signed, and no failed quarantine stands; it lifts that scope only |
| ProtocolLaws.RestoreChallengeExactly | packages/control-plane/src/server.ts:1741-1780 | a GO 2/2 challenge is minted iff the ceremony could be spent at that moment, however long the request waited |
| ProtocolLaws.RepeatStartReuses | packages/control-plane/src/server.ts:1526-1655 | a repeat start is accepted whatever the licence and however full the map, and opens nothing |
| ProtocolLaws.FirstStartExactly | packages/control-plane/src/server.ts:1526-1655 | a first start is accepted iff its scope is stopped, licensed and the purged map has room; it is then on the record |
| ProtocolEffects.RegisteredExactly | packages/control-plane/src/server.ts:2994-3034 | over any run: a call is held iff its agent is well named and not killed and a merge parses; it waits four minutes, unacknowledged and unapproved, at the epoch in force, and nothing else changes |
| ProtocolEffects.KilledExactly | packages/control-plane/src/server.ts:1424-1502 | a kill is refused for a malformed id alone; it bumps the epoch, stops its scope (global once 64 agents are killed), voids every pending challenge and is on the record |
| ProtocolEffects.KillVoidsForGood | packages/control-plane/src/server.ts:1424-1502 | after any kill, whatever is restored later: a window registered before it never answers "released", and one approved before it never yields a grant or a true commit again |
| ProtocolEffects.ApprovalAskedExactly | packages/control-plane/src/server.ts:2769-2800 | an approval challenge may be asked for iff a passkey is enrolled, the window is a merge and nothing is killed globally |
| ProtocolEffects.RestoreAskedExactly | packages/control-plane/src/server.ts:1698-1740 | a restore challenge may be asked for iff the ceremony is the owner's, no kill came after it, its scope is still stopped and the map holds it, which it does while it can be spent |
| ProtocolEffects.RevokedExactly | packages/control-plane/src/server.ts:2482-2700 | a revocation of a standing device is accepted iff published and exported durably; otherwise the system is killed in the same step; published, the device is out whatever the export did; no other device changes |
| ProtocolEffects.RevocationIsLocal | packages/control-plane/src/server.ts:2520-2528 | deliveries to other devices stay, windows it did not acknowledge are merely read, and an open window it did acknowledge loses its witness and is not released |
| ProtocolEffects.RegistryLostExactly | packages/control-plane/src/server.ts:3180-3270 | a registry lost in the running process leaves no enrolled device able to sign or witness, and every static device as it was |
| ProtocolEffects.AdmittedExactly | packages/control-plane/src/server.ts:3208-3268 | an enrolment admits the phone at generation one and puts out exactly the static aliases that stood; one severed without a durable export stops everything, and otherwise nothing is stopped |
| ProtocolShowings.AcksWereShown | packages/control-plane/src/server.ts:2392-2455 | behind every accepted ack of any run lies a showing of that window, call and revision to that very device and generation, under two minutes older, and no showing lies behind two acks |
| ProtocolShowings.RunKeepsShowings | packages/control-plane/src/server.ts:2274-2456 | every delivery in the map is backed by its showing, and no spent one by a second ack, in every reachable state |
| ProtocolAnswers.RunKeepsAnswers | packages/control-plane/src/server.ts:2994-3112 | in every reachable state the windows, approvals, grants and commits of the maps are exactly those on the trace, each epoch the present one iff no kill came since |
| ProtocolRestores.RunKeepsRestores | packages/control-plane/src/server.ts:1526-1892 | in every reachable state each start has its record, at the present epoch iff no kill came since; its status agrees with clock and trace, and only what no path can spend has left the map |
| ProtocolRevocations.RevokedDevicesAreOut | packages/control-plane/src/server.ts:2482-2700 | from its revocation on nothing is shown to a device or acknowledged by it, no delivery of its pends and no open window rests on it |
| ProtocolRevocations.RevokedIsRecorded | packages/control-plane/src/server.ts:2482-2700 | a revocation accepted of a standing device was exported durably, is on the record, and kills nothing |
| ProtocolWindows.StepWindows | packages/control-plane/src/server.ts:2274-2456 | every handler keeps each window's epochs, approval and evidence backed by the trace |
| ProtocolWindows.RunWindows | packages/control-plane/src/veto.ts:71-238 | that backing holds in every reachable state |
| ProtocolWindows.AckWindows | packages/control-plane/src/server.ts:2392-2455 | an accepted ack becomes evidence for the current showing, unrevoked since |
| ProtocolWindows.RevokeKeepsWindow | packages/control-plane/src/server.ts:2520-2528 | a revocation bumps the generation past every ack made under the old one |
| ProtocolGrants.StepKeepsInv | packages/control-plane/src/server.ts:3145-3175 | every handler keeps the grant maps inverse, grants approved and challenges bound to their call and epoch |
| ProtocolGrants.RunKeepsInv | packages/control-plane/src/server.ts:3145-3175 | those invariants hold in every reachable state |
| ProtocolGrants.RedemptionBacks | packages/control-plane/src/server.ts:2021-2061 | redeeming an approval challenge backs the approval: minted for this window, this epoch, signed, under 2 min old |
| ProtocolCeremonies.StepKeepsCeremonies | packages/control-plane/src/server.ts:1526-1655 | every handler keeps ceremonies one per scope, backed by their start, and consumed ids completed |
| ProtocolCeremonies.RunKeepsCeremonies | packages/control-plane/src/server.ts:1698-1780 | those invariants, and the backing of every logged restore, hold in every reachable state |
| ProtocolCeremonies.ConfirmBacks | packages/control-plane/src/server.ts:1873-1885 | a confirmed ceremony restores its own scope once, with its start and signed challenge inside their windows |
| ControlPlane.Server.PostRegisterVeto | packages/control-plane/src/server.ts:2994-3034 | registration takes the machine's Register step: scope-killed agents and unparseable merges refused, the window bound to the epoch in force |
| ControlPlane.Server.GetVeto | packages/control-plane/src/server.ts:3037-3112 | the read takes the machine's ReadVeto step |
| ControlPlane.Server.ReadEligible | packages/control-plane/src/server.ts:3073-3107 | the grant-eligible answer: vetoed, pending, spent or one mint |
| ControlPlane.Server.PollWindows | packages/control-plane/src/server.ts:2708-2735 | listing ticks every window once under the present standing |
| ControlPlane.Server.WitnessStanding | packages/control-plane/src/server.ts:1043-1054 | the standing check answers for the evidence the window carries |
| ControlPlane.Server.GetVetoDetail | packages/control-plane/src/server.ts:2274-2347 | a delivery is minted only while open, renderable, not killed, not quarantined |
| ControlPlane.Server.PostVetoSeen | packages/control-plane/src/server.ts:2349-2456 | the ack takes the machine's SeenBy step, every refusal included; which acks pass is AckedExactly and AcksWereShown |
| ControlPlane.Server.AcceptAck | packages/control-plane/src/server.ts:2392-2455 | the ack checks in order, the delivery's device among them, dead deliveries dropped, one delivery spent once |
| ControlPlane.Server.PostDeviceVeto | packages/control-plane/src/server.ts:2079-2142 | the veto takes the machine's Veto step; when it passes and that it stays is VetoedExactly and VetoIsFinal |
| ControlPlane.Server.ApprovalChallengeStart | packages/control-plane/src/server.ts:2769-2800 | checks before the await of an approval challenge |
| ControlPlane.Server.ApprovalChallengeFinish | packages/control-plane/src/server.ts:2801-2842 | checks after the await, and the challenge bound to call and epoch |
| ControlPlane.Server.PostApprove | packages/control-plane/src/server.ts:2021-2061 | an approval redeems its challenge, spent by the attempt |
| ControlPlane.Server.PostGrantCommit | packages/control-plane/src/server.ts:1361-1379 | the atomic live to committed transition |
| ControlPlane.Server.PostKill | packages/control-plane/src/server.ts:1424-1502 | a kill of either kind, with the challenge voids every kill performs |
| ControlPlane.Server.PurgeDead | packages/control-plane/src/server.ts:1579-1586 | exactly the unspendable ceremony records leave the map |
| ControlPlane.Server.PostCeremonyStart | packages/control-plane/src/server.ts:1526-1655 | GO 1/2: purge, idempotent return, licence, ceiling, then one new record |
| ControlPlane.Server.RestoreChallengeStart | packages/control-plane/src/server.ts:1698-1740 | checks before the await of a GO 2/2 challenge |
| ControlPlane.Server.RestoreChallengeFinish | packages/control-plane/src/server.ts:1741-1780 | everything checked again after the await |
| ControlPlane.Server.PostRestore | packages/control-plane/src/server.ts:1781-1892 | GO 2/2 takes the machine's Restore step through the kill switch and its store |
| ControlPlane.Server.Cleanse | packages/control-plane/src/server.ts:2521-2528 | deliveries purged and evidence cleared window by window |
| ControlPlane.Server.PostDeviceRevoke | packages/control-plane/src/server.ts:2482-2584 | the server half of a static revoke, given how the export went: sever, or quarantine and kill (Plane.RevokeStatic supplies the export) |
| ControlPlane.Server.RevokeEnrolledDevice | packages/control-plane/src/server.ts:2597-2700 | the server half of an enrolled device's revoke, given how publish and export went (Plane.RevokeEnrolled supplies both) |
| ControlPlane.Server.SupersedeAliases | packages/control-plane/src/server.ts:3216-3243 | the named static devices are severed one after another (the standing half finds them by key: StandingKeeper.SeverAliases) |
| ControlPlane.Server.AdmitDevice | packages/control-plane/src/server.ts:3208-3268 | the server half of an admit, with the export's failure path (Plane.TakeIn supplies aliases and export) |
| ControlPlane.Server.Route | packages/control-plane/src/server.ts:3422-3480 | a request goes to its handler and takes the machine's step; only how the disk answered is filled in |
| Plane.Plane.constructor | packages/control-plane/src/server.ts:652-1043 | a server over a booted registry, standing keeper and kill switch starts a run of the machine: static and enrolled devices agree between the three |
| Plane.Plane.Serve | packages/control-plane/src/server.ts:3422-3480 | any request that leaves the devices alone extends the recorded run by its own step, with its own answer |
| Plane.Plane.RevokeDevice | packages/control-plane/src/server.ts:2482-2700 | a revoke extends the run, and registry, standing keeper and server still agree |
| Plane.Plane.RevokeStatic | packages/control-plane/src/server.ts:2482-2584 | one step of the machine and one of the standing world with the kill in it; an accepted answer that took a step is a durable one |
| Plane.Plane.RevokeEnrolled | packages/control-plane/src/server.ts:2597-2705 | the registry's own durable revoke, then the export, then the server: the published and exported flags of the machine's step are these outcomes |
| Plane.Plane.TakeIn | packages/control-plane/src/server.ts:3208-3268 | static names of the admitted key are found by comparing keys, severed and exported in one publish, and the machine admits with exactly these |
| Plane.Plane.Enrol | packages/control-plane/src/server.ts:3180-3270 | an enrolment commits in the registry first; committed, it is an Admit step; a registry lost on the way is a RegistryLost step; otherwise nothing happened |
| Plane.Plane.Mint | packages/control-plane/src/server.ts:3368-3411 | minting leaves the run as it is, unless the owner's publish loses the registry |
| Plane.Plane.ReadVeto | packages/control-plane/src/server.ts:3037-3112 | on the running object: released, or a grant, only while neither the system nor the agent is killed, a grant only on a fresh approval no kill came after |
| Plane.Plane.CommitGrant | packages/control-plane/src/server.ts:1316-1391 | on the running object: committed is answered only on an approval of that window with no kill between |
| Plane.Plane.NeverVetoedAndCommitted | packages/control-plane/src/server.ts:2097-2142 | in every state of the running object no window is both vetoed and committed for dispatch |
| Plane.Plane.ReleasedWasAcked | packages/control-plane/src/veto.ts:194-238 | in every state of the running object a released window shows the timely acknowledgement behind it |
| VetoWindows.VetoWindow.Tick | packages/control-plane/src/veto.ts:194-238 | one tick moves the window as the specification says, evidence triple in step |
| VetoWindows.VetoWindow.RevokeDeliveryEvidence | packages/control-plane/src/veto.ts:142-151 | tick first, then clear the named device's evidence on an open window; the answer says whether it did |
| VetoWindows.VetoWindow.MarkDelivered | packages/control-plane/src/veto.ts:119-129 | the first delivery evidence stays |
| VetoWindows.VetoWindow.Veto | packages/control-plane/src/veto.ts:162-183 | who may veto what, without ticking first; answered well, the status is vetoed and the first vetoer kept |
| VetoWindows.VetoWindow.Approve | packages/control-plane/src/veto.ts:185-192 | one approval, never on a vetoed window |
| VetoWindows.LaggingRun | packages/control-plane/src/veto.ts:194-238 | however rarely it is polled, a window lags its eager timeline in a bounded, stated way |
| VetoWindows.TwoTicksReachTimeline | packages/control-plane/src/veto.ts:194-238 | after any polls and acks two ticks bring the window to the closed form of the ack times |
| VetoWindows.SchedulesAgree | packages/control-plane/src/veto.ts:194-238 | two polling schedules with the same ack requests settle to the same status, revision, deadline and releasedAt |
| TwoGo.RestoreCeremony.Tick | packages/control-plane/src/twogo.ts:49-56 | go1, ready or expired by elapsed time, terminal states fixed |
| TwoGo.RestoreCeremony.Confirm | packages/control-plane/src/twogo.ts:68-75 | confirms exactly from ready, and consumes |
| TwoGo.ConfirmsOnceInsideItsWindow | packages/control-plane/src/twogo.ts:49-75 | under a nondecreasing clock a ceremony confirms at most once, 30 s to 5 min after its start |
| TwoGo.ConfirmsExactly | packages/control-plane/src/twogo.ts:49-75 | over any life a confirmation succeeds iff it falls 30 s to 5 min after the start and none succeeded before, however the ceremony was ticked |
| KillStateFile.BuildAgentKills | packages/control-plane/src/kill-state.ts:143-185 | the table loop accepts exactly nonempty, bounded, well-formed tables |
| KillStateFile.LoaderInvertsWriter | packages/control-plane/src/kill-state.ts:122-185 | the loader accepts a document exactly when it is the printed form of a state the writer may hold, and reads back that state |
| KillStateFile.AgentIdExactly | packages/shared/src/agent-id.ts:37-47 | an agent id is one visible character, or up to 126 printable ones framed by two visible ones, and no prototype name |
| KillStateStore.KillStateFileStore.EnsureMarker | packages/control-plane/src/kill-state.ts:358-376 | the marker after create, EEXIST or failure, and nothing else moved |
| KillStateStore.KillStateFileStore.Save | packages/control-plane/src/kill-state.ts:280-325 | marker before state, one atomic publish; a throw has not published |
| KillStateStore.KillStateFileStore.Degrade | packages/control-plane/src/kill-state.ts:334-355 | quarantined: marker present, and state gone if the closing probe told the truth; if it lied the state entry is untouched |
| KillStateStore.KillStateFileStore.Load | packages/control-plane/src/kill-state.ts:202-278 | absent, loaded or corrupt from the directory alone |
| KillStateStore.LoadAfterPowerCut | packages/control-plane/src/kill-state.ts:202-401 | after a durable save, through later saves, crashes and cuts: a load returns the durable state, one saved since, or corrupt, and reads as a first boot exactly when the state file is gone and the existence probe lies |
| KillStateStore.NeverFirstBootAgain | packages/control-plane/src/kill-state.ts:280-325 | the marker goes first: through saves, degrades and loads that may crash at any point, once any state was published no honest load takes the directory for a first boot |
| KillStateStore.DurableStateStays | packages/control-plane/src/kill-state.ts:280-325 | until a later save or degrade every readable load returns exactly the durable state |
| KillStateStore.DegradePromise | packages/control-plane/src/kill-state.ts:334-355 | a reported quarantine makes later loads corrupt exactly when the closing probe was honest or the directory it was called on held no state that loads |
| KillStateStore.DegradeFooledByProbe | packages/control-plane/src/kill-state.ts:334-355 | failing unlink plus failing stat, over any loadable state: reported quarantined, loads healthy |
| KillSwitch.KillSwitch.constructor | packages/control-plane/src/kill.ts:128-166 | absent boots armed, corrupt boots killed, anything else resumes with its audit log: the global kill's entry, then one entry per scoped kill |
| KillSwitch.KillSwitch.Persist | packages/control-plane/src/kill.ts:400-460 | save, or quarantine after a throw, with the flags that follow |
| KillSwitch.KillSwitch.Engage | packages/control-plane/src/kill.ts:169-190 | the epoch, log, flag and persist of a global kill |
| KillSwitch.KillSwitch.EngageAgent | packages/control-plane/src/kill.ts:205-255 | a scoped kill, or its escalation to the global one |
| KillSwitch.KillSwitch.RestoreAgent | packages/control-plane/src/kill.ts:279-295 | one scoped kill lifted, its ceremony spent |
| KillSwitch.KillSwitch.Restore | packages/control-plane/src/kill.ts:366-380 | the global kill lifted, its ceremony spent |
| KillSwitch.KillSurvivesExactly | packages/control-plane/src/kill.ts:128-166 | in any run, whatever failed or lied, after any state that did not admit failed quarantine a restart keeps every stop if and only if the file cannot be read, or the last step was not fooled (save threw, probe lied, and the document it left lets a stopped agent act) and the restart's own probe is not |
| KillSwitch.KillSurvivesRestart | packages/control-plane/src/kill.ts:128-166 | in any run, whatever lied: a restart after any state that did not admit failed quarantine is globally killed, or stands at exactly the kills of memory, if and only if the file is corrupt, or absent with nothing to lose, or the last step was not lied to, or the document the lie kept is killed or holds the same kills |
| KillSwitch.EpochAcrossRestart | packages/control-plane/src/kill.ts:132-166 | in any run, whatever lied, the epoch a restart comes up with: memory's, or one on a corrupt boot, none on a first boot, and the old document's after a lie; so it is kept exactly when these agree |
| KillSwitch.EpochFalls | packages/control-plane/src/kill.ts:132-166 | the run with every probe honest: a kill saved, a second kill whose save fails and is quarantined, and a restart, which is killed at epoch one where memory stood at two |
| KillSwitch.RunBacks | packages/control-plane/src/kill.ts:400-460 | in every reachable world of any run the directory backs memory, or fails closed, if and only if failed quarantine is admitted or the last step left no stale document behind a lying probe |
| KillSwitch.KillBumpsEpoch | packages/control-plane/src/kill.ts:169-255 | a kill bumps the epoch by one, stops what it names, un-stops nothing |
| KillSwitch.RestoreLiftsOneStop | packages/control-plane/src/kill.ts:279-295 | a restore lifts one stop, spends its ceremony and leaves the epoch |
| KillLog.LogTellsState | packages/control-plane/src/kill.ts:128-380 | in every reachable world, through failed saves, lying probes and restarts: replaying the audit log gives exactly the stops in force, their events and the ceremonies spent, and no ceremony restored twice |
| KillLog.StepIsItsEntry | packages/control-plane/src/kill.ts:169-380 | each kill or restore adds exactly one entry, the escalated kill its global one, and changes memory as a reader of the log would |
| KillLog.FileSaysWhatTheLogSays | packages/control-plane/src/kill.ts:400-460 | after a step whose save was published, what a reader finds in the file, if it loads, is what the log replays to, at memory's epoch |
| KillSwitch.LyingProbeLosesKill | packages/control-plane/src/kill.ts:400-460 | a run from a blank directory that loses a kill: boot, kill, restore, a second kill whose save, unlink and stat all fail, restart unkilled |
| KillSwitch.SanitizeScopedKillReason | packages/control-plane/src/kill.ts:71-77 | control characters become blanks, at most 128 characters, nothing else changes |
| RegistryFile.AsPersistedEnrolledDevices | packages/control-plane/src/enrolled-devices.ts:203-328 | the loader's loops accept exactly the registries with distinct credentials and keys over all history, covered owners, distinct handles and the two ceilings |
| RegistryFile.CheckDevices | packages/control-plane/src/enrolled-devices.ts:228-287 | seen-sets decide distinctness |
| RegistryFile.AsLegacyV1 | packages/control-plane/src/enrolled-devices.ts:337-377 | version 1 accepted by way of placeholder handles |
| RegistryFile.LegacyMeansCompletable | packages/control-plane/src/enrolled-devices.ts:337-377 | version 1 is accepted exactly when some owners table makes it an accepted version 2 |
| RegistryFile.MigrationAccepted | packages/control-plane/src/enrolled-devices.ts:857-884 | migration yields an accepted registry exactly when the owners fit the ceiling |
| RegistryFile.FirstBootAccepted | packages/control-plane/src/enrolled-devices.ts:902-925 | the first-boot registry is accepted |
| RegistryFile.RevokeAccepted | packages/control-plane/src/enrolled-devices.ts:990-1031 | a revocation is publishable exactly while the generation can be bumped |
| RegistryFile.OwnerAccepted | packages/control-plane/src/enrolled-devices.ts:1091-1118 | a new owner handle is publishable exactly for a well-named owner under the ceiling |
| RegistryFile.AdmitAccepted | packages/control-plane/src/enrolled-devices.ts:1218-1280 | an admit is publishable exactly when its owner holds a handle and the generation can be bumped |
| RegistryStore.EnrolledDeviceFileStore.Load | packages/control-plane/src/enrolled-devices.ts:504-617 | the answer is a function of the directory and of how its calls answered; a state is served only once its data and both names are durable |
| RegistryStore.EnrolledDeviceFileStore.Save | packages/control-plane/src/enrolled-devices.ts:619-684 | only what load accepts is published, marker first, one rename |
| RegistryStore.EnrolledDeviceFileStore.EnsureMarker | packages/control-plane/src/enrolled-devices.ts:686-717 | a valid marker is left alone, a missing one made durable or reported |
| DeviceRegistry.EnrolledDeviceRegistry.Initialize | packages/control-plane/src/enrolled-devices.ts:839-925 | first boot, load, migration or quarantine |
| DeviceRegistry.EnrolledDeviceRegistry.Revoke | packages/control-plane/src/enrolled-devices.ts:990-1031 | publish first; anything unproven quarantines |
| DeviceRegistry.EnrolledDeviceRegistry.EnsureOwnerUserId | packages/control-plane/src/enrolled-devices.ts:1091-1118 | an owner's handle is durable before it is used |
| DeviceRegistry.EnrolledDeviceRegistry.MintInvite | packages/control-plane/src/enrolled-devices.ts:1130-1168 | authority fields and owner come from live state, the handle first |
| DeviceRegistry.EnrolledDeviceRegistry.CommitEnrollment | packages/control-plane/src/enrolled-devices.ts:1186-1300 | proof chain and burn, duplicate checks, one publish, then memory; what is recorded is EnrolledRecordStays |
| RegistryTheorems.UsableMeansDurable | packages/control-plane/src/enrolled-devices.ts:504-617 | in every reachable state with a usable registry: after a power cut a load returns memory if and only if its calls succeed and the marker it finds is ours, and refuses otherwise; with the marker's bytes synced the cut changes nothing |
| RegistryTheorems.ComesBackExactly | packages/control-plane/src/enrolled-devices.ts:686-717 | in every reachable state with a usable registry: every power cut leaves our marker, and equally every later load whose calls succeed returns memory, if and only if the marker's bytes were synced |
| RegistryTheorems.UsableOverUnsyncedMarker | packages/control-plane/src/enrolled-devices.ts:686-717 | the run from an empty directory to a usable registry over a marker whose bytes were never synced |
| RegistryTheorems.AdmitIsAtomic | packages/control-plane/src/enrolled-devices.ts:1252-1280 | a cut anywhere in an admit leaves the old registry or the new one, device together with generation bump |
| RegistryTheorems.RunKeepsBacking | packages/control-plane/src/enrolled-devices.ts:839-925 | memory is backed by the disk through failures, recoveries, crashes and cuts |
| RegistryTheorems.LiveInvitesHaveDurableOwners | packages/control-plane/src/enrolled-devices.ts:1130-1168 | every live invite's owner handle is in every file that could still come back, across quarantine and recovery |
| RegistryTheorems.EnrolmentIsPublishable | packages/control-plane/src/enrolled-devices.ts:1218-1280 | so an enrolment is never refused for want of its owner |
| RegistryTheorems.NothingIsForgotten | packages/control-plane/src/enrolled-devices.ts:813-1301 | no later state of any process serves a registry missing a device, revocation, handle or bootstrap generation, or first-boots |
| RegistryTheorems.RevocationIsForever | packages/control-plane/src/enrolled-devices.ts:962-967 | a device revoked in a served registry stands at no generation ever again |
| RegistryTheorems.BootstrapLaneCloses | packages/control-plane/src/enrolled-devices.ts:1252-1264 | a bootstrap spend uses an invite of the current generation and passes every earlier one for good |
| RegistryRecords.EnrolledRecordStays | packages/control-plane/src/enrolled-devices.ts:1236-1280 | after a committed enrolment every registry served, by any process, holds for that phone exactly the credential, both keys, counter, transports and handle it submitted and the owner and name of the invite it spent |
| RegistryRecords.AdmittedExactly | packages/control-plane/src/enrolled-devices.ts:1186-1300 | in any run a commit admits iff the registry is usable and below its ceiling, the invite is spendable by secret, name, proofs and epoch and its origin still vouches, the keys never lived here, and the publish was durable |
| RegistryRecords.OnlyTheCredentialDecides | packages/control-plane/src/enrolled-devices.ts:1218-1280 | in every reachable state what an admit on a live invite would publish is acceptable iff the credential is presentable, the id storable and a bootstrap generation can move: owner and name never stand in the way |
| RegistryRecords.ServedIsSound | packages/control-plane/src/enrolled-devices.ts:203-328 | every registry ever served holds P-256 keys, canonical credentials no two records share, owners with distinct handles, at most 64 active phones |
| RegistryRecords.RevokedRecordStays | packages/control-plane/src/enrolled-devices.ts:990-1031 | after a durable revocation every registry served holds the device revoked at that moment, one generation on, otherwise as it was |
| RegistryRecords.LiveInvitesWereMinted | packages/control-plane/src/enrolled-devices.ts:1130-1168 | every live invite was minted in this run with the request's commitments, for the owner its issuer's record names, at the issuer's generation |
| RegistryRecords.OwnershipDescends | packages/control-plane/src/enrolled-devices.ts:1130-1280 | a phone admitted on another's invite belongs to that other's owner in every registry served from then on |
| RegistryBoots.BootServesExactly | packages/control-plane/src/enrolled-devices.ts:839-925 | over any run a boot serves a registry in exactly three cases: a blank directory with an empty registry durably published; an acceptable file whose calls succeeded, as it stands; a version 1 file that handles can complete, of at most 128 owners, durably migrated device for device |
| RegistryBoots.MintLosesExactly | packages/control-plane/src/enrolled-devices.ts:1091-1168 | a mint publishes only a new owner's handle, below 128 owners, for a standing issuer at a usable epoch; it loses the registry iff that publish came through without being durable |
| RegistryBoots.NeverFirstBootAgain | packages/control-plane/src/enrolled-devices.ts:619-684 | the marker goes first: through operations that fail or die at any point, once any registry was published no load takes the directory for a first boot |
| Invites.InviteStore.Register | packages/control-plane/src/invite.ts:214-296 | mint bound to live state, the standing callback free to re-enter |
| Invites.InviteStore.Spend | packages/control-plane/src/invite.ts:333-432 | check and burn, the record reserved before the callback |
| Invites.InviteStore.Enrol | packages/control-plane/src/invite.ts:598-716 | the proof chain first, the burn last |
| Invites.InviteStore.Sweep | packages/control-plane/src/invite.ts:198-202 | exactly the dead leave |
| Invites.InviteStore.BurnBootstrapSiblings | packages/control-plane/src/invite.ts:420-428 | every bootstrap sibling goes with the spend |
| Invites.InviteStore.Invalidate | packages/control-plane/src/invite.ts:439-448 | invites of other epochs leave, and are counted |
| Invites.RunRetires | packages/control-plane/src/invite.ts:214-432 | a spent, burned or expired registration never comes back, however callbacks re-enter |
| Invites.SpentAtMostOnce | packages/control-plane/src/invite.ts:333-432 | over any run an invite is spent at most as often as it was registered |
| Invites.SuccessMeans | packages/control-plane/src/invite.ts:333-432 | a success: live, unexpired, secret known, no kill since the mint, and issuer standing or empty registry at the current generation with all siblings gone |
| Invites.SuccessSpends | packages/control-plane/src/invite.ts:333-432 | a success is one spend, and removes the invite unless the standing callback ran caller code |
| Invites.SurvivingRefusalKeepsInvites | packages/control-plane/src/invite.ts:598-716 | a refusal reporting the invite as surviving removes no unexpired invite |
| Invites.BurnedRefusalLeavesNothing | packages/control-plane/src/invite.ts:598-716 | one reporting it gone leaves none, unless the standing callback ran caller code |
| Invites.MintIsLive | packages/control-plane/src/invite.ts:214-296 | what mints records exactly the live facts, and nothing mints under a kill |
| Invites.MintedExactly | packages/control-plane/src/invite.ts:214-296 | a registration mints iff its id is free, its contract well formed and stating the live facts, its issuer standing, and there is room after the sweep and the callback |
| Invites.EnrolledExactly | packages/control-plane/src/invite.ts:598-716 | an enrolment succeeds iff the invite is live with this secret, name and proofs, no kill came since the mint and its origin still vouches; it yields the invite as minted |
| Invites.SupersededInvitesDie | packages/control-plane/src/invite.ts:439-448 | once an epoch is declared exactly the invites minted in it live on |
| StandingStore.BuildTable | packages/control-plane/src/device-standing.ts:87-122 | the loader's table loop |
| StandingStore.DeviceStandingFileStore.Save | packages/control-plane/src/device-standing.ts:358-428 | marker, one rename, boundary check |
| StandingStore.DeviceStandingFileStore.Load | packages/control-plane/src/device-standing.ts:288-356 | absent, loaded or corrupt from the directory alone |
| Standing.StandingKeeper.ComposeSnapshot | packages/control-plane/src/server.ts:841-877 | history with tombstones, then keys-file devices, then the registry |
| Standing.StandingKeeper.Boot | packages/control-plane/src/server.ts:912-966 | boot reconciliation: corrupt revokes all, otherwise overlay, reconcile, publish or refuse |
| Standing.StandingKeeper.ReconcileStaticAliases | packages/control-plane/src/server.ts:986-1025 | static names of migrated keys are revoked |
| Standing.StandingKeeper.RevokeStatic | packages/control-plane/src/server.ts:2518-2576 | mark and export; the new memory is durable on disk, or quarantined with a kill asked for |
| Standing.StandingKeeper.RetryExport | packages/control-plane/src/server.ts:2490-2516 | the retry of a failed export lifts the quarantine exactly when it is durable |
| Standing.StandingKeeper.ExportRegistry | packages/control-plane/src/server.ts:2644-2700 | what the registry vouches for after a revoke is exported, or the lane quarantined |
| Standing.StandingKeeper.SeverAliases | packages/control-plane/src/server.ts:3216-3243 | exactly the unrevoked static devices with the enrolled key are severed |
| Standing.StandingKeeper.Enrol | packages/control-plane/src/server.ts:3216-3268 | aliases severed and the new projection exported in one publish; quarantined only if something was severed and the publish failed |
| Standing.RevokeAnswer | packages/control-plane/src/server.ts:2546-2576 | a revoke is durably on disk, or the lane is quarantined and killed in the same step |
| Standing.RevocationSurvives | packages/control-plane/src/server.ts:841-965 | a revoked static device backs no silence release in any later state until a restore, across crashes, cuts, restarts and key-file edits, provided no boot could forget it |
| Standing.DurableRevocationIsForever | packages/control-plane/src/server.ts:2482-2584 | once the revoke, or the retry that recovers a failed export, was answered durably, not even restores bring the device back, provided no boot could forget it |
| Standing.ForgettingIsExact | packages/control-plane/src/server.ts:912-966 | from a boot over a file that shows the device revoked, some continuation lets it back a release again if and only if that boot reads a corrupt file, without the key, with a usable registry and keys the file can hold |
| Standing.RevokedPhoneReturns | packages/control-plane/src/server.ts:824-832 | the failing run from an empty directory: revoked durably, key removed, one unreadable boot, one enrolment, key back, releases backed, with no restore before it, and still after one |
| Standing.BootRemembers | packages/control-plane/src/server.ts:912-966 | after a boot the process refuses the device exactly when the boot is not a forgetting one |
| StandingLaws.StandsExactly | packages/control-plane/src/server.ts:912-1025 | after any boot that serves: a static device is revoked iff the file shows it so, or its key moved to an enrolled phone, with the generation that follows; over an unreadable file all are; and none is there that the keys file does not name |
| StandingLaws.BootServesExactly | packages/control-plane/src/server.ts:912-966 | a boot serves iff there is nothing to export, its file cannot be read, or its export is durable; killed iff it was or the kill state cannot be read |
| StandingLaws.RetryLiftsExactly | packages/control-plane/src/server.ts:2490-2516 | a retried export lifts the quarantine iff it is durable, leaves memory and switch alone, and then the file is the export |
| StandingLaws.EnrolsExactly | packages/control-plane/src/server.ts:3216-3268 | an enrolment revokes exactly the named static devices that stood, and quarantines and kills iff one did and the export was not durable |
| StandingLaws.KillHolds | packages/control-plane/src/server.ts:1043-1054 | from a kill until a restore nothing backs a release, whatever boots, crashes or is exported meanwhile |
| StandingLaws.NeverFirstBootAgain | packages/control-plane/src/device-standing.ts:358-405 | the marker goes first: through steps that fail or die at any point, once standing was published a load reads as a first boot iff the file is gone and the marker's probe lies |
| StandingLaws.LoadsExactly | packages/control-plane/src/device-standing.ts:87-122 | a load serves a table iff the file is whole, within 256 KiB, of version 1 or 2 and every entry well named, with a safe generation and, in version 2 only, a lettered key |
| StandingKeys.KeyIsKeptExactly | packages/control-plane/src/server.ts:841-877 | from files that all name a migrated key, the next state's files still name it, or do not load, if and only if the step is no export of a memory that names it neither in its history nor through a usable registry |
| StandingKeys.MigratedKeyStaysOut | packages/control-plane/src/server.ts:846-858 | once a migrated key is out no static name answers for it in any later state, across crashes, cuts, corrupt boots, restores and key-file edits, until such an export |
| StandingKeys.EnrolmentPutsOut | packages/control-plane/src/server.ts:3216-3268 | a durable enrolment that severed every static name of its key puts the key out |
| StandingKeys.KeyReturnsExactly | packages/control-plane/src/server.ts:841-1025 | from a state where the key is out, some continuation lets a static name answer for it again if and only if the step drops it |
| StandingKeys.MigratedKeyIsRefused | packages/control-plane/src/server.ts:986-1025 | after any boot that read its file no static name answers for a migrated key |
| StandingKeys.ExportNamesKey | packages/control-plane/src/server.ts:841-877 | for any memory: its export names a key exactly while its history, under an id nothing overrides, or its usable registry does |
| StandingKeys.TombstoneLost | packages/control-plane/src/server.ts:846-858 | the run: two phones, one enrolled with its key, the registry lost, the other durably revoked, a restart with the enrolled key under a new static name, which then backs releases |
| Ladder.SortIsStable | packages/escalation/src/ladder.ts:87 | same rungs, in time order, equal offsets as given |
| Ladder.NewLadderEngine | packages/escalation/src/ladder.ts:86-99 | exactly the options the constructor accepts |
| LadderWindows.WindowsAreIndependent | packages/escalation/src/ladder.ts:106-131 | over any events, what the shared run holds for an id is what that id's own events and the ticks make of it alone; ids stay distinct and a run is live exactly while a window is tracked |
| LadderWindows.ReopenNeedsTick | packages/escalation/src/ladder.ts:106-125 | a window reopened before the tick that drops its closed record is forgotten; after it, it is taken up afresh |
| Ladder.LadderEngine.WindowOpened | packages/escalation/src/ladder.ts:106-113 | found by id in the live run or appended to it, ids kept distinct; what that means for the window is WindowsAreIndependent |
| Ladder.LadderEngine.CloseWindow | packages/escalation/src/ladder.ts:122-125 | one write to the slot found for the id is the update of every window of that id |
| Ladder.LadderEngine.WindowDelivered | packages/escalation/src/ladder.ts:116-119 | likewise for the delivered mark |
| Ladder.LadderEngine.WindowDeadline | packages/escalation/src/ladder.ts:128-131 | likewise for a moved deadline |
| Ladder.LadderEngine.Tick | packages/escalation/src/ladder.ts:159-208 | relays, then stand-downs and sends; what they are is TickIsExact and TickLeaves |
| Ladder.LadderEngine.FireRungs | packages/escalation/src/ladder.ts:186-206 | the rung loop, one action a decision |
| Ladder.LadderEngine.Admit | packages/escalation/src/ladder.ts:246-264 | spend, then rate ceilings |
| Ladder.LadderEngine.DropClosed | packages/escalation/src/ladder.ts:220-231 | collecting the closed windows and deleting them key by key leaves exactly the open ones, in order; an empty run ends |
| Ladder.LadderEngine.ChannelVeto | packages/escalation/src/ladder.ts:140-153 | two filter loops queue the veto for the open windows it names; meant by VetoRelaysOpenWindows |
| LadderSends.CeilingsHold | packages/escalation/src/ladder.ts:246-264 | over any runs, on the sends that ticks return: no stretch under ten minutes holds more calls than the voice cap rounded up, no hour more messages than the SMS cap rounded up, no UTC day costs more than the spend limit |
| LadderSends.TickIsExact | packages/escalation/src/ladder.ts:186-206 | a tick decides exactly the due rungs not decided yet, in order, and ends in one action for each: a send of its channel over the open windows, or one cap-hit stand-down of them; nothing else it returns sends |
| LadderSends.TickLeaves | packages/escalation/src/ladder.ts:159-231 | a tick drops the closed windows, announcing them once, and ends the run with the last; once all that are left are confirmed it stands down and retires every rung |
| LadderCaps.CapHoldsExactlyWhenWhole | packages/escalation/src/ladder.ts:252-262 | whatever the rungs, costs and events, every horizon's returned sends stay within the cap if and only if it is a whole number |
| LadderCaps.RoundedUpCapIsReached | packages/escalation/src/ladder.ts:252-262 | under any limits a run of events returns, at one instant, any number of sends up to the cap rounded up |
| LadderCaps.ThreeCallsUnderTwoAndAHalf | packages/escalation/src/ladder.ts:252-256 | a cap of two and a half calls admits three at once |
| LadderTheorems.WholeCapIsExact | packages/escalation/src/ladder.ts:252-262 | for a whole-number cap the count itself stays within it |
| LadderTheorems.EachRungOnce | packages/escalation/src/ladder.ts:186-206 | decided rungs are a prefix of the sorted list and no run decides a rung twice |
| LadderTheorems.TickSendsCover | packages/escalation/src/ladder.ts:233-243 | vetoes first; every send covers exactly the open windows, at least one, with their minimum deadline |
| LadderTheorems.VetoRelaysOpenWindows | packages/escalation/src/ladder.ts:140-153 | a window is relayed exactly when it is open and named, or all are meant |
| Executor.RefusalIsExact | packages/executor/src/executor.ts:97-127 | a ticket passes exactly when the answer vouches and the nonce is unspent |
| Executor.Executor.Begin | packages/executor/src/executor.ts:149-150 | a call starts and waits; the object stays the machine's state after its events |
| Executor.Executor.Admit | packages/executor/src/executor.ts:149-158 | passes exactly on a vouching answer with an unspent nonce, then holding a burned nonce no call ever dispatched |
| Executor.Executor.Recheck | packages/executor/src/executor.ts:160-171 | dispatches exactly on a vouching answer, backed by this call's two answers, on a nonce never dispatched before; a refusal still spends it |
| Executor.DispatchedAtMostOnce | packages/executor/src/executor.ts:149-175 | under every interleaving each nonce is dispatched at most once |
| Executor.DispatchFollowsTwoAnswers | packages/executor/src/executor.ts:149-175 | a dispatch follows two live answers to its own run, unkilled, at the ticket's epoch, in time |
| Executor.SilenceStops | packages/executor/src/executor.ts:177-184 | an unreachable control plane dispatches nothing |
| Executor.DispatchedExactly | packages/executor/src/executor.ts:149-175 | whatever runs beside it, a call with both its answers dispatched iff both vouched for its ticket in time and its nonce was unspent at the first |
| Executor.SpentExactly | packages/executor/src/executor.ts:149-158 | a nonce is spent iff some run's first answer passed on a ticket holding it |
| Nonces.NonceGuard.Sweep | packages/control-plane/src/auth.ts:76-80 | exactly the entries past their instant are forgotten |
| Nonces.NonceGuard.Verify | packages/control-plane/src/auth.ts:65-99 | checks in order, the signature before the nonce; accepted means genuine and now burned |
| Nonces.AcceptedAtMostOnce | packages/control-plane/src/auth.ts:65-99 | with a nondecreasing clock an exact signed credential is accepted at most once though the store is swept |
| Nonces.AcceptedExactly | packages/control-plane/src/auth.ts:65-99 | under a nondecreasing clock an attempt is accepted iff its credential is well formed, within the skew and genuinely signed, and no accepted attempt still holds its key: a forgery never passes |
| Nonces.RefusalBurnsNothing | packages/control-plane/src/auth.ts:93-98 | a refused attempt leaves every unexpired entry as it was and adds none |
| Nonces.EntriesWereBurned | packages/control-plane/src/auth.ts:93-98 | every entry was burned by an accepted attempt of its key and dies with that credential |
| Nonces.StoreIsBounded | packages/control-plane/src/owner-device.ts:248-253 | every entry expires within twice the skew, none is dead |
| Nonces.OwnerKeysAreDistinct | packages/control-plane/src/owner-device.ts:256-259 | owner nonce keys never alias |
| SignedKillState.PayloadsNeverConfused | packages/executor/src/signed-kill-state.ts:80-90 | no read, probe, commit or request payload passes for another |
| SignedKillState.Judge | packages/executor/src/signed-kill-state.ts:113-156 | the reader answers what a vouching payload tells, and killed at no epoch when none vouches |
| SignedKillState.TrustedExactly | packages/executor/src/signed-kill-state.ts:113-156 | a response is trusted iff it carries a vouching payload: signed whole, for this probe, this nonce, unexpired; and it is read as what that payload tells |
| SignedKillState.HonestAnswersAreRead | packages/control-plane/src/server.ts:1256-1315 | what the control plane signs for this request, told unchanged within five seconds, is trusted and reads as the state |
| SignedKillState.VouchedExactly | packages/control-plane/src/server.ts:1256-1315 | in any run a grant is vouched for iff it was minted for a window that is not vetoed and whose agent is not killed |
| SignedKillState.CommitAnsweredExactly | packages/control-plane/src/server.ts:1316-1391 | the commit handler signs iff the broker signed exactly this grant, nonce and time within thirty seconds; its answer is the commit step's |
| SignedKillState.HandlersSignTheTruth | packages/control-plane/src/server.ts:1256-1391 | whatever the request, a payload the handlers sign tells the state it is signed in, a commit answer the commit it reports, within the nonce and jti bounds |
| SignedKillState.AnswersAreFreshAndTrue | packages/executor/src/signed-kill-state.ts:63-157 | an answer that is trusted tells a state the control plane held after the nonce was chosen, under 5 s old; committed:true means the grant is committed |
| SignedKillState.OnlyRequestsCommit | packages/control-plane/src/server.ts:1316-1391 | the commit handler signs or moves anything only on the broker's own request for this grant and nonce, within the skew |
| SignedKillState.ConfirmedCommitStays | packages/control-plane/src/server.ts:1376-1379 | a confirmed commit holds in every later state |
| Cbor.RoundTripExactly | packages/control-plane/src/cbor-fixture.ts:8-47 | whatever follows, the decoder returns a printed value, with its exact length and item count, if and only if it is well formed, within depth 8 and 1024 items, and no text in it, key or value, starts with a byte-order mark |
| Cbor.RoundTrip | packages/control-plane/src/cbor-fixture.ts:8-47 | on values free of the mark, the same with the refusals beyond the limits |
| Cbor.FirstRoundTrip | packages/control-plane/src/cbor.ts:160-173 | the same if and only if for the two entry points, for every value |
| Cbor.HeadRoundTrip | packages/control-plane/src/cbor-fixture.ts:36-47 | heads are exact below 2^32 and only there |
| Cbor.TextSurvivesUnlessMarked | packages/control-plane/src/cbor.ts:98-102 | the case of one text: it survives exactly when it starts with no byte-order mark |
| Cbor.Locality | packages/control-plane/src/cbor.ts:83-158 | a successful decode depends only on the bytes it consumed |
| Cbor.DecodedIsWellFormed | packages/control-plane/src/cbor.ts:83-158 | accepted values have distinct, allowed keys, fit the limits and take a byte per item |
| Cbor.DecodeNormalizes | packages/control-plane/src/cbor.ts:83-158 | printing what was decoded and decoding again changes nothing exactly when no decoded text still starts with a byte-order mark |
| Cbor.DecodeItem | packages/control-plane/src/cbor.ts:83-158 | progress and budget: at least one byte, never past the input, never past 1024 items |
| CborWire.DecodesExactly | packages/control-plane/src/cbor.ts:83-158 | any input: the decoder accepts iff a lawful spelling starts it, longer heads and repaired text included, within depth and budget, and returns its meaning, length and item count |
| CborWire.ExactInputs | packages/control-plane/src/cbor.ts:167-173 | the entry point accepts iff the whole input is one lawful spelling of at most 1024 items |
| CborText.ValidUtf8Exactly | packages/control-plane/src/cbor.ts:98-102 | bytes are taken as text iff they are the shortest UTF-8 of some Unicode scalar values |
| CborText.NumericExactly | packages/control-plane/src/cbor.ts:118-126 | a text key impersonates an integer label iff it is an optional minus sign and at least one digit |
| CborReader.Reader.DecodeItem | packages/control-plane/src/cbor.ts:83-158 | the cursor decodes exactly as the specification |
| CborReader.Reader.ReadLength | packages/control-plane/src/cbor.ts:66-81 | heads of 0, 1, 2 and 4 bytes |
| CborReader.Reader.DecodeArray | packages/control-plane/src/cbor.ts:104-109 | the array loop |
| CborReader.Reader.DecodeMap | packages/control-plane/src/cbor.ts:110-146 | the map loop with its key checks |
| CborReader.CborDecodeFirst | packages/control-plane/src/cbor.ts:160-164 | value and bytes read |
| CborReader.CborDecodeExact | packages/control-plane/src/cbor.ts:167-173 | trailing bytes refuse |
| CborReader.NamesNeverCollide | packages/control-plane/src/cbor.ts:123-141 | distinct accepted keys never share a property name, and none is forbidden |
| Transcripts.WriteLengthPrefixed | apps/owner/src/bytes.ts:22-40 | the buffer holds the length-prefixed fields; oversized fields refuse |
| Transcripts.LengthPrefixedInjective | apps/owner/src/bytes.ts:10-21 | two lists of byte strings encode alike only if equal |
| Transcripts.Utf8InjectiveExactly | apps/owner/src/bytes.ts:42-45 | UTF-8 is injective exactly on well-formed strings; every other string collides with its repair |
| Transcripts.Utf8UpToRepair | apps/owner/src/bytes.ts:42-45 | two strings have the same bytes exactly when they agree up to lone surrogates |
| Transcripts.DeviceSigBindsEveryField | apps/owner/src/device-sig.ts:109-127 | two device preimages are equal exactly when every field is |
| Transcripts.EnrollPopBindsEveryField | apps/owner/src/device-sig.ts:147-155 | likewise the enrolment transcript |
| Transcripts.LabelsSeparateTheLanes | apps/owner/src/device-sig.ts:109-155 | a device signature never doubles as an enrolment proof |
| Transcripts.SignedPayloadInjective | packages/control-plane/src/auth.ts:41-63 | the dot-joined payload determines every field for dot-free ids and nonces |
| Transcripts.DotsAreAmbiguous | packages/control-plane/src/auth.ts:44-48 | with a dot in the nonce one text is two credentials |
| TranscriptFields.FieldsReadExactly | apps/owner/src/bytes.ts:10-40 | a byte string reads as a list of fields iff it is that list's encoding |
| TranscriptFields.DeviceSigReads | apps/owner/src/device-sig.ts:109-127 | a device preimage exists iff the hash has 32 bytes, the timestamp is a safe integer and the target canonical; its bytes read back as label, id, upper-cased method, target, hash, decimal time and nonce in order |
| TranscriptFields.EnrollPopReads | apps/owner/src/device-sig.ts:147-155 | likewise the enrolment transcript: label, invite, owner, raw credential id, raw key |
| TranscriptFields.SignedPayloadReads | packages/control-plane/src/auth.ts:41-63 | the dot-joined text splits at its first three dots into device, decimal timestamp, nonce and body |
| TranscriptFields.CanonicalTargetExactly | apps/owner/src/device-sig.ts:20-75 | a target is canonical iff it is a slash followed by printable characters and upper-case percent escapes, with no fragment |
| TranscriptFields.ScalarIsText | apps/owner/src/bytes.ts:42-45 | each scalar value becomes exactly its UTF-8 bytes |
| TranscriptFields.LoneHalfIsReplaced | apps/owner/src/bytes.ts:42-45 | a lone half of a surrogate pair becomes the replacement character |
| Base64Text.CanonicalExactly | packages/control-plane/src/enrolled-devices.ts:175-184 | a text is canonical base64url of n bytes iff it is what some n bytes print as |

## Left out

- Server: holds veto windows and ceremonies as values in its maps; the objects themselves are the classes VetoWindow and RestoreCeremony, proved against the same functions, so sharing one object between two map entries is not captured.
- Plane: the registry's in-process recovery and a standing file that is absent in development are not part of the composed object; the standing world is followed step by step only for static revokes.
- CeilingsHold: spend is over exact reals, so floating-point rounding of the running total is not modelled.
- DeviceSigBindsEveryField: upper-casing is an uninterpreted function, and the URL serializer's verdict on a target a truth value.
- EngageAgent: the epoch is an unbounded integer; its double-precision saturation past 2^53 is not modelled beyond the loader's refusal of such a file.
- JSON text: an abstract document with a size; a file whose writing was cut short never parses.
- File ownership, modes, ancestry and symbolic links: folded into "a call failed" or "load is corrupt".
- Owner sessions, login challenges, WebAuthn counters and licences: flags of the request, or absent.
- HTTP plumbing, GitHub clients, notification channels, consoles and command lines: network and user interface wrappers.
- A kill switch without a store, the alert log and audit-log readers: they would add only easy members.
- The escalation process as a second reader of the standing file: only the control plane's own view is modelled.
- The merge broker, the gateway engine, burn-store.ts and license.ts: outside the control plane's core.
- The wording of reasons and error bodies: only outcome classes are kept.
