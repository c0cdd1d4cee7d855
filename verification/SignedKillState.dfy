/**
 * The broker's signed kill-state channel: an ideal MAC over canonical JSON, a
 * fresh nonce per request, and an adversary who delivers whatever it likes.
 */
module SignedKillState {
  import opened Wrappers
  import P = Protocol
  import opened ProtocolTheorems
  import opened ProtocolAnswers
  import VetoWindows

  const MAX_SAFE_INTEGER: int := 0x1F_FFFF_FFFF_FFFF
  const KILL_STATE_TTL_MS: int := 5_000
  const COMMIT_REQUEST_SKEW_MS: int := 30_000

  datatype Field = Killed | Epoch | Nonce | ExpiresAt | Jti | GrantLive | Committed | Ts

  datatype Json = Bool(b: bool) | Num(n: int) | Str(s: string)

  /** Canonical JSON is injective, so a signed text is its object: fields and values. */
  type Object = map<Field, Json>

  /** Everything either side ever signs with the shared key. */
  datatype Payload =
    | Read(killed: bool, epoch: int, nonce: string, expiresAt: int)
    | Probed(killed: bool, epoch: int, nonce: string, expiresAt: int, jti: string, grantLive: bool)
    | CommitAnswered(killed: bool, epoch: int, nonce: string, expiresAt: int, jti: string, committed: bool)
    | CommitRequested(jti: string, nonce: string, ts: int)

  function ObjectOf(p: Payload): Object {
    match p
    case Read(killed, epoch, nonce, expiresAt) =>
      map[Killed := Bool(killed), Epoch := Num(epoch), Nonce := Str(nonce), ExpiresAt := Num(expiresAt)]
    case Probed(killed, epoch, nonce, expiresAt, jti, grantLive) =>
      map[Killed := Bool(killed), Epoch := Num(epoch), Nonce := Str(nonce), ExpiresAt := Num(expiresAt),
          Jti := Str(jti), GrantLive := Bool(grantLive)]
    case CommitAnswered(killed, epoch, nonce, expiresAt, jti, committed) =>
      map[Killed := Bool(killed), Epoch := Num(epoch), Nonce := Str(nonce), ExpiresAt := Num(expiresAt),
          Jti := Str(jti), Committed := Bool(committed)]
    case CommitRequested(jti, nonce, ts) => map[Jti := Str(jti), Nonce := Str(nonce), Ts := Num(ts)]
  }

  /** Each field, read back from the object it was put into; and the fields that tell the kinds apart. */
  lemma FieldsOf(p: Payload)
    ensures var o := ObjectOf(p);
            && Nonce in o && o[Nonce] == Str(p.nonce)
            && (GrantLive in o <==> p.Probed?) && (Committed in o <==> p.CommitAnswered?)
            && (Ts in o <==> p.CommitRequested?)
            && (!p.CommitRequested? ==>
                  && Killed in o && o[Killed] == Bool(p.killed) && Epoch in o && o[Epoch] == Num(p.epoch)
                  && ExpiresAt in o && o[ExpiresAt] == Num(p.expiresAt))
            && (!p.Read? ==> Jti in o && o[Jti] == Str(p.jti))
            && (p.Probed? ==> o[GrantLive] == Bool(p.grantLive))
            && (p.CommitAnswered? ==> o[Committed] == Bool(p.committed))
            && (p.CommitRequested? ==> o[Ts] == Num(p.ts))
  {
  }

  /** No payload can be read as another, of its own kind or of any other. */
  lemma PayloadsNeverConfused(p: Payload, q: Payload)
    ensures ObjectOf(p) == ObjectOf(q) <==> p == q
  {
    FieldsOf(p);
    FieldsOf(q);
  }

  // ---- the reader --------------------------------------------------------------------------

  datatype Probe = NoProbe | ReadProbe(jti: string) | CommitProbe(jti: string)

  datatype Live = Live(killed: bool, epoch: int, grantLive: Option<bool>, committed: Option<bool>)

  const KilledAnswer: Live := Live(true, -1, None, None)

  /** A response body: what it claims, and the object its signature was made over, if any. */
  datatype Body = Body(claims: Object, signedOver: Option<Object>)

  predicate IsBool(o: Object, f: Field) {
    f in o && o[f].Bool?
  }

  predicate IsNum(o: Object, f: Field) {
    f in o && o[f].Num?
  }

  predicate IsStr(o: Object, f: Field) {
    f in o && o[f].Str?
  }

  /** Shape first: a field of the wrong type can never be trusted. */
  predicate Shaped(probe: Probe, o: Object) {
    && IsBool(o, Killed) && IsNum(o, Epoch) && 0 <= o[Epoch].n <= MAX_SAFE_INTEGER
    && IsNum(o, ExpiresAt) && IsStr(o, Nonce)
    && (probe != NoProbe ==> Jti in o && o[Jti] == Str(probe.jti))
    && (probe.CommitProbe? ==> IsBool(o, Committed))
    && (probe.ReadProbe? ==> IsBool(o, GrantLive))
  }

  /** What the signature must cover, rebuilt from the claims. */
  function Expected(probe: Probe, o: Object): Payload
    requires Shaped(probe, o)
  {
    match probe
    case NoProbe => Read(o[Killed].b, o[Epoch].n, o[Nonce].s, o[ExpiresAt].n)
    case ReadProbe(jti) => Probed(o[Killed].b, o[Epoch].n, o[Nonce].s, o[ExpiresAt].n, jti, o[GrantLive].b)
    case CommitProbe(jti) => CommitAnswered(o[Killed].b, o[Epoch].n, o[Nonce].s, o[ExpiresAt].n, jti, o[Committed].b)
  }

  /** The reader's whole chain of guards; None is any transport failure. */
  method Judge(probe: Probe, nonce: string, now: int, response: Option<Body>) returns (r: Live)
    ensures r == if Trusted(probe, nonce, now, response) then AnswerIn(probe, response.value.claims) else KilledAnswer
    ensures (response.Some? ==> forall p :: !Vouches(p, probe, nonce, now, response.value)) ==>
              r.killed && r.epoch == -1
    ensures response.Some? ==> forall p :: Vouches(p, probe, nonce, now, response.value) ==> r == Told(p)
  {
    TrustedExactly(probe, nonce, now, response);
    if response == None {
      return KilledAnswer;
    }
    var o := response.value.claims;
    if !Shaped(probe, o) {
      return KilledAnswer;
    }
    if o[Nonce].s != nonce {
      return KilledAnswer;
    }
    if now >= o[ExpiresAt].n {
      return KilledAnswer;
    }
    if response.value.signedOver != Some(ObjectOf(Expected(probe, o))) {
      return KilledAnswer;
    }
    r := AnswerIn(probe, o);
  }

  predicate Trusted(probe: Probe, nonce: string, now: int, response: Option<Body>) {
    && response.Some?
    && var o := response.value.claims;
       Shaped(probe, o) && o[Nonce].s == nonce && now < o[ExpiresAt].n
       && response.value.signedOver == Some(ObjectOf(Expected(probe, o)))
  }

  function AnswerIn(probe: Probe, o: Object): Live
    requires Shaped(probe, o)
  {
    Live(o[Killed].b, o[Epoch].n,
         if probe.ReadProbe? then Some(o[GrantLive].b) else None,
         if probe.CommitProbe? then Some(o[Committed].b) else None)
  }

  /** The payload answers this probe: its kind, and the grant it asked about. */
  predicate Answers(p: Payload, probe: Probe) {
    match probe
    case NoProbe => p.Read?
    case ReadProbe(jti) => p.Probed? && p.jti == jti
    case CommitProbe(jti) => p.CommitAnswered? && p.jti == jti
  }

  /** What a payload tells the reader. */
  function Told(p: Payload): Live
    requires !p.CommitRequested?
  {
    match p
    case Read(killed, epoch, _, _) => Live(killed, epoch, None, None)
    case Probed(killed, epoch, _, _, _, grantLive) => Live(killed, epoch, Some(grantLive), None)
    case CommitAnswered(killed, epoch, _, _, _, committed) => Live(killed, epoch, None, Some(committed))
  }

  /** A payload for this probe and nonce, unexpired, that the body claims field by field and was signed over. */
  predicate Vouches(p: Payload, probe: Probe, nonce: string, now: int, b: Body) {
    && Answers(p, probe) && p.nonce == nonce && now < p.expiresAt && 0 <= p.epoch <= 0x1F_FFFF_FFFF_FFFF
    && b.signedOver == Some(ObjectOf(p))
    && forall f :: f in ObjectOf(p) ==> f in b.claims && b.claims[f] == ObjectOf(p)[f]
  }

  /**
   * A response is trusted exactly when it carries a vouching payload, and the
   * reader then answers what that payload tells.
   */
  lemma TrustedExactly(probe: Probe, nonce: string, now: int, response: Option<Body>)
    ensures Trusted(probe, nonce, now, response)
            <==> response.Some? && exists p :: Vouches(p, probe, nonce, now, response.value)
    ensures forall p :: response.Some? && Vouches(p, probe, nonce, now, response.value) ==>
              AnswerIn(probe, response.value.claims) == Told(p)
  {
    if Trusted(probe, nonce, now, response) {
      var p := Expected(probe, response.value.claims);
      FieldsOf(p);
      assert Vouches(p, probe, nonce, now, response.value);
    }
    forall p | response.Some? && Vouches(p, probe, nonce, now, response.value)
      ensures Trusted(probe, nonce, now, response) && AnswerIn(probe, response.value.claims) == Told(p)
    {
      FieldsOf(p);
    }
  }

  // ---- what gets signed --------------------------------------------------------------------------

  /** grantLive: minted here, remembered, not vetoed, its agent not scope-killed. */
  predicate GrantVouched(s: P.State, jti: string) {
    && jti in s.grants.minted && s.grants.minted[jti] in s.windows
    && var w := s.windows[s.grants.minted[jti]];
       !w.status.Vetoed? && w.call.agentId !in s.kill.agents
  }

  /** A grant this window was given; the window is not vetoed and its agent not killed. */
  ghost predicate LiveGrant(s: P.State, id: string, jti: string) {
    && (exists k :: MintedAs(s.history, k, id, jti))
    && id in s.windows && s.windows[id].status != VetoWindows.Vetoed && s.windows[id].call.agentId !in s.kill.agents
  }

  /** In any run a grant is vouched for exactly while it is live, by the trace. */
  lemma VouchedExactly(ss: seq<P.State>, es: seq<P.Timed>, i: nat, jti: string)
    requires P.Run(ss, es) && i < |ss|
    ensures GrantVouched(ss[i], jti) <==> exists id :: LiveGrant(ss[i], id, jti)
  {
    var s := ss[i];
    RunKeepsAnswers(ss, es, i);
    if GrantVouched(s, jti) {
      assert LiveGrant(s, s.grants.minted[jti], jti);
    }
    if id :| LiveGrant(s, id, jti) {
      var k :| MintedAs(s.history, k, id, jti);
      assert FactHolds(s, k);
    }
  }

  const MAX_NONCE_CHARS: nat := 128
  const MAX_JTI_CHARS: nat := 256

  /** What a handler sends back: an error status, or a body signed over this payload. */
  datatype Reply = Status(code: int) | Signed(payload: Payload)

  /** GET /v1/kill-state; `keyed` says the shared key is configured. An empty jti is no probe. */
  function GetSignedKillState(
    s: P.State, keyed: bool, nonce: Option<string>, jti: Option<string>, now: int): Reply
  {
    if !keyed then Status(501)
    else if nonce.None? || nonce.value == "" || |nonce.value| > MAX_NONCE_CHARS then Status(400)
    else if jti.Some? && |jti.value| > MAX_JTI_CHARS then Status(400)
    else
      var expiresAt := now + KILL_STATE_TTL_MS;
      if jti.Some? && jti.value != ""
      then Signed(Probed(s.kill.killed, s.kill.epoch, nonce.value, expiresAt, jti.value, GrantVouched(s, jti.value)))
      else Signed(Read(s.kill.killed, s.kill.epoch, nonce.value, expiresAt))
  }

  /** The signature field of a commit request: absent, of no key-holder's making, or over this object. */
  datatype Signature = Missing | Garbage | Over(signed: Object)

  /** A field is None when it is absent or of the wrong type. */
  datatype CommitBody = CommitBody(jti: Option<string>, nonce: Option<string>, ts: Option<int>, sig: Signature)

  predicate CommitShaped(b: CommitBody) {
    && b.jti.Some? && b.jti.value != "" && |b.jti.value| <= MAX_JTI_CHARS
    && b.nonce.Some? && b.nonce.value != "" && |b.nonce.value| <= MAX_NONCE_CHARS
    && b.ts.Some? && !b.sig.Missing?
  }

  /** The check of a commit request: the broker's signature over these fields, not stale. */
  predicate AcceptsCommit(jti: string, nonce: string, ts: int, now: int, sig: Signature) {
    && sig == Over(ObjectOf(CommitRequested(jti, nonce, ts)))
    && -COMMIT_REQUEST_SKEW_MS <= now - ts <= COMMIT_REQUEST_SKEW_MS
  }

  /** The commit handler, from the body to the signed answer, with the transition in between. */
  function PostGrantCommit(s: P.State, keyed: bool, b: CommitBody, now: int, signedAt: int): (P.State, Reply) {
    if !keyed then (s, Status(501))
    else if !CommitShaped(b) then (s, Status(400))
    else if !AcceptsCommit(b.jti.value, b.nonce.value, b.ts.value, now, b.sig) then (s, Status(401))
    else
      var (s', answer) := P.DoCommit(s, b.jti.value);
      (s', Signed(CommitAnswered(s'.kill.killed, s'.kill.epoch, b.nonce.value, signedAt + KILL_STATE_TTL_MS,
                                 b.jti.value, answer == P.CommitAnswer(true))))
  }

  /**
   * A signature made with the shared key: by the control plane, answering in
   * state ss[at] of its run, or by the broker, asking for a commit.
   */
  datatype Signing = Signing(at: nat, now: int, payload: Payload)

  datatype Request =
    | GetState(nonce: Option<string>, jti: Option<string>)
    | PostCommit(body: CommitBody)
    | BrokerAsks(grant: string, drawn: string, ts: int)

  /** The signature that a handler of the run, or the broker, makes on this request. */
  ghost predicate MadeOn(ss: seq<P.State>, es: seq<P.Timed>, sg: Signing, q: Request) {
    match q
    case GetState(nonce, jti) =>
      sg.at < |ss| && GetSignedKillState(ss[sg.at], true, nonce, jti, sg.now) == Signed(sg.payload)
    case PostCommit(body) =>
      // in the same synchronous block as the commit it reports
      && 0 < sg.at < |ss| && sg.at <= |es| && body.jti.Some? && es[sg.at - 1].event == P.Commit(body.jti.value)
      && var at := es[sg.at - 1].now;
         PostGrantCommit(ss[sg.at - 1].(clock := at), true, body, at, sg.now) == (ss[sg.at], Signed(sg.payload))
    case BrokerAsks(jti, nonce, ts) => sg.payload == CommitRequested(jti, nonce, ts)
  }

  ghost predicate Made(ss: seq<P.State>, es: seq<P.Timed>, sg: Signing) {
    exists q :: MadeOn(ss, es, sg, q)
  }

  /** The payload tells the state it was signed in, and a commit answer the commit it reports. */
  ghost predicate Honest(ss: seq<P.State>, es: seq<P.Timed>, sg: Signing) {
    match sg.payload
    case Read(killed, epoch, _, expiresAt) =>
      && sg.at < |ss| && expiresAt == sg.now + KILL_STATE_TTL_MS
      && killed == ss[sg.at].kill.killed && epoch == ss[sg.at].kill.epoch
    case Probed(killed, epoch, _, expiresAt, jti, grantLive) =>
      && sg.at < |ss| && expiresAt == sg.now + KILL_STATE_TTL_MS
      && killed == ss[sg.at].kill.killed && epoch == ss[sg.at].kill.epoch && grantLive == GrantVouched(ss[sg.at], jti)
    case CommitAnswered(killed, epoch, _, expiresAt, jti, committed) =>
      && 0 < sg.at < |ss| && sg.at <= |es| && expiresAt == sg.now + KILL_STATE_TTL_MS
      && es[sg.at - 1].event == P.Commit(jti)
      && committed == P.CommitAllowed(ss[sg.at - 1].(clock := es[sg.at - 1].now), jti)
      && killed == ss[sg.at].kill.killed && epoch == ss[sg.at].kill.epoch
    case CommitRequested(_, _, _) => true
  }

  /** Whatever the request, what a handler signs is true of the state it signs it in. */
  lemma HandlersSignTheTruth(ss: seq<P.State>, es: seq<P.Timed>, sg: Signing)
    requires Made(ss, es, sg)
    ensures Honest(ss, es, sg)
    ensures !sg.payload.CommitRequested? ==> 1 <= |sg.payload.nonce| <= MAX_NONCE_CHARS
    ensures sg.payload.Probed? || sg.payload.CommitAnswered? ==> 1 <= |sg.payload.jti| <= MAX_JTI_CHARS
  {
    var q :| MadeOn(ss, es, sg, q);
  }

  /**
   * Unforgeability, and freshness: a verifying signature was made by a holder
   * of the key, and nothing was signed over this nonce before it was chosen,
   * when the control plane was in state ss[chosenAt].
   */
  ghost predicate Unforgeable(signings: set<Signing>, response: Option<Body>) {
    response.Some? && response.value.signedOver.Some? ==>
      exists sg :: sg in signings && ObjectOf(sg.payload) == response.value.signedOver.value
  }

  ghost predicate FreshNonce(signings: set<Signing>, nonce: string, chosenAt: nat) {
    forall sg :: sg in signings && sg.payload.nonce == nonce ==> chosenAt <= sg.at
  }

  /** The answer states what really held in ss[at], signed less than 5 s before it was judged. */
  ghost predicate TrueOf(ss: seq<P.State>, at: nat, probe: Probe, r: Live) {
    && at < |ss|
    && r.killed == ss[at].kill.killed && r.epoch == ss[at].kill.epoch
    && (probe.ReadProbe? ==> r.grantLive == Some(GrantVouched(ss[at], probe.jti)))
    && (probe.CommitProbe? && r.committed == Some(true) ==> probe.jti in ss[at].grants.committed)
  }

  /**
   * However the adversary replays, reorders or answers for the control plane:
   * an answer that does not read as killed tells a state the control plane was
   * in after this request's nonce was chosen, and a confirmed commit is real.
   */
  lemma AnswersAreFreshAndTrue(
    ss: seq<P.State>, es: seq<P.Timed>, signings: set<Signing>, probe: Probe, nonce: string, chosenAt: nat,
    now: int, response: Option<Body>)
    requires P.Run(ss, es) && (forall sg :: sg in signings ==> Made(ss, es, sg))
    requires Unforgeable(signings, response) && FreshNonce(signings, nonce, chosenAt)
    requires Trusted(probe, nonce, now, response)
    ensures exists sg :: sg in signings && chosenAt <= sg.at && now < sg.now + KILL_STATE_TTL_MS
              && TrueOf(ss, sg.at, probe, AnswerIn(probe, response.value.claims))
  {
    var o := response.value.claims;
    var sg :| sg in signings && ObjectOf(sg.payload) == response.value.signedOver.value;
    PayloadsNeverConfused(sg.payload, Expected(probe, o));
    HandlersSignTheTruth(ss, es, sg);
    if probe.CommitProbe? && o[Committed].b {
      CommitLands(ss, es, sg.at, probe.jti);
    }
    assert TrueOf(ss, sg.at, probe, AnswerIn(probe, o));
  }

  /**
   * And the channel works: what the control plane signs for this request, told
   * as it stands within five seconds, is trusted, and reads as the state.
   */
  lemma HonestAnswersAreRead(s: P.State, probe: Probe, nonce: string, at: int, now: int)
    requires 1 <= |nonce| <= 128 && 0 <= s.kill.epoch <= 0x1F_FFFF_FFFF_FFFF && at <= now < at + 5_000
    requires !probe.CommitProbe? && (probe.ReadProbe? ==> 1 <= |probe.jti| <= 256)
    ensures var r := GetSignedKillState(s, true, Some(nonce), if probe.ReadProbe? then Some(probe.jti) else None, at);
            && r.Signed?
            && var b := Body(ObjectOf(r.payload), Some(ObjectOf(r.payload)));
               && Trusted(probe, nonce, now, Some(b))
               && AnswerIn(probe, b.claims)
                  == Live(s.kill.killed, s.kill.epoch,
                          if probe.ReadProbe? then Some(GrantVouched(s, probe.jti)) else None, None)
  {
    var r := GetSignedKillState(s, true, Some(nonce), if probe.ReadProbe? then Some(probe.jti) else None, at);
    FieldsOf(r.payload);
  }

  /**
   * The commit handler answers with a signature exactly to a well-formed
   * request the broker signed, over its own grant, nonce and time, within
   * thirty seconds; and its answer tells whether the grant was committed.
   */
  lemma CommitAnsweredExactly(s: P.State, keyed: bool, b: CommitBody, now: int, signedAt: int)
    ensures var (s', r) := PostGrantCommit(s, keyed, b, now, signedAt);
            && (r.Signed? <==>
                  && keyed && b.jti.Some? && 1 <= |b.jti.value| <= 256 && b.nonce.Some? && 1 <= |b.nonce.value| <= 128
                  && b.ts.Some? && -30_000 <= now - b.ts.value <= 30_000
                  && b.sig == Over(ObjectOf(CommitRequested(b.jti.value, b.nonce.value, b.ts.value))))
            && (!r.Signed? ==> s' == s)
            && (r.Signed? ==>
                  && (s', P.CommitAnswer(r.payload.CommitAnswered? && r.payload.committed))
                     == P.DoCommit(s, b.jti.value)
                  && r.payload.CommitAnswered?
                  && r.payload == CommitAnswered(s'.kill.killed, s'.kill.epoch, b.nonce.value, signedAt + 5_000,
                                                 b.jti.value, r.payload.committed))
  {
  }

  /** A forged or replayed signature is some key-holder's over the very same object. */
  ghost predicate UnforgeableRequest(signings: set<Signing>, sig: Signature) {
    sig.Over? ==> exists sg :: sg in signings && ObjectOf(sg.payload) == sig.signed
  }

  /**
   * The handler moves the state only on the broker's own request for this
   * grant, made within the skew: no answer the control plane ever signed,
   * sent back at it, authenticates one.
   */
  lemma OnlyRequestsCommit(signings: set<Signing>, s: P.State, keyed: bool, b: CommitBody, now: int, signedAt: int)
    requires UnforgeableRequest(signings, b.sig)
    requires var (s', r) := PostGrantCommit(s, keyed, b, now, signedAt); s' != s || r.Signed?
    ensures b.jti.Some? && b.nonce.Some? && b.ts.Some?
    ensures -COMMIT_REQUEST_SKEW_MS <= now - b.ts.value <= COMMIT_REQUEST_SKEW_MS
    ensures exists sg :: sg in signings && sg.payload == CommitRequested(b.jti.value, b.nonce.value, b.ts.value)
  {
    var sg :| sg in signings && ObjectOf(sg.payload) == b.sig.signed;
    PayloadsNeverConfused(sg.payload, CommitRequested(b.jti.value, b.nonce.value, b.ts.value));
  }

  lemma CommitLands(ss: seq<P.State>, es: seq<P.Timed>, at: nat, jti: string)
    requires P.Run(ss, es) && 0 < at < |ss| && es[at - 1].event == P.Commit(jti)
    requires P.CommitAllowed(ss[at - 1].(clock := es[at - 1].now), jti)
    ensures jti in ss[at].grants.committed
  {
    assert ss[at] == P.Step(ss[at - 1], es[at - 1].event, es[at - 1].now).0;
  }

  /** And a commit, once confirmed, holds in every later state of the run. */
  lemma ConfirmedCommitStays(ss: seq<P.State>, es: seq<P.Timed>, at: nat, later: nat, jti: string)
    requires P.Run(ss, es) && at <= later < |ss| && jti in ss[at].grants.committed
    ensures jti in ss[later].grants.committed
  {
    var held := seq(|ss|, k requires 0 <= k < |ss| => jti in ss[k].grants.committed);
    forall k | 0 < k < |ss|
      ensures held[k - 1] ==> held[k]
    {
      RunMoves(ss, es, k - 1);
    }
    Persists(held, at, later);
  }
}
