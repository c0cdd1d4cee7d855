/**
 * The kill-state document: what the writer prints, and the strict shape check
 * the loader runs over parsed JSON before trusting a byte of it.
 */
module KillStateFile {
  import opened Wrappers

  const MAX_SAFE_INTEGER: int := 0x1F_FFFF_FFFF_FFFF
  const MAX_KILLED_AGENTS: nat := 64
  const MAX_AGENT_ID_CHARS: nat := 128
  const FORBIDDEN_AGENT_IDS: set<string> := {"__proto__", "constructor", "prototype"}

  /**
   * Parsed JSON. An object is what the destructuring that reads it sees: the
   * named fields, Undefined where a key is missing, and the other keys in
   * `rest`; the scoped-kill table is read as plain key/value entries.
   */
  datatype Json =
    | Undefined
    | Null
    | Bool(b: bool)
    | Num(n: real)
    | Str(s: string)
    | Arr(items: seq<Json>)
    | Event(source: Json, reason: Json, at: Json, unauthenticated: Json, rest: set<string>)
    | State(version: Json, killed: Json, epoch: Json, lastKill: Json, agentKills: Json, rest: set<string>)
    | Table(entries: map<string, Json>)

  datatype KillSource = Button | Honeytoken | App | Voice | Api | Limit

  datatype KillEvent = KillEvent(source: KillSource, reason: Option<string>, at: real, unauthenticated: bool)

  datatype PersistedKillState = PersistedKillState(
    killed: bool,
    epoch: int,
    lastKill: Option<KillEvent>,
    agentKills: map<string, KillEvent>)

  predicate PrintableAscii(c: char) {
    '\U{20}' <= c <= '\U{7e}'
  }

  /** 1-128 printable ASCII characters, no edge spaces, no prototype names. */
  predicate IsValidAgentId(id: string) {
    && 1 <= |id| <= MAX_AGENT_ID_CHARS
    && (forall i :: 0 <= i < |id| ==> PrintableAscii(id[i]))
    && id[0] != ' ' && id[|id| - 1] != ' '
    && id !in FORBIDDEN_AGENT_IDS
  }

  /** A visible character: a printable one that is no space. */
  predicate Visible(c: char) {
    33 <= c as int <= 126
  }

  /** Visible at both ends, visible or blank between. */
  predicate Framed(first: char, middle: string, last: char) {
    Visible(first) && Visible(last) && forall i :: 0 <= i < |middle| ==> Visible(middle[i]) || middle[i] == ' '
  }

  /** An agent id is one visible character, or at most 126 characters framed by two. */
  lemma AgentIdExactly(id: string)
    ensures IsValidAgentId(id)
            <==> && id !in {"__proto__", "constructor", "prototype"}
                 && (|| (|id| == 1 && Visible(id[0]))
                     || exists first, middle, last ::
                          Framed(first, middle, last) && |middle| <= 126 && id == [first] + middle + [last])
  {
    if IsValidAgentId(id) && |id| > 1 {
      var first, middle, last := id[0], id[1..|id| - 1], id[|id| - 1];
      assert Framed(first, middle, last) && id == [first] + middle + [last];
    }
    if first, middle, last :|
      Framed(first, middle, last) && |middle| <= 126 && id == [first] + middle + [last]
    {
      forall i | 0 <= i < |id|
        ensures PrintableAscii(id[i])
      {
        assert 0 < i < |id| - 1 ==> id[i] == middle[i - 1];
      }
    }
  }

  function SourceName(s: KillSource): string {
    match s
    case Button => "button"
    case Honeytoken => "honeytoken"
    case App => "app"
    case Voice => "voice"
    case Api => "api"
    case Limit => "limit"
  }

  function SourceNamed(name: string): Option<KillSource> {
    if name == "button" then Some(Button)
    else if name == "honeytoken" then Some(Honeytoken)
    else if name == "app" then Some(App)
    else if name == "voice" then Some(Voice)
    else if name == "api" then Some(Api)
    else if name == "limit" then Some(Limit)
    else None
  }

  // ---- printing: what persist() hands to JSON.stringify -------------------

  function EventJson(e: KillEvent): Json {
    Event(Str(SourceName(e.source)),
          if e.reason.Some? then Str(e.reason.value) else Undefined,
          Num(e.at),
          if e.unauthenticated then Bool(true) else Undefined,
          {})
  }

  function TableJson(t: map<string, KillEvent>): Json {
    Table(map id | id in t :: EventJson(t[id]))
  }

  function StateJson(s: PersistedKillState): Json {
    State(Num(1.0),
          Bool(s.killed),
          Num(s.epoch as real),
          if s.lastKill.Some? then EventJson(s.lastKill.value) else Undefined,
          if |s.agentKills| > 0 then TableJson(s.agentKills) else Undefined,
          {})
  }

  // ---- parsing: the strict shape checks ------------------------------------

  function AsKillEvent(j: Json): Option<KillEvent> {
    if !j.Event? then None
    else if j.rest != {} then None
    else if !(j.source.Str? && SourceNamed(j.source.s).Some?) then None
    else if !j.reason.Undefined? && !j.reason.Str? then None
    else if !j.at.Num? then None
    else if !j.unauthenticated.Undefined? && j.unauthenticated != Bool(true) then None
    else Some(KillEvent(
                SourceNamed(j.source.s).value,
                if j.reason.Str? then Some(j.reason.s) else None,
                j.at.n,
                j.unauthenticated == Bool(true)))
  }

  predicate IsSafeNonNegative(n: real) {
    n.Floor as real == n && 0 <= n.Floor <= MAX_SAFE_INTEGER
  }

  predicate WellFormedEntry(id: string, j: Json) {
    IsValidAgentId(id) && AsKillEvent(j).Some?
  }

  /** The scoped-kill table: non-empty, bounded, every id and event well formed. */
  function AsAgentKills(j: Json): Option<map<string, KillEvent>> {
    if !j.Table? then None
    else if |j.entries| == 0 || |j.entries| > MAX_KILLED_AGENTS then None
    else if exists id :: id in j.entries && !WellFormedEntry(id, j.entries[id]) then None
    else Some(map id | id in j.entries :: AsKillEvent(j.entries[id]).value)
  }

  function AsPersistedKillState(j: Json): Option<PersistedKillState> {
    if !j.State? then None
    else if j.rest != {} then None
    else if j.version != Num(1.0) then None
    else if !j.killed.Bool? then None
    else if !(j.epoch.Num? && IsSafeNonNegative(j.epoch.n)) then None
    else if j.killed.b != (j.lastKill != Undefined) then None
    else if j.agentKills != Undefined && AsAgentKills(j.agentKills).None? then None
    else if j.lastKill != Undefined && AsKillEvent(j.lastKill).None? then None
    else Some(PersistedKillState(
                j.killed.b,
                j.epoch.n.Floor,
                if j.lastKill != Undefined then AsKillEvent(j.lastKill) else None,
                if j.agentKills != Undefined then AsAgentKills(j.agentKills).value else map[]))
  }

  /** The loop that fills the table entry by entry, as the loader runs it. */
  method BuildAgentKills(entries: map<string, Json>) returns (r: Option<map<string, KillEvent>>)
    ensures r == AsAgentKills(Table(entries))
  {
    if |entries| == 0 || |entries| > MAX_KILLED_AGENTS {
      return None;
    }
    var scoped: map<string, KillEvent> := map[];
    var left := entries.Keys;
    while left != {}
      invariant left <= entries.Keys
      invariant scoped.Keys == entries.Keys - left
      invariant forall id :: id in scoped ==> IsValidAgentId(id) && AsKillEvent(entries[id]) == Some(scoped[id])
    {
      var id :| id in left;
      if !IsValidAgentId(id) {
        assert !WellFormedEntry(id, entries[id]);
        return None;
      }
      var event := AsKillEvent(entries[id]);
      if event == None {
        assert !WellFormedEntry(id, entries[id]);
        return None;
      }
      scoped := scoped[id := event.value];
      left := left - {id};
    }
    assert scoped == (map id | id in entries :: AsKillEvent(entries[id]).value);
    return Some(scoped);
  }

  // ---- what the loader accepts, exactly -------------------------------------

  /** States whose printed form the loader reads back. */
  predicate Loadable(s: PersistedKillState) {
    && 0 <= s.epoch <= MAX_SAFE_INTEGER
    && s.killed == s.lastKill.Some?
    && |s.agentKills| <= MAX_KILLED_AGENTS
    && forall id :: id in s.agentKills ==> IsValidAgentId(id)
  }

  lemma EventRoundTrip(e: KillEvent)
    ensures AsKillEvent(EventJson(e)) == Some(e)
  {
    assert SourceNamed(SourceName(e.source)) == Some(e.source);
  }

  lemma EventCanonical(j: Json)
    requires AsKillEvent(j).Some?
    ensures j == EventJson(AsKillEvent(j).value)
  {
    assert SourceName(AsKillEvent(j).value.source) == j.source.s;
  }

  lemma SameKeysSameSize<V, W>(a: map<string, V>, b: map<string, W>)
    requires a.Keys == b.Keys
    ensures |a| == |b|
  {
    assert |a| == |a.Keys| && |b| == |b.Keys|;
  }

  lemma TableRoundTrip(t: map<string, KillEvent>)
    requires 0 < |t| <= MAX_KILLED_AGENTS
    requires forall id :: id in t ==> IsValidAgentId(id)
    ensures AsAgentKills(TableJson(t)) == Some(t)
  {
    var entries := TableJson(t).entries;
    SameKeysSameSize(entries, t);
    forall id | id in entries
      ensures WellFormedEntry(id, entries[id]) && AsKillEvent(entries[id]) == Some(t[id])
    {
      EventRoundTrip(t[id]);
    }
    assert t == AsAgentKills(TableJson(t)).value;
  }

  lemma TableCanonical(j: Json)
    requires AsAgentKills(j).Some?
    ensures j == TableJson(AsAgentKills(j).value)
    ensures 0 < |AsAgentKills(j).value| <= MAX_KILLED_AGENTS
    ensures forall id :: id in AsAgentKills(j).value ==> IsValidAgentId(id)
  {
    var t := AsAgentKills(j).value;
    SameKeysSameSize(t, j.entries);
    forall id | id in t
      ensures j.entries[id] == EventJson(t[id]) && IsValidAgentId(id)
    {
      assert WellFormedEntry(id, j.entries[id]);
      EventCanonical(j.entries[id]);
    }
    assert j.entries == TableJson(t).entries;
  }

  lemma PrintedStateLoads(s: PersistedKillState)
    requires Loadable(s)
    ensures AsPersistedKillState(StateJson(s)) == Some(s)
  {
    if s.lastKill.Some? {
      EventRoundTrip(s.lastKill.value);
    }
    if |s.agentKills| > 0 {
      TableRoundTrip(s.agentKills);
    }
    assert (s.epoch as real).Floor == s.epoch;
  }

  lemma LoadedStateWasPrinted(j: Json)
    requires AsPersistedKillState(j).Some?
    ensures Loadable(AsPersistedKillState(j).value)
    ensures j == StateJson(AsPersistedKillState(j).value)
  {
    if j.lastKill != Undefined {
      EventCanonical(j.lastKill);
    }
    if j.agentKills != Undefined {
      TableCanonical(j.agentKills);
    }
  }

  /**
   * The loader accepts a document exactly when it is the printed form of a
   * state the writer may hold, and reads back that very state.
   */
  lemma LoaderInvertsWriter(j: Json, s: PersistedKillState)
    ensures AsPersistedKillState(j) == Some(s) <==> Loadable(s) && j == StateJson(s)
  {
    if AsPersistedKillState(j) == Some(s) {
      LoadedStateWasPrinted(j);
    }
    if Loadable(s) && j == StateJson(s) {
      PrintedStateLoads(s);
    }
  }
}
