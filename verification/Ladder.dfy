/**
 * The escalation ladder: one run per storm of windows, rungs that fire once
 * each, and hard ceilings on calls, messages and spend.
 */
module Ladder {
  import opened Wrappers

  const VOICE_HORIZON_MS: int := 10 * 60_000
  const SMS_HORIZON_MS: int := 60 * 60_000
  const DAY_MS: int := 86_400_000

  datatype Channel = Push | Email | Sms | Voice

  datatype Rung = Rung(afterMs: int, channel: Channel)

  datatype Limits = Limits(maxVoiceCallsPer10Min: real, maxSmsPerHour: real, maxDailySpendUsd: real)

  datatype Costs = Costs(push: real, email: real, sms: real, voice: real)

  /** `rungs` is the sorted list the engine keeps. */
  datatype Config = Config(rungs: seq<Rung>, limits: Limits, costs: Costs)

  datatype Window = Window(id: string, headline: string, deadlineMs: int, delivered: bool, closed: bool)

  /** `windows` in the order they joined; `startedAtMs` is -1 until a tick arms the clock. */
  datatype Run = Run(startedAtMs: int, fired: set<int>, windows: seq<Window>)

  datatype Alert = Alert(windowIds: seq<string>, deadlineMs: int)
  datatype Reason = WindowClosed | Confirmed | CapHit

  datatype Action =
    | Send(channel: Channel, alert: Alert)
    | RelayVeto(windowIds: seq<string>, via: Channel, attribution: string)
    | StandDown(stoodDown: seq<string>, reason: Reason)

  datatype Spend = Spend(day: int, usd: real)

  datatype Engine = Engine(
    run: Option<Run>, voiceSends: seq<int>, smsSends: seq<int>, spend: Spend, pending: seq<Action>)

  /** What became of one rung: sent, or converted to a stand-down by a cap. */
  datatype Decision = Decision(at: int, rung: int, channel: Channel, sent: bool)

  const Idle: Engine := Engine(None, [], [], Spend(-1, 0.0), [])

  // ---- sorting the rungs -------------------------------------------------------------------

  /** After every rung that fires no later. */
  function Inserted(s: seq<Rung>, r: Rung): seq<Rung> {
    if |s| > 0 && s[|s| - 1].afterMs > r.afterMs then Inserted(s[..|s| - 1], r) + [s[|s| - 1]] else s + [r]
  }

  function Sorted(s: seq<Rung>): seq<Rung> {
    if |s| == 0 then [] else Inserted(Sorted(s[..|s| - 1]), s[|s| - 1])
  }

  predicate InOrder(s: seq<Rung>) {
    forall i, j :: 0 <= i < j < |s| ==> s[i].afterMs <= s[j].afterMs
  }

  function AtOffset(s: seq<Rung>, afterMs: int): seq<Rung> {
    if |s| == 0 then []
    else AtOffset(s[..|s| - 1], afterMs) + if s[|s| - 1].afterMs == afterMs then [s[|s| - 1]] else []
  }

  lemma {:induction false} InsertedContents(s: seq<Rung>, r: Rung)
    ensures multiset(Inserted(s, r)) == multiset(s) + multiset{r} && |Inserted(s, r)| == |s| + 1
  {
    if |s| > 0 && s[|s| - 1].afterMs > r.afterMs {
      InsertedContents(s[..|s| - 1], r);
      assert s == s[..|s| - 1] + [s[|s| - 1]];
    }
  }

  lemma {:induction false} InsertedOffset(s: seq<Rung>, r: Rung, t: int)
    ensures AtOffset(Inserted(s, r), t) == if r.afterMs == t then AtOffset(s, t) + [r] else AtOffset(s, t)
  {
    if |s| > 0 && s[|s| - 1].afterMs > r.afterMs {
      InsertedOffset(s[..|s| - 1], r, t);
      assert Inserted(s, r)[..|Inserted(s, r)| - 1] == Inserted(s[..|s| - 1], r);
      assert AtOffset(s[..|s| - 1], t) + [] == AtOffset(s[..|s| - 1], t);
    } else {
      assert (s + [r])[..|s|] == s;
    }
  }

  lemma {:induction false} InsertedInOrder(s: seq<Rung>, r: Rung)
    requires InOrder(s)
    ensures InOrder(Inserted(s, r))
    ensures forall i :: 0 <= i < |Inserted(s, r)| ==> Inserted(s, r)[i] == r || Inserted(s, r)[i] in s
  {
    if |s| > 0 && s[|s| - 1].afterMs > r.afterMs {
      var front := s[..|s| - 1];
      InsertedInOrder(front, r);
      assert forall x :: x in front ==> x.afterMs <= s[|s| - 1].afterMs;
    }
  }

  lemma {:induction false} SortedInOrder(s: seq<Rung>)
    ensures InOrder(Sorted(s))
  {
    if |s| > 0 {
      SortedInOrder(s[..|s| - 1]);
      InsertedInOrder(Sorted(s[..|s| - 1]), s[|s| - 1]);
    }
  }

  lemma {:induction false} SortedContents(s: seq<Rung>)
    ensures multiset(Sorted(s)) == multiset(s) && |Sorted(s)| == |s|
  {
    if |s| > 0 {
      SortedContents(s[..|s| - 1]);
      InsertedContents(Sorted(s[..|s| - 1]), s[|s| - 1]);
      assert s == s[..|s| - 1] + [s[|s| - 1]];
    }
  }

  lemma {:induction false} SortedOffset(s: seq<Rung>, t: int)
    ensures AtOffset(Sorted(s), t) == AtOffset(s, t)
  {
    if |s| > 0 {
      SortedOffset(s[..|s| - 1], t);
      InsertedOffset(Sorted(s[..|s| - 1]), s[|s| - 1], t);
    }
  }

  /** The engine keeps the same rungs, in time order, equal offsets in the order given. */
  lemma SortIsStable(s: seq<Rung>)
    ensures InOrder(Sorted(s)) && multiset(Sorted(s)) == multiset(s)
    ensures forall t :: AtOffset(Sorted(s), t) == AtOffset(s, t)
  {
    SortedInOrder(s);
    SortedContents(s);
    forall t
      ensures AtOffset(Sorted(s), t) == AtOffset(s, t)
    {
      SortedOffset(s, t);
    }
  }

  // ---- ceilings (admit) ----------------------------------------------------------------------

  function CostOf(c: Costs, ch: Channel): real {
    match ch
    case Push => c.push
    case Email => c.email
    case Sms => c.sms
    case Voice => c.voice
  }

  function Day(now: int): int {
    now / DAY_MS
  }

  /** The sends still inside the horizon. */
  function Recent(s: seq<int>, now: int, horizon: int): seq<int> {
    if |s| == 0 then []
    else Recent(s[..|s| - 1], now, horizon) + if now - s[|s| - 1] < horizon then [s[|s| - 1]] else []
  }

  /** A rate limit: prune, refuse at the cap, otherwise record the send. */
  function RateLimited(s: seq<int>, now: int, horizon: int, cap: real): (seq<int>, bool) {
    var recent := Recent(s, now, horizon);
    if |recent| as real >= cap then (recent, false) else (recent + [now], true)
  }

  function Admitted(c: Config, e0: Engine, ch: Channel, now: int): (Engine, bool) {
    var e := if e0.spend.day != Day(now) then e0.(spend := Spend(Day(now), 0.0)) else e0;
    var cost := CostOf(c.costs, ch);
    if e.spend.usd + cost > c.limits.maxDailySpendUsd then (e, false)
    else
      var (voice, voiceOk) :=
        if ch.Voice? then RateLimited(e.voiceSends, now, VOICE_HORIZON_MS, c.limits.maxVoiceCallsPer10Min)
        else (e.voiceSends, true);
      var (sms, smsOk) :=
        if ch.Sms? then RateLimited(e.smsSends, now, SMS_HORIZON_MS, c.limits.maxSmsPerHour) else (e.smsSends, true);
      var e1 := e.(voiceSends := voice, smsSends := sms);
      if voiceOk && smsOk then (e1.(spend := e.spend.(usd := e.spend.usd + cost)), true) else (e1, false)
  }

  // ---- windows ---------------------------------------------------------------------------------

  predicate Tracks(ws: seq<Window>, id: string) {
    exists i :: 0 <= i < |ws| && ws[i].id == id
  }

  function Ids(ws: seq<Window>): (r: seq<string>)
    ensures |r| == |ws| && forall i :: 0 <= i < |ws| ==> r[i] == ws[i].id
  {
    seq(|ws|, i requires 0 <= i < |ws| => ws[i].id)
  }

  /** The windows that are, or are not, closed, in order. */
  function Closed(ws: seq<Window>, closed: bool): seq<Window> {
    if |ws| == 0 then []
    else Closed(ws[..|ws| - 1], closed) + if ws[|ws| - 1].closed == closed then [ws[|ws| - 1]] else []
  }

  /** A run's windows are a map keyed by id. */
  predicate DistinctIds(ws: seq<Window>) {
    forall i, j :: 0 <= i < j < |ws| ==> ws[i].id != ws[j].id
  }

  /** The windows whose id is not among these, in order. */
  function Without(ws: seq<Window>, gone: set<string>): seq<Window> {
    if |ws| == 0 then []
    else Without(ws[..|ws| - 1], gone) + if ws[|ws| - 1].id in gone then [] else [ws[|ws| - 1]]
  }

  function Updated(ws: seq<Window>, id: string, f: Window -> Window): seq<Window> {
    seq(|ws|, i requires 0 <= i < |ws| => if ws[i].id == id then f(ws[i]) else ws[i])
  }

  function OnWindow(e: Engine, id: string, f: Window -> Window): Engine {
    match e.run
    case None => e
    case Some(run) => e.(run := Some(run.(windows := Updated(run.windows, id, f))))
  }

  function DoWindowOpened(e: Engine, id: string, headline: string, deadlineMs: int): Engine {
    var w := Window(id, headline, deadlineMs, false, false);
    match e.run
    case None => e.(run := Some(Run(-1, {}, [w])))
    case Some(run) => if Tracks(run.windows, id) then e else e.(run := Some(run.(windows := run.windows + [w])))
  }

  function DoWindowDelivered(e: Engine, id: string): Engine {
    OnWindow(e, id, (w: Window) => w.(delivered := true))
  }

  function DoWindowClosed(e: Engine, id: string): Engine {
    OnWindow(e, id, (w: Window) => w.(closed := true))
  }

  function DoWindowDeadline(e: Engine, id: string, deadlineMs: int): Engine {
    OnWindow(e, id, (w: Window) => w.(deadlineMs := deadlineMs))
  }

  function Chosen(ids: seq<string>, wanted: seq<string>): seq<string> {
    if |ids| == 0 then []
    else Chosen(ids[..|ids| - 1], wanted) + if |wanted| == 0 || ids[|ids| - 1] in wanted then [ids[|ids| - 1]] else []
  }

  /** A veto from a channel is queued for every open window it names, or all of them. */
  function DoVeto(e: Engine, wanted: seq<string>, via: Channel, attribution: string): Engine {
    var open := if e.run.None? then [] else Ids(Closed(e.run.value.windows, false));
    var ids := Chosen(open, wanted);
    if |ids| == 0 then e else e.(pending := e.pending + [RelayVeto(ids, via, attribution)])
  }

  // ---- tick ----------------------------------------------------------------------------------------

  function Earliest(ws: seq<Window>): (m: int)
    requires |ws| > 0
    ensures forall i :: 0 <= i < |ws| ==> m <= ws[i].deadlineMs
    ensures exists i :: 0 <= i < |ws| && m == ws[i].deadlineMs
  {
    if |ws| == 1 then ws[0].deadlineMs
    else
      var rest := Earliest(ws[..|ws| - 1]);
      if ws[|ws| - 1].deadlineMs < rest then ws[|ws| - 1].deadlineMs else rest
  }

  function AlertFor(open: seq<Window>): Alert
    requires |open| > 0
  {
    Alert(Ids(open), Earliest(open))
  }

  datatype Ticked = Ticked(engine: Engine, actions: seq<Action>, decisions: seq<Decision>)

  function UpTo(n: nat): (r: set<int>)
    ensures forall i :: i in r <==> 0 <= i < n
  {
    if n == 0 then {} else UpTo(n - 1) + {n - 1}
  }

  function AllRungs(c: Config): set<int> {
    UpTo(|c.rungs|)
  }

  /** Rung i and later: each due, undecided rung is sent or stood down, exactly once. */
  function RungsFrom(c: Config, e: Engine, i: nat, now: int, open: seq<Window>): Ticked
    requires e.run.Some? && |open| > 0
    decreases |c.rungs| - i
  {
    if i >= |c.rungs| then Ticked(e, [], [])
    else if i in e.run.value.fired || now - e.run.value.startedAtMs < c.rungs[i].afterMs
    then RungsFrom(c, e, i + 1, now, open)
    else
      var rung := c.rungs[i];
      var (e1, sent) := Admitted(c, e, rung.channel, now);
      var e2 := e1.(run := Some(e1.run.value.(fired := e1.run.value.fired + {i as int})));
      var action := if sent then Send(rung.channel, AlertFor(open)) else StandDown(Ids(open), CapHit);
      var rest := RungsFrom(c, e2, i + 1, now, open);
      Ticked(rest.engine, [action] + rest.actions, [Decision(now, i, rung.channel, sent)] + rest.decisions)
  }

  /** One more rung decided, before the rest of the climb. */
  lemma RungDecided(actions: seq<Action>, decisions: seq<Decision>, a: Action, d: Decision, rest: Ticked)
    ensures Ticked(rest.engine, actions + ([a] + rest.actions), decisions + ([d] + rest.decisions))
            == Ticked(rest.engine, actions + [a] + rest.actions, decisions + [d] + rest.decisions)
  {
    assert actions + ([a] + rest.actions) == actions + [a] + rest.actions;
    assert decisions + ([d] + rest.decisions) == decisions + [d] + rest.decisions;
  }

  /** The windows still tracked are all open here. */
  function DoTickOpen(c: Config, e: Engine, now: int): Ticked
    requires e.run.Some? && |e.run.value.windows| > 0
  {
    var run := e.run.value;
    if forall i :: 0 <= i < |run.windows| ==> run.windows[i].delivered then
      Ticked(e.(run := Some(run.(fired := run.fired + AllRungs(c)))),
             if AllRungs(c) <= run.fired then [] else [StandDown(Ids(run.windows), Confirmed)],
             [])
    else RungsFrom(c, e, 0, now, run.windows)
  }

  /** Closed windows leave the run, announced once; a run with none left is over. */
  function DoDropClosed(e: Engine): (r: (Engine, seq<Action>))
    requires e.run.Some?
    ensures r.0.run.Some? ==> |r.0.run.value.windows| > 0
  {
    var gone, open := Closed(e.run.value.windows, true), Closed(e.run.value.windows, false);
    (e.(run := if |open| == 0 then None else Some(e.run.value.(windows := open))),
     if |gone| > 0 then [StandDown(Ids(gone), WindowClosed)] else [])
  }

  function Armed(e: Engine, now: int): Engine
    requires e.run.Some?
  {
    if e.run.value.startedAtMs == -1 then e.(run := Some(e.run.value.(startedAtMs := now))) else e
  }

  function DoTick(c: Config, e0: Engine, now: int): Ticked {
    var e := e0.(pending := []);
    if e.run.None? then Ticked(e, e0.pending, [])
    else
      var (open, gone) := DoDropClosed(Armed(e, now));
      if open.run.None? then Ticked(open, e0.pending + gone, [])
      else
        var t := DoTickOpen(c, open, now);
        Ticked(t.engine, e0.pending + gone + t.actions, t.decisions)
  }

  lemma {:induction false} RungsKeepWindows(c: Config, e: Engine, i: nat, now: int, open: seq<Window>)
    requires e.run.Some? && |open| > 0
    ensures var t := RungsFrom(c, e, i, now, open);
            t.engine.run.Some? && t.engine.run.value.windows == e.run.value.windows
    decreases |c.rungs| - i
  {
    if i < |c.rungs| {
      if i in e.run.value.fired || now - e.run.value.startedAtMs < c.rungs[i].afterMs {
        RungsKeepWindows(c, e, i + 1, now, open);
      } else {
        var (e1, sent) := Admitted(c, e, c.rungs[i].channel, now);
        var e2 := e1.(run := Some(e1.run.value.(fired := e1.run.value.fired + {i as int})));
        RungsKeepWindows(c, e2, i + 1, now, open);
      }
    }
  }

  // ---- filtering by id, as the engine's map does ----------------------------------------------------

  lemma {:induction false} WithoutSelects(ws: seq<Window>, gone: set<string>)
    ensures forall i :: 0 <= i < |Without(ws, gone)| ==> Without(ws, gone)[i].id !in gone && Without(ws, gone)[i] in ws
    ensures DistinctIds(ws) ==> DistinctIds(Without(ws, gone))
  {
    if |ws| > 0 {
      WithoutSelects(ws[..|ws| - 1], gone);
    }
  }

  lemma {:induction false} WithoutAbsent(ws: seq<Window>, gone: set<string>)
    requires forall i :: 0 <= i < |ws| ==> ws[i].id !in gone
    ensures Without(ws, gone) == ws
  {
    if |ws| > 0 {
      WithoutAbsent(ws[..|ws| - 1], gone);
      assert ws == ws[..|ws| - 1] + [ws[|ws| - 1]];
    }
  }

  lemma {:induction false} WithoutMore(ws: seq<Window>, gone: set<string>, id: string)
    ensures Without(Without(ws, gone), {id}) == Without(ws, gone + {id})
  {
    if |ws| > 0 {
      var front, last := ws[..|ws| - 1], ws[|ws| - 1];
      WithoutMore(front, gone, id);
      if last.id !in gone {
        assert (Without(front, gone) + [last])[..|Without(front, gone)|] == Without(front, gone);
      } else {
        assert Without(front, gone) + [] == Without(front, gone);
      }
    }
  }

  /** With distinct ids, deleting a key takes out one window. */
  lemma {:induction false} DeletingOne(ws: seq<Window>, at: nat)
    requires at < |ws| && DistinctIds(ws)
    ensures Without(ws, {ws[at].id}) == ws[..at] + ws[at + 1..]
  {
    var front, last := ws[..|ws| - 1], ws[|ws| - 1];
    if at == |ws| - 1 {
      WithoutAbsent(front, {last.id});
    } else {
      DeletingOne(front, at);
      assert front[..at] + front[at + 1..] + [last] == ws[..at] + ws[at + 1..];
    }
  }

  /** Deleting the closed windows by id leaves the open ones. */
  lemma {:induction false} DeletingClosed(ws: seq<Window>, gone: set<string>)
    requires forall i :: 0 <= i < |ws| ==> (ws[i].id in gone <==> ws[i].closed)
    ensures Without(ws, gone) == Closed(ws, false)
  {
    if |ws| > 0 {
      DeletingClosed(ws[..|ws| - 1], gone);
    }
  }

  function IdSet(ws: seq<Window>): (r: set<string>)
    ensures forall id :: id in r <==> Tracks(ws, id)
  {
    set w | w in ws :: w.id
  }

  lemma OneMoreId(ws: seq<Window>, k: nat)
    requires k < |ws|
    ensures IdSet(ws[..k + 1]) == IdSet(ws[..k]) + {ws[k].id}
  {
    assert ws[..k + 1] == ws[..k] + [ws[k]];
    assert (ws[..k] + [ws[k]])[k] == ws[k];
    assert forall i :: 0 <= i < k ==> (ws[..k] + [ws[k]])[i] == ws[..k][i];
  }

  lemma {:induction false} ClosedOf(ws: seq<Window>, closed: bool)
    ensures forall w :: w in Closed(ws, closed) <==> w in ws && w.closed == closed
  {
    if |ws| > 0 {
      ClosedOf(ws[..|ws| - 1], closed);
      assert ws == ws[..|ws| - 1] + [ws[|ws| - 1]];
    }
  }

  lemma ClosedIds(ws: seq<Window>, i: nat)
    requires DistinctIds(ws) && i < |ws|
    ensures ws[i].id in IdSet(Closed(ws, true)) <==> ws[i].closed
  {
    ClosedOf(ws, true);
    var closed := Closed(ws, true);
    if Tracks(closed, ws[i].id) {
      var k :| 0 <= k < |closed| && closed[k].id == ws[i].id;
      assert closed[k] in ws;
    }
    if ws[i].closed {
      assert ws[i] in closed;
    }
  }

  // ---- the engine as it runs --------------------------------------------------------------------------

  predicate LimitsOk(l: Limits) {
    l.maxVoiceCallsPer10Min >= 0.0 && l.maxSmsPerHour >= 0.0 && l.maxDailySpendUsd >= 0.0
  }

  predicate RungsOk(rungs: seq<Rung>) {
    forall i :: 0 <= i < |rungs| ==> rungs[i].afterMs >= 0
  }

  class LadderEngine {
    const config: Config
    var run: Option<Run>
    var voiceSends: seq<int>
    var smsSends: seq<int>
    var spend: Spend
    var pending: seq<Action>

    function Value(): Engine
      reads this
    {
      Engine(run, voiceSends, smsSends, spend, pending)
    }

    ghost predicate Valid()
      reads this
    {
      run.Some? ==> DistinctIds(run.value.windows)
    }

    constructor (rungs: seq<Rung>, limits: Limits, costs: Costs)
      ensures Valid() && Value() == Idle && config == Config(Sorted(rungs), limits, costs)
    {
      config := Config(Sorted(rungs), limits, costs);
      run, voiceSends, smsSends, spend, pending := None, [], [], Spend(-1, 0.0), [];
    }

    /** windows.get(id): where the id is, if anywhere. */
    method Find(id: string) returns (at: Option<nat>)
      ensures at.Some? ==> run.Some? && at.value < |run.value.windows| && run.value.windows[at.value].id == id
      ensures at.None? ==> run.None? || !Tracks(run.value.windows, id)
    {
      if run.None? {
        return None;
      }
      var windows := run.value.windows;
      for i := 0 to |windows|
        invariant forall k :: 0 <= k < i ==> windows[k].id != id
      {
        if windows[i].id == id {
          return Some(i);
        }
      }
      at := None;
    }

    method WindowOpened(id: string, headline: string, deadlineMs: int)
      requires Valid()
      modifies this`run
      ensures Valid() && Value() == DoWindowOpened(old(Value()), id, headline, deadlineMs)
    {
      var tracked := Window(id, headline, deadlineMs, false, false);
      if run.Some? {
        var at := Find(id);
        if at.None? {
          run := Some(run.value.(windows := run.value.windows + [tracked]));
        }
        return;
      }
      run := Some(Run(-1, {}, [tracked]));
    }

    method WindowDelivered(id: string)
      requires Valid()
      modifies this`run
      ensures Valid() && Value() == DoWindowDelivered(old(Value()), id)
    {
      var at := Find(id);
      if at.Some? {
        var w := run.value.windows[at.value];
        Replace(at.value, w.(delivered := true), (w: Window) => w.(delivered := true));
      } else {
        NothingToUpdate(id, (w: Window) => w.(delivered := true));
      }
    }

    method CloseWindow(id: string)
      requires Valid()
      modifies this`run
      ensures Valid() && Value() == DoWindowClosed(old(Value()), id)
    {
      var at := Find(id);
      if at.Some? {
        var w := run.value.windows[at.value];
        Replace(at.value, w.(closed := true), (w: Window) => w.(closed := true));
      } else {
        NothingToUpdate(id, (w: Window) => w.(closed := true));
      }
    }

    method WindowDeadline(id: string, deadlineMs: int)
      requires Valid()
      modifies this`run
      ensures Valid() && Value() == DoWindowDeadline(old(Value()), id, deadlineMs)
    {
      var at := Find(id);
      if at.Some? {
        var w := run.value.windows[at.value];
        Replace(at.value, w.(deadlineMs := deadlineMs), (w: Window) => w.(deadlineMs := deadlineMs));
      } else {
        NothingToUpdate(id, (w: Window) => w.(deadlineMs := deadlineMs));
      }
    }

    /** Ids are distinct, so writing one slot is the update of every window of that id. */
    method Replace(at: nat, now: Window, ghost f: Window -> Window)
      requires Valid() && run.Some? && at < |run.value.windows|
      requires now == f(run.value.windows[at]) && now.id == run.value.windows[at].id
      modifies this`run
      ensures Valid() && Value() == OnWindow(old(Value()), now.id, f)
    {
      ghost var before := run.value.windows;
      run := Some(run.value.(windows := run.value.windows[at := now]));
      assert run.value.windows == Updated(before, now.id, f);
    }

    lemma NothingToUpdate(id: string, f: Window -> Window)
      requires run.Some? ==> !Tracks(run.value.windows, id)
      ensures Value() == OnWindow(Value(), id, f)
    {
      if run.Some? {
        assert Updated(run.value.windows, id, f) == run.value.windows;
      }
    }

    method OpenWindowIds() returns (ids: seq<string>)
      ensures ids == if run.None? then [] else Ids(Closed(run.value.windows, false))
    {
      ids := [];
      if run.Some? {
        var windows := run.value.windows;
        for i := 0 to |windows|
          invariant ids == Ids(Closed(windows[..i], false))
        {
          assert windows[..i + 1][..i] == windows[..i];
          if !windows[i].closed {
            ids := ids + [windows[i].id];
          }
        }
        assert windows[..|windows|] == windows;
      }
    }

    method ChannelVeto(wanted: seq<string>, via: Channel, attribution: string)
      modifies this`pending
      ensures Value() == DoVeto(old(Value()), wanted, via, attribution)
    {
      var open := OpenWindowIds();
      var ids := [];
      for i := 0 to |open|
        invariant ids == Chosen(open[..i], wanted)
      {
        assert open[..i + 1][..i] == open[..i];
        if |wanted| == 0 || open[i] in wanted {
          ids := ids + [open[i]];
        }
      }
      assert open[..|open|] == open;
      if |ids| == 0 {
        return;
      }
      pending := pending + [RelayVeto(ids, via, attribution)];
    }

    /** Apply the ceilings; false means the rung is capped. */
    method Admit(ch: Channel, now: int) returns (sent: bool)
      modifies this`voiceSends, this`smsSends, this`spend
      ensures (Value(), sent) == Admitted(config, old(Value()), ch, now)
    {
      var cost := CostOf(config.costs, ch);
      var day := now / DAY_MS;
      if spend.day != day {
        spend := Spend(day, 0.0);
      }
      if spend.usd + cost > config.limits.maxDailySpendUsd {
        return false;
      }
      if ch == Voice {
        voiceSends := Recent(voiceSends, now, VOICE_HORIZON_MS);
        if |voiceSends| as real >= config.limits.maxVoiceCallsPer10Min {
          return false;
        }
        voiceSends := voiceSends + [now];
      }
      if ch == Sms {
        smsSends := Recent(smsSends, now, SMS_HORIZON_MS);
        if |smsSends| as real >= config.limits.maxSmsPerHour {
          return false;
        }
        smsSends := smsSends + [now];
      }
      spend := spend.(usd := spend.usd + cost);
      return true;
    }

    /** The rung loop of tick(). */
    method FireRungs(now: int, open: seq<Window>) returns (actions: seq<Action>, ghost decisions: seq<Decision>)
      requires run.Some? && |open| > 0
      modifies this`run, this`voiceSends, this`smsSends, this`spend
      ensures Ticked(Value(), actions, decisions) == RungsFrom(config, old(Value()), 0, now, open)
    {
      hide Ids;
      actions, decisions := [], [];
      ghost var whole := RungsFrom(config, Value(), 0, now, open);
      for i := 0 to |config.rungs|
        invariant run.Some?
        invariant var rest := RungsFrom(config, Value(), i, now, open);
                  whole == Ticked(rest.engine, actions + rest.actions, decisions + rest.decisions)
      {
        if i in run.value.fired {
          continue;
        }
        var rung := config.rungs[i];
        if now - run.value.startedAtMs < rung.afterMs {
          continue;
        }
        var sent := Admit(rung.channel, now);
        run := Some(run.value.(fired := run.value.fired + {i}));
        var action := if sent then Send(rung.channel, AlertFor(open)) else StandDown(Ids(open), CapHit);
        ghost var rest := RungsFrom(config, Value(), i + 1, now, open);
        RungDecided(actions, decisions, action, Decision(now, i, rung.channel, sent), rest);
        actions := actions + [action];
        decisions := decisions + [Decision(now, i, rung.channel, sent)];
      }
      assert actions + [] == actions && decisions + [] == decisions;
    }

    method Tick(now: int) returns (actions: seq<Action>, ghost decisions: seq<Decision>)
      requires Valid()
      modifies this
      ensures Valid() && Ticked(Value(), actions, decisions) == DoTick(config, old(Value()), now)
    {
      actions, decisions := pending, [];
      pending := [];
      if run.None? {
        return;
      }
      if run.value.startedAtMs == -1 {
        run := Some(run.value.(startedAtMs := now));
      }
      var gone := DropClosed();
      actions := actions + gone;
      if run.None? {
        return;
      }
      var more;
      more, decisions := TickOpen(now);
      actions := actions + more;
    }

    method DropClosed() returns (actions: seq<Action>)
      requires Valid() && run.Some?
      modifies this`run
      ensures Valid() && (Value(), actions) == DoDropClosed(old(Value()))
    {
      actions := [];
      ghost var before := run.value.windows;
      var closed := ClosedWindows();
      if |closed| > 0 {
        actions := [StandDown(Ids(closed), WindowClosed)];
      }
      DeleteAll(closed);
      ClosedOf(before, true);
      forall i | 0 <= i < |before|
        ensures before[i].id in IdSet(closed) <==> before[i].closed
      {
        ClosedIds(before, i);
      }
      DeletingClosed(before, IdSet(closed));
      if |run.value.windows| == 0 {
        run := None;
      }
    }

    method ClosedWindows() returns (closed: seq<Window>)
      requires run.Some?
      ensures closed == Closed(run.value.windows, true)
    {
      closed := [];
      var windows := run.value.windows;
      for i := 0 to |windows|
        invariant closed == Closed(windows[..i], true)
      {
        assert windows[..i + 1][..i] == windows[..i];
        if windows[i].closed {
          closed := closed + [windows[i]];
        }
      }
      assert windows[..|windows|] == windows;
    }

    /** windows.delete(id) */
    method Delete(id: string)
      requires Valid() && run.Some?
      modifies this`run
      ensures Valid() && run == Some(old(run.value).(windows := Without(old(run.value).windows, {id})))
    {
      ghost var before := run.value.windows;
      WithoutSelects(before, {id});
      var at := Find(id);
      if at.Some? {
        DeletingOne(before, at.value);
        run := Some(run.value.(windows := run.value.windows[..at.value] + run.value.windows[at.value + 1..]));
      } else {
        WithoutAbsent(before, {id});
      }
    }

    method DeleteAll(gone: seq<Window>)
      requires Valid() && run.Some?
      modifies this`run
      ensures Valid() && run == Some(old(run.value).(windows := Without(old(run.value).windows, IdSet(gone))))
    {
      ghost var before := run.value;
      WithoutAbsent(before.windows, IdSet([]));
      for k := 0 to |gone|
        invariant Valid() && run == Some(before.(windows := Without(before.windows, IdSet(gone[..k]))))
      {
        Delete(gone[k].id);
        WithoutMore(before.windows, IdSet(gone[..k]), gone[k].id);
        OneMoreId(gone, k);
      }
      assert gone[..|gone|] == gone;
    }

    /** No window tracked is closed: stand down if all are confirmed, else climb. */
    method TickOpen(now: int) returns (actions: seq<Action>, ghost decisions: seq<Decision>)
      requires Valid() && run.Some? && |run.value.windows| > 0
      modifies this`run, this`voiceSends, this`smsSends, this`spend
      ensures Valid() && Ticked(Value(), actions, decisions) == DoTickOpen(config, old(Value()), now)
    {
      actions, decisions := [], [];
      var open := run.value.windows;
      if forall i :: 0 <= i < |open| ==> open[i].delivered {
        if !(AllRungs(config) <= run.value.fired) {
          actions := [StandDown(Ids(open), Confirmed)];
        }
        run := Some(run.value.(fired := run.value.fired + AllRungs(config)));
        return;
      }
      RungsKeepWindows(config, Value(), 0, now, open);
      actions, decisions := FireRungs(now, open);
    }
  }

  /** Options the constructor refuses: a negative offset or a negative limit. */
  method NewLadderEngine(rungs: seq<Rung>, limits: Limits, costs: Costs) returns (e: LadderEngine?)
    ensures e != null
            <==> && (forall rung :: rung in rungs ==> rung.afterMs >= 0)
                 && limits.maxVoiceCallsPer10Min >= 0.0 && limits.maxSmsPerHour >= 0.0 && limits.maxDailySpendUsd >= 0.0
    ensures e != null ==> fresh(e) && e.Valid() && e.Value() == Idle && e.config == Config(Sorted(rungs), limits, costs)
  {
    if !RungsOk(rungs) || !LimitsOk(limits) {
      return null;
    }
    e := new LadderEngine(rungs, limits, costs);
  }
}
