/** The ladder over any number of runs, for a clock that never goes back. */
module LadderTheorems {
  import opened Wrappers
  import opened Ladder

  datatype Event =
    | Opened(id: string, headline: string, deadlineMs: int)
    | Delivered(id: string)
    | Closing(id: string)
    | DeadlineMoved(id: string, deadlineMs: int)
    | Veto(wanted: seq<string>, via: Channel, attribution: string)
    | Tick(now: int)

  /** One rung decision, with the run it belongs to. */
  datatype Logged = Logged(run: nat, d: Decision)

  /** The engine, how many runs it has opened, every decision so far, and its last tick. */
  datatype World = World(e: Engine, runs: nat, trace: seq<Logged>, last: int)

  function Logs(run: nat, ds: seq<Decision>): (r: seq<Logged>)
    ensures |r| == |ds| && forall i :: 0 <= i < |ds| ==> r[i] == Logged(run, ds[i])
  {
    seq(|ds|, i requires 0 <= i < |ds| => Logged(run, ds[i]))
  }

  function Next(c: Config, w: World, ev: Event): World {
    match ev
    case Opened(id, headline, deadlineMs) =>
      w.(e := DoWindowOpened(w.e, id, headline, deadlineMs), runs := if w.e.run.None? then w.runs + 1 else w.runs)
    case Delivered(id) => w.(e := DoWindowDelivered(w.e, id))
    case Closing(id) => w.(e := DoWindowClosed(w.e, id))
    case DeadlineMoved(id, deadlineMs) => w.(e := DoWindowDeadline(w.e, id, deadlineMs))
    case Veto(wanted, via, attribution) => w.(e := DoVeto(w.e, wanted, via, attribution))
    case Tick(now) =>
      var t := DoTick(c, w.e, now);
      World(t.engine, w.runs, w.trace + Logs(w.runs, t.decisions), now)
  }

  function Play(c: Config, start: int, evs: seq<Event>): World {
    if |evs| == 0 then World(Idle, 0, [], start) else Next(c, Play(c, start, evs[..|evs| - 1]), evs[|evs| - 1])
  }

  predicate Chronological(start: int, evs: seq<Event>) {
    && (forall i :: 0 <= i < |evs| && evs[i].Tick? ==> start <= evs[i].now)
    && (forall i, j :: 0 <= i < j < |evs| && evs[i].Tick? && evs[j].Tick? ==> evs[i].now <= evs[j].now)
  }

  // ---- rate ceilings -----------------------------------------------------------------------

  predicate Nondecreasing(s: seq<int>) {
    forall i, j :: 0 <= i < j < |s| ==> s[i] <= s[j]
  }

  /** Any stretch of sends shorter than the horizon holds fewer than cap + 1 of them. */
  predicate Ceiling(s: seq<int>, horizon: int, cap: real) {
    forall i, j :: 0 <= i <= j < |s| && s[j] - s[i] < horizon ==> (j - i + 1) as real < cap + 1.0
  }

  /** `recent` is the tail of all sends that could still be inside the horizon. */
  ghost predicate Tail(all: seq<int>, recent: seq<int>, k: nat, now: int, horizon: int) {
    k <= |all| && recent == all[k..] && forall i :: 0 <= i < k ==> now - all[i] >= horizon
  }

  ghost predicate RateOk(all: seq<int>, recent: seq<int>, now: int, horizon: int, cap: real) {
    && Nondecreasing(all) && (forall i :: 0 <= i < |all| ==> all[i] <= now)
    && (exists k :: Tail(all, recent, k, now, horizon))
    && Ceiling(all, horizon, cap)
  }

  lemma {:induction false} RecentIsTail(s: seq<int>, now: int, horizon: int) returns (k: nat)
    requires Nondecreasing(s)
    ensures Tail(s, Recent(s, now, horizon), k, now, horizon)
    ensures forall i :: k <= i < |s| ==> now - s[i] < horizon
  {
    if |s| == 0 {
      k := 0;
    } else {
      var front := s[..|s| - 1];
      if now - s[|s| - 1] < horizon {
        k := RecentIsTail(front, now, horizon);
        assert s[k..] == front[k..] + [s[|s| - 1]];
      } else {
        NoneRecent(s, now, horizon);
        k := |s|;
      }
    }
  }

  lemma {:induction false} NoneRecent(s: seq<int>, now: int, horizon: int)
    requires forall i :: 0 <= i < |s| ==> now - s[i] >= horizon
    ensures Recent(s, now, horizon) == []
  {
    if |s| > 0 {
      NoneRecent(s[..|s| - 1], now, horizon);
    }
  }

  lemma PrunedIsTail(all: seq<int>, recent: seq<int>, now: int, horizon: int) returns (k: nat)
    requires Nondecreasing(all) && exists k :: Tail(all, recent, k, now, horizon)
    ensures Tail(all, Recent(recent, now, horizon), k, now, horizon)
    ensures forall i :: k <= i < |all| ==> now - all[i] < horizon
  {
    var a :| Tail(all, recent, a, now, horizon);
    var b := RecentIsTail(recent, now, horizon);
    k := a + b;
    assert recent[b..] == all[k..];
    forall i | 0 <= i < k
      ensures now - all[i] >= horizon
    {
      if i >= a {
        assert all[i] == recent[i - a];
      }
    }
    forall i | k <= i < |all|
      ensures now - all[i] < horizon
    {
      assert all[i] == recent[i - a];
    }
  }

  lemma RateLater(all: seq<int>, recent: seq<int>, last: int, now: int, horizon: int, cap: real)
    requires RateOk(all, recent, last, horizon, cap) && last <= now
    ensures RateOk(all, recent, now, horizon, cap)
  {
    var k :| Tail(all, recent, k, last, horizon);
    assert Tail(all, recent, k, now, horizon);
  }

  /** A send under the cap: only the kept tail lies inside the horizon with it. */
  lemma CeilingStep(all: seq<int>, k: nat, now: int, horizon: int, cap: real)
    requires Ceiling(all, horizon, cap) && k <= |all| && (|all| - k) as real < cap
    requires forall i :: 0 <= i < k ==> now - all[i] >= horizon
    ensures Ceiling(all + [now], horizon, cap)
  {
    var all' := all + [now];
    forall i, j | 0 <= i <= j < |all'| && all'[j] - all'[i] < horizon
      ensures (j - i + 1) as real < cap + 1.0
    {
      if j == |all| {
        assert i < |all| ==> i >= k;
        assert j - i + 1 <= |all| - k + 1;
      } else {
        assert all[j] - all[i] < horizon;
      }
    }
  }

  lemma SendExtends(all: seq<int>, kept: seq<int>, k: nat, now: int, horizon: int)
    requires Nondecreasing(all) && Tail(all, kept, k, now, horizon)
    requires forall i :: 0 <= i < |all| ==> all[i] <= now
    ensures Nondecreasing(all + [now]) && Tail(all + [now], kept + [now], k, now, horizon)
    ensures forall i :: 0 <= i < |all + [now]| ==> (all + [now])[i] <= now
  {
    assert (all + [now])[k..] == kept + [now];
  }

  lemma RateStep(all: seq<int>, recent: seq<int>, now: int, horizon: int, cap: real)
    requires RateOk(all, recent, now, horizon, cap) && horizon > 0
    ensures var (recent', ok) := RateLimited(recent, now, horizon, cap);
            RateOk(if ok then all + [now] else all, recent', now, horizon, cap)
  {
    var k := PrunedIsTail(all, recent, now, horizon);
    var kept := Recent(recent, now, horizon);
    if |kept| as real < cap {
      CeilingStep(all, k, now, horizon, cap);
      SendExtends(all, kept, k, now, horizon);
    }
  }

  // ---- spend ------------------------------------------------------------------------------------

  function DayTotal(c: Config, trace: seq<Logged>, day: int): real {
    if |trace| == 0 then 0.0
    else
      var l := trace[|trace| - 1];
      DayTotal(c, trace[..|trace| - 1], day)
      + if l.d.sent && Day(l.d.at) == day then CostOf(c.costs, l.d.channel) else 0.0
  }

  function SentTimes(trace: seq<Logged>, ch: Channel): seq<int> {
    if |trace| == 0 then []
    else
      var l := trace[|trace| - 1];
      SentTimes(trace[..|trace| - 1], ch) + if l.d.sent && l.d.channel == ch then [l.d.at] else []
  }

  /** The engine's day bucket is the trace's total for that day, and no send is dated later. */
  ghost predicate SpendOk(c: Config, e: Engine, trace: seq<Logged>) {
    && (forall day :: DayTotal(c, trace, day) <= c.limits.maxDailySpendUsd)
    && DayTotal(c, trace, e.spend.day) == e.spend.usd
    && forall i :: 0 <= i < |trace| && trace[i].d.sent ==> Day(trace[i].d.at) <= e.spend.day
  }

  lemma {:induction false} NothingOn(c: Config, trace: seq<Logged>, day: int)
    requires forall i :: 0 <= i < |trace| && trace[i].d.sent ==> Day(trace[i].d.at) < day
    ensures DayTotal(c, trace, day) == 0.0
  {
    if |trace| > 0 {
      NothingOn(c, trace[..|trace| - 1], day);
    }
  }

  predicate Limited(ch: Channel) {
    ch.Voice? || ch.Sms?
  }

  function Sends(e: Engine, ch: Channel): seq<int> {
    if ch.Voice? then e.voiceSends else e.smsSends
  }

  function Horizon(ch: Channel): int {
    if ch.Voice? then VOICE_HORIZON_MS else SMS_HORIZON_MS
  }

  function Cap(c: Config, ch: Channel): real {
    if ch.Voice? then c.limits.maxVoiceCallsPer10Min else c.limits.maxSmsPerHour
  }

  ghost predicate RateInv(c: Config, ch: Channel, e: Engine, trace: seq<Logged>, now: int) {
    RateOk(SentTimes(trace, ch), Sends(e, ch), now, Horizon(ch), Cap(c, ch))
  }

  /** No send is dated past the engine's day, nor the engine's day past the clock. */
  ghost predicate SpendInv(c: Config, e: Engine, trace: seq<Logged>, now: int) {
    SpendOk(c, e, trace) && (e.spend.day <= Day(now) || (trace == [] && e.spend == Idle.spend))
  }

  function WithDay(e: Engine, now: int): Engine {
    if e.spend.day != Day(now) then e.(spend := Spend(Day(now), 0.0)) else e
  }

  predicate Affordable(c: Config, e: Engine, ch: Channel, now: int) {
    WithDay(e, now).spend.usd + CostOf(c.costs, ch) <= c.limits.maxDailySpendUsd
  }

  /** What admit does to one rate-limited channel's sends. */
  lemma AdmittedSends(c: Config, e: Engine, ch: Channel, now: int, limited: Channel)
    requires Limited(limited)
    ensures var (e1, sent) := Admitted(c, e, ch, now);
            if ch == limited && Affordable(c, e, ch, now)
            then (Sends(e1, limited), sent) == RateLimited(Sends(e, limited), now, Horizon(limited), Cap(c, limited))
            else Sends(e1, limited) == Sends(e, limited) && (ch == limited ==> !sent)
  {
  }

  lemma SentTimesAppend(trace: seq<Logged>, l: Logged, ch: Channel)
    ensures SentTimes(trace + [l], ch)
            == if l.d.sent && l.d.channel == ch then SentTimes(trace, ch) + [l.d.at] else SentTimes(trace, ch)
  {
    assert (trace + [l])[..|trace|] == trace;
  }

  /** One more decision, sent or refused, keeps a rate ceiling. */
  lemma AdmitKeepsRate(
    c: Config, limited: Channel, e: Engine, trace: seq<Logged>, run: nat, rung: int, ch: Channel, now: int)
    requires Limited(limited) && RateInv(c, limited, e, trace, now)
    ensures var (e1, sent) := Admitted(c, e, ch, now);
            RateInv(c, limited, e1, trace + [Logged(run, Decision(now, rung, ch, sent))], now)
  {
    var (e1, sent) := Admitted(c, e, ch, now);
    AdmittedSends(c, e, ch, now, limited);
    SentTimesAppend(trace, Logged(run, Decision(now, rung, ch, sent)), limited);
    if ch == limited && Affordable(c, e, ch, now) {
      RateStep(SentTimes(trace, limited), Sends(e, limited), now, Horizon(limited), Cap(c, limited));
    }
  }

  lemma DayTurns(c: Config, e: Engine, trace: seq<Logged>, now: int)
    requires SpendInv(c, e, trace, now) && LimitsOk(c.limits)
    ensures SpendOk(c, WithDay(e, now), trace)
  {
    if e.spend.day != Day(now) {
      NothingOn(c, trace, Day(now));
    }
  }

  lemma AdmitKeepsSpend(c: Config, e: Engine, trace: seq<Logged>, run: nat, rung: int, ch: Channel, now: int)
    requires SpendInv(c, e, trace, now) && LimitsOk(c.limits)
    ensures var (e1, sent) := Admitted(c, e, ch, now);
            SpendInv(c, e1, trace + [Logged(run, Decision(now, rung, ch, sent))], now)
  {
    DayTurns(c, e, trace, now);
    var (e1, sent) := Admitted(c, e, ch, now);
    AdmitSpends(c, WithDay(e, now), e1, trace, Logged(run, Decision(now, rung, ch, sent)));
  }

  lemma AdmitSpends(c: Config, e: Engine, e1: Engine, trace: seq<Logged>, l: Logged)
    requires SpendOk(c, e, trace) && e.spend.day == Day(l.d.at) && e1.spend.day == e.spend.day
    requires l.d.sent ==> e.spend.usd + CostOf(c.costs, l.d.channel) <= c.limits.maxDailySpendUsd
    requires e1.spend.usd == if l.d.sent then e.spend.usd + CostOf(c.costs, l.d.channel) else e.spend.usd
    ensures SpendOk(c, e1, trace + [l])
  {
    assert (trace + [l])[..|trace|] == trace;
  }

  /** A property every single decision keeps, with the engine it leaves behind. */
  ghost predicate Inv(c: Config, e: Engine, trace: seq<Logged>, now: int) {
    RateInv(c, Voice, e, trace, now) && RateInv(c, Sms, e, trace, now) && SpendInv(c, e, trace, now)
  }

  lemma RungKeeps(c: Config, e: Engine, i: nat, now: int, trace: seq<Logged>, run: nat)
    requires Inv(c, e, trace, now) && LimitsOk(c.limits) && e.run.Some? && i < |c.rungs|
    ensures var (e1, sent) := Admitted(c, e, c.rungs[i].channel, now);
            var e2 := e1.(run := Some(e1.run.value.(fired := e1.run.value.fired + {i as int})));
            Inv(c, e2, trace + [Logged(run, Decision(now, i, c.rungs[i].channel, sent))], now)
  {
    AdmitKeepsRate(c, Voice, e, trace, run, i, c.rungs[i].channel, now);
    AdmitKeepsRate(c, Sms, e, trace, run, i, c.rungs[i].channel, now);
    AdmitKeepsSpend(c, e, trace, run, i, c.rungs[i].channel, now);
  }

  lemma LogsCons(trace: seq<Logged>, run: nat, d: Decision, ds: seq<Decision>)
    ensures trace + Logs(run, [d] + ds) == trace + [Logged(run, d)] + Logs(run, ds)
  {
  }

  lemma {:induction false} RungsKeep(
    c: Config, e: Engine, i: nat, now: int, open: seq<Window>, trace: seq<Logged>, run: nat)
    requires Inv(c, e, trace, now) && LimitsOk(c.limits) && e.run.Some? && |open| > 0
    ensures var t := RungsFrom(c, e, i, now, open); Inv(c, t.engine, trace + Logs(run, t.decisions), now)
    decreases |c.rungs| - i
  {
    if i >= |c.rungs| {
      assert trace + Logs(run, []) == trace;
    } else if i in e.run.value.fired || now - e.run.value.startedAtMs < c.rungs[i].afterMs {
      RungsKeep(c, e, i + 1, now, open, trace, run);
    } else {
      var (e1, sent) := Admitted(c, e, c.rungs[i].channel, now);
      var e2 := e1.(run := Some(e1.run.value.(fired := e1.run.value.fired + {i as int})));
      var d := Decision(now, i, c.rungs[i].channel, sent);
      RungKeeps(c, e, i, now, trace, run);
      RungsKeep(c, e2, i + 1, now, open, trace + [Logged(run, d)], run);
      LogsCons(trace, run, d, RungsFrom(c, e2, i + 1, now, open).decisions);
    }
  }

  lemma InvLater(c: Config, e: Engine, trace: seq<Logged>, last: int, now: int)
    requires Inv(c, e, trace, last) && last <= now
    ensures Inv(c, e, trace, now)
  {
    RateLater(SentTimes(trace, Voice), e.voiceSends, last, now, VOICE_HORIZON_MS, c.limits.maxVoiceCallsPer10Min);
    RateLater(SentTimes(trace, Sms), e.smsSends, last, now, SMS_HORIZON_MS, c.limits.maxSmsPerHour);
  }

  predicate SameTotals(e: Engine, e': Engine) {
    e'.voiceSends == e.voiceSends && e'.smsSends == e.smsSends && e'.spend == e.spend
  }

  lemma SameTotalsKeep(c: Config, e: Engine, e': Engine, trace: seq<Logged>, now: int)
    requires Inv(c, e, trace, now) && SameTotals(e, e')
    ensures Inv(c, e', trace, now)
  {
  }

  /** A tick either decides nothing, or runs the rung loop over the open windows. */
  lemma TickShape(c: Config, e: Engine, now: int) returns (open: Engine, climbs: bool)
    ensures SameTotals(e, open)
    ensures climbs ==> open.run.Some? && |open.run.value.windows| > 0
    ensures var t := DoTick(c, e, now);
            if climbs then
              var r := RungsFrom(c, open, 0, now, open.run.value.windows);
              t.engine == r.engine && t.decisions == r.decisions
            else t.decisions == [] && SameTotals(e, t.engine)
  {
    open, climbs := e.(pending := []), false;
    if open.run.Some? {
      open := DoDropClosed(Armed(open, now)).0;
      climbs := open.run.Some?
        && !(forall i :: 0 <= i < |open.run.value.windows| ==> open.run.value.windows[i].delivered);
    }
  }

  lemma TickKeepsInv(c: Config, e: Engine, trace: seq<Logged>, run: nat, last: int, now: int)
    requires Inv(c, e, trace, last) && LimitsOk(c.limits) && last <= now
    ensures var t := DoTick(c, e, now); Inv(c, t.engine, trace + Logs(run, t.decisions), now)
  {
    InvLater(c, e, trace, last, now);
    var open, climbs := TickShape(c, e, now);
    if climbs {
      SameTotalsKeep(c, e, open, trace, now);
      RungsKeep(c, open, 0, now, open.run.value.windows, trace, run);
    } else {
      SameTotalsKeep(c, e, DoTick(c, e, now).engine, trace, now);
      assert trace + Logs(run, []) == trace;
    }
  }

  lemma InvAtStart(c: Config, start: int)
    requires LimitsOk(c.limits)
    ensures Inv(c, Idle, [], start)
  {
    assert Tail([], [], 0, start, VOICE_HORIZON_MS) && Tail([], [], 0, start, SMS_HORIZON_MS);
  }

  lemma {:induction false} LastTick(c: Config, start: int, evs: seq<Event>)
    ensures Play(c, start, evs).last == start || exists i :: 0 <= i < |evs| && evs[i] == Tick(Play(c, start, evs).last)
  {
    if |evs| > 0 {
      var front, w := evs[..|evs| - 1], Play(c, start, evs[..|evs| - 1]);
      LastTick(c, start, front);
      if w.last != start && !evs[|evs| - 1].Tick? {
        var i :| 0 <= i < |front| && front[i] == Tick(w.last);
        assert evs[i] == Tick(w.last);
      }
    }
  }

  /** The clock of a run so far never passes its next tick. */
  lemma TicksComeLater(c: Config, start: int, evs: seq<Event>)
    requires Chronological(start, evs) && |evs| > 0
    ensures Chronological(start, evs[..|evs| - 1])
    ensures evs[|evs| - 1].Tick? ==> Play(c, start, evs[..|evs| - 1]).last <= evs[|evs| - 1].now
  {
    LastTick(c, start, evs[..|evs| - 1]);
  }

  ghost predicate WorldInv(c: Config, w: World) {
    Inv(c, w.e, w.trace, w.last)
  }

  lemma OthersSendNothing(c: Config, w: World, ev: Event)
    requires !ev.Tick?
    ensures SameTotals(w.e, Next(c, w, ev).e) && Next(c, w, ev).trace == w.trace && Next(c, w, ev).last == w.last
  {
  }

  lemma NextKeepsInv(c: Config, w: World, ev: Event)
    requires WorldInv(c, w) && LimitsOk(c.limits) && (ev.Tick? ==> w.last <= ev.now)
    ensures WorldInv(c, Next(c, w, ev))
  {
    hide Inv, DoTick;
    if ev.Tick? {
      TickKeepsInv(c, w.e, w.trace, w.runs, w.last, ev.now);
    } else {
      OthersSendNothing(c, w, ev);
      SameTotalsKeep(c, w.e, Next(c, w, ev).e, w.trace, w.last);
    }
  }

  lemma {:induction false} PlayKeepsInv(c: Config, start: int, evs: seq<Event>)
    requires Chronological(start, evs) && LimitsOk(c.limits)
    ensures WorldInv(c, Play(c, start, evs))
  {
    if |evs| == 0 {
      InvAtStart(c, start);
    } else {
      TicksComeLater(c, start, evs);
      PlayKeepsInv(c, start, evs[..|evs| - 1]);
      NextKeepsInv(c, Play(c, start, evs[..|evs| - 1]), evs[|evs| - 1]);
    }
  }

  /** Every decision to send stays within the rate ceilings and the day's money. */
  lemma DecisionsWithinCeilings(c: Config, start: int, evs: seq<Event>)
    requires Chronological(start, evs) && LimitsOk(c.limits)
    ensures var trace := Play(c, start, evs).trace;
            && Ceiling(SentTimes(trace, Voice), VOICE_HORIZON_MS, c.limits.maxVoiceCallsPer10Min)
            && Ceiling(SentTimes(trace, Sms), SMS_HORIZON_MS, c.limits.maxSmsPerHour)
            && Nondecreasing(SentTimes(trace, Voice)) && Nondecreasing(SentTimes(trace, Sms))
            && forall day :: DayTotal(c, trace, day) <= c.limits.maxDailySpendUsd
  {
    PlayKeepsInv(c, start, evs);
  }

  /** For a whole-number cap the count itself is at most the cap. */
  lemma WholeCapIsExact(s: seq<int>, horizon: int, cap: nat, i: nat, j: nat)
    requires Ceiling(s, horizon, cap as real) && i <= j < |s| && s[j] - s[i] < horizon
    ensures j - i + 1 <= cap
  {
  }

  // ---- rungs are decided once, in order --------------------------------------------------------------

  predicate Due(c: Config, run: Run, now: int, i: int) {
    0 <= i < |c.rungs| && now - run.startedAtMs >= c.rungs[i].afterMs
  }

  /** The rung loop decides exactly the due, undecided rungs from i on. */
  lemma {:induction false} RungsFired(c: Config, e: Engine, i: nat, now: int, open: seq<Window>)
    requires e.run.Some? && |open| > 0
    ensures var t := RungsFrom(c, e, i, now, open);
            && t.engine.run.Some?
            && t.engine.run.value.startedAtMs == e.run.value.startedAtMs
            && t.engine.run.value.windows == e.run.value.windows
            && t.engine.pending == e.pending
            && (forall r :: r in t.engine.run.value.fired <==>
                  r in e.run.value.fired || (i <= r && Due(c, e.run.value, now, r)))
            && (forall x :: 0 <= x < |t.decisions| ==>
                  i <= t.decisions[x].rung && t.decisions[x].rung in t.engine.run.value.fired
                  && t.decisions[x].rung !in e.run.value.fired)
            && (forall x, y :: 0 <= x < y < |t.decisions| ==> t.decisions[x].rung < t.decisions[y].rung)
    decreases |c.rungs| - i
  {
    if i < |c.rungs| {
      if i in e.run.value.fired || now - e.run.value.startedAtMs < c.rungs[i].afterMs {
        RungsFired(c, e, i + 1, now, open);
      } else {
        var (e1, sent) := Admitted(c, e, c.rungs[i].channel, now);
        var e2 := e1.(run := Some(e1.run.value.(fired := e1.run.value.fired + {i as int})));
        RungsFired(c, e2, i + 1, now, open);
      }
    }
  }

  ghost predicate Prefix(fired: set<int>, n: nat) {
    exists k: nat :: k <= n && fired == UpTo(k)
  }

  /** Offsets are sorted, so what is due at any moment is a prefix of the ladder. */
  lemma {:induction false} DueIsPrefix(c: Config, run: Run, now: int, n: nat) returns (k: nat)
    requires InOrder(c.rungs) && n <= |c.rungs|
    ensures k <= n && forall i :: 0 <= i < n ==> (Due(c, run, now, i) <==> i < k)
  {
    if n == 0 {
      k := 0;
    } else {
      k := DueIsPrefix(c, run, now, n - 1);
      if Due(c, run, now, n - 1) {
        assert forall i :: 0 <= i < n - 1 ==> c.rungs[i].afterMs <= c.rungs[n - 1].afterMs;
        k := n;
      }
    }
  }

  ghost predicate Decided(c: Config, w: World) {
    && (w.e.run.Some? ==> w.runs > 0 && Prefix(w.e.run.value.fired, |c.rungs|))
    && (forall i :: 0 <= i < |w.trace| ==>
          && w.trace[i].run <= w.runs
          && (w.e.run.Some? && w.trace[i].run == w.runs ==> w.trace[i].d.rung in w.e.run.value.fired))
    && (forall i, j :: 0 <= i < j < |w.trace| ==>
          || w.trace[i].run < w.trace[j].run
          || (w.trace[i].run == w.trace[j].run && w.trace[i].d.rung < w.trace[j].d.rung))
    && (forall a :: a in w.e.pending ==> a.RelayVeto?)
  }

  /** Later decisions of a run concern later rungs than all its earlier ones. */
  lemma PrefixGrows(c: Config, fired: set<int>, run: Run, now: int, fired': set<int>)
    requires Prefix(fired, |c.rungs|) && InOrder(c.rungs)
    requires forall r :: r in fired' <==> r in fired || (0 <= r && Due(c, run, now, r))
    ensures Prefix(fired', |c.rungs|)
    ensures forall r, s :: r in fired && s in fired' && s !in fired ==> r < s
  {
    var k: nat :| k <= |c.rungs| && fired == UpTo(k);
    var m := DueIsPrefix(c, run, now, |c.rungs|);
    var top := if k < m then m else k;
    assert fired' == UpTo(top);
  }

  lemma LogsKeepOrder(c: Config, w: World, e': Engine, ds: seq<Decision>)
    requires Decided(c, w) && w.e.run.Some? && e'.run.Some? && Prefix(e'.run.value.fired, |c.rungs|)
    requires w.e.run.value.fired <= e'.run.value.fired && e'.pending == []
    requires forall x :: 0 <= x < |ds| ==> ds[x].rung in e'.run.value.fired && ds[x].rung !in w.e.run.value.fired
    requires forall x, y :: 0 <= x < y < |ds| ==> ds[x].rung < ds[y].rung
    requires forall r, s :: r in w.e.run.value.fired && s in e'.run.value.fired && s !in w.e.run.value.fired ==> r < s
    ensures Decided(c, World(e', w.runs, w.trace + Logs(w.runs, ds), w.last))
  {
  }

  lemma TickDecides(c: Config, w: World, now: int)
    requires Decided(c, w) && InOrder(c.rungs)
    ensures Decided(c, Next(c, w, Tick(now)))
  {
    var e := w.e.(pending := []);
    assert w.trace + [] == w.trace;
    if e.run.Some? {
      var open := DoDropClosed(Armed(e, now)).0;
      if open.run.Some? {
        var run := open.run.value;
        if forall i :: 0 <= i < |run.windows| ==> run.windows[i].delivered {
          var k: nat :| k <= |c.rungs| && run.fired == UpTo(k);
          assert run.fired + AllRungs(c) == UpTo(|c.rungs|);
        } else {
          var t := RungsFrom(c, open, 0, now, run.windows);
          RungsFired(c, open, 0, now, run.windows);
          PrefixGrows(c, run.fired, run, now, t.engine.run.value.fired);
          LogsKeepOrder(c, w, t.engine, t.decisions);
        }
      }
    }
  }

  lemma EventDecides(c: Config, w: World, ev: Event)
    requires Decided(c, w) && !ev.Tick?
    ensures Decided(c, Next(c, w, ev))
  {
    assert UpTo(0) == {};
  }

  lemma {:induction false} PlayDecides(c: Config, start: int, evs: seq<Event>)
    requires InOrder(c.rungs)
    ensures Decided(c, Play(c, start, evs))
  {
    if |evs| > 0 {
      PlayDecides(c, start, evs[..|evs| - 1]);
      var w, ev := Play(c, start, evs[..|evs| - 1]), evs[|evs| - 1];
      if ev.Tick? {
        TickDecides(c, w, ev.now);
      } else {
        EventDecides(c, w, ev);
      }
    }
  }

  /**
   * One storm climbs one ladder: in every state the rungs a run has decided are
   * a prefix of the sorted list, and no run ever decides a rung twice.
   */
  lemma EachRungOnce(rungs: seq<Rung>, limits: Limits, costs: Costs, start: int, evs: seq<Event>)
    ensures var c := Config(Sorted(rungs), limits, costs);
            var w := Play(c, start, evs);
            && (w.e.run.Some? ==> Prefix(w.e.run.value.fired, |rungs|))
            && forall i, j :: 0 <= i < |w.trace| && 0 <= j < |w.trace| && i != j ==>
                 w.trace[i].run != w.trace[j].run || w.trace[i].d.rung != w.trace[j].d.rung
  {
    var c := Config(Sorted(rungs), limits, costs);
    SortedInOrder(rungs);
    SortedContents(rungs);
    PlayDecides(c, start, evs);
  }

  // ---- what a tick sends ------------------------------------------------------------------------------

  /** The alert names exactly the open windows, at least one, with their earliest deadline. */
  predicate Covers(a: Alert, open: seq<Window>) {
    && |open| > 0 && a.windowIds == Ids(open)
    && (forall i :: 0 <= i < |open| ==> a.deadlineMs <= open[i].deadlineMs)
    && (exists i :: 0 <= i < |open| && a.deadlineMs == open[i].deadlineMs)
  }

  lemma {:induction false} RungsSend(c: Config, e: Engine, i: nat, now: int, open: seq<Window>)
    requires e.run.Some? && |open| > 0
    ensures forall a :: a in RungsFrom(c, e, i, now, open).actions && a.Send? ==> Covers(a.alert, open)
    ensures forall a :: a in RungsFrom(c, e, i, now, open).actions ==> !a.RelayVeto?
    decreases |c.rungs| - i
  {
    if i < |c.rungs| {
      if i in e.run.value.fired || now - e.run.value.startedAtMs < c.rungs[i].afterMs {
        RungsSend(c, e, i + 1, now, open);
      } else {
        var (e1, sent) := Admitted(c, e, c.rungs[i].channel, now);
        var e2 := e1.(run := Some(e1.run.value.(fired := e1.run.value.fired + {i as int})));
        RungsSend(c, e2, i + 1, now, open);
      }
    }
  }

  lemma OpenTickCovers(c: Config, e: Engine, now: int)
    requires e.run.Some? && |e.run.value.windows| > 0
    ensures var actions := DoTickOpen(c, e, now).actions;
            && (forall a :: a in actions && a.Send? ==> Covers(a.alert, e.run.value.windows))
            && forall a :: a in actions ==> !a.RelayVeto?
  {
    RungsSend(c, e, 0, now, e.run.value.windows);
  }

  /** A tick relays what was pending, then stands down and sends. */
  lemma TickCovers(c: Config, e: Engine, now: int)
    ensures var actions := DoTick(c, e, now).actions;
            && |e.pending| <= |actions| && actions[..|e.pending|] == e.pending
            && (forall a :: a in actions[|e.pending|..] ==> !a.RelayVeto?)
            && forall a :: a in actions[|e.pending|..] && a.Send? ==>
                 e.run.Some? && Covers(a.alert, Closed(e.run.value.windows, false))
  {
    hide DoTickOpen, Covers;
    if e.run.Some? {
      var (open, gone) := DoDropClosed(Armed(e.(pending := []), now));
      if open.run.Some? {
        OpenTickCovers(c, open, now);
        var more := DoTickOpen(c, open, now).actions;
        assert e.pending + gone + more == e.pending + (gone + more);
      }
    }
  }

  /**
   * Queued vetoes come first, whatever the tick sends; and every send covers
   * exactly the open windows of the run, with their minimum deadline.
   */
  lemma TickSendsCover(c: Config, start: int, evs: seq<Event>, now: int)
    requires InOrder(c.rungs)
    ensures var e := Play(c, start, evs).e;
            var actions := DoTick(c, e, now).actions;
            && |e.pending| <= |actions| && actions[..|e.pending|] == e.pending
            && (forall i :: |e.pending| <= i < |actions| ==> !actions[i].RelayVeto?)
            && forall a :: a in actions && a.Send? ==>
                 e.run.Some? && Covers(a.alert, Closed(e.run.value.windows, false))
  {
    hide DoTick, Covers;
    PlayDecides(c, start, evs);
    TickCovers(c, Play(c, start, evs).e, now);
    var e := Play(c, start, evs).e;
    assert DoTick(c, e, now).actions == e.pending + DoTick(c, e, now).actions[|e.pending|..];
  }

  lemma {:induction false} ClosedSelects(ws: seq<Window>, closed: bool, w: Window)
    ensures w in Closed(ws, closed) <==> w in ws && w.closed == closed
  {
    if |ws| > 0 {
      ClosedSelects(ws[..|ws| - 1], closed, w);
      assert ws == ws[..|ws| - 1] + [ws[|ws| - 1]];
    }
  }

  lemma {:induction false} ChosenSelects(ids: seq<string>, wanted: seq<string>, id: string)
    ensures id in Chosen(ids, wanted) <==> id in ids && (|wanted| == 0 || id in wanted)
  {
    if |ids| > 0 {
      ChosenSelects(ids[..|ids| - 1], wanted, id);
      assert ids == ids[..|ids| - 1] + [ids[|ids| - 1]];
    }
  }

  /** A channel's veto is relayed for exactly the open windows it names, or all of them. */
  lemma VetoRelaysOpenWindows(e: Engine, wanted: seq<string>, via: Channel, attribution: string, id: string)
    ensures var queued := DoVeto(e, wanted, via, attribution).pending;
            (&& e.run.Some? && (exists w :: w in e.run.value.windows && !w.closed && w.id == id)
             && (|wanted| == 0 || id in wanted))
            <==> |queued| == |e.pending| + 1 && queued[..|e.pending|] == e.pending
                 && queued[|e.pending|].RelayVeto? && id in queued[|e.pending|].windowIds
  {
    if e.run.Some? {
      var open := Closed(e.run.value.windows, false);
      ChosenSelects(Ids(open), wanted, id);
      if w :| w in e.run.value.windows && !w.closed && w.id == id {
        ClosedSelects(e.run.value.windows, false, w);
        var i :| 0 <= i < |open| && open[i] == w;
        assert Ids(open)[i] == id;
      }
      if id in Ids(open) {
        var i :| 0 <= i < |open| && Ids(open)[i] == id;
        ClosedSelects(e.run.value.windows, false, open[i]);
      }
    }
  }
}
