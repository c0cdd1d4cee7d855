/**
 * What the ladder really does to the outside: the actions its ticks return.
 * The ceilings bind the sends among them, and a rung is stood down only when
 * sending it would have broken one.
 */
module LadderSends {
  import opened Wrappers
  import opened Ladder
  import opened LadderTheorems

  /** An action, and the tick that returned it. */
  datatype Act = Act(at: int, action: Action)

  function Stamped(now: int, actions: seq<Action>): (r: seq<Act>)
    ensures |r| == |actions| && forall i :: 0 <= i < |r| ==> r[i] == Act(now, actions[i])
  {
    seq(|actions|, i requires 0 <= i < |actions| => Act(now, actions[i]))
  }

  /** Everything tick() returned over these events, in order. */
  function Returned(c: Config, start: int, evs: seq<Event>): seq<Act> {
    if |evs| == 0 then []
    else
      var front, ev := evs[..|evs| - 1], evs[|evs| - 1];
      Returned(c, start, front)
      + if ev.Tick? then Stamped(ev.now, DoTick(c, Play(c, start, front).e, ev.now).actions) else []
  }

  predicate SentOn(a: Act, ch: Channel) {
    a.action.Send? && a.action.channel == ch
  }

  /** When the sends on this channel were returned. */
  function SendTimes(acts: seq<Act>, ch: Channel): seq<int> {
    if |acts| == 0 then []
    else SendTimes(acts[..|acts| - 1], ch) + if SentOn(acts[|acts| - 1], ch) then [acts[|acts| - 1].at] else []
  }

  /** What the sends returned on this day cost. */
  function SpentOn(c: Config, acts: seq<Act>, day: int): real {
    if |acts| == 0 then 0.0
    else
      var a := acts[|acts| - 1];
      SpentOn(c, acts[..|acts| - 1], day)
      + if a.action.Send? && Day(a.at) == day then CostOf(c.costs, a.action.channel) else 0.0
  }

  lemma {:induction false} SendTimesConcat(a: seq<Act>, b: seq<Act>, ch: Channel)
    ensures SendTimes(a + b, ch) == SendTimes(a, ch) + SendTimes(b, ch)
  {
    if |b| == 0 {
      assert a + b == a;
    } else {
      SendTimesConcat(a, b[..|b| - 1], ch);
      assert (a + b)[..|a + b| - 1] == a + b[..|b| - 1];
    }
  }

  lemma {:induction false} SpentConcat(c: Config, a: seq<Act>, b: seq<Act>, day: int)
    ensures SpentOn(c, a + b, day) == SpentOn(c, a, day) + SpentOn(c, b, day)
  {
    if |b| == 0 {
      assert a + b == a;
    } else {
      SpentConcat(c, a, b[..|b| - 1], day);
      assert (a + b)[..|a + b| - 1] == a + b[..|b| - 1];
    }
  }

  lemma {:induction false} SentTimesConcat(a: seq<Logged>, b: seq<Logged>, ch: Channel)
    ensures SentTimes(a + b, ch) == SentTimes(a, ch) + SentTimes(b, ch)
  {
    if |b| == 0 {
      assert a + b == a;
    } else {
      SentTimesConcat(a, b[..|b| - 1], ch);
      assert (a + b)[..|a + b| - 1] == a + b[..|b| - 1];
    }
  }

  lemma {:induction false} DayTotalConcat(c: Config, a: seq<Logged>, b: seq<Logged>, day: int)
    ensures DayTotal(c, a + b, day) == DayTotal(c, a, day) + DayTotal(c, b, day)
  {
    if |b| == 0 {
      assert a + b == a;
    } else {
      DayTotalConcat(c, a, b[..|b| - 1], day);
      assert (a + b)[..|a + b| - 1] == a + b[..|b| - 1];
    }
  }

  // ---- one action a decision -----------------------------------------------------------------------

  /** A sent rung is a send of its channel over the open windows; any other is one cap-hit stand-down of them. */
  predicate ActionOf(c: Config, d: Decision, a: Action, now: int, open: seq<Window>) {
    && d.at == now && 0 <= d.rung < |c.rungs| && d.channel == c.rungs[d.rung].channel
    && if d.sent then a.Send? && a.channel == d.channel && Covers(a.alert, open)
       else a == StandDown(Ids(open), CapHit)
  }

  predicate Paired(c: Config, ds: seq<Decision>, actions: seq<Action>, now: int, open: seq<Window>) {
    |ds| == |actions| && forall x :: 0 <= x < |ds| ==> ActionOf(c, ds[x], actions[x], now, open)
  }

  lemma PairedCons(
    c: Config, d: Decision, ds: seq<Decision>, a: Action, actions: seq<Action>, now: int, open: seq<Window>)
    requires ActionOf(c, d, a, now, open) && Paired(c, ds, actions, now, open)
    ensures Paired(c, [d] + ds, [a] + actions, now, open)
  {
  }

  lemma {:induction false} RungsPaired(c: Config, e: Engine, i: nat, now: int, open: seq<Window>)
    requires e.run.Some? && |open| > 0
    ensures var t := RungsFrom(c, e, i, now, open); Paired(c, t.decisions, t.actions, now, open)
    decreases |c.rungs| - i
  {
    if i < |c.rungs| {
      if i in e.run.value.fired || now - e.run.value.startedAtMs < c.rungs[i].afterMs {
        RungsPaired(c, e, i + 1, now, open);
      } else {
        var (e1, sent) := Admitted(c, e, c.rungs[i].channel, now);
        var e2 := e1.(run := Some(e1.run.value.(fired := e1.run.value.fired + {i as int})));
        var rest := RungsFrom(c, e2, i + 1, now, open);
        RungsPaired(c, e2, i + 1, now, open);
        var t := RungsFrom(c, e, i, now, open);
        PairedCons(c, t.decisions[0], rest.decisions, t.actions[0], rest.actions, now, open);
      }
    }
  }

  predicate Decides(ds: seq<Decision>, r: int) {
    exists x :: 0 <= x < |ds| && ds[x].rung == r
  }

  lemma DecidesCons(d: Decision, ds: seq<Decision>, r: int)
    ensures Decides([d] + ds, r) <==> d.rung == r || Decides(ds, r)
  {
    if d.rung == r {
      assert ([d] + ds)[0].rung == r;
    }
    if x :| 0 <= x < |ds| && ds[x].rung == r {
      assert ([d] + ds)[x + 1].rung == r;
    }
    if x :| 0 <= x < |[d] + ds| && ([d] + ds)[x].rung == r && d.rung != r {
      assert ds[x - 1].rung == r;
    }
  }

  /** The loop decides every due rung it has not decided before, and no other. */
  lemma {:induction false} RungsDecided(c: Config, e: Engine, i: nat, now: int, open: seq<Window>, r: int)
    requires e.run.Some? && |open| > 0
    ensures Decides(RungsFrom(c, e, i, now, open).decisions, r)
            <==> i <= r && Due(c, e.run.value, now, r) && r !in e.run.value.fired
    decreases |c.rungs| - i
  {
    if i < |c.rungs| {
      if i in e.run.value.fired || now - e.run.value.startedAtMs < c.rungs[i].afterMs {
        RungsDecided(c, e, i + 1, now, open, r);
        assert RungsFrom(c, e, i, now, open) == RungsFrom(c, e, i + 1, now, open);
      } else {
        var (e1, sent) := Admitted(c, e, c.rungs[i].channel, now);
        var e2 := e1.(run := Some(e1.run.value.(fired := e1.run.value.fired + {i as int})));
        var rest := RungsFrom(c, e2, i + 1, now, open).decisions;
        RungsDecided(c, e2, i + 1, now, open, r);
        var d := Decision(now, i, c.rungs[i].channel, sent);
        assert RungsFrom(c, e, i, now, open).decisions == [d] + rest;
        DecidesCons(d, rest, r);
      }
    }
  }

  // ---- a whole tick ----------------------------------------------------------------------------------

  predicate Confirmed(open: seq<Window>) {
    forall i :: 0 <= i < |open| ==> open[i].delivered
  }

  predicate SendsNothing(actions: seq<Action>) {
    forall i :: 0 <= i < |actions| ==> !actions[i].Send?
  }

  /** When the run's clock started, were this tick to arm it. */
  function StartOf(run: Run, now: int): int {
    if run.startedAtMs == -1 then now else run.startedAtMs
  }

  /** Does this tick climb: is some window open, and not all of them confirmed? */
  predicate Climbs(e: Engine) {
    e.run.Some? && var open := Closed(e.run.value.windows, false); |open| > 0 && !Confirmed(open)
  }

  /**
   * A tick that climbs decides exactly the due, undecided rungs, in order, and
   * ends in one action for each: a send where it was sent, a cap-hit
   * stand-down where it was not. No other action, of this or any tick, sends.
   */
  lemma TickIsExact(c: Config, e: Engine, now: int) returns (k: nat)
    ensures var t := DoTick(c, e, now);
            && k <= |t.actions| && |e.pending| <= k && t.actions[..|e.pending|] == e.pending
            && SendsNothing(t.actions[|e.pending|..k])
            && if Climbs(e) then
                 var run := e.run.value;
                 && Paired(c, t.decisions, t.actions[k..], now, Closed(run.windows, false))
                 && (forall x, y :: 0 <= x < y < |t.decisions| ==> t.decisions[x].rung < t.decisions[y].rung)
                 && (forall r :: Decides(t.decisions, r)
                       <==> && 0 <= r < |c.rungs| && r !in run.fired
                            && now - StartOf(run, now) >= c.rungs[r].afterMs)
               else k == |t.actions| && t.decisions == []
  {
    hide RungsFrom, Paired;
    var t := DoTick(c, e, now);
    k := |t.actions|;
    if e.run.Some? {
      var (open, gone) := DoDropClosed(Armed(e.(pending := []), now));
      if open.run.Some? {
        var windows := open.run.value.windows;
        if !Confirmed(windows) {
          var r := RungsFrom(c, open, 0, now, windows);
          k := |e.pending| + |gone|;
          assert t.actions[k..] == r.actions;
          RungsPaired(c, open, 0, now, windows);
          RungsFired(c, open, 0, now, windows);
          forall rung
            ensures Decides(t.decisions, rung)
                    <==> 0 <= rung && Due(c, open.run.value, now, rung) && rung !in open.run.value.fired
          {
            RungsDecided(c, open, 0, now, windows, rung);
          }
        }
      }
    }
  }

  /** The run a tick leaves behind, if any, and what it announces before any rung. */
  ghost predicate Leaves(c: Config, run: Run, now: int, after: Option<Run>, announced: seq<Action>) {
    var open, closed := Closed(run.windows, false), Closed(run.windows, true);
    var all := forall r :: 0 <= r < |c.rungs| ==> r in run.fired;
    && announced == (if |closed| > 0 then [StandDown(Ids(closed), WindowClosed)] else [])
                    + (if |open| > 0 && Confirmed(open) && !all then [StandDown(Ids(open), Reason.Confirmed)] else [])
    && (after.Some? <==> |open| > 0)
    && (after.Some? ==>
          && after.value.windows == open && after.value.startedAtMs == StartOf(run, now)
          && forall r :: r in after.value.fired
               <==> || r in run.fired
                    || (0 <= r < |c.rungs| && (Confirmed(open) || now - StartOf(run, now) >= c.rungs[r].afterMs)))
  }

  /**
   * A tick drops the closed windows, announcing them once, and ends the run
   * with the last of them; once all that are left are confirmed it stands down
   * and the rungs that remain are never climbed.
   */
  lemma TickLeaves(c: Config, e: Engine, now: int)
    requires e.run.Some?
    ensures var t := DoTick(c, e, now);
            exists k: nat :: |e.pending| <= k <= |t.actions|
              && Leaves(c, e.run.value, now, t.engine.run, t.actions[|e.pending|..k])
              && (forall i :: k <= i < |t.actions|
                    ==> t.actions[i].Send? || (t.actions[i].StandDown? && t.actions[i].reason == CapHit))
  {
    hide RungsFrom;
    var t := DoTick(c, e, now);
    var k := |t.actions|;
    var (open, gone) := DoDropClosed(Armed(e.(pending := []), now));
    if open.run.Some? {
      var windows := open.run.value.windows;
      if Confirmed(windows) {
        AllRungsIn(c, e.run.value.fired);
      } else {
        k := |e.pending| + |gone|;
        RungsFired(c, open, 0, now, windows);
        RungsPaired(c, open, 0, now, windows);
      }
    }
    assert Leaves(c, e.run.value, now, t.engine.run, t.actions[|e.pending|..k]);
  }

  lemma AllRungsIn(c: Config, fired: set<int>)
    ensures AllRungs(c) <= fired <==> forall r :: 0 <= r < |c.rungs| ==> r in fired
  {
  }

  // ---- the sends returned are the decisions to send ----------------------------------------------------

  lemma {:induction false} SilentActs(acts: seq<Act>, ch: Channel, c: Config, day: int)
    requires forall i :: 0 <= i < |acts| ==> !acts[i].action.Send?
    ensures SendTimes(acts, ch) == [] && SpentOn(c, acts, day) == 0.0
  {
    if |acts| > 0 {
      SilentActs(acts[..|acts| - 1], ch, c, day);
    }
  }

  lemma {:induction false} PairedSends(
    c: Config, ds: seq<Decision>, actions: seq<Action>, now: int, open: seq<Window>, run: nat, ch: Channel, day: int)
    requires Paired(c, ds, actions, now, open)
    ensures SendTimes(Stamped(now, actions), ch) == SentTimes(Logs(run, ds), ch)
    ensures SpentOn(c, Stamped(now, actions), day) == DayTotal(c, Logs(run, ds), day)
  {
    if |ds| > 0 {
      var n := |ds| - 1;
      PairedSends(c, ds[..n], actions[..n], now, open, run, ch, day);
      assert Stamped(now, actions)[..n] == Stamped(now, actions[..n]);
      assert Logs(run, ds)[..n] == Logs(run, ds[..n]);
      assert ActionOf(c, ds[n], actions[n], now, open);
    }
  }

  lemma NothingSent(c: Config, ch: Channel, day: int)
    ensures SendTimes([], ch) == SentTimes([], ch) && SpentOn(c, [], day) == DayTotal(c, [], day)
  {
  }

  lemma TickSends(c: Config, e: Engine, now: int, run: nat, ch: Channel, day: int)
    requires SendsNothing(e.pending)
    ensures var t := DoTick(c, e, now);
            && SendTimes(Stamped(now, t.actions), ch) == SentTimes(Logs(run, t.decisions), ch)
            && SpentOn(c, Stamped(now, t.actions), day) == DayTotal(c, Logs(run, t.decisions), day)
  {
    hide DoTick, SendTimes, SpentOn, SentTimes, DayTotal, Paired, Confirmed;
    var t := DoTick(c, e, now);
    var k := TickIsExact(c, e, now);
    var quiet, climb := t.actions[..k], t.actions[k..];
    assert t.actions == quiet + climb;
    assert Stamped(now, t.actions) == Stamped(now, quiet) + Stamped(now, climb);
    assert quiet == e.pending + t.actions[|e.pending|..k];
    SendTimesConcat(Stamped(now, quiet), Stamped(now, climb), ch);
    SpentConcat(c, Stamped(now, quiet), Stamped(now, climb), day);
    SilentActs(Stamped(now, quiet), ch, c, day);
    if Climbs(e) {
      PairedSends(c, t.decisions, climb, now, Closed(e.run.value.windows, false), run, ch, day);
    } else {
      assert climb == [] && Stamped(now, climb) == [] && Logs(run, t.decisions) == [];
      NothingSent(c, ch, day);
    }
  }

  lemma {:induction false} PendingRelays(c: Config, start: int, evs: seq<Event>)
    ensures SendsNothing(Play(c, start, evs).e.pending)
  {
    if |evs| > 0 {
      PendingRelays(c, start, evs[..|evs| - 1]);
      var w, ev := Play(c, start, evs[..|evs| - 1]), evs[|evs| - 1];
      if ev.Tick? {
        TickClearsPending(c, w.e, ev.now);
      }
    }
  }

  lemma TickClearsPending(c: Config, e: Engine, now: int)
    ensures DoTick(c, e, now).engine.pending == []
  {
    if e.run.Some? {
      var open := DoDropClosed(Armed(e.(pending := []), now)).0;
      if open.run.Some? {
        RungsFired(c, open, 0, now, open.run.value.windows);
      }
    }
  }

  lemma NothingPlayed(c: Config, start: int, ch: Channel, day: int)
    ensures SendTimes(Returned(c, start, []), ch) == SentTimes(Play(c, start, []).trace, ch)
    ensures SpentOn(c, Returned(c, start, []), day) == DayTotal(c, Play(c, start, []).trace, day)
  {
  }

  lemma {:induction false} PlaySends(c: Config, start: int, evs: seq<Event>, ch: Channel, day: int)
    ensures SendTimes(Returned(c, start, evs), ch) == SentTimes(Play(c, start, evs).trace, ch)
    ensures SpentOn(c, Returned(c, start, evs), day) == DayTotal(c, Play(c, start, evs).trace, day)
  {
    hide DoTick, SendTimes, SpentOn, SentTimes, DayTotal;
    if |evs| == 0 {
      NothingPlayed(c, start, ch, day);
    } else {
      var front, ev := evs[..|evs| - 1], evs[|evs| - 1];
      var w := Play(c, start, front);
      PlaySends(c, start, front, ch, day);
      if ev.Tick? {
        PendingRelays(c, start, front);
        TickSends(c, w.e, ev.now, w.runs, ch, day);
        var t := DoTick(c, w.e, ev.now);
        SendTimesConcat(Returned(c, start, front), Stamped(ev.now, t.actions), ch);
        SpentConcat(c, Returned(c, start, front), Stamped(ev.now, t.actions), day);
        SentTimesConcat(w.trace, Logs(w.runs, t.decisions), ch);
        DayTotalConcat(c, w.trace, Logs(w.runs, t.decisions), day);
      } else {
        OthersSendNothing(c, w, ev);
        assert Returned(c, start, front) + [] == Returned(c, start, front);
      }
    }
  }

  /**
   * The ceilings, over any events and any number of runs, on the sends that
   * ticks return: no stretch under ten minutes holds more calls than the cap
   * (rounded up when it is fractional), likewise messages per hour, and what
   * is sent on a UTC day never costs more than its limit.
   */
  lemma CeilingsHold(c: Config, start: int, evs: seq<Event>)
    requires Chronological(start, evs) && LimitsOk(c.limits)
    ensures var acts := Returned(c, start, evs);
            && Ceiling(SendTimes(acts, Voice), 10 * 60_000, c.limits.maxVoiceCallsPer10Min)
            && Ceiling(SendTimes(acts, Sms), 60 * 60_000, c.limits.maxSmsPerHour)
            && Nondecreasing(SendTimes(acts, Voice)) && Nondecreasing(SendTimes(acts, Sms))
            && forall day :: SpentOn(c, acts, day) <= c.limits.maxDailySpendUsd
  {
    DecisionsWithinCeilings(c, start, evs);
    PlaySends(c, start, evs, Voice, 0);
    PlaySends(c, start, evs, Sms, 0);
    forall day
      ensures SpentOn(c, Returned(c, start, evs), day) <= c.limits.maxDailySpendUsd
    {
      PlaySends(c, start, evs, Voice, day);
    }
  }

  // ---- a rung is stood down only at a cap --------------------------------------------------------------

  /** How many of these sends lie inside the horizon at `now`. */
  function CountWithin(s: seq<int>, now: int, horizon: int): nat {
    if |s| == 0 then 0
    else CountWithin(s[..|s| - 1], now, horizon) + if now - s[|s| - 1] < horizon then 1 else 0
  }

  lemma {:induction false} CountsTail(s: seq<int>, k: nat, now: int, horizon: int)
    requires k <= |s|
    requires forall i :: 0 <= i < |s| ==> (now - s[i] < horizon <==> i >= k)
    ensures CountWithin(s, now, horizon) == |s| - k
  {
    if |s| > 0 {
      var n := |s| - 1;
      if k == |s| {
        CountsTail(s[..n], n, now, horizon);
      } else {
        CountsTail(s[..n], k, now, horizon);
      }
    }
  }

  lemma RecentCounts(all: seq<int>, recent: seq<int>, now: int, horizon: int)
    requires Nondecreasing(all) && exists k :: Tail(all, recent, k, now, horizon)
    ensures |Recent(recent, now, horizon)| == CountWithin(all, now, horizon)
  {
    var k := PrunedIsTail(all, recent, now, horizon);
    CountsTail(all, k, now, horizon);
  }

  /** After these decisions, is there room for one more send: in the day's money, and under the rate caps? */
  predicate Room(c: Config, trace: seq<Logged>, ch: Channel, now: int) {
    && DayTotal(c, trace, Day(now)) + CostOf(c.costs, ch) <= c.limits.maxDailySpendUsd
    && (ch.Voice? ==>
          CountWithin(SentTimes(trace, Voice), now, VOICE_HORIZON_MS) as real < c.limits.maxVoiceCallsPer10Min)
    && (ch.Sms? ==> CountWithin(SentTimes(trace, Sms), now, SMS_HORIZON_MS) as real < c.limits.maxSmsPerHour)
  }

  /** A send that fits the day's money is refused only by its own channel's cap. */
  lemma AdmitUnlimited(c: Config, e: Engine, ch: Channel, now: int)
    requires !Limited(ch)
    ensures Admitted(c, e, ch, now).1 <==> Affordable(c, e, ch, now)
  {
  }

  lemma AdmitIsExact(c: Config, e: Engine, trace: seq<Logged>, ch: Channel, now: int)
    requires Inv(c, e, trace, now) && LimitsOk(c.limits)
    ensures Admitted(c, e, ch, now).1 <==> Room(c, trace, ch, now)
  {
    hide Admitted, Tail, Ceiling, Nondecreasing;
    DayTurns(c, e, trace, now);
    if Limited(ch) {
      AdmittedSends(c, e, ch, now, ch);
      RecentCounts(SentTimes(trace, ch), Sends(e, ch), now, Horizon(ch));
    } else {
      AdmitUnlimited(c, e, ch, now);
    }
  }

  /** Each decision was to send exactly when those before it left room. */
  ghost predicate Exact(c: Config, trace: seq<Logged>) {
    forall i :: 0 <= i < |trace| ==>
      (trace[i].d.sent <==> Room(c, trace[..i], trace[i].d.channel, trace[i].d.at))
  }

  lemma ExactAppend(c: Config, trace: seq<Logged>, l: Logged)
    requires Exact(c, trace) && (l.d.sent <==> Room(c, trace, l.d.channel, l.d.at))
    ensures Exact(c, trace + [l])
  {
    forall i | 0 <= i <= |trace|
      ensures var t := trace + [l]; t[i].d.sent <==> Room(c, t[..i], t[i].d.channel, t[i].d.at)
    {
      assert (trace + [l])[..i] == trace[..i];
    }
  }

  lemma {:induction false} RungsExact(
    c: Config, e: Engine, i: nat, now: int, open: seq<Window>, trace: seq<Logged>, run: nat)
    requires Inv(c, e, trace, now) && LimitsOk(c.limits) && e.run.Some? && |open| > 0 && Exact(c, trace)
    ensures Exact(c, trace + Logs(run, RungsFrom(c, e, i, now, open).decisions))
    decreases |c.rungs| - i
  {
    hide Inv, Exact, Room;
    if i >= |c.rungs| {
      assert trace + Logs(run, []) == trace;
    } else if i in e.run.value.fired || now - e.run.value.startedAtMs < c.rungs[i].afterMs {
      RungsExact(c, e, i + 1, now, open, trace, run);
    } else {
      var (e1, sent) := Admitted(c, e, c.rungs[i].channel, now);
      var e2 := e1.(run := Some(e1.run.value.(fired := e1.run.value.fired + {i as int})));
      var d := Decision(now, i, c.rungs[i].channel, sent);
      AdmitIsExact(c, e, trace, c.rungs[i].channel, now);
      ExactAppend(c, trace, Logged(run, d));
      RungKeeps(c, e, i, now, trace, run);
      RungsExact(c, e2, i + 1, now, open, trace + [Logged(run, d)], run);
      LogsCons(trace, run, d, RungsFrom(c, e2, i + 1, now, open).decisions);
    }
  }

  lemma TickExact(c: Config, e: Engine, trace: seq<Logged>, run: nat, last: int, now: int)
    requires Inv(c, e, trace, last) && LimitsOk(c.limits) && last <= now && Exact(c, trace)
    ensures Exact(c, trace + Logs(run, DoTick(c, e, now).decisions))
  {
    hide Inv, Exact;
    InvLater(c, e, trace, last, now);
    var open, climbs := TickShape(c, e, now);
    if climbs {
      SameTotalsKeep(c, e, open, trace, now);
      RungsExact(c, open, 0, now, open.run.value.windows, trace, run);
    } else {
      assert trace + Logs(run, []) == trace;
    }
  }

  /**
   * Over any events a rung is sent exactly when the sends before it leave room
   * for it, in the day's money and under its channel's cap: none is stood
   * down without a ceiling to blame, and none passes one.
   */
  lemma {:induction false} StoodDownOnlyAtACap(c: Config, start: int, evs: seq<Event>)
    requires Chronological(start, evs) && LimitsOk(c.limits)
    ensures Exact(c, Play(c, start, evs).trace)
  {
    hide Inv, Room, DoTick;
    if |evs| > 0 {
      TicksComeLater(c, start, evs);
      var front, ev := evs[..|evs| - 1], evs[|evs| - 1];
      var w := Play(c, start, front);
      StoodDownOnlyAtACap(c, start, front);
      PlayKeepsInv(c, start, front);
      if ev.Tick? {
        TickExact(c, w.e, w.trace, w.runs, w.last, ev.now);
      } else {
        OthersSendNothing(c, w, ev);
      }
    }
  }
}
