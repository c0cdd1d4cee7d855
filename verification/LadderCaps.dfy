/**
 * How far the ladder's rate ceilings reach: the loop compares the number of
 * sends with the cap before it sends, so a cap that is not a whole number
 * lets one more through than it allows.
 */
module LadderCaps {
  import opened Wrappers
  import opened Ladder
  import opened LadderTheorems
  import opened LadderSends

  predicate Whole(cap: real) {
    cap == cap.Floor as real
  }

  /** Every stretch shorter than the horizon holds at most `cap` sends. */
  predicate WithinCap(s: seq<int>, horizon: int, cap: real) {
    forall i, j :: 0 <= i <= j < |s| && s[j] - s[i] < horizon ==> (j - i + 1) as real <= cap
  }

  function CapOf(l: Limits, ch: Channel): real {
    if ch.Voice? then l.maxVoiceCallsPer10Min else l.maxSmsPerHour
  }

  /** Whatever the rungs, the costs and the events, no horizon ever holds more sends than the cap. */
  ghost predicate NeverOver(l: Limits, ch: Channel) {
    forall rungs: seq<Rung>, costs: Costs, start: int, evs: seq<Event> ::
      RungsOk(rungs) && Chronological(start, evs) ==>
        WithinCap(SendTimes(Returned(Config(Sorted(rungs), l, costs), start, evs), ch), Horizon(ch), CapOf(l, ch))
  }

  // ---- a burst of storms, one send each ------------------------------------------------------

  const Storm: seq<Event> := [Opened("w", "", 0), Tick(0), Closing("w"), Tick(0)]

  function Burst(n: nat): seq<Event> {
    if n == 0 then [] else Burst(n - 1) + Storm
  }

  /** One rung of this channel, due at once, free of charge. */
  function OneRung(l: Limits, ch: Channel): Config {
    Config(Sorted([Rung(0, ch)]), l, Costs(0.0, 0.0, 0.0, 0.0))
  }

  function Zeros(n: nat): (r: seq<int>)
    ensures |r| == n && forall i :: 0 <= i < n ==> r[i] == 0
  {
    seq(n, _ => 0)
  }

  lemma {:induction false} BurstIsChronological(n: nat)
    ensures Chronological(0, Burst(n))
    ensures forall i :: 0 <= i < |Burst(n)| && Burst(n)[i].Tick? ==> Burst(n)[i].now == 0
  {
    if n > 0 {
      BurstIsChronological(n - 1);
    }
  }

  lemma {:induction false} AllRecent(s: seq<int>, now: int, horizon: int)
    requires forall i :: 0 <= i < |s| ==> now - s[i] < horizon
    ensures Recent(s, now, horizon) == s
  {
    if |s| > 0 {
      AllRecent(s[..|s| - 1], now, horizon);
      assert s == s[..|s| - 1] + [s[|s| - 1]];
    }
  }

  lemma {:induction false} PlayConcat(c: Config, start: int, a: seq<Event>, ev: Event)
    ensures Play(c, start, a + [ev]) == Next(c, Play(c, start, a), ev)
  {
    assert (a + [ev])[..|a|] == a;
  }

  lemma OneRungSorted(l: Limits, ch: Channel)
    ensures OneRung(l, ch).rungs == [Rung(0, ch)]
  {
    SortIsStable([Rung(0, ch)]);
    assert |Sorted([Rung(0, ch)])| == 1 by {
      SortedContents([Rung(0, ch)]);
    }
    assert multiset(Sorted([Rung(0, ch)])) == multiset{Rung(0, ch)};
    assert Sorted([Rung(0, ch)])[0] in multiset(Sorted([Rung(0, ch)]));
  }

  /** After n storms: no run, n sends at time zero, nothing spent, nothing queued. */
  ghost predicate Quiet(w: World, ch: Channel, n: nat) {
    && w.e.run == None && w.e.pending == [] && w.last == 0
    && Sends(w.e, ch) == Zeros(n) && w.e.spend.usd == 0.0
    && SentTimes(w.trace, ch) == Zeros(n)
  }

  const Waiting: Window := Window("w", "", 0, false, false)

  predicate Sent(ch: Channel, d: Decision) {
    d == Decision(0, 0, ch, true)
  }

  /** The one rung is due at once and affordable, so it is sent. */
  lemma RungSends(l: Limits, ch: Channel, e: Engine, n: nat)
    requires Limited(ch) && LimitsOk(l) && n as real < CapOf(l, ch)
    requires e.run == Some(Run(0, {}, [Waiting])) && Sends(e, ch) == Zeros(n) && e.spend.usd == 0.0
    ensures var t := RungsFrom(OneRung(l, ch), e, 0, 0, [Waiting]);
            && t.engine.run == Some(Run(0, {0}, [Waiting])) && t.engine.pending == e.pending
            && Sends(t.engine, ch) == Zeros(n + 1) && t.engine.spend.usd == 0.0
            && |t.decisions| == 1 && Sent(ch, t.decisions[0])
  {
    var c := OneRung(l, ch);
    OneRungSorted(l, ch);
    AllRecent(Zeros(n), 0, Horizon(ch));
    var (e1, sent) := Admitted(c, e, ch, 0);
    AdmittedSends(c, e, ch, 0, ch);
    assert sent && Sends(e1, ch) == Zeros(n) + [0] == Zeros(n + 1);
    var e2 := e1.(run := Some(e1.run.value.(fired := e1.run.value.fired + {0})));
    assert RungsFrom(c, e2, 1, 0, [Waiting]) == Ticked(e2, [], []);
    assert {} + {0} == {0};
  }

  lemma OneOpen(w: Window)
    requires !w.closed
    ensures Closed([w], false) == [w] && Closed([w], true) == []
  {
    assert [w][..0] == [];
  }

  lemma NothingCloses(e: Engine, w: Window)
    requires e.run.Some? && e.run.value.windows == [w] && !w.closed
    ensures DoDropClosed(e) == (e, [])
  {
    OneOpen(w);
  }

  /** A first tick over one open, undelivered window climbs from rung zero. */
  lemma FirstTickClimbs(c: Config, e: Engine, w: Window, armed: Engine)
    requires e.run == Some(Run(-1, {}, [w])) && e.pending == [] && !w.closed && !w.delivered
    requires armed == e.(run := Some(Run(0, {}, [w])))
    ensures var t := RungsFrom(c, armed, 0, 0, [w]);
            DoTick(c, e, 0).engine == t.engine && DoTick(c, e, 0).decisions == t.decisions
  {
    assert Armed(e.(pending := []), 0) == armed;
    NothingCloses(armed, w);
    assert !armed.run.value.windows[0].delivered;
    assert DoTickOpen(c, armed, 0) == RungsFrom(c, armed, 0, 0, [w]);
  }

  /** The storm's first tick sends. */
  lemma StormSends(l: Limits, ch: Channel, w: World, n: nat)
    requires Limited(ch) && LimitsOk(l) && Quiet(w, ch, n) && n as real < CapOf(l, ch)
    ensures var c := OneRung(l, ch);
            var w2 := Next(c, Next(c, w, Opened("w", "", 0)), Tick(0));
            && w2.e.run == Some(Run(0, {0}, [Waiting]))
            && w2.e.pending == [] && w2.last == 0 && w2.e.spend.usd == 0.0
            && Sends(w2.e, ch) == Zeros(n + 1)
            && SentTimes(w2.trace, ch) == Zeros(n + 1)
  {
    hide DoTick;
    var c := OneRung(l, ch);
    var w1 := Next(c, w, Opened("w", "", 0));
    var armed := w1.e.(run := Some(Run(0, {}, [Waiting])));
    FirstTickClimbs(c, w1.e, Waiting, armed);
    RungSends(l, ch, armed, n);
    var ds := DoTick(c, w1.e, 0).decisions;
    assert w.trace + Logs(w1.runs, ds) == w.trace + [Logged(w1.runs, ds[0])];
    SentTimesAppend(w.trace, Logged(w1.runs, ds[0]), ch);
    assert Zeros(n) + [0] == Zeros(n + 1);
  }

  /** Closing the window and ticking again ends the run. */
  lemma StormEnds(c: Config, w: World)
    requires w.e.run == Some(Run(0, {0}, [Waiting])) && w.e.pending == []
    ensures var w' := Next(c, Next(c, w, Closing("w")), Tick(0));
            w'.e == w.e.(run := None) && w'.last == 0 && w'.trace == w.trace
  {
    var shut := Window("w", "", 0, false, true);
    var w1 := Next(c, w, Closing("w"));
    assert w1.e.run.value.windows == [shut];
    assert Closed([shut], false) == [] && Closed([shut], true) == [shut] by {
      assert [shut][..0] == [];
    }
    assert w.trace + [] == w.trace;
  }

  lemma PlayStorm(c: Config, a: seq<Event>)
    ensures Play(c, 0, a + Storm)
            == Next(c, Next(c, Next(c, Next(c, Play(c, 0, a), Opened("w", "", 0)), Tick(0)), Closing("w")), Tick(0))
  {
    hide Next;
    var (s0, s1, s2, s3) := (Opened("w", "", 0), Tick(0), Closing("w"), Tick(0));
    PlayConcat(c, 0, a, s0);
    PlayConcat(c, 0, a + [s0], s1);
    PlayConcat(c, 0, a + [s0] + [s1], s2);
    PlayConcat(c, 0, a + [s0] + [s1] + [s2], s3);
    assert a + Storm == a + [s0] + [s1] + [s2] + [s3];
  }

  lemma {:induction false} BurstSends(l: Limits, ch: Channel, n: nat)
    requires Limited(ch) && LimitsOk(l) && (n == 0 || (n - 1) as real < CapOf(l, ch))
    ensures Quiet(Play(OneRung(l, ch), 0, Burst(n)), ch, n)
  {
    if n > 0 {
      var c := OneRung(l, ch);
      BurstSends(l, ch, n - 1);
      var w := Play(c, 0, Burst(n - 1));
      StormSends(l, ch, w, n - 1);
      StormEnds(c, Next(c, Next(c, w, Opened("w", "", 0)), Tick(0)));
      PlayStorm(c, Burst(n - 1));
    }
  }

  /**
   * The bound is reached: any number of sends up to the cap rounded up can
   * fall on one instant, under every limits record.
   */
  lemma RoundedUpCapIsReached(l: Limits, ch: Channel, n: nat)
    requires Limited(ch) && LimitsOk(l) && (n == 0 || (n - 1) as real < CapOf(l, ch))
    ensures Chronological(0, Burst(n))
    ensures SendTimes(Returned(OneRung(l, ch), 0, Burst(n)), ch) == Zeros(n)
  {
    BurstIsChronological(n);
    BurstSends(l, ch, n);
    PlaySends(OneRung(l, ch), 0, Burst(n), ch, 0);
  }

  /** A cap of two and a half calls in ten minutes admits three. */
  lemma ThreeCallsUnderTwoAndAHalf(l: Limits)
    requires LimitsOk(l) && l.maxVoiceCallsPer10Min == 2.5
    ensures Chronological(0, Burst(3))
    ensures SendTimes(Returned(OneRung(l, Voice), 0, Burst(3)), Voice) == [0, 0, 0]
  {
    RoundedUpCapIsReached(l, Voice, 3);
    assert Zeros(3) == [0, 0, 0];
  }

  /** The cap bounds every horizon, whatever happens, if and only if it is a whole number. */
  lemma CapHoldsExactlyWhenWhole(l: Limits, ch: Channel)
    requires Limited(ch) && LimitsOk(l)
    ensures NeverOver(l, ch) <==> Whole(CapOf(l, ch))
  {
    var cap := CapOf(l, ch);
    if Whole(cap) {
      forall rungs: seq<Rung>, costs: Costs, start: int, evs: seq<Event> |
        RungsOk(rungs) && Chronological(start, evs)
        ensures WithinCap(SendTimes(Returned(Config(Sorted(rungs), l, costs), start, evs), ch), Horizon(ch), cap)
      {
        var c := Config(Sorted(rungs), l, costs);
        CeilingsHold(c, start, evs);
        WholeCeiling(SendTimes(Returned(c, start, evs), ch), Horizon(ch), cap);
      }
    } else {
      var n := cap.Floor + 1;
      RoundedUpCapIsReached(l, ch, n);
      var s := Zeros(n);
      assert s[n - 1] - s[0] < Horizon(ch);
      assert !WithinCap(s, Horizon(ch), cap);
      assert RungsOk([Rung(0, ch)]);
    }
  }

  lemma WholeCeiling(s: seq<int>, horizon: int, cap: real)
    requires Ceiling(s, horizon, cap) && Whole(cap) && cap >= 0.0
    ensures WithinCap(s, horizon, cap)
  {
    forall i, j | 0 <= i <= j < |s| && s[j] - s[i] < horizon
      ensures (j - i + 1) as real <= cap
    {
      WholeCapIsExact(s, horizon, cap.Floor, i, j);
    }
  }
}
