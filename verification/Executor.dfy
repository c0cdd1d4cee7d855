/**
 * The executor's front door: two live answers around a burned nonce, under
 * every interleaving of concurrent runs.
 */
module Executor {
  import opened Wrappers

  datatype Ticket = Ticket(agentId: string, killEpoch: int, expiresAt: int, nonce: string)

  /** The live answer; `killedAgents` where the source carries the list. */
  datatype Live = Live(killed: bool, epoch: int, killedAgents: Option<seq<string>>)

  datatype Refusal = KillEngaged | EpochMismatch | TicketExpired | NonceConsumed

  /** A failed fetch never reads as "go". */
  const Unreachable: Live := Live(true, -1, None)

  function FetchLive(answer: Option<Live>): Live {
    match answer
    case Some(live) => live
    case None => Unreachable
  }

  function RefuseTicket(t: Ticket, live: Live, now: int, consumed: set<string>): Option<Refusal> {
    if live.killed then Some(KillEngaged)
    else if live.killedAgents.Some? && t.agentId in live.killedAgents.value then Some(KillEngaged)
    else if t.killEpoch != live.epoch then Some(EpochMismatch)
    else if now >= t.expiresAt then Some(TicketExpired)
    else if t.nonce in consumed then Some(NonceConsumed)
    else None
  }

  /** What a passing answer says about the world. */
  predicate Vouches(t: Ticket, live: Live, now: int) {
    && !live.killed && live.epoch == t.killEpoch && now < t.expiresAt
    && (live.killedAgents.Some? ==> t.agentId !in live.killedAgents.value)
  }

  lemma RefusalIsExact(t: Ticket, live: Live, now: int, consumed: set<string>)
    ensures RefuseTicket(t, live, now, consumed) == None <==> Vouches(t, live, now) && t.nonce !in consumed
    ensures RefuseTicket(t, live, now, consumed) == Some(NonceConsumed)
            <==> Vouches(t, live, now) && t.nonce in consumed
  {
  }

  // ---- runs, interleaved at their awaits -----------------------------------------------------

  /** A run waits for its first answer, then for its second, and is then over. */
  datatype Stage = First | Second | Over

  datatype Attempt = Attempt(ticket: Ticket, stage: Stage)

  /** What happened, in order. */
  datatype Fact =
    | Checked(run: int, stage: Stage, live: Live, now: int, passed: bool)
    | Dispatched(dispatchedRun: int, ticket: Ticket)

  datatype State = State(consumed: set<string>, attempts: map<int, Attempt>, history: seq<Fact>)

  datatype Event = Begin(run: int, ticket: Ticket) | Answer(to: int, answer: Option<Live>, now: int)

  function OnFirst(s: State, run: int, live: Live, now: int): State
    requires run in s.attempts
  {
    var t := s.attempts[run].ticket;
    var ok := RefuseTicket(t, live, now, s.consumed) == None;
    State(if ok then s.consumed + {t.nonce} else s.consumed,
          s.attempts[run := Attempt(t, if ok then Second else Over)],
          s.history + [Checked(run, First, live, now, ok)])
  }

  /** This attempt burned its own nonce, so the second check starts from an empty set. */
  function OnSecond(s: State, run: int, live: Live, now: int): State
    requires run in s.attempts
  {
    var t := s.attempts[run].ticket;
    var ok := RefuseTicket(t, live, now, {}) == None;
    State(s.consumed, s.attempts[run := Attempt(t, Over)],
          s.history + [Checked(run, Second, live, now, ok)] + if ok then [Dispatched(run, t)] else [])
  }

  function Next(s: State, ev: Event): State {
    match ev
    case Begin(run, ticket) =>
      if run in s.attempts then s else s.(attempts := s.attempts[run := Attempt(ticket, First)])
    case Answer(run, answer, now) =>
      if run !in s.attempts then s
      else
        match s.attempts[run].stage
        case First => OnFirst(s, run, FetchLive(answer), now)
        case Second => OnSecond(s, run, FetchLive(answer), now)
        case Over => s
  }

  const Start: State := State({}, map[], [])

  function Play(evs: seq<Event>): State {
    if |evs| == 0 then Start else Next(Play(evs[..|evs| - 1]), evs[|evs| - 1])
  }

  // ---- what every interleaving keeps ------------------------------------------------------------

  ghost predicate PassedFirst(h: seq<Fact>, k: int, i: int, run: int, t: Ticket) {
    && 0 <= k < i <= |h| && h[k].Checked? && h[k].run == run && h[k].stage.First? && h[k].passed
    && Vouches(t, h[k].live, h[k].now)
  }

  /** Two vouching answers of this very run, the second one right before the dispatch. */
  ghost predicate DispatchOk(h: seq<Fact>, i: int)
    requires 0 <= i < |h| && h[i].Dispatched?
  {
    && (exists k :: PassedFirst(h, k, i, h[i].dispatchedRun, h[i].ticket))
    && i >= 1 && h[i - 1].Checked? && h[i - 1].run == h[i].dispatchedRun && h[i - 1].stage.Second?
    && Vouches(h[i].ticket, h[i - 1].live, h[i - 1].now)
  }

  predicate InSecond(s: State, r: int) {
    r in s.attempts && s.attempts[r].stage.Second?
  }

  /** Runs that hold a burned nonce hold different ones; a dispatch belongs to a finished run. */
  ghost predicate Inv(s: State) {
    && (forall r :: InSecond(s, r) ==>
          s.attempts[r].ticket.nonce in s.consumed
          && exists k :: PassedFirst(s.history, k, |s.history|, r, s.attempts[r].ticket))
    && (forall r, q :: InSecond(s, r) && InSecond(s, q) && r != q ==>
          s.attempts[r].ticket.nonce != s.attempts[q].ticket.nonce)
    && (forall i :: 0 <= i < |s.history| && s.history[i].Dispatched? ==>
          && DispatchOk(s.history, i)
          && s.history[i].ticket.nonce in s.consumed
          && forall r :: InSecond(s, r) ==>
               s.attempts[r].ticket.nonce != s.history[i].ticket.nonce)
    && (forall i, j :: 0 <= i < j < |s.history| && s.history[i].Dispatched? && s.history[j].Dispatched? ==>
          s.history[i].ticket.nonce != s.history[j].ticket.nonce)
  }

  lemma GrownHistory(h: seq<Fact>, more: seq<Fact>)
    ensures forall k, i, r, t :: PassedFirst(h, k, i, r, t) ==> PassedFirst(h + more, k, i, r, t)
    ensures forall i :: 0 <= i < |h| && h[i].Dispatched? && DispatchOk(h, i) ==> DispatchOk(h + more, i)
  {
    forall i | 0 <= i < |h| && h[i].Dispatched? && DispatchOk(h, i)
      ensures DispatchOk(h + more, i)
    {
      var k :| PassedFirst(h, k, i, h[i].dispatchedRun, h[i].ticket);
      assert PassedFirst(h + more, k, i, h[i].dispatchedRun, h[i].ticket);
    }
  }

  lemma FirstKeepsInv(s: State, run: int, live: Live, now: int)
    requires Inv(s) && run in s.attempts && s.attempts[run].stage.First?
    ensures Inv(OnFirst(s, run, live, now))
  {
    var s' := OnFirst(s, run, live, now);
    var f := s'.history[|s.history|];
    GrownHistory(s.history, [f]);
    if f.passed {
      assert PassedFirst(s'.history, |s.history|, |s'.history|, run, s.attempts[run].ticket);
    }
    forall r | InSecond(s', r)
      ensures exists k :: PassedFirst(s'.history, k, |s'.history|, r, s'.attempts[r].ticket)
    {
      if r != run {
        var k :| PassedFirst(s.history, k, |s.history|, r, s.attempts[r].ticket);
        assert PassedFirst(s'.history, k, |s'.history|, r, s'.attempts[r].ticket);
      }
    }
  }

  /** The dispatch a passing second check appends, backed by the first. */
  lemma DispatchBacked(s: State, run: int, live: Live, now: int)
    requires Inv(s) && InSecond(s, run)
    ensures var s' := OnSecond(s, run, live, now);
            |s'.history| > |s.history| + 1 ==>
              s'.history[|s.history| + 1].Dispatched? && DispatchOk(s'.history, |s.history| + 1)
  {
    var s', t := OnSecond(s, run, live, now), s.attempts[run].ticket;
    var k :| PassedFirst(s.history, k, |s.history|, run, t);
    if |s'.history| > |s.history| + 1 {
      assert PassedFirst(s'.history, k, |s.history| + 1, run, t);
    }
  }

  lemma WaitersKeepFirst(s: State, s': State, more: seq<Fact>)
    requires Inv(s) && s'.history == s.history + more && s.consumed <= s'.consumed
    requires forall r :: InSecond(s', r) ==> InSecond(s, r) && s'.attempts[r].ticket == s.attempts[r].ticket
    ensures forall r :: InSecond(s', r) ==>
              && s'.attempts[r].ticket.nonce in s'.consumed
              && exists k :: PassedFirst(s'.history, k, |s'.history|, r, s'.attempts[r].ticket)
  {
    forall r | InSecond(s', r)
      ensures exists k :: PassedFirst(s'.history, k, |s'.history|, r, s'.attempts[r].ticket)
    {
      var k :| PassedFirst(s.history, k, |s.history|, r, s.attempts[r].ticket);
      assert PassedFirst(s'.history, k, |s'.history|, r, s'.attempts[r].ticket);
    }
  }

  lemma SecondKeepsInv(s: State, run: int, live: Live, now: int)
    requires Inv(s) && InSecond(s, run)
    ensures Inv(OnSecond(s, run, live, now))
  {
    hide RefuseTicket, DispatchOk;
    var s' := OnSecond(s, run, live, now);
    var more := s'.history[|s.history|..];
    assert s'.history == s.history + more;
    GrownHistory(s.history, more);
    DispatchBacked(s, run, live, now);
    WaitersKeepFirst(s, s', more);
  }

  lemma {:induction false} PlayKeepsInv(evs: seq<Event>)
    ensures Inv(Play(evs))
  {
    if |evs| > 0 {
      PlayKeepsInv(evs[..|evs| - 1]);
      var s, ev := Play(evs[..|evs| - 1]), evs[|evs| - 1];
      if ev.Answer? && ev.to in s.attempts {
        if s.attempts[ev.to].stage.First? {
          FirstKeepsInv(s, ev.to, FetchLive(ev.answer), ev.now);
        } else if s.attempts[ev.to].stage.Second? {
          SecondKeepsInv(s, ev.to, FetchLive(ev.answer), ev.now);
        }
      }
    }
  }

  /** Whatever runs concurrently, each nonce is dispatched at most once. */
  lemma DispatchedAtMostOnce(evs: seq<Event>, i: nat, j: nat)
    requires i < j < |Play(evs).history| && Play(evs).history[i].Dispatched? && Play(evs).history[j].Dispatched?
    ensures Play(evs).history[i].ticket.nonce != Play(evs).history[j].ticket.nonce
  {
    PlayKeepsInv(evs);
  }

  /**
   * And a dispatch follows two live answers to its own run, the second one
   * immediately before it: both unkilled, at the ticket's epoch, in time.
   */
  lemma DispatchFollowsTwoAnswers(evs: seq<Event>, i: nat)
    requires i < |Play(evs).history| && Play(evs).history[i].Dispatched?
    ensures DispatchOk(Play(evs).history, i)
  {
    PlayKeepsInv(evs);
  }

  /** An unreachable control plane at either check dispatches nothing. */
  lemma SilenceStops(s: State, run: int, now: int)
    requires run in s.attempts && !s.attempts[run].stage.Over?
    ensures var s' := Next(s, Answer(run, None, now));
            s'.attempts[run].stage.Over? && s'.consumed == s.consumed
            && |s'.history| == |s.history| + 1 && s'.history[|s.history|].Checked?
  {
  }

  lemma PlayMore(evs: seq<Event>, ev: Event)
    ensures Play(evs + [ev]) == Next(Play(evs), ev)
  {
    assert (evs + [ev])[..|evs|] == evs;
  }

  /** No earlier fact dispatched this nonce. */
  predicate NeverDispatched(h: seq<Fact>, nonce: string) {
    forall i :: 0 <= i < |h| && h[i].Dispatched? ==> h[i].ticket.nonce != nonce
  }

  // ---- one call from beginning to end --------------------------------------------------------------

  /** Events that are not this run's. */
  predicate Elsewhere(evs: seq<Event>, run: int) {
    forall i :: 0 <= i < |evs| ==> evs[i].Begin? || evs[i].to != run
  }

  predicate DispatchedIn(h: seq<Fact>, run: int) {
    exists i :: 0 <= i < |h| && h[i].Dispatched? && h[i].dispatchedRun == run
  }

  lemma DispatchedAppend(h: seq<Fact>, more: seq<Fact>, run: int)
    ensures DispatchedIn(h + more, run) <==> DispatchedIn(h, run) || DispatchedIn(more, run)
  {
    if i :| 0 <= i < |h + more| && (h + more)[i].Dispatched? && (h + more)[i].dispatchedRun == run {
      assert i < |h| ==> h[i] == (h + more)[i];
      assert i >= |h| ==> more[i - |h|] == (h + more)[i];
    }
    if i :| 0 <= i < |h| && h[i].Dispatched? && h[i].dispatchedRun == run {
      assert (h + more)[i] == h[i];
    }
    if i :| 0 <= i < |more| && more[i].Dispatched? && more[i].dispatchedRun == run {
      assert (h + more)[|h| + i] == more[i];
    }
  }

  /** What one event does to a run that is not its own. */
  lemma OthersLeave(s: State, ev: Event, run: int)
    requires ev.Begin? || ev.to != run
    ensures run in s.attempts ==> run in Next(s, ev).attempts && Next(s, ev).attempts[run] == s.attempts[run]
    ensures (ev.Begin? ==> ev.run != run) && run !in s.attempts ==> run !in Next(s, ev).attempts
    ensures DispatchedIn(Next(s, ev).history, run) <==> DispatchedIn(s.history, run)
  {
    var more := Next(s, ev).history[|s.history|..];
    assert Next(s, ev).history == s.history + more;
    DispatchedAppend(s.history, more, run);
  }

  lemma {:induction false} PlayLeaves(before: seq<Event>, evs: seq<Event>, run: int)
    requires Elsewhere(evs, run) && run in Play(before).attempts
    ensures run in Play(before + evs).attempts && Play(before + evs).attempts[run] == Play(before).attempts[run]
    ensures DispatchedIn(Play(before + evs).history, run) <==> DispatchedIn(Play(before).history, run)
  {
    if |evs| == 0 {
      assert before + evs == before;
    } else {
      var front, ev := evs[..|evs| - 1], evs[|evs| - 1];
      PlayLeaves(before, front, run);
      assert before + evs == (before + front) + [ev];
      PlayMore(before + front, ev);
      OthersLeave(Play(before + front), ev, run);
    }
  }

  /** A run nobody began has neither an attempt nor a dispatch. */
  lemma {:induction false} NotBegun(evs: seq<Event>, run: int)
    requires forall i :: 0 <= i < |evs| && evs[i].Begin? ==> evs[i].run != run
    ensures run !in Play(evs).attempts && !DispatchedIn(Play(evs).history, run)
  {
    if |evs| > 0 {
      var s, ev := Play(evs[..|evs| - 1]), evs[|evs| - 1];
      NotBegun(evs[..|evs| - 1], run);
      var more := Next(s, ev).history[|s.history|..];
      assert Next(s, ev).history == s.history + more;
      DispatchedAppend(s.history, more, run);
    }
  }

  /** The call's two answers, each with whatever other calls did before it. */
  datatype Call = Call(
    run: int, ticket: Ticket, before: seq<Event>, waiting: seq<Event>, first: Option<Live>, firstAt: int,
    between: seq<Event>, second: Option<Live>, secondAt: int)

  predicate Alone(c: Call) {
    && (forall i :: 0 <= i < |c.before| && c.before[i].Begin? ==> c.before[i].run != c.run)
    && Elsewhere(c.waiting, c.run) && Elsewhere(c.between, c.run)
  }

  function UpToFirst(c: Call): seq<Event> {
    c.before + [Begin(c.run, c.ticket)] + c.waiting
  }

  function Whole(c: Call): seq<Event> {
    UpToFirst(c) + [Answer(c.run, c.first, c.firstAt)] + c.between + [Answer(c.run, c.second, c.secondAt)]
  }

  lemma FirstAnswered(c: Call)
    requires Alone(c)
    ensures var s, s' := Play(UpToFirst(c)), Play(UpToFirst(c) + [Answer(c.run, c.first, c.firstAt)]);
            && c.run in s'.attempts && s'.attempts[c.run].ticket == c.ticket && !DispatchedIn(s'.history, c.run)
            && s'.attempts[c.run].stage
               == if Vouches(c.ticket, FetchLive(c.first), c.firstAt) && c.ticket.nonce !in s.consumed
                  then Second else Over
  {
    NotBegun(c.before, c.run);
    PlayMore(c.before, Begin(c.run, c.ticket));
    PlayLeaves(c.before + [Begin(c.run, c.ticket)], c.waiting, c.run);
    var s, ev := Play(UpToFirst(c)), Answer(c.run, c.first, c.firstAt);
    PlayMore(UpToFirst(c), ev);
    RefusalIsExact(c.ticket, FetchLive(c.first), c.firstAt, s.consumed);
    var more := Next(s, ev).history[|s.history|..];
    assert Next(s, ev).history == s.history + more;
    DispatchedAppend(s.history, more, c.run);
  }

  /**
   * Whatever else runs, a call that got both its answers dispatched exactly
   * when both vouched for its ticket, each in its time, and its nonce was
   * unspent at the first.
   */
  lemma DispatchedExactly(c: Call)
    requires Alone(c)
    ensures DispatchedIn(Play(Whole(c)).history, c.run)
            <==> && c.first.Some? && Vouches(c.ticket, c.first.value, c.firstAt)
                 && c.ticket.nonce !in Play(UpToFirst(c)).consumed
                 && c.second.Some? && Vouches(c.ticket, c.second.value, c.secondAt)
  {
    FirstAnswered(c);
    var early := UpToFirst(c) + [Answer(c.run, c.first, c.firstAt)];
    PlayLeaves(early, c.between, c.run);
    var s, ev := Play(early + c.between), Answer(c.run, c.second, c.secondAt);
    PlayMore(early + c.between, ev);
    RefusalIsExact(c.ticket, FetchLive(c.second), c.secondAt, {});
    var more := Next(s, ev).history[|s.history|..];
    assert Next(s, ev).history == s.history + more;
    DispatchedAppend(s.history, more, c.run);
    if more != [] && more[|more| - 1].Dispatched? {
      assert DispatchedIn(more, c.run);
    }
  }

  /** A nonce is spent exactly by a first answer that passed on a ticket holding it. */
  lemma {:induction false} SpentExactly(evs: seq<Event>, nonce: string)
    ensures nonce in Play(evs).consumed
            <==> exists i :: 0 <= i < |evs| && evs[i].Answer? && PassesFirst(Play(evs[..i]), evs[i], nonce)
  {
    if |evs| > 0 {
      var front, ev := evs[..|evs| - 1], evs[|evs| - 1];
      SpentExactly(front, nonce);
      assert forall i :: 0 <= i < |front| ==> front[..i] == evs[..i] && front[i] == evs[i];
      assert evs[..|evs| - 1] == front;
      if ev.Answer? && ev.to in Play(front).attempts && Play(front).attempts[ev.to].stage.First? {
        RefusalIsExact(Play(front).attempts[ev.to].ticket, FetchLive(ev.answer), ev.now, Play(front).consumed);
      }
      if i :| 0 <= i < |evs| && evs[i].Answer? && PassesFirst(Play(evs[..i]), evs[i], nonce) {
        if i < |front| {
          assert PassesFirst(Play(front[..i]), front[i], nonce);
        }
      }
    }
  }

  /** This answer is its run's first, and vouches for a ticket with this nonce, unspent so far. */
  predicate PassesFirst(s: State, ev: Event, nonce: string)
    requires ev.Answer?
  {
    && ev.to in s.attempts && s.attempts[ev.to].stage.First? && s.attempts[ev.to].ticket.nonce == nonce
    && ev.answer.Some? && Vouches(s.attempts[ev.to].ticket, ev.answer.value, ev.now) && nonce !in s.consumed
  }

  // ---- the executor as it runs --------------------------------------------------------------------

  /**
   * The executor and the calls suspended in it: each call stops at its two
   * fetches, and any other call may run in between. `events` is what has
   * reached it so far, so every guarantee about Play holds of this object.
   */
  class Executor {
    var consumedNonces: set<string>
    var attempts: map<int, Attempt>
    ghost var history: seq<Fact>
    ghost var events: seq<Event>

    ghost function Now(): State
      reads this
    {
      State(consumedNonces, attempts, history)
    }

    ghost predicate Valid()
      reads this
    {
      Now() == Play(events)
    }

    constructor ()
      ensures Valid() && events == []
    {
      consumedNonces, attempts := {}, map[];
      history, events := [], [];
    }

    /** run(ticket): the call starts and waits for its first answer. */
    method Begin(run: int, t: Ticket)
      requires Valid() && run !in attempts
      modifies this
      ensures Valid() && events == old(events) + [Event.Begin(run, t)]
      ensures attempts == old(attempts)[run := Attempt(t, First)] && history == old(history)
    {
      PlayMore(events, Event.Begin(run, t));
      attempts := attempts[run := Attempt(t, First)];
      events := events + [Event.Begin(run, t)];
    }

    /** From the first answer to the second fetch: refuse, or burn the nonce before the call. */
    method Admit(run: int, answer: Option<Live>, now: int) returns (refusal: Option<Refusal>)
      requires Valid() && run in attempts && attempts[run].stage.First?
      modifies this
      ensures Valid() && events == old(events) + [Answer(run, answer, now)]
      ensures refusal == None
              <==> && answer.Some? && Vouches(old(attempts)[run].ticket, answer.value, now)
                   && old(attempts)[run].ticket.nonce !in old(consumedNonces)
      ensures refusal == None ==> InSecond(Now(), run) && NeverDispatched(history, old(attempts)[run].ticket.nonce)
      ensures refusal != None ==> consumedNonces == old(consumedNonces) && attempts[run].stage.Over?
    {
      PlayMore(events, Answer(run, answer, now));
      var t := attempts[run].ticket;
      var live := FetchLive(answer);
      refusal := RefuseTicket(t, live, now, consumedNonces);
      if refusal == None {
        consumedNonces := consumedNonces + {t.nonce};
        attempts := attempts[run := Attempt(t, Second)];
      } else {
        attempts := attempts[run := Attempt(t, Over)];
      }
      history := history + [Checked(run, First, live, now, refusal == None)];
      events := events + [Answer(run, answer, now)];
      PlayKeepsInv(events);
    }

    /**
     * The last check before dispatch. Without a refusal the action goes out,
     * now: backed by this call's two vouching answers, on a nonce no call ever
     * dispatched. A refusal here still spends the ticket.
     */
    method Recheck(run: int, answer: Option<Live>, now: int) returns (refusal: Option<Refusal>)
      requires Valid() && run in attempts && attempts[run].stage.Second?
      modifies this
      ensures Valid() && events == old(events) + [Answer(run, answer, now)]
      ensures refusal == None <==> answer.Some? && Vouches(old(attempts)[run].ticket, answer.value, now)
      ensures consumedNonces == old(consumedNonces) && attempts[run].stage.Over?
      ensures var t := old(attempts)[run].ticket;
              if refusal == None then
                && |history| == |old(history)| + 2 && old(history) <= history
                && history[|history| - 1] == Dispatched(run, t) && DispatchOk(history, |history| - 1)
                && NeverDispatched(history[..|history| - 1], t.nonce)
              else |history| == |old(history)| + 1 && history[|history| - 1].Checked?
    {
      PlayMore(events, Answer(run, answer, now));
      var t := attempts[run].ticket;
      var live := FetchLive(answer);
      refusal := RefuseTicket(t, live, now, {});
      attempts := attempts[run := Attempt(t, Over)];
      history := history + [Checked(run, Second, live, now, refusal == None)]
                 + if refusal == None then [Dispatched(run, t)] else [];
      events := events + [Answer(run, answer, now)];
      PlayKeepsInv(events);
    }
  }
}
