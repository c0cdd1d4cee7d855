/**
 * What the coalesced run knows of each window: exactly what that window's own
 * events say, whatever the other windows, the rungs and the ceilings do.
 */
module LadderWindows {
  import opened Wrappers
  import opened Ladder
  import opened LadderTheorems

  /** One window on its own: the effect of an event on the window of this id. */
  function Followed(w: Option<Window>, ev: Event, id: string): Option<Window> {
    match ev
    case Opened(x, headline, deadlineMs) =>
      if x == id && w.None? then Some(Window(id, headline, deadlineMs, false, false)) else w
    case Delivered(x) => if x == id && w.Some? then Some(w.value.(delivered := true)) else w
    case Closing(x) => if x == id && w.Some? then Some(w.value.(closed := true)) else w
    case DeadlineMoved(x, deadlineMs) => if x == id && w.Some? then Some(w.value.(deadlineMs := deadlineMs)) else w
    case Veto(_, _, _) => w
    case Tick(_) => if w.Some? && w.value.closed then None else w
  }

  function WindowAfter(evs: seq<Event>, id: string): Option<Window> {
    if |evs| == 0 then None else Followed(WindowAfter(evs[..|evs| - 1], id), evs[|evs| - 1], id)
  }

  /** windows.get(id) */
  function Lookup(ws: seq<Window>, id: string): (r: Option<Window>)
    ensures r.Some? <==> Tracks(ws, id)
    ensures r.Some? ==> r.value in ws && r.value.id == id
  {
    if |ws| == 0 then None
    else if ws[|ws| - 1].id == id then Some(ws[|ws| - 1])
    else
      var rest := Lookup(ws[..|ws| - 1], id);
      assert forall i :: 0 <= i < |ws| - 1 ==> ws[i] == ws[..|ws| - 1][i];
      rest
  }

  function WindowsOf(e: Engine): seq<Window> {
    if e.run.Some? then e.run.value.windows else []
  }

  // ---- one event ---------------------------------------------------------------------------------

  lemma LookupAppend(ws: seq<Window>, w: Window, id: string)
    ensures Lookup(ws + [w], id) == if w.id == id then Some(w) else Lookup(ws, id)
  {
    assert (ws + [w])[..|ws|] == ws;
  }

  lemma {:induction false} LookupUpdated(ws: seq<Window>, x: string, f: Window -> Window, id: string)
    requires forall w :: f(w).id == w.id
    ensures Lookup(Updated(ws, x, f), id)
            == if x == id && Lookup(ws, id).Some? then Some(f(Lookup(ws, id).value)) else Lookup(ws, id)
  {
    if |ws| > 0 {
      LookupUpdated(ws[..|ws| - 1], x, f, id);
      assert Updated(ws, x, f)[..|ws| - 1] == Updated(ws[..|ws| - 1], x, f);
    }
  }

  lemma DistinctFront(ws: seq<Window>)
    requires |ws| > 0 && DistinctIds(ws)
    ensures DistinctIds(ws[..|ws| - 1]) && !Tracks(ws[..|ws| - 1], ws[|ws| - 1].id)
  {
  }

  lemma {:induction false} DistinctOpen(ws: seq<Window>)
    requires DistinctIds(ws)
    ensures DistinctIds(Closed(ws, false))
    ensures forall w :: w in Closed(ws, false) ==> w in ws
  {
    if |ws| > 0 {
      var front, last := ws[..|ws| - 1], ws[|ws| - 1];
      DistinctFront(ws);
      DistinctOpen(front);
      forall i | 0 <= i < |Closed(front, false)|
        ensures Closed(front, false)[i].id != last.id
      {
        assert Closed(front, false)[i] in front;
      }
    }
  }

  lemma {:induction false} LookupOpen(ws: seq<Window>, id: string)
    requires DistinctIds(ws)
    ensures Lookup(Closed(ws, false), id)
            == if Lookup(ws, id).Some? && Lookup(ws, id).value.closed then None else Lookup(ws, id)
  {
    if |ws| == 0 {
      assert Lookup(ws, id) == None;
    } else {
      hide Lookup, DistinctIds, Tracks;
      var front, last := ws[..|ws| - 1], ws[|ws| - 1];
      DistinctFront(ws);
      LookupOpen(front, id);
      assert ws == front + [last];
      LookupAppend(front, last, id);
      LookupAppend(Closed(front, false), last, id);
      assert Closed(ws, false) == if last.closed then Closed(front, false) else Closed(front, false) + [last];
    }
  }

  /** A tick drops the closed windows and otherwise leaves them all as they are. */
  lemma TickDrops(c: Config, e: Engine, now: int)
    ensures WindowsOf(DoTick(c, e, now).engine) == Closed(WindowsOf(e), false)
    ensures DoTick(c, e, now).engine.run.Some? ==> |WindowsOf(DoTick(c, e, now).engine)| > 0
  {
    var e1 := e.(pending := []);
    if e.run.Some? {
      var open := DoDropClosed(Armed(e1, now)).0;
      if open.run.Some? {
        RungsKeepWindows(c, open, 0, now, open.run.value.windows);
      }
    }
  }

  lemma UpdateFollows(e: Engine, x: string, f: Window -> Window, id: string)
    requires DistinctIds(WindowsOf(e)) && forall w :: f(w).id == w.id
    ensures var ws, ws' := WindowsOf(e), WindowsOf(OnWindow(e, x, f));
            && DistinctIds(ws') && |ws'| == |ws|
            && Lookup(ws', id)
               == if x == id && Lookup(ws, id).Some? then Some(f(Lookup(ws, id).value)) else Lookup(ws, id)
  {
    if e.run.Some? {
      LookupUpdated(e.run.value.windows, x, f, id);
    }
  }

  /** A window joins at the end, unless its id is tracked already. */
  lemma OpenFollows(e: Engine, x: string, headline: string, deadlineMs: int, id: string)
    requires DistinctIds(WindowsOf(e)) && (e.run.Some? ==> |WindowsOf(e)| > 0)
    ensures var e' := DoWindowOpened(e, x, headline, deadlineMs);
            && DistinctIds(WindowsOf(e')) && e'.run.Some? && |WindowsOf(e')| > 0
            && Lookup(WindowsOf(e'), id) == Followed(Lookup(WindowsOf(e), id), Opened(x, headline, deadlineMs), id)
  {
    var w := Window(x, headline, deadlineMs, false, false);
    LookupAppend(WindowsOf(e), w, id);
    if e.run.None? {
      LookupAppend([], w, id);
      assert [] + [w] == [w];
    }
  }

  lemma NextFollows(c: Config, w: World, ev: Event, id: string)
    requires DistinctIds(WindowsOf(w.e)) && (w.e.run.Some? ==> |WindowsOf(w.e)| > 0)
    ensures var e' := Next(c, w, ev).e;
            && DistinctIds(WindowsOf(e')) && (e'.run.Some? ==> |WindowsOf(e')| > 0)
            && Lookup(WindowsOf(e'), id) == Followed(Lookup(WindowsOf(w.e), id), ev, id)
  {
    match ev {
      case Opened(x, headline, deadlineMs) => OpenFollows(w.e, x, headline, deadlineMs, id);
      case Delivered(x) => UpdateFollows(w.e, x, (v: Window) => v.(delivered := true), id);
      case Closing(x) => UpdateFollows(w.e, x, (v: Window) => v.(closed := true), id);
      case DeadlineMoved(x, deadlineMs) => UpdateFollows(w.e, x, (v: Window) => v.(deadlineMs := deadlineMs), id);
      case Veto(_, _, _) =>
      case Tick(now) =>
        TickDrops(c, w.e, now);
        LookupOpen(WindowsOf(w.e), id);
        DistinctOpen(WindowsOf(w.e));
    }
  }

  /**
   * One run carries a storm of windows, yet each window is tracked as if it
   * were alone: after any events, what the engine holds for an id is what that
   * id's own events and the ticks make of it. Ids stay distinct, and a run is
   * live exactly while some window is tracked.
   */
  lemma {:induction false} WindowsAreIndependent(c: Config, start: int, evs: seq<Event>, id: string)
    ensures var e := Play(c, start, evs).e;
            && DistinctIds(WindowsOf(e)) && (e.run.Some? ==> |WindowsOf(e)| > 0)
            && Lookup(WindowsOf(e), id) == WindowAfter(evs, id)
  {
    if |evs| > 0 {
      WindowsAreIndependent(c, start, evs[..|evs| - 1], id);
      NextFollows(c, Play(c, start, evs[..|evs| - 1]), evs[|evs| - 1], id);
    }
  }

  /**
   * A window opened again after it closed is taken up again only if a tick
   * came between: until then the closed record is still there, the opening is
   * dropped, and the next tick forgets the window.
   */
  lemma ReopenNeedsTick(evs: seq<Event>, id: string, headline: string, deadlineMs: int, now: int)
    requires WindowAfter(evs, id).Some?
    ensures var closed := evs + [Closing(id)];
            && WindowAfter(closed + [Opened(id, headline, deadlineMs)] + [Tick(now)], id) == None
            && WindowAfter(closed + [Tick(now)] + [Opened(id, headline, deadlineMs)], id)
               == Some(Window(id, headline, deadlineMs, false, false))
  {
    var closed, again, tick := evs + [Closing(id)], Opened(id, headline, deadlineMs), Tick(now);
    AfterOneMore(evs, Closing(id), id);
    AfterOneMore(closed, again, id);
    AfterOneMore(closed + [again], tick, id);
    AfterOneMore(closed, tick, id);
    AfterOneMore(closed + [tick], again, id);
  }

  lemma AfterOneMore(evs: seq<Event>, ev: Event, id: string)
    ensures WindowAfter(evs + [ev], id) == Followed(WindowAfter(evs, id), ev, id)
  {
    assert (evs + [ev])[..|evs|] == evs;
  }
}
