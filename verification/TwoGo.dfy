/** 2GO: the restore ceremony and its clock. Times are milliseconds. */
module TwoGo {
  import opened Wrappers

  const COOLDOWN_MS: int := 30_000
  const TTL_MS: int := 5 * 60_000

  datatype CeremonyState = Go1 | Ready | Completed | Expired

  datatype Ceremony = Ceremony(ownerId: string, startedAt: int, status: CeremonyState)

  function Started(ownerId: string, now: int): Ceremony {
    Ceremony(ownerId, now, Go1)
  }

  function Ticked(c: Ceremony, now: int): Ceremony {
    if c.status.Completed? || c.status.Expired? then c
    else if now - c.startedAt >= TTL_MS then c.(status := Expired)
    else if now - c.startedAt >= COOLDOWN_MS then c.(status := Ready)
    else c
  }

  /** Confirmation succeeds only from Ready, and consumes the ceremony. */
  function Confirmed(c: Ceremony, now: int): Ceremony {
    var t := Ticked(c, now);
    if t.status.Ready? then t.(status := Completed) else t
  }

  predicate Confirmable(c: Ceremony, now: int) {
    Ticked(c, now).status.Ready?
  }

  class RestoreCeremony {
    const ceremonyId: string
    const ownerId: string
    const startedAt: int
    var status: CeremonyState

    function Value(): Ceremony
      reads this
    {
      Ceremony(ownerId, startedAt, status)
    }

    constructor (ceremonyId: string, ownerId: string, now: int)
      ensures Value() == Started(ownerId, now) && this.ceremonyId == ceremonyId
    {
      this.ceremonyId, this.ownerId, startedAt, status := ceremonyId, ownerId, now, Go1;
    }

    method Tick(now: int) returns (r: CeremonyState)
      modifies this
      ensures Value() == Ticked(old(Value()), now) && r == status
    {
      if status == Completed || status == Expired {
        return status;
      }
      var elapsed := now - startedAt;
      if elapsed >= TTL_MS {
        status := Expired;
      } else if elapsed >= COOLDOWN_MS {
        status := Ready;
      }
      return status;
    }

    method Confirm(now: int) returns (r: Result<int>)
      modifies this
      ensures Value() == Confirmed(old(Value()), now)
      ensures r == if Confirmable(old(Value()), now) then Ok(now) else Err
      ensures r.Ok? ==> status == Completed
    {
      var _ := Tick(now);
      if status != Ready {
        return Err;
      }
      status := Completed;
      return Ok(now);
    }
  }

  // ---- whole lives of one ceremony ------------------------------------------------

  datatype Touch = TickAt(at: int) | ConfirmAt(at: int)

  function Touched(c: Ceremony, t: Touch): Ceremony {
    if t.TickAt? then Ticked(c, t.at) else Confirmed(c, t.at)
  }

  function TouchAll(c: Ceremony, ts: seq<Touch>): Ceremony {
    if |ts| == 0 then c else Touched(TouchAll(c, ts[..|ts| - 1]), ts[|ts| - 1])
  }

  predicate Chronological(from: int, ts: seq<Touch>) {
    && (forall i :: 0 <= i < |ts| ==> from <= ts[i].at)
    && (forall i, j :: 0 <= i < j < |ts| ==> ts[i].at <= ts[j].at)
  }

  predicate Succeeds(c: Ceremony, ts: seq<Touch>, i: int)
    requires 0 <= i < |ts|
  {
    ts[i].ConfirmAt? && Confirmable(TouchAll(c, ts[..i]), ts[i].at)
  }

  lemma {:induction false} LifeOf(ownerId: string, start: int, ts: seq<Touch>)
    requires Chronological(start, ts)
    ensures var c := TouchAll(Started(ownerId, start), ts);
            && c.startedAt == start && c.ownerId == ownerId
            && (c.status.Completed? <==> exists i :: 0 <= i < |ts| && Succeeds(Started(ownerId, start), ts, i))
            && (c.status.Ready? ==> |ts| > 0 && ts[|ts| - 1].at - start >= COOLDOWN_MS)
            && (c.status.Expired? ==> |ts| > 0 && ts[|ts| - 1].at - start >= TTL_MS)
    decreases |ts|
  {
    if |ts| > 0 {
      var c := Started(ownerId, start);
      var before := ts[..|ts| - 1];
      LifeOf(ownerId, start, before);
      assert forall i :: 0 <= i < |before| ==> before[..i] == ts[..i] && before[i] == ts[i];
      assert forall i :: 0 <= i < |before| ==> (Succeeds(c, before, i) <==> Succeeds(c, ts, i));
      if Succeeds(c, ts, |ts| - 1) {
        assert TouchAll(c, ts).status.Completed?;
      } else {
        assert TouchAll(c, ts).status.Completed? <==> TouchAll(c, before).status.Completed?;
      }
    }
  }

  /**
   * Under a nondecreasing clock a ceremony confirms at most once, and only at
   * an instant at least the cooldown and less than the TTL after it started.
   */
  lemma ConfirmsOnceInsideItsWindow(ownerId: string, start: int, ts: seq<Touch>, i: nat, j: nat)
    requires Chronological(start, ts) && i < |ts| && j < |ts|
    requires Succeeds(Started(ownerId, start), ts, i) && Succeeds(Started(ownerId, start), ts, j)
    ensures i == j && COOLDOWN_MS <= ts[i].at - start < TTL_MS
  {
    var c := Started(ownerId, start);
    LifeOf(ownerId, start, ts[..i]);
    LifeOf(ownerId, start, ts[..j]);
    if i < j {
      assert ts[..j][..i] == ts[..i] && Succeeds(c, ts[..j], i);
    } else if j < i {
      assert ts[..i][..j] == ts[..j] && Succeeds(c, ts[..i], j);
    }
  }

  /** And exactly then: the first confirmation inside the window succeeds, however the ceremony was ticked. */
  lemma ConfirmsExactly(ownerId: string, start: int, ts: seq<Touch>, i: nat)
    requires Chronological(start, ts) && i < |ts| && ts[i].ConfirmAt?
    ensures Succeeds(Started(ownerId, start), ts, i)
            <==> && 30_000 <= ts[i].at - start < 300_000
                 && forall j :: 0 <= j < i ==> !Succeeds(Started(ownerId, start), ts, j)
  {
    var c, before := Started(ownerId, start), ts[..i];
    LifeOf(ownerId, start, before);
    assert forall j :: 0 <= j < i ==> before[..j] == ts[..j];
    assert forall j :: 0 <= j < i ==> (Succeeds(c, before, j) <==> Succeeds(c, ts, j));
  }
}
