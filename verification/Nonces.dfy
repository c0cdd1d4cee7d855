/**
 * Replay protection for both device lanes: a nonce store that is swept on
 * every call, yet never lets one signed credential through twice.
 */
module Nonces {
  import opened Wrappers

  /** The HMAC lane of the gateway's devices, and the signature lane of owner devices. */
  datatype Lane = Device | Owner

  datatype Credential = Credential(lane: Lane, deviceId: string, timestamp: int, nonce: string)

  /**
   * One call: the clock when it sweeps, the clock when it checks the skew, and
   * whether the signature (and, for owners, the device lookup) is in order.
   */
  datatype Attempt = Attempt(credential: Credential, sweptAt: int, checkedAt: int, genuine: bool)

  type Store = map<string, int>

  function KeyOf(c: Credential): string {
    match c.lane
    case Device => c.deviceId + ":" + c.nonce
    case Owner => "owner:" + c.deviceId + ":" + c.nonce
  }

  /** Fields that cannot be re-read as other fields: no separator of their lane inside. */
  predicate Unambiguous(c: Credential) {
    && c.deviceId != "" && c.nonce != ""
    && match c.lane
       case Device => '.' !in c.deviceId && '.' !in c.nonce
       case Owner => ':' !in c.deviceId && ':' !in c.nonce
  }

  predicate Fresh(c: Credential, now: int, skew: int) {
    -skew <= now - c.timestamp <= skew
  }

  function Swept(s: Store, now: int): Store {
    map k | k in s && now <= s[k] :: s[k]
  }

  /** Everything is checked before the nonce is: only a valid signature burns it. */
  function Verified(s0: Store, skew: int, a: Attempt): (Store, bool) {
    var s := Swept(s0, a.sweptAt);
    var key := KeyOf(a.credential);
    if !Unambiguous(a.credential) || !Fresh(a.credential, a.checkedAt, skew) || !a.genuine || key in s then (s, false)
    else (s[key := a.credential.timestamp + skew], true)
  }

  function VerifyAll(skew: int, attempts: seq<Attempt>): Store {
    if |attempts| == 0 then map[]
    else Verified(VerifyAll(skew, attempts[..|attempts| - 1]), skew, attempts[|attempts| - 1]).0
  }

  predicate Accepted(skew: int, attempts: seq<Attempt>, i: int)
    requires 0 <= i < |attempts|
  {
    Verified(VerifyAll(skew, attempts[..i]), skew, attempts[i]).1
  }

  /** A clock that never goes back, within a call or between calls. */
  predicate Chronological(attempts: seq<Attempt>) {
    && (forall i :: 0 <= i < |attempts| ==> attempts[i].sweptAt <= attempts[i].checkedAt)
    && (forall i, j :: 0 <= i < j < |attempts| ==> attempts[i].checkedAt <= attempts[j].sweptAt)
  }

  class NonceGuard {
    const maxSkewMs: int
    var seenNonces: Store

    constructor (maxSkewMs: int)
      ensures this.maxSkewMs == maxSkewMs && seenNonces == map[]
    {
      this.maxSkewMs, seenNonces := maxSkewMs, map[];
    }

    /** Forget what could never verify again. */
    method Sweep(now: int)
      modifies this
      ensures seenNonces == Swept(old(seenNonces), now)
    {
      ghost var before := seenNonces;
      var left := seenNonces.Keys;
      while left != {}
        invariant left <= seenNonces.Keys <= before.Keys
        invariant forall k :: k in seenNonces ==> seenNonces[k] == before[k]
        invariant forall k :: k in before ==> (k in seenNonces <==> k in left || now <= before[k])
      {
        var k :| k in left;
        if now > seenNonces[k] {
          seenNonces := seenNonces - {k};
        }
        left := left - {k};
      }
      assert seenNonces == Swept(before, now);
    }

    method Verify(a: Attempt) returns (ok: bool)
      modifies this
      ensures (seenNonces, ok) == Verified(old(seenNonces), maxSkewMs, a)
      ensures ok ==> a.genuine && KeyOf(a.credential) in seenNonces
    {
      Sweep(a.sweptAt);
      var c := a.credential;
      if !Unambiguous(c) {
        return false;
      }
      var age := a.checkedAt - c.timestamp;
      if (if age < 0 then -age else age) > maxSkewMs {
        return false;
      }
      if !a.genuine {
        return false;
      }
      var key := KeyOf(c);
      if key in seenNonces {
        return false;
      }
      seenNonces := seenNonces[key := c.timestamp + maxSkewMs];
      return true;
    }
  }

  /** A burned nonce stays in the store for as long as its credential could still be fresh. */
  lemma {:induction false} BurnedStays(skew: int, attempts: seq<Attempt>, i: nat)
    requires Chronological(attempts) && i < |attempts| && Accepted(skew, attempts, i)
    ensures var c := attempts[i].credential;
            attempts[|attempts| - 1].sweptAt <= c.timestamp + skew || i == |attempts| - 1 ==>
              KeyOf(c) in VerifyAll(skew, attempts)
              && (VerifyAll(skew, attempts)[KeyOf(c)] == c.timestamp + skew)
    decreases |attempts|
  {
    var n := |attempts| - 1;
    if i < n {
      var before := attempts[..n];
      assert before[..i] == attempts[..i];
      BurnedStays(skew, before, i);
      assert before[|before| - 1].sweptAt <= attempts[n].sweptAt;
    }
  }

  /** However the store is swept, an exact signed credential is accepted at most once. */
  lemma AcceptedAtMostOnce(skew: int, attempts: seq<Attempt>, i: nat, j: nat)
    requires Chronological(attempts) && i < j < |attempts| && attempts[i].credential == attempts[j].credential
    ensures !(Accepted(skew, attempts, i) && Accepted(skew, attempts, j))
  {
    if Accepted(skew, attempts, i) && Fresh(attempts[j].credential, attempts[j].checkedAt, skew) {
      var before := attempts[..j];
      assert before[..i] == attempts[..i];
      BurnedStays(skew, before, i);
    }
  }

  /** Every entry of the store was burned by an accepted attempt, and dies with its credential. */
  lemma {:induction false} EntriesWereBurned(skew: int, attempts: seq<Attempt>, k: string) returns (i: nat)
    requires k in VerifyAll(skew, attempts)
    ensures i < |attempts| && Accepted(skew, attempts, i) && KeyOf(attempts[i].credential) == k
    ensures VerifyAll(skew, attempts)[k] == attempts[i].credential.timestamp + skew
    decreases |attempts|
  {
    var n := |attempts| - 1;
    var before := attempts[..n];
    if Accepted(skew, attempts, n) && KeyOf(attempts[n].credential) == k {
      i := n;
    } else {
      i := EntriesWereBurned(skew, before, k);
      assert before[..i] == attempts[..i];
    }
  }

  /** An accepted attempt holds its key against attempt `i` while its own credential could still be fresh. */
  ghost predicate Holds(skew: int, attempts: seq<Attempt>, j: int, i: int) {
    && 0 <= j < i < |attempts| && Accepted(skew, attempts, j)
    && KeyOf(attempts[j].credential) == KeyOf(attempts[i].credential)
    && attempts[i].sweptAt <= attempts[j].credential.timestamp + skew
  }

  lemma SeenExactly(skew: int, attempts: seq<Attempt>, i: nat)
    requires Chronological(attempts) && i < |attempts|
    ensures KeyOf(attempts[i].credential) in Swept(VerifyAll(skew, attempts[..i]), attempts[i].sweptAt)
            <==> exists j :: Holds(skew, attempts, j, i)
  {
    var before, key := attempts[..i], KeyOf(attempts[i].credential);
    if key in Swept(VerifyAll(skew, before), attempts[i].sweptAt) {
      var j := EntriesWereBurned(skew, before, key);
      assert before[..j] == attempts[..j];
      assert Holds(skew, attempts, j, i);
    }
    if j :| Holds(skew, attempts, j, i) {
      assert before[..j] == attempts[..j];
      BurnedStays(skew, before, j);
      assert before[i - 1].sweptAt <= attempts[i].sweptAt;
    }
  }

  /** Each field present, and free of the separators its lane joins fields with. */
  predicate WellFormed(c: Credential) {
    var separator := if c.lane.Device? then '.' else ':';
    c.deviceId != "" && c.nonce != "" && forall x :: x in c.deviceId + c.nonce ==> x != separator
  }

  /**
   * An attempt is accepted exactly when its credential is well formed, within
   * the skew of the clock and genuinely signed, and no accepted attempt holds
   * its key: forgeries never pass, and nothing else refuses.
   */
  lemma AcceptedExactly(skew: int, attempts: seq<Attempt>, i: nat)
    requires Chronological(attempts) && i < |attempts|
    ensures var a := attempts[i];
            Accepted(skew, attempts, i)
            <==> && WellFormed(a.credential) && a.genuine
                 && -skew <= a.checkedAt - a.credential.timestamp <= skew
                 && !exists j :: Holds(skew, attempts, j, i)
  {
    SeenExactly(skew, attempts, i);
    var c := attempts[i].credential;
    assert WellFormed(c) <==> Unambiguous(c) by {
      if WellFormed(c) {
        assert forall x :: x in c.deviceId || x in c.nonce ==> x in c.deviceId + c.nonce;
      }
    }
  }

  /** A refused attempt burns nothing: each entry it found unexpired stays, and none appears. */
  lemma RefusalBurnsNothing(skew: int, attempts: seq<Attempt>, i: nat)
    requires i < |attempts| && !Accepted(skew, attempts, i)
    ensures var before, after := VerifyAll(skew, attempts[..i]), VerifyAll(skew, attempts[..i + 1]);
            forall k :: (k in after <==> k in before && attempts[i].sweptAt <= before[k])
                        && (k in after ==> after[k] == before[k])
  {
    assert attempts[..i + 1][..i] == attempts[..i];
  }

  lemma VerifiedIsBounded(s: Store, skew: int, a: Attempt, earlier: int)
    requires skew >= 0 && earlier <= a.sweptAt <= a.checkedAt
    requires forall k :: k in s ==> s[k] <= earlier + 2 * skew
    ensures var s' := Verified(s, skew, a).0;
            forall k :: k in s' ==> a.sweptAt <= s'[k] <= a.checkedAt + 2 * skew
  {
  }

  /** The store stays bounded by time: every entry expires within twice the skew, and none is dead. */
  lemma {:induction false} StoreIsBounded(skew: int, attempts: seq<Attempt>)
    requires Chronological(attempts) && |attempts| > 0 && skew >= 0
    ensures forall k :: k in VerifyAll(skew, attempts) ==>
              && attempts[|attempts| - 1].sweptAt <= VerifyAll(skew, attempts)[k]
              && VerifyAll(skew, attempts)[k] <= attempts[|attempts| - 1].checkedAt + 2 * skew
    decreases |attempts|
  {
    var n := |attempts| - 1;
    if n > 0 {
      var before := attempts[..n];
      StoreIsBounded(skew, before);
      assert before[n - 1] == attempts[n - 1] && attempts[n - 1].checkedAt <= attempts[n].sweptAt;
      VerifiedIsBounded(VerifyAll(skew, before), skew, attempts[n], attempts[n - 1].checkedAt);
    } else {
      assert attempts[..0] == [];
      VerifiedIsBounded(map[], skew, attempts[n], attempts[n].sweptAt);
    }
  }

  /** Owner keys never alias each other: a refused replay is a replay of that very id and nonce. */
  lemma OwnerKeysAreDistinct(a: Credential, b: Credential)
    requires a.lane.Owner? && b.lane.Owner? && Unambiguous(a) && Unambiguous(b) && KeyOf(a) == KeyOf(b)
    ensures a.deviceId == b.deviceId && a.nonce == b.nonce
  {
    var m, n := a.deviceId + ":" + a.nonce, b.deviceId + ":" + b.nonce;
    assert KeyOf(a)[6..] == m && KeyOf(b)[6..] == n;
    SplitsOnce(a.deviceId, a.nonce, b.deviceId, b.nonce, ':');
  }

  /** Text joined at a separator that the first parts do not contain splits one way only. */
  lemma SplitsOnce(a: string, x: string, b: string, y: string, sep: char)
    requires sep !in a && sep !in b && a + [sep] + x == b + [sep] + y
    ensures a == b && x == y
  {
    var s := a + [sep] + x;
    assert s[|a|] == sep && s[|b|] == sep;
    assert forall i :: 0 <= i < |a| ==> s[i] == a[i];
    assert forall i :: 0 <= i < |b| ==> s[i] == b[i];
    assert |a| == |b|;
    assert s[..|a|] == a && s[..|b|] == b;
    assert s[|a| + 1..] == x && s[|b| + 1..] == y;
  }
}
