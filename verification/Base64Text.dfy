/** What canonical base64url is: exactly the texts an encoder prints for one or more bytes. */
module Base64Text {
  import opened Base64Url

  type byte = x: int | 0 <= x < 256

  /** The alphabet of RFC 4648 section 5. */
  function Letter(v: int): char
    requires 0 <= v < 64
  {
    if v < 26 then 'A' + v as char
    else if v < 52 then 'a' + (v - 26) as char
    else if v < 62 then '0' + (v - 52) as char
    else if v == 62 then '-'
    else '_'
  }

  function Two(a: byte): string {
    [Letter(a / 4), Letter(a % 4 * 16)]
  }

  function Three(a: byte, b: byte): string {
    [Letter(a / 4), Letter(a % 4 * 16 + b / 16), Letter(b % 16 * 4)]
  }

  function Four(a: byte, b: byte, c: byte): string {
    [Letter(a / 4), Letter(a % 4 * 16 + b / 16), Letter(b % 16 * 4 + c / 64), Letter(c % 64)]
  }

  /** Three bytes in four characters; a last one or two in two or three, unused bits zero, no padding. */
  function Printed(b: seq<byte>): string {
    if |b| == 0 then ""
    else if |b| == 1 then Two(b[0])
    else if |b| == 2 then Three(b[0], b[1])
    else Four(b[0], b[1], b[2]) + Printed(b[3..])
  }

  lemma LetterReads(v: int)
    requires 0 <= v < 64
    ensures Sextet(Letter(v)) == v
  {
  }

  lemma LetterOf(c: char)
    requires Sextet(c) >= 0
    ensures Letter(Sextet(c)) == c
  {
  }

  predicate InAlphabet(s: string) {
    forall i :: 0 <= i < |s| ==> Sextet(s[i]) >= 0
  }

  // ---- what is printed is canonical ----------------------------------------------------------------

  lemma TwoReads(a: byte)
    ensures InAlphabet(Two(a)) && Sextet(Two(a)[1]) % 16 == 0
  {
    LetterReads(a / 4);
    LetterReads(a % 4 * 16);
  }

  lemma ThreeReads(a: byte, b: byte)
    ensures InAlphabet(Three(a, b)) && Sextet(Three(a, b)[2]) % 4 == 0
  {
    LetterReads(a / 4);
    LetterReads(a % 4 * 16 + b / 16);
    LetterReads(b % 16 * 4);
  }

  lemma FourReads(a: byte, b: byte, c: byte)
    ensures InAlphabet(Four(a, b, c))
  {
    LetterReads(a / 4);
    LetterReads(a % 4 * 16 + b / 16);
    LetterReads(b % 16 * 4 + c / 64);
    LetterReads(c % 64);
  }

  lemma FourMore(head: string, rest: string)
    requires |head| == 4 && InAlphabet(head) && (rest == "" || Canonical(rest))
    ensures Canonical(head + rest) && DecodedLength(head + rest) == 3 + DecodedLength(rest)
  {
    hide Sextet;
    var s := head + rest;
    forall i | 0 <= i < |s|
      ensures Sextet(s[i]) >= 0
    {
      if i >= 4 {
        assert s[i] == rest[i - 4];
      }
    }
    if rest != "" {
      assert s[|s| - 1] == rest[|rest| - 1];
    }
  }

  lemma {:induction false} PrintedIsCanonical(b: seq<byte>)
    requires |b| > 0
    ensures Canonical(Printed(b)) && DecodedLength(Printed(b)) == |b|
    decreases |b|
  {
    hide Sextet, Letter, Four;
    if |b| == 1 {
      TwoReads(b[0]);
    } else if |b| == 2 {
      ThreeReads(b[0], b[1]);
    } else {
      FourReads(b[0], b[1], b[2]);
      FourIsFour(b[0], b[1], b[2]);
      if |b| > 3 {
        PrintedIsCanonical(b[3..]);
      }
      FourMore(Four(b[0], b[1], b[2]), Printed(b[3..]));
    }
  }

  lemma FourIsFour(a: byte, b: byte, c: byte)
    ensures |Four(a, b, c)| == 4
  {
  }

  // ---- what is canonical is printed ----------------------------------------------------------------

  lemma TwoPrinted(s: string) returns (a: byte)
    requires |s| == 2 && InAlphabet(s) && Sextet(s[1]) % 16 == 0
    ensures Two(a) == s
  {
    hide Sextet;
    var x, y := Sextet(s[0]), Sextet(s[1]);
    LetterOf(s[0]);
    LetterOf(s[1]);
    a := x * 4 + y / 16;
    assert a / 4 == x && a % 4 * 16 == y;
  }

  lemma ThreePrinted(s: string) returns (a: byte, b: byte)
    requires |s| == 3 && InAlphabet(s) && Sextet(s[2]) % 4 == 0
    ensures Three(a, b) == s
  {
    hide Sextet;
    var x, y, z := Sextet(s[0]), Sextet(s[1]), Sextet(s[2]);
    LetterOf(s[0]);
    LetterOf(s[1]);
    LetterOf(s[2]);
    a, b := x * 4 + y / 16, y % 16 * 16 + z / 4;
    assert a / 4 == x && a % 4 * 16 + b / 16 == y && b % 16 * 4 == z;
  }

  lemma FourPrinted(s: string) returns (a: byte, b: byte, c: byte)
    requires |s| == 4 && InAlphabet(s)
    ensures Four(a, b, c) == s
  {
    hide Sextet;
    var x, y, z, w := Sextet(s[0]), Sextet(s[1]), Sextet(s[2]), Sextet(s[3]);
    LetterOf(s[0]);
    LetterOf(s[1]);
    LetterOf(s[2]);
    LetterOf(s[3]);
    a, b, c := x * 4 + y / 16, y % 16 * 16 + z / 4, z % 4 * 64 + w;
    assert a / 4 == x && a % 4 * 16 + b / 16 == y && b % 16 * 4 + c / 64 == z && c % 64 == w;
  }

  lemma TailIsCanonical(s: string)
    requires Canonical(s) && |s| >= 4
    ensures InAlphabet(s[..4]) && (s[4..] == "" || Canonical(s[4..]))
  {
    hide Sextet;
    if |s| > 4 {
      assert s[4..][|s| - 5] == s[|s| - 1];
    }
  }

  /** The bytes a canonical text was printed from. */
  lemma {:induction false} CanonicalIsPrinted(s: string) returns (b: seq<byte>)
    requires Canonical(s)
    ensures |b| > 0 && Printed(b) == s
    decreases |s|
  {
    hide Sextet, Two, Three, Four;
    if |s| == 2 {
      var a := TwoPrinted(s);
      b := [a];
    } else if |s| == 3 {
      var a, c := ThreePrinted(s);
      b := [a, c];
    } else {
      TailIsCanonical(s);
      var a, c, d := FourPrinted(s[..4]);
      var rest: seq<byte> := [];
      if |s| > 4 {
        rest := CanonicalIsPrinted(s[4..]);
      }
      b := [a, c, d] + rest;
      assert b[3..] == rest && s == s[..4] + s[4..];
    }
  }

  /** A text is canonical, of this many bytes, exactly when it is what some bytes print as. */
  lemma CanonicalExactly(s: string, n: nat)
    ensures Canonical(s) && DecodedLength(s) == n <==> exists b: seq<byte> :: |b| == n && n > 0 && Printed(b) == s
  {
    hide Canonical, Printed, DecodedLength;
    if Canonical(s) {
      var b := CanonicalIsPrinted(s);
      PrintedIsCanonical(b);
      assert |b| == DecodedLength(s);
    }
    if b: seq<byte> :| |b| == n && n > 0 && Printed(b) == s {
      PrintedIsCanonical(b);
    }
  }
}
