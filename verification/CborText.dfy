/** What text the decoder takes: the UTF-8 of Unicode scalar values, and which of it spells an integer. */
module CborText {
  import opened Cbor

  // ---- UTF-8 ---------------------------------------------------------------------------------------

  predicate Scalar(c: int) {
    0 <= c < 0x11_0000 && !(0xD800 <= c < 0xE000)
  }

  /** The last six bits of x, as a byte that continues a character. */
  function Tail(x: int): (b: byte)
    requires x >= 0
    ensures 0x80 <= b < 0xC0
  {
    0x80 + x % 0x40
  }

  function Lead(mark: int, x: int): byte
    requires mark >= 0 && 0 <= x < 0x100 - mark
  {
    mark + x
  }

  /** The scalar value in one to four bytes, never more than it needs. */
  function Encoded(c: int): (s: seq<byte>)
    requires Scalar(c)
    ensures |s| >= 1
  {
    if c < 0x80 then [c]
    else
      var six: int, twelve: int := c / 0x40, c / 0x40 / 0x40;
      if c < 0x800 then [Lead(0xC0, six), Tail(c)]
      else if c < 0x1_0000 then [Lead(0xE0, twelve), Tail(six), Tail(c)]
      else [Lead(0xF0, twelve / 0x40), Tail(twelve), Tail(six), Tail(c)]
  }

  predicate Scalars(cs: seq<int>) {
    forall i :: 0 <= i < |cs| ==> Scalar(cs[i])
  }

  function EncodedAll(cs: seq<int>): seq<byte>
    requires Scalars(cs)
  {
    if |cs| == 0 then [] else Encoded(cs[0]) + EncodedAll(cs[1..])
  }

  /** Six more bits. */
  function Joined(high: int, b: byte): int {
    high * 0x40 + (b as int - 0x80)
  }

  function Marked(b: byte, mark: int): int {
    b as int - mark
  }

  /** The scalar value s starts with, if its first bytes are one. */
  function First(s: seq<byte>): int
    requires CharLength(s) > 0
  {
    var n := CharLength(s);
    if n == 1 then s[0]
    else if n == 2 then Joined(Marked(s[0], 0xC0), s[1])
    else if n == 3 then Joined(Joined(Marked(s[0], 0xE0), s[1]), s[2])
    else Joined(Joined(Joined(Marked(s[0], 0xF0), s[1]), s[2]), s[3])
  }

  /** Six more bits come off again. */
  lemma SixBits(high: int, b: byte)
    requires high >= 0 && 0x80 <= b < 0xC0
    ensures Joined(high, b) / 0x40 == high && Tail(Joined(high, b)) == b
  {
  }

  lemma FirstIsEncoded(s: seq<byte>)
    requires CharLength(s) > 0
    ensures Scalar(First(s)) && Encoded(First(s)) == s[..CharLength(s)]
  {
    hide Tail;
    var n := CharLength(s);
    if n == 2 {
      SixBits(Marked(s[0], 0xC0), s[1]);
    } else if n == 3 {
      var six := Joined(Marked(s[0], 0xE0), s[1]);
      SixBits(Marked(s[0], 0xE0), s[1]);
      SixBits(six, s[2]);
    } else if n == 4 {
      var six := Joined(Marked(s[0], 0xF0), s[1]);
      var twelve := Joined(six, s[2]);
      SixBits(Marked(s[0], 0xF0), s[1]);
      SixBits(six, s[2]);
      SixBits(twelve, s[3]);
    }
  }

  lemma EncodedIsFirst(c: int, rest: seq<byte>)
    requires Scalar(c)
    ensures CharLength(Encoded(c) + rest) == |Encoded(c)|
  {
    var s := Encoded(c) + rest;
    assert forall i :: 0 <= i < |Encoded(c)| ==> s[i] == Encoded(c)[i];
  }

  lemma {:induction false} ValidIsEncoded(s: seq<byte>) returns (cs: seq<int>)
    requires ValidUtf8(s)
    ensures Scalars(cs) && EncodedAll(cs) == s
    decreases |s|
  {
    if |s| == 0 {
      cs := [];
    } else {
      var n := CharLength(s);
      FirstIsEncoded(s);
      var rest := ValidIsEncoded(s[n..]);
      cs := [First(s)] + rest;
      assert cs[1..] == rest && s == s[..n] + s[n..];
    }
  }

  lemma {:induction false} EncodedIsValid(cs: seq<int>)
    requires Scalars(cs)
    ensures ValidUtf8(EncodedAll(cs))
  {
    if |cs| > 0 {
      EncodedIsValid(cs[1..]);
      EncodedIsFirst(cs[0], EncodedAll(cs[1..]));
      var s := EncodedAll(cs);
      assert s[CharLength(s)..] == EncodedAll(cs[1..]);
    }
  }

  ghost predicate SpeltBy(s: seq<byte>, cs: seq<int>) {
    Scalars(cs) && EncodedAll(cs) == s
  }

  /** Bytes are taken as text exactly when they are the UTF-8 of some scalar values. */
  lemma ValidUtf8Exactly(s: seq<byte>)
    ensures ValidUtf8(s) <==> exists cs :: SpeltBy(s, cs)
  {
    if ValidUtf8(s) {
      var cs := ValidIsEncoded(s);
      assert SpeltBy(s, cs);
    }
    if cs :| SpeltBy(s, cs) {
      EncodedIsValid(cs);
    }
  }

  // ---- names that spell an integer --------------------------------------------------------------------

  function Digits(ds: seq<int>): seq<byte>
    requires forall i :: 0 <= i < |ds| ==> 0 <= ds[i] < 10
  {
    seq(|ds|, i requires 0 <= i < |ds| => '0' as int + ds[i])
  }

  /** At least one decimal digit, after a minus sign or none. */
  ghost predicate SpellsInteger(s: seq<byte>, negative: bool, ds: seq<int>) {
    && |ds| > 0 && (forall i :: 0 <= i < |ds| ==> 0 <= ds[i] < 10)
    && s == (if negative then ['-' as int] else []) + Digits(ds)
  }

  lemma NumericExactly(s: seq<byte>)
    ensures Numeric(s) <==> exists negative, ds :: SpellsInteger(s, negative, ds)
  {
    if Numeric(s) {
      var negative := !AllDigits(s);
      var t := if negative then s[1..] else s;
      var ds := seq(|t|, i requires 0 <= i < |t| => t[i] - 48);
      assert SpellsInteger(s, negative, ds);
    }
    if negative, ds :| SpellsInteger(s, negative, ds) {
      assert AllDigits(Digits(ds));
      assert negative ==> s[1..] == Digits(ds);
    }
  }
}
