/**
 * The byte transcripts that get signed: length-prefixed concatenation, the
 * texts that go into it, and the older dot-joined device payload.
 */
module Transcripts {
  import opened Wrappers
  import opened Nonces
  import Decimal

  type byte = x: int | 0 <= x < 256

  const MAX_FIELD: int := 0xFFFF_FFFF
  const SHA256_LEN: nat := 32

  // ---- length prefixing ----------------------------------------------------------------

  /** Four bytes, big-endian. */
  function Uint32(n: int): (r: seq<byte>)
    requires 0 <= n <= MAX_FIELD
    ensures |r| == 4
  {
    [n / 0x100_0000, n / 0x1_0000 % 0x100, n / 0x100 % 0x100, n % 0x100]
  }

  predicate Countable(fields: seq<seq<byte>>) {
    forall i :: 0 <= i < |fields| ==> |fields[i]| <= MAX_FIELD
  }

  function LengthPrefixed(fields: seq<seq<byte>>): seq<byte>
    requires Countable(fields)
  {
    if |fields| == 0 then [] else Uint32(|fields[0]|) + fields[0] + LengthPrefixed(fields[1..])
  }

  lemma Uint32Injective(m: int, n: int)
    requires 0 <= m <= MAX_FIELD && 0 <= n <= MAX_FIELD && Uint32(m) == Uint32(n)
    ensures m == n
  {
    FromBytes(m);
    FromBytes(n);
    var a, b := Uint32(m), Uint32(n);
    assert a[0] == b[0] && a[1] == b[1] && a[2] == b[2] && a[3] == b[3];
  }

  lemma FromBytes(n: int)
    requires 0 <= n <= MAX_FIELD
    ensures var r := Uint32(n);
            n == ((r[0] as int * 0x100 + r[1] as int) * 0x100 + r[2] as int) * 0x100 + r[3] as int
  {
    assert n / 0x100 / 0x100 == n / 0x1_0000 && n / 0x1_0000 / 0x100 == n / 0x100_0000;
  }

  /** Two equal encodings start with the same field. */
  lemma SameFirstField(f: seq<byte>, more: seq<byte>, g: seq<byte>, others: seq<byte>)
    requires |f| <= MAX_FIELD && |g| <= MAX_FIELD
    requires Uint32(|f|) + f + more == Uint32(|g|) + g + others
    ensures f == g && more == others
  {
    var s := Uint32(|f|) + f + more;
    assert s[..4] == Uint32(|f|) && s[..4] == Uint32(|g|);
    Uint32Injective(|f|, |g|);
    assert s[4..4 + |f|] == f && s[4..4 + |g|] == g;
    assert s[4 + |f|..] == more && s[4 + |g|..] == others;
  }

  /** No two lists of byte strings share an encoding: boundaries are bound, not just bytes. */
  lemma {:induction false} LengthPrefixedInjective(a: seq<seq<byte>>, b: seq<seq<byte>>)
    requires Countable(a) && Countable(b)
    ensures LengthPrefixed(a) == LengthPrefixed(b) <==> a == b
    decreases |a|
  {
    if LengthPrefixed(a) == LengthPrefixed(b) && |a| > 0 && |b| > 0 {
      SameFirstField(a[0], LengthPrefixed(a[1..]), b[0], LengthPrefixed(b[1..]));
      LengthPrefixedInjective(a[1..], b[1..]);
      assert a == [a[0]] + a[1..] && b == [b[0]] + b[1..];
    }
  }

  function Total(fields: seq<seq<byte>>): nat {
    if |fields| == 0 then 0 else 4 + |fields[0]| + Total(fields[1..])
  }

  lemma {:induction false} TotalSplits(fields: seq<seq<byte>>, i: nat)
    requires i < |fields|
    ensures Total(fields[..i + 1]) == Total(fields[..i]) + 4 + |fields[i]|
    ensures Total(fields[..i + 1]) <= Total(fields)
    decreases |fields|
  {
    if i == 0 {
      assert fields[..1][1..] == [] && fields[..0] == [];
    } else {
      TotalSplits(fields[1..], i - 1);
      assert fields[..i + 1][1..] == fields[1..][..i] && fields[..i][1..] == fields[1..][..i - 1];
    }
  }

  lemma {:induction false} PrefixSplits(fields: seq<seq<byte>>, i: nat)
    requires Countable(fields) && i < |fields|
    ensures LengthPrefixed(fields[..i + 1]) == LengthPrefixed(fields[..i]) + Uint32(|fields[i]|) + fields[i]
    decreases |fields|
  {
    if i == 0 {
      assert fields[..1][1..] == [] && fields[..0] == [];
    } else {
      PrefixSplits(fields[1..], i - 1);
      assert fields[..i + 1][1..] == fields[1..][..i] && fields[..i][1..] == fields[1..][..i - 1];
    }
  }

  /** Size the buffer, then write prefix and field after field at a moving offset. */
  method WriteLengthPrefixed(fields: seq<seq<byte>>) returns (out: array?<byte>)
    ensures out == null <==> !Countable(fields)
    ensures out != null ==> fresh(out) && out[..] == LengthPrefixed(fields)
  {
    var total := 0;
    for i := 0 to |fields|
      invariant Countable(fields[..i]) && total == Total(fields[..i])
    {
      if |fields[i]| > MAX_FIELD {
        assert !Countable(fields);
        return null;
      }
      TotalSplits(fields, i);
      total := total + 4 + |fields[i]|;
    }
    assert fields[..|fields|] == fields;
    out := new byte[total];
    var offset := 0;
    for i := 0 to |fields|
      invariant offset == Total(fields[..i]) <= out.Length
      invariant out[..offset] == LengthPrefixed(fields[..i])
    {
      TotalSplits(fields, i);
      PrefixSplits(fields, i);
      WriteField(out, offset, fields[i]);
      offset := offset + 4 + |fields[i]|;
    }
  }

  method WriteField(out: array<byte>, offset: nat, field: seq<byte>)
    requires offset + 4 + |field| <= out.Length && |field| <= MAX_FIELD
    modifies out
    ensures out[..offset + 4 + |field|] == old(out[..offset]) + Uint32(|field|) + field
  {
    WriteAt(out, offset, Uint32(|field|));
    WriteAt(out, offset + 4, field);
  }

  /** out.set(bytes, offset) */
  method WriteAt(out: array<byte>, offset: nat, bytes: seq<byte>)
    requires offset + |bytes| <= out.Length
    modifies out
    ensures out[..offset] == old(out[..offset]) && out[..offset + |bytes|] == old(out[..offset]) + bytes
  {
    for k := 0 to |bytes|
      invariant out[..offset] == old(out[..offset])
      invariant out[offset..offset + k] == bytes[..k]
    {
      out[offset + k] := bytes[k];
    }
    assert out[..offset + |bytes|] == out[..offset] + out[offset..offset + |bytes|];
  }

  // ---- text ----------------------------------------------------------------------------------

  /** A JavaScript string: UTF-16 code units. */
  type Units = seq<int>

  predicate HighSurrogate(u: int) {
    0xD800 <= u < 0xDC00
  }

  predicate LowSurrogate(u: int) {
    0xDC00 <= u < 0xE000
  }

  function Paired(high: int, low: int): (c: int)
    ensures HighSurrogate(high) && LowSurrogate(low) ==> 0x1_0000 <= c < 0x11_0000
  {
    0x1_0000 + (high - 0xD800) * 0x400 + (low - 0xDC00)
  }

  /** Code points, lone surrogates kept as they are. */
  function CodePoints(u: Units): seq<int> {
    if |u| == 0 then []
    else if |u| > 1 && HighSurrogate(u[0]) && LowSurrogate(u[1]) then
      [Paired(u[0], u[1])] + CodePoints(u[2..])
    else [u[0]] + CodePoints(u[1..])
  }

  predicate Surrogate(c: int) {
    0xD800 <= c < 0xE000
  }

  predicate AllUnits(u: Units) {
    forall i :: 0 <= i < |u| ==> 0 <= u[i] < 0x1_0000
  }

  /** No lone surrogate: every half has its other half. */
  predicate WellFormed(u: Units) {
    AllUnits(u) && NoSurrogates(CodePoints(u))
  }

  /** The UTF-8 bytes of one scalar value. */
  function Utf8Char(c: int): (r: seq<byte>)
    requires 0 <= c < 0x11_0000
    ensures 1 <= |r| <= 4
  {
    if c < 0x80 then [c]
    else if c < 0x800 then [0xC0 + c / 0x40, 0x80 + c % 0x40]
    else if c < 0x1_0000 then [0xE0 + c / 0x1000, 0x80 + c / 0x40 % 0x40, 0x80 + c % 0x40]
    else [0xF0 + c / 0x4_0000, 0x80 + c / 0x1000 % 0x40, 0x80 + c / 0x40 % 0x40, 0x80 + c % 0x40]
  }

  predicate IsCodePoint(c: int) {
    0 <= c < 0x11_0000
  }

  /** TextEncoder replaces a lone surrogate by U+FFFD. */
  function Replaced(c: int): int {
    if Surrogate(c) then 0xFFFD else c
  }

  predicate InRange(cs: seq<int>) {
    forall i :: 0 <= i < |cs| ==> IsCodePoint(cs[i])
  }

  function Utf8Of(cs: seq<int>): seq<byte>
    requires InRange(cs)
  {
    if |cs| == 0 then [] else Utf8Char(Replaced(cs[0])) + Utf8Of(cs[1..])
  }

  lemma {:induction false} CodePointsInRange(u: Units)
    requires AllUnits(u)
    ensures InRange(CodePoints(u))
    decreases |u|
  {
    if |u| > 1 && HighSurrogate(u[0]) && LowSurrogate(u[1]) {
      CodePointsInRange(u[2..]);
    } else if |u| > 0 {
      CodePointsInRange(u[1..]);
    }
  }

  function Utf8(u: Units): seq<byte>
    requires AllUnits(u)
  {
    CodePointsInRange(u);
    Utf8Of(CodePoints(u))
  }

  /** The string TextEncoder really encodes: each lone surrogate becomes U+FFFD. */
  function Repaired(u: Units): Units {
    if |u| == 0 then []
    else if |u| > 1 && HighSurrogate(u[0]) && LowSurrogate(u[1]) then u[..2] + Repaired(u[2..])
    else [Replaced(u[0])] + Repaired(u[1..])
  }

  function AllReplaced(cs: seq<int>): seq<int> {
    if |cs| == 0 then [] else [Replaced(cs[0])] + AllReplaced(cs[1..])
  }

  lemma PairedCodePoints(u: Units)
    requires |u| > 1 && HighSurrogate(u[0]) && LowSurrogate(u[1])
    ensures CodePoints(u) == [Paired(u[0], u[1])] + CodePoints(u[2..])
  {
  }

  lemma {:induction false} RepairedCodePoints(u: Units)
    requires AllUnits(u)
    ensures AllUnits(Repaired(u)) && CodePoints(Repaired(u)) == AllReplaced(CodePoints(u))
    decreases |u|
  {
    if |u| > 1 && HighSurrogate(u[0]) && LowSurrogate(u[1]) {
      RepairedCodePoints(u[2..]);
      PairedCodePoints(u);
      PairedCodePoints(Repaired(u));
      assert Repaired(u)[2..] == Repaired(u[2..]);
      assert !Surrogate(CodePoints(u)[0]) && CodePoints(u)[1..] == CodePoints(u[2..]);
    } else if |u| > 0 {
      RepairedCodePoints(u[1..]);
      assert Repaired(u)[1..] == Repaired(u[1..]);
    }
  }

  function UnitsOf(cs: seq<int>): Units {
    if |cs| == 0 then []
    else if cs[0] >= 0x1_0000 then
      [0xD800 + (cs[0] - 0x1_0000) / 0x400, 0xDC00 + (cs[0] - 0x1_0000) % 0x400] + UnitsOf(cs[1..])
    else [cs[0]] + UnitsOf(cs[1..])
  }

  lemma {:induction false} UnitsInvert(u: Units)
    requires AllUnits(u)
    ensures UnitsOf(CodePoints(u)) == u
    decreases |u|
  {
    if |u| > 1 && HighSurrogate(u[0]) && LowSurrogate(u[1]) {
      UnitsInvert(u[2..]);
      assert u == [u[0], u[1]] + u[2..];
      assert CodePoints(u)[1..] == CodePoints(u[2..]);
    } else if |u| > 0 {
      UnitsInvert(u[1..]);
      assert u == [u[0]] + u[1..];
      assert CodePoints(u)[1..] == CodePoints(u[1..]);
    }
  }

  function Length(c: int): nat {
    if c < 0x80 then 1 else if c < 0x800 then 2 else if c < 0x1_0000 then 3 else 4
  }

  lemma FirstByteTellsLength(c: int)
    requires IsCodePoint(c)
    ensures var b := Utf8Char(c)[0] as int;
            |Utf8Char(c)| == Length(c) == if b < 0x80 then 1 else if b < 0xE0 then 2 else if b < 0xF0 then 3 else 4
  {
  }

  /** A character read back from its bytes. */
  function CharOf(r: seq<byte>): int
    requires 1 <= |r| <= 4
  {
    if |r| == 1 then r[0] as int
    else if |r| == 2 then (r[0] as int - 0xC0) * 0x40 + (r[1] as int - 0x80)
    else if |r| == 3 then ((r[0] as int - 0xE0) * 0x40 + (r[1] as int - 0x80)) * 0x40 + (r[2] as int - 0x80)
    else (((r[0] as int - 0xF0) * 0x40 + (r[1] as int - 0x80)) * 0x40 + (r[2] as int - 0x80)) * 0x40
         + (r[3] as int - 0x80)
  }

  lemma CharInverts(c: int)
    requires IsCodePoint(c)
    ensures CharOf(Utf8Char(c)) == c
  {
    var a := c / 0x40;
    var b := a / 0x40;
    assert c / 0x1000 == b && b / 0x40 == c / 0x4_0000;
  }

  lemma SameFirstChar(c: int, x: seq<byte>, d: int, y: seq<byte>)
    requires IsCodePoint(c) && IsCodePoint(d) && Utf8Char(c) + x == Utf8Char(d) + y
    ensures c == d && x == y
  {
    var s := Utf8Char(c) + x;
    assert s[0] == Utf8Char(c)[0] && s[0] == Utf8Char(d)[0];
    FirstByteTellsLength(c);
    FirstByteTellsLength(d);
    assert s[..|Utf8Char(c)|] == Utf8Char(c) && s[..|Utf8Char(d)|] == Utf8Char(d);
    assert s[|Utf8Char(c)|..] == x && s[|Utf8Char(d)|..] == y;
    CharInverts(c);
    CharInverts(d);
  }

  lemma {:induction false} Utf8OfInjective(a: seq<int>, b: seq<int>)
    requires InRange(a) && InRange(b)
    ensures Utf8Of(a) == Utf8Of(b) <==> AllReplaced(a) == AllReplaced(b)
    decreases |a| + |b|
  {
    if |a| > 0 && |b| > 0 {
      Utf8OfInjective(a[1..], b[1..]);
      var c, d := Replaced(a[0]), Replaced(b[0]);
      if Utf8Of(a) == Utf8Of(b) {
        SameFirstChar(c, Utf8Of(a[1..]), d, Utf8Of(b[1..]));
      }
      if AllReplaced(a) == AllReplaced(b) {
        assert AllReplaced(a)[0] == c && AllReplaced(b)[0] == d;
        assert AllReplaced(a)[1..] == AllReplaced(a[1..]) && AllReplaced(b)[1..] == AllReplaced(b[1..]);
      }
    }
  }

  /** Two strings have the same bytes exactly when they agree up to their lone surrogates. */
  lemma Utf8UpToRepair(u: Units, v: Units)
    requires AllUnits(u) && AllUnits(v)
    ensures Utf8(u) == Utf8(v) <==> Repaired(u) == Repaired(v)
  {
    CodePointsInRange(u);
    CodePointsInRange(v);
    Utf8OfInjective(CodePoints(u), CodePoints(v));
    RepairedCodePoints(u);
    RepairedCodePoints(v);
    UnitsInvert(Repaired(u));
    UnitsInvert(Repaired(v));
  }

  predicate NoSurrogates(cs: seq<int>) {
    forall i :: 0 <= i < |cs| ==> !Surrogate(cs[i])
  }

  lemma NoSurrogatesCons(cs: seq<int>)
    requires |cs| > 0
    ensures NoSurrogates(cs) <==> !Surrogate(cs[0]) && NoSurrogates(cs[1..])
  {
    assert cs == [cs[0]] + cs[1..];
  }

  lemma {:induction false} NothingReplaced(cs: seq<int>)
    ensures AllReplaced(cs) == cs <==> NoSurrogates(cs)
  {
    if |cs| > 0 {
      NothingReplaced(cs[1..]);
      NoSurrogatesCons(cs);
      assert cs == [cs[0]] + cs[1..];
      assert AllReplaced(cs)[0] == Replaced(cs[0]) && AllReplaced(cs)[1..] == AllReplaced(cs[1..]);
    }
  }

  /**
   * Text becomes bytes one way only exactly on well-formed strings: those are
   * told apart by their bytes, and every other string collides with its repair.
   */
  lemma Utf8InjectiveExactly(u: Units)
    requires AllUnits(u)
    ensures AllUnits(Repaired(u))
    ensures WellFormed(u) <==> Repaired(u) == u
    ensures WellFormed(u) ==> forall v :: WellFormed(v) && Utf8(v) == Utf8(u) ==> v == u
    ensures !WellFormed(u) ==> Repaired(u) != u && WellFormed(Repaired(u)) && Utf8(Repaired(u)) == Utf8(u)
  {
    RepairIsExact(u);
    RepairedCodePoints(u);
    RepairIsExact(Repaired(u));
    RepairedTwice(CodePoints(u));
    UnitsInvert(Repaired(u));
    RepairedCodePoints(Repaired(u));
    UnitsInvert(Repaired(Repaired(u)));
    Utf8UpToRepair(Repaired(u), u);
    forall v | WellFormed(v) && Utf8(v) == Utf8(u)
      ensures Repaired(v) == v && Repaired(u) == Repaired(v)
    {
      RepairIsExact(v);
      Utf8UpToRepair(v, u);
    }
  }

  lemma RepairIsExact(u: Units)
    requires AllUnits(u)
    ensures WellFormed(u) <==> Repaired(u) == u
  {
    RepairedCodePoints(u);
    NothingReplaced(CodePoints(u));
    UnitsInvert(u);
    UnitsInvert(Repaired(u));
  }

  lemma {:induction false} RepairedTwice(cs: seq<int>)
    ensures AllReplaced(AllReplaced(cs)) == AllReplaced(cs)
  {
    if |cs| > 0 {
      RepairedTwice(cs[1..]);
      assert AllReplaced(cs)[1..] == AllReplaced(cs[1..]);
    }
  }

  // ---- the signed transcripts ------------------------------------------------------------------

  const DEVICE_SIG_LABEL: string := "ownerswitch/device-sig/v1"
  const ENROLL_POP_LABEL: string := "ownerswitch/enroll-cheap-lane/v1"
  const MAX_SAFE_INTEGER: int := 0x1F_FFFF_FFFF_FFFF

  /** A string as the app holds it. */
  type Text = u: Units | AllUnits(u)

  predicate IsAscii(s: string) {
    forall i :: 0 <= i < |s| ==> s[i] as int < 0x80
  }

  function ToUnits(s: string): (u: Text)
    requires IsAscii(s)
    ensures |u| == |s| && forall i :: 0 <= i < |s| ==> u[i] == s[i] as int
  {
    seq(|s|, i requires 0 <= i < |s| => s[i] as int)
  }

  lemma DecimalIsAscii(n: int)
    ensures IsAscii(Decimal.Text(n))
  {
  }

  datatype DeviceSigFields = DeviceSigFields(
    deviceId: Text, verb: Text, pathAndQuery: Text, bodyHash: seq<byte>, timestamp: int, nonce: Text)

  predicate UpperHex(u: int) {
    48 <= u <= 57 || 65 <= u <= 70
  }

  /**
   * Already-serialized request target: origin form, printable ASCII, no
   * fragment, complete upper-case percent escapes.
   */
  predicate CanonicalTarget(p: Text) {
    && |p| > 0 && p[0] == 47
    && (forall i :: 0 <= i < |p| ==> 0x21 <= p[i] <= 0x7E && p[i] != 35)
    && (forall i :: 0 <= i < |p| && p[i] == 37 ==> i + 2 < |p| && UpperHex(p[i + 1]) && UpperHex(p[i + 2]))
  }

  /** `verbatim`: the running URL serializer transmits the target as it stands. */
  predicate Signable(f: DeviceSigFields, verbatim: bool) {
    |f.bodyHash| == SHA256_LEN && -MAX_SAFE_INTEGER <= f.timestamp <= MAX_SAFE_INTEGER
    && CanonicalTarget(f.pathAndQuery) && verbatim
  }

  /** Texts and raw bytes in the pinned order; `upper` is toUpperCase. */
  function DeviceSigParts(f: DeviceSigFields, upper: Text -> Text): seq<seq<byte>> {
    DecimalIsAscii(f.timestamp);
    [Utf8(ToUnits(DEVICE_SIG_LABEL)), Utf8(f.deviceId), Utf8(upper(f.verb)), Utf8(f.pathAndQuery), f.bodyHash,
     Utf8(ToUnits(Decimal.Text(f.timestamp))), Utf8(f.nonce)]
  }

  /** The preimage, or a refusal: a field in the wrong form, or one too long to count. */
  function DeviceSigPreimage(f: DeviceSigFields, upper: Text -> Text, verbatim: bool): Option<seq<byte>> {
    if Signable(f, verbatim) && Countable(DeviceSigParts(f, upper)) then Some(LengthPrefixed(DeviceSigParts(f, upper)))
    else None
  }

  datatype EnrollPopFields = EnrollPopFields(inviteId: Text, ownerId: Text, credentialId: seq<byte>, spki: seq<byte>)

  function EnrollPopParts(f: EnrollPopFields): seq<seq<byte>> {
    [Utf8(ToUnits(ENROLL_POP_LABEL)), Utf8(f.inviteId), Utf8(f.ownerId), f.credentialId, f.spki]
  }

  function EnrollPopTranscript(f: EnrollPopFields): Option<seq<byte>> {
    if Countable(EnrollPopParts(f)) then Some(LengthPrefixed(EnrollPopParts(f))) else None
  }

  predicate SameText(u: Text, v: Text) {
    Repaired(u) == Repaired(v)
  }

  lemma {:induction false} AsciiIsWellFormed(u: Units)
    requires forall i :: 0 <= i < |u| ==> 0 <= u[i] < 0x80
    ensures WellFormed(u) && Repaired(u) == u
  {
    if |u| > 0 {
      AsciiIsWellFormed(u[1..]);
      assert CodePoints(u) == [u[0]] + CodePoints(u[1..]);
      assert u == [u[0]] + u[1..];
    }
  }

  lemma TimestampsAgree(m: int, n: int)
    ensures IsAscii(Decimal.Text(m)) && IsAscii(Decimal.Text(n))
    ensures Utf8(ToUnits(Decimal.Text(m))) == Utf8(ToUnits(Decimal.Text(n))) <==> m == n
  {
    DecimalIsAscii(m);
    DecimalIsAscii(n);
    var s, t := Decimal.Text(m), Decimal.Text(n);
    AsciiIsWellFormed(ToUnits(s));
    AsciiIsWellFormed(ToUnits(t));
    Utf8UpToRepair(ToUnits(s), ToUnits(t));
    if ToUnits(s) == ToUnits(t) {
      assert forall i :: 0 <= i < |s| ==> s[i] as int == ToUnits(s)[i] && t[i] as int == ToUnits(t)[i];
      assert s == t;
    }
    Decimal.TextInjective(m, n);
  }

  /**
   * Two device signatures cover the same bytes exactly when every field
   * agrees: the path and body hash to the byte, the timestamp as a number, the
   * method up to case, and the texts up to lone surrogates.
   */
  lemma DeviceSigBindsEveryField(f: DeviceSigFields, g: DeviceSigFields, upper: Text -> Text, vf: bool, vg: bool)
    requires DeviceSigPreimage(f, upper, vf).Some? && DeviceSigPreimage(g, upper, vg).Some?
    ensures DeviceSigPreimage(f, upper, vf) == DeviceSigPreimage(g, upper, vg) <==>
              && SameText(f.deviceId, g.deviceId) && SameText(upper(f.verb), upper(g.verb))
              && f.pathAndQuery == g.pathAndQuery && f.bodyHash == g.bodyHash
              && f.timestamp == g.timestamp && SameText(f.nonce, g.nonce)
  {
    var a, b := DeviceSigParts(f, upper), DeviceSigParts(g, upper);
    LengthPrefixedInjective(a, b);
    Utf8UpToRepair(f.deviceId, g.deviceId);
    Utf8UpToRepair(upper(f.verb), upper(g.verb));
    Utf8UpToRepair(f.pathAndQuery, g.pathAndQuery);
    AsciiIsWellFormed(f.pathAndQuery);
    AsciiIsWellFormed(g.pathAndQuery);
    TimestampsAgree(f.timestamp, g.timestamp);
    Utf8UpToRepair(f.nonce, g.nonce);
    SevenPartsAgree(a, b);
  }

  lemma SevenPartsAgree(a: seq<seq<byte>>, b: seq<seq<byte>>)
    requires |a| == |b| == 7
    ensures a == b <==> a[0] == b[0] && a[1] == b[1] && a[2] == b[2] && a[3] == b[3] && a[4] == b[4]
                        && a[5] == b[5] && a[6] == b[6]
  {
  }

  /** The enrolment transcript likewise, with its credential id and key as raw bytes. */
  lemma EnrollPopBindsEveryField(f: EnrollPopFields, g: EnrollPopFields)
    requires EnrollPopTranscript(f).Some? && EnrollPopTranscript(g).Some?
    ensures EnrollPopTranscript(f) == EnrollPopTranscript(g) <==>
              SameText(f.inviteId, g.inviteId) && SameText(f.ownerId, g.ownerId)
              && f.credentialId == g.credentialId && f.spki == g.spki
  {
    var a, b := EnrollPopParts(f), EnrollPopParts(g);
    LengthPrefixedInjective(a, b);
    Utf8UpToRepair(f.inviteId, g.inviteId);
    Utf8UpToRepair(f.ownerId, g.ownerId);
    assert a == b <==> a[0] == b[0] && a[1] == b[1] && a[2] == b[2] && a[3] == b[3] && a[4] == b[4];
  }

  /** A device signature never doubles as an enrolment proof. */
  lemma LabelsSeparateTheLanes(f: DeviceSigFields, upper: Text -> Text, verbatim: bool, g: EnrollPopFields)
    requires DeviceSigPreimage(f, upper, verbatim).Some? && EnrollPopTranscript(g).Some?
    ensures DeviceSigPreimage(f, upper, verbatim) != EnrollPopTranscript(g)
  {
    LengthPrefixedInjective(DeviceSigParts(f, upper), EnrollPopParts(g));
  }

  // ---- the dot-joined device payload ------------------------------------------------------------

  function SignedPayload(c: Credential, rawBody: string): string {
    c.deviceId + "." + Decimal.Text(c.timestamp) + "." + c.nonce + "." + rawBody
  }

  lemma DecimalHasNoDot(n: int)
    ensures '.' !in Decimal.Text(n)
  {
  }

  /** Signed payloads determine every field, while ids and nonces are free of dots. */
  lemma SignedPayloadInjective(a: Credential, x: string, b: Credential, y: string)
    requires a.lane.Device? && b.lane.Device? && Unambiguous(a) && Unambiguous(b)
    ensures SignedPayload(a, x) == SignedPayload(b, y) <==> a == b && x == y
  {
    if SignedPayload(a, x) == SignedPayload(b, y) {
      var s, t := Decimal.Text(a.timestamp), Decimal.Text(b.timestamp);
      var m, n := a.nonce + "." + x, b.nonce + "." + y;
      assert SignedPayload(a, x) == a.deviceId + "." + (s + "." + m);
      assert SignedPayload(b, y) == b.deviceId + "." + (t + "." + n);
      SplitsOnce(a.deviceId, s + "." + m, b.deviceId, t + "." + n, '.');
      DecimalHasNoDot(a.timestamp);
      DecimalHasNoDot(b.timestamp);
      SplitsOnce(s, m, t, n, '.');
      SplitsOnce(a.nonce, x, b.nonce, y, '.');
      Decimal.TextInjective(a.timestamp, b.timestamp);
    }
  }

  /** With a dot in the nonce one signed text is two credentials, so the guard is needed. */
  lemma DotsAreAmbiguous(deviceId: string, timestamp: int, u: string, v: string, body: string)
    ensures var a := Credential(Device, deviceId, timestamp, u + "." + v);
            var b := Credential(Device, deviceId, timestamp, u);
            SignedPayload(a, body) == SignedPayload(b, v + "." + body) && a != b && !Unambiguous(a)
  {
    var head := deviceId + "." + Decimal.Text(timestamp) + ".";
    assert head + (u + "." + v) + "." + body == head + u + "." + (v + "." + body);
    assert (u + "." + v)[|u|] == '.';
    assert |u + "." + v| > |u|;
  }
}
