/**
 * What a signature covers, read back from its bytes: the fields of the two
 * transcripts, in their pinned order, and when there is anything to sign.
 */
module TranscriptFields {
  import opened Wrappers
  import opened Transcripts
  import Decimal
  import Nonces

  // ---- reading fields --------------------------------------------------------------------------

  function BigEndian(s: seq<byte>): nat
    requires |s| == 4
  {
    ((s[0] as int * 0x100 + s[1] as int) * 0x100 + s[2] as int) * 0x100 + s[3] as int
  }

  /** Count, take that many bytes, and go on, to the last byte. */
  function ReadFields(s: seq<byte>): Option<seq<seq<byte>>> {
    if |s| == 0 then Some([])
    else if |s| < 4 || |s| - 4 < BigEndian(s[..4]) then None
    else
      var n := BigEndian(s[..4]);
      match ReadFields(s[4 + n..])
      case None => None
      case Some(rest) => Some([s[4..4 + n]] + rest)
  }

  lemma CountReads(n: int)
    requires 0 <= n <= MAX_FIELD
    ensures BigEndian(Uint32(n)) == n
  {
    FromBytes(n);
  }

  lemma CountIsRead(s: seq<byte>)
    requires |s| == 4
    ensures BigEndian(s) <= MAX_FIELD && Uint32(BigEndian(s)) == s
  {
    var n := BigEndian(s);
    assert n / 0x100_0000 == s[0] as int;
    assert n / 0x1_0000 == s[0] as int * 0x100 + s[1] as int;
    assert n / 0x100 == (s[0] as int * 0x100 + s[1] as int) * 0x100 + s[2] as int;
  }

  /** A list reads back from its encoding, and nothing else does. */
  lemma {:induction false} FieldsRead(fields: seq<seq<byte>>)
    requires Countable(fields)
    ensures ReadFields(LengthPrefixed(fields)) == Some(fields)
    decreases |fields|
  {
    if |fields| > 0 {
      var n, rest := |fields[0]|, LengthPrefixed(fields[1..]);
      var s := Uint32(n) + fields[0] + rest;
      CountReads(n);
      assert s[..4] == Uint32(n) && s[4..4 + n] == fields[0] && s[4 + n..] == rest;
      FieldsRead(fields[1..]);
      assert [fields[0]] + fields[1..] == fields;
    }
  }

  /** One field read: its count, its bytes, and what is left. */
  lemma FirstRead(s: seq<byte>, fields: seq<seq<byte>>) returns (n: nat)
    requires ReadFields(s) == Some(fields) && |s| > 0
    ensures |fields| > 0 && n <= MAX_FIELD && 4 + n <= |s| && |fields[0]| == n
    ensures s == Uint32(n) + fields[0] + s[4 + n..] && ReadFields(s[4 + n..]) == Some(fields[1..])
  {
    hide BigEndian, Uint32;
    n := BigEndian(s[..4]);
    CountIsRead(s[..4]);
    assert s == s[..4] + s[4..4 + n] + s[4 + n..];
  }

  lemma WrittenCons(field: seq<byte>, rest: seq<seq<byte>>)
    requires |field| <= MAX_FIELD && Countable(rest)
    ensures Countable([field] + rest)
    ensures LengthPrefixed([field] + rest) == Uint32(|field|) + field + LengthPrefixed(rest)
  {
    assert ([field] + rest)[1..] == rest;
  }

  lemma {:induction false} ReadIsWritten(s: seq<byte>, fields: seq<seq<byte>>)
    requires ReadFields(s) == Some(fields)
    ensures Countable(fields) && LengthPrefixed(fields) == s
    decreases |s|
  {
    hide BigEndian, Uint32;
    if |s| > 0 {
      var n := FirstRead(s, fields);
      ReadIsWritten(s[4 + n..], fields[1..]);
      WrittenCons(fields[0], fields[1..]);
      assert fields == [fields[0]] + fields[1..];
    }
  }

  /** The reader takes exactly the encodings: bytes and fields determine each other. */
  lemma FieldsReadExactly(s: seq<byte>, fields: seq<seq<byte>>)
    ensures ReadFields(s) == Some(fields) <==> Countable(fields) && LengthPrefixed(fields) == s
  {
    if Countable(fields) && LengthPrefixed(fields) == s {
      FieldsRead(fields);
    }
    if ReadFields(s) == Some(fields) {
      ReadIsWritten(s, fields);
    }
  }

  // ---- reading text ------------------------------------------------------------------------------

  /** How many bytes a character takes, by its first. */
  function Width(b: byte): nat {
    if b < 0x80 then 1 else if b < 0xE0 then 2 else if b < 0xF0 then 3 else 4
  }

  function CharsOf(s: seq<byte>): seq<int> {
    if |s| == 0 || |s| < Width(s[0]) then []
    else [CharOf(s[..Width(s[0])])] + CharsOf(s[Width(s[0])..])
  }

  function TextOf(s: seq<byte>): Units {
    UnitsOf(CharsOf(s))
  }

  lemma {:induction false} CharsRead(cs: seq<int>)
    requires InRange(cs)
    ensures CharsOf(Utf8Of(cs)) == AllReplaced(cs)
    decreases |cs|
  {
    if |cs| > 0 {
      var c := Replaced(cs[0]);
      var first, rest := Utf8Char(c), Utf8Of(cs[1..]);
      CharInverts(c);
      FirstByteTellsLength(c);
      assert (first + rest)[0] == first[0];
      assert (first + rest)[..|first|] == first && (first + rest)[|first|..] == rest;
      CharsRead(cs[1..]);
    }
  }

  /** Text reads back from its bytes, each lone surrogate as U+FFFD. */
  lemma TextReads(u: Text)
    ensures TextOf(Utf8(u)) == Repaired(u)
  {
    CodePointsInRange(u);
    CharsRead(CodePoints(u));
    RepairedCodePoints(u);
    UnitsInvert(Repaired(u));
  }

  /** The bytes of an ASCII text are its characters. */
  lemma {:induction false} AsciiBytes(u: Text)
    requires forall i :: 0 <= i < |u| ==> u[i] < 0x80
    ensures Utf8(u) == u
    decreases |u|
  {
    CodePointsInRange(u);
    if |u| > 0 {
      var rest: Text := u[1..];
      AsciiBytes(rest);
      assert CodePoints(u) == [u[0]] + CodePoints(u[1..]);
      assert Utf8Of(CodePoints(u)) == Utf8Char(u[0]) + Utf8Of(CodePoints(u)[1..]);
      assert CodePoints(u)[1..] == CodePoints(u[1..]);
      assert u == [u[0]] + u[1..];
    }
  }

  function CharsIn(s: seq<byte>): string {
    seq(|s|, i requires 0 <= i < |s| => s[i] as char)
  }

  /** A decimal number, read digit by digit. */
  function NumberOf(s: seq<byte>): int {
    if |s| > 0 && s[0] == 45 then -Decimal.ValueOf(CharsIn(s[1..])) else Decimal.ValueOf(CharsIn(s))
  }

  lemma NumberReads(n: int)
    ensures IsAscii(Decimal.Text(n))
    ensures NumberOf(Utf8(ToUnits(Decimal.Text(n)))) == n
  {
    DecimalIsAscii(n);
    var s := Decimal.Text(n);
    var b := ToUnits(s);
    AsciiBytes(b);
    assert CharsIn(Utf8(b)) == s;
    Decimal.DigitsInvert(if n >= 0 then n else -n);
    if n < 0 {
      assert s[1..] == Decimal.Digits(-n);
      assert CharsIn(Utf8(b)[1..]) == s[1..];
    } else {
      assert Decimal.IsDigit(s[0]);
    }
  }

  lemma LabelReads(s: string)
    requires IsAscii(s)
    ensures CharsIn(Utf8(ToUnits(s))) == s
  {
    AsciiBytes(ToUnits(s));
  }

  // ---- which characters are which ------------------------------------------------------------------

  /** Every scalar value is text, and its bytes are its UTF-8 form. */
  lemma ScalarIsText(c: int)
    requires 0 <= c < 0x11_0000 && !(0xD800 <= c < 0xE000)
    ensures var u := UnitsOf([c]);
            AllUnits(u) && WellFormed(u) && CodePoints(u) == [c]
            && Utf8(u) == if c < 0x80 then [c]
                          else if c < 0x800 then [0xC0 + c / 0x40, 0x80 + c % 0x40]
                          else if c < 0x1_0000 then [0xE0 + c / 0x1000, 0x80 + c / 0x40 % 0x40, 0x80 + c % 0x40]
                          else [0xF0 + c / 0x4_0000, 0x80 + c / 0x1000 % 0x40, 0x80 + c / 0x40 % 0x40,
                                0x80 + c % 0x40]
  {
    hide Utf8Char;
    var u := UnitsOf([c]);
    assert [c][1..] == [];
    if c >= 0x1_0000 {
      PairOf(c);
    } else {
      assert u == [c] && u[1..] == [] && CodePoints(u[1..]) == [];
    }
    assert CodePoints(u) == [c];
    assert Utf8Of([c]) == Utf8Char(Replaced(c)) + Utf8Of([c][1..]);
    ScalarBytes(c);
  }

  lemma PairOf(c: int)
    requires 0x1_0000 <= c < 0x11_0000
    ensures var high, low := 0xD800 + (c - 0x1_0000) / 0x400, 0xDC00 + (c - 0x1_0000) % 0x400;
            && UnitsOf([c]) == [high, low] && HighSurrogate(high) && LowSurrogate(low) && Paired(high, low) == c
            && CodePoints([high, low]) == [c]
  {
    var high, low := 0xD800 + (c - 0x1_0000) / 0x400, 0xDC00 + (c - 0x1_0000) % 0x400;
    assert [c][1..] == [] && [high, low][2..] == [];
  }

  lemma ScalarBytes(c: int)
    requires 0 <= c < 0x11_0000 && !(0xD800 <= c < 0xE000)
    ensures Utf8Char(Replaced(c))
            == if c < 0x80 then [c]
               else if c < 0x800 then [0xC0 + c / 0x40, 0x80 + c % 0x40]
               else if c < 0x1_0000 then [0xE0 + c / 0x1000, 0x80 + c / 0x40 % 0x40, 0x80 + c % 0x40]
               else [0xF0 + c / 0x4_0000, 0x80 + c / 0x1000 % 0x40, 0x80 + c / 0x40 % 0x40, 0x80 + c % 0x40]
  {
  }

  /** A lone half of a pair is no text, and its bytes are the replacement character's. */
  lemma LoneHalfIsReplaced(h: int)
    requires 0xD800 <= h < 0xE000
    ensures AllUnits([h]) && !WellFormed([h]) && Utf8([h]) == [0xEF, 0xBF, 0xBD]
  {
    assert [h][1..] == [] && CodePoints([h]) == [h];
    assert Utf8Of([h]) == Utf8Char(Replaced(h)) + Utf8Of([h][1..]);
  }

  // ---- request targets -----------------------------------------------------------------------------

  /** A piece of a target: a character that stands for itself, or one byte as two upper-case hex digits. */
  datatype Piece = Plain(c: int) | Escape(high: int, low: int)

  predicate HexDigit(d: int) {
    '0' as int <= d <= '9' as int || 'A' as int <= d <= 'F' as int
  }

  /** Plain: printable ASCII, and neither the fragment sign nor the escape sign. */
  predicate Lawful(p: Piece) {
    match p
    case Plain(c) => ' ' as int < c <= '~' as int && c != '#' as int && c != '%' as int
    case Escape(high, low) => HexDigit(high) && HexDigit(low)
  }

  function SpellPiece(p: Piece): seq<int> {
    match p
    case Plain(c) => [c]
    case Escape(high, low) => ['%' as int, high, low]
  }

  function Spell(ps: seq<Piece>): seq<int> {
    if |ps| == 0 then [] else SpellPiece(ps[0]) + Spell(ps[1..])
  }

  predicate AllLawful(ps: seq<Piece>) {
    forall i :: 0 <= i < |ps| ==> Lawful(ps[i])
  }

  /** What a canonical target is made of, from any point between two pieces on. */
  predicate Clean(u: seq<int>) {
    && (forall i :: 0 <= i < |u| ==> 0x21 <= u[i] <= 0x7E && u[i] != 35)
    && (forall i :: 0 <= i < |u| && u[i] == 37 ==> i + 2 < |u| && UpperHex(u[i + 1]) && UpperHex(u[i + 2]))
  }

  predicate CleanAt(u: seq<int>, i: int)
    requires 0 <= i < |u|
  {
    && 0x21 <= u[i] <= 0x7E && u[i] != 35
    && (u[i] == 37 ==> i + 2 < |u| && UpperHex(u[i + 1]) && UpperHex(u[i + 2]))
  }

  /** What is clean at a place stays clean with more in front. */
  lemma CleanShifts(first: seq<int>, rest: seq<int>, i: nat)
    requires |first| <= i < |first + rest| && CleanAt(rest, i - |first|)
    ensures CleanAt(first + rest, i)
  {
  }

  lemma PieceIsClean(p: Piece, rest: seq<int>, i: nat)
    requires Lawful(p) && i < |SpellPiece(p)|
    ensures CleanAt(SpellPiece(p) + rest, i)
  {
  }

  lemma {:induction false} SpelledIsClean(ps: seq<Piece>)
    requires AllLawful(ps)
    ensures forall i :: 0 <= i < |Spell(ps)| ==> CleanAt(Spell(ps), i)
  {
    hide CleanAt, SpellPiece, Lawful;
    if |ps| > 0 {
      SpelledIsClean(ps[1..]);
      var first, rest := SpellPiece(ps[0]), Spell(ps[1..]);
      forall i | 0 <= i < |first + rest|
        ensures CleanAt(first + rest, i)
      {
        if i < |first| {
          PieceIsClean(ps[0], rest, i);
        } else {
          CleanShifts(first, rest, i);
        }
      }
    }
  }

  lemma {:induction false} CleanIsSpelled(u: seq<int>) returns (ps: seq<Piece>)
    requires Clean(u)
    ensures AllLawful(ps) && Spell(ps) == u
    decreases |u|
  {
    if |u| == 0 {
      ps := [];
    } else if u[0] == 37 {
      CleanTail(u, 3);
      var rest := CleanIsSpelled(u[3..]);
      ps := [Escape(u[1], u[2])] + rest;
      assert ps[1..] == rest && u == [u[0], u[1], u[2]] + u[3..];
    } else {
      CleanTail(u, 1);
      var rest := CleanIsSpelled(u[1..]);
      ps := [Plain(u[0])] + rest;
      assert ps[1..] == rest && u == [u[0]] + u[1..];
    }
  }

  lemma CleanTail(u: seq<int>, n: nat)
    requires Clean(u) && n <= |u|
    ensures Clean(u[n..])
  {
  }

  /** A slash, and then these pieces, each lawful. */
  predicate SpelledBy(p: Text, ps: seq<Piece>) {
    AllLawful(ps) && p == ['/' as int] + Spell(ps)
  }

  /** A target is canonical exactly when it is a slash and then lawful pieces. */
  lemma CanonicalTargetExactly(p: Text)
    ensures CanonicalTarget(p) <==> exists ps :: SpelledBy(p, ps)
  {
    if CanonicalTarget(p) {
      CleanTail(p, 1);
      var ps := CleanIsSpelled(p[1..]);
      assert SpelledBy(p, ps);
    }
    if ps :| SpelledBy(p, ps) {
      SpelledIsClean(ps);
      forall i | 0 <= i < |p|
        ensures CleanAt(p, i)
      {
        if i > 0 {
          CleanShifts(['/' as int], Spell(ps), i);
        }
      }
      CleanIsCanonical(p);
    }
  }

  lemma CleanIsCanonical(p: Text)
    requires |p| > 0 && p[0] == 47 && forall i :: 0 <= i < |p| ==> CleanAt(p, i)
    ensures CanonicalTarget(p)
  {
    forall i | 0 <= i < |p| && p[i] == 37
      ensures i + 2 < |p| && UpperHex(p[i + 1]) && UpperHex(p[i + 2])
    {
      assert CleanAt(p, i);
    }
    forall i | 0 <= i < |p|
      ensures 0x21 <= p[i] <= 0x7E && p[i] != 35
    {
      assert CleanAt(p, i);
    }
  }

  // ---- the two transcripts ---------------------------------------------------------------------------

  /** A text short enough to be counted in four bytes. */
  predicate Counted(u: Text) {
    |Utf8(u)| <= 0xFFFF_FFFF
  }

  /** Label, device, method, target, body hash, timestamp and nonce, as a verifier reads them. */
  predicate DeviceSigReadsAs(parts: seq<seq<byte>>, f: DeviceSigFields, verb: Text) {
    && |parts| == 7 && CharsIn(parts[0]) == "ownerswitch/device-sig/v1"
    && TextOf(parts[1]) == Repaired(f.deviceId) && TextOf(parts[2]) == Repaired(verb)
    && parts[3] == f.pathAndQuery && parts[4] == f.bodyHash
    && NumberOf(parts[5]) == f.timestamp && TextOf(parts[6]) == Repaired(f.nonce)
  }

  /** The constant parts are short, so the texts and the hash decide whether all can be counted. */
  lemma DevicePartsCount(f: DeviceSigFields, upper: Text -> Text)
    requires -0x1F_FFFF_FFFF_FFFF <= f.timestamp <= 0x1F_FFFF_FFFF_FFFF && |f.bodyHash| == 32
    ensures Countable(DeviceSigParts(f, upper))
            <==> Counted(f.deviceId) && Counted(upper(f.verb)) && Counted(f.pathAndQuery) && Counted(f.nonce)
  {
    hide Utf8, CanonicalTarget;
    DecimalIsShort(f.timestamp);
    AsciiBytes(ToUnits(DEVICE_SIG_LABEL));
    SevenCountable(DeviceSigParts(f, upper));
  }

  lemma DevicePartsRead(f: DeviceSigFields, upper: Text -> Text)
    requires CanonicalTarget(f.pathAndQuery)
    ensures DeviceSigReadsAs(DeviceSigParts(f, upper), f, upper(f.verb))
  {
    hide Utf8, TextOf, Repaired, NumberOf;
    LabelReads(DEVICE_SIG_LABEL);
    TextReads(f.deviceId);
    TextReads(upper(f.verb));
    AsciiBytes(f.pathAndQuery);
    NumberReads(f.timestamp);
    TextReads(f.nonce);
  }

  /**
   * There is a device signature to make exactly for a 32-byte body hash, a
   * safe integer timestamp, a target the wire carries as it stands, and texts
   * that can be counted; and its bytes read back as those fields in order.
   */
  lemma DeviceSigReads(f: DeviceSigFields, upper: Text -> Text, verbatim: bool)
    ensures DeviceSigPreimage(f, upper, verbatim).Some?
            <==> && |f.bodyHash| == 32 && -0x1F_FFFF_FFFF_FFFF <= f.timestamp <= 0x1F_FFFF_FFFF_FFFF
                 && CanonicalTarget(f.pathAndQuery) && verbatim
                 && Counted(f.deviceId) && Counted(upper(f.verb)) && Counted(f.pathAndQuery) && Counted(f.nonce)
    ensures DeviceSigPreimage(f, upper, verbatim).Some? ==>
              var parts := ReadFields(DeviceSigPreimage(f, upper, verbatim).value);
              parts.Some? && DeviceSigReadsAs(parts.value, f, upper(f.verb))
  {
    hide DeviceSigParts, Counted, CanonicalTarget, DeviceSigReadsAs, ReadFields;
    if |f.bodyHash| == 32 && -0x1F_FFFF_FFFF_FFFF <= f.timestamp <= 0x1F_FFFF_FFFF_FFFF {
      DevicePartsCount(f, upper);
    }
    if DeviceSigPreimage(f, upper, verbatim).Some? {
      FieldsRead(DeviceSigParts(f, upper));
      DevicePartsRead(f, upper);
    }
  }

  lemma SevenCountable(parts: seq<seq<byte>>)
    requires |parts| == 7
    ensures Countable(parts)
            <==> && |parts[0]| <= MAX_FIELD && |parts[1]| <= MAX_FIELD && |parts[2]| <= MAX_FIELD
                 && |parts[3]| <= MAX_FIELD && |parts[4]| <= MAX_FIELD && |parts[5]| <= MAX_FIELD
                 && |parts[6]| <= MAX_FIELD
  {
  }

  lemma {:induction false} DigitsAreFew(n: nat, k: nat, bound: nat)
    requires n < bound && bound == Power(k) && k > 0
    ensures |Decimal.Digits(n)| <= k
    decreases k
  {
    if k > 1 && n >= 10 {
      DigitsAreFew(n / 10, k - 1, Power(k - 1));
    }
  }

  function Power(k: nat): nat {
    if k == 0 then 1 else 10 * Power(k - 1)
  }

  /** A safe integer prints in at most seventeen characters. */
  lemma DecimalIsShort(n: int)
    ensures -0x1F_FFFF_FFFF_FFFF <= n <= 0x1F_FFFF_FFFF_FFFF ==> |Decimal.Text(n)| <= 17
    ensures IsAscii(Decimal.Text(n)) && |Utf8(ToUnits(Decimal.Text(n)))| == |Decimal.Text(n)|
  {
    DecimalIsAscii(n);
    AsciiBytes(ToUnits(Decimal.Text(n)));
    if -0x1F_FFFF_FFFF_FFFF <= n <= 0x1F_FFFF_FFFF_FFFF {
      assert Power(2) == 100 && Power(4) == 1_0000 && Power(6) == 100_0000 && Power(8) == 1_0000_0000;
      assert Power(10) == 100_0000_0000 && Power(12) == 1_0000_0000_0000 && Power(14) == 100_0000_0000_0000;
      assert Power(16) == 1_0000_0000_0000_0000;
      DigitsAreFew(if n >= 0 then n else -n, 16, Power(16));
    }
  }

  /** Label, invite, owner, credential id and key, as a verifier reads them. */
  predicate EnrollPopReadsAs(parts: seq<seq<byte>>, f: EnrollPopFields) {
    && |parts| == 5 && CharsIn(parts[0]) == "ownerswitch/enroll-cheap-lane/v1"
    && TextOf(parts[1]) == Repaired(f.inviteId) && TextOf(parts[2]) == Repaired(f.ownerId)
    && parts[3] == f.credentialId && parts[4] == f.spki
  }

  /** The enrolment proof covers these fields in this order, whatever they are, while they can be counted. */
  lemma EnrollPopReads(f: EnrollPopFields)
    ensures EnrollPopTranscript(f).Some?
            <==> Counted(f.inviteId) && Counted(f.ownerId) && |f.credentialId| <= 0xFFFF_FFFF && |f.spki| <= 0xFFFF_FFFF
    ensures EnrollPopTranscript(f).Some? ==>
              var parts := ReadFields(EnrollPopTranscript(f).value);
              parts.Some? && EnrollPopReadsAs(parts.value, f)
  {
    hide EnrollPopParts, Counted, EnrollPopReadsAs, ReadFields;
    EnrollPartsCount(f);
    if EnrollPopTranscript(f).Some? {
      FieldsRead(EnrollPopParts(f));
      EnrollPartsRead(f);
    }
  }

  lemma EnrollPartsCount(f: EnrollPopFields)
    ensures Countable(EnrollPopParts(f))
            <==> Counted(f.inviteId) && Counted(f.ownerId) && |f.credentialId| <= 0xFFFF_FFFF && |f.spki| <= 0xFFFF_FFFF
  {
    hide Utf8;
    AsciiBytes(ToUnits(ENROLL_POP_LABEL));
    FiveCountable(EnrollPopParts(f));
  }

  lemma EnrollPartsRead(f: EnrollPopFields)
    ensures EnrollPopReadsAs(EnrollPopParts(f), f)
  {
    hide Utf8, TextOf, Repaired;
    LabelReads(ENROLL_POP_LABEL);
    TextReads(f.inviteId);
    TextReads(f.ownerId);
  }

  lemma FiveCountable(parts: seq<seq<byte>>)
    requires |parts| == 5
    ensures Countable(parts)
            <==> && |parts[0]| <= MAX_FIELD && |parts[1]| <= MAX_FIELD && |parts[2]| <= MAX_FIELD
                 && |parts[3]| <= MAX_FIELD && |parts[4]| <= MAX_FIELD
  {
  }

  // ---- the dot-joined payload --------------------------------------------------------------------------

  /** The text before the first dot, and the text after it. */
  function AtDot(s: string): Option<(string, string)> {
    if |s| == 0 then None
    else if s[0] == '.' then Some(("", s[1..]))
    else
      match AtDot(s[1..])
      case None => None
      case Some(r) => Some(([s[0]] + r.0, r.1))
  }

  lemma {:induction false} DotSplits(head: string, rest: string)
    requires '.' !in head
    ensures AtDot(head + "." + rest) == Some((head, rest))
  {
    if |head| > 0 {
      DotSplits(head[1..], rest);
      assert (head + "." + rest)[1..] == head[1..] + "." + rest;
      assert [head[0]] + head[1..] == head;
    } else {
      assert head + "." + rest == "." + rest;
    }
  }

  /** A signed text is device, decimal timestamp, nonce and body, split at its first three dots. */
  lemma SignedPayloadReads(c: Nonces.Credential, rawBody: string)
    requires c.lane.Device? && Nonces.Unambiguous(c)
    ensures var first := AtDot(SignedPayload(c, rawBody));
            && first.Some? && first.value.0 == c.deviceId
            && var second := AtDot(first.value.1);
               && second.Some? && second.value.0 == Decimal.Text(c.timestamp)
               && AtDot(second.value.1) == Some((c.nonce, rawBody))
  {
    var t := Decimal.Text(c.timestamp);
    DecimalHasNoDot(c.timestamp);
    var tail := c.nonce + "." + rawBody;
    assert SignedPayload(c, rawBody) == c.deviceId + "." + (t + "." + tail);
    DotSplits(c.deviceId, t + "." + tail);
    DotSplits(t, tail);
    DotSplits(c.nonce, rawBody);
  }
}
