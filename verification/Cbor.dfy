/**
 * The strict CBOR subset a WebAuthn registration needs: the decoder, the
 * encoder that prints values for it, and what ties the two together.
 */
module Cbor {
  import opened Wrappers

  const MAX_DEPTH: nat := 8
  const MAX_ITEMS: nat := 1024
  const HEAD_LIMIT: int := 0x1_0000_0000

  type byte = x: int | 0 <= x < 256

  /** Text is held as the UTF-8 bytes of the decoded string. */
  datatype Value =
    | Num(n: int)
    | Bytes(b: seq<byte>)
    | Text(t: seq<byte>)
    | Bool(v: bool)
    | Null
    | Arr(items: seq<Value>)
    | Obj(entries: seq<Entry>)

  datatype Key = IntKey(i: int) | TextKey(name: seq<byte>)
  datatype Entry = Entry(key: Key, value: Value)

  // ---- text --------------------------------------------------------------------------

  predicate Continuation(s: seq<byte>, i: nat) {
    i < |s| && 0x80 <= s[i] < 0xC0
  }

  /** Length of the well-formed UTF-8 character s starts with; 0 if there is none. */
  function CharLength(s: seq<byte>): (n: nat)
    ensures n <= |s|
  {
    if |s| == 0 then 0
    else if s[0] < 0x80 then 1
    else if 0xC2 <= s[0] < 0xE0 && Continuation(s, 1) then 2
    else if 0xE0 <= s[0] < 0xF0 && Continuation(s, 1) && Continuation(s, 2)
            && (s[0] == 0xE0 ==> s[1] >= 0xA0) && (s[0] == 0xED ==> s[1] < 0xA0) then 3
    else if 0xF0 <= s[0] < 0xF5 && Continuation(s, 1) && Continuation(s, 2) && Continuation(s, 3)
            && (s[0] == 0xF0 ==> s[1] >= 0x90) && (s[0] == 0xF4 ==> s[1] < 0x90) then 4
    else 0
  }

  predicate ValidUtf8(s: seq<byte>) {
    |s| == 0 || (CharLength(s) > 0 && ValidUtf8(s[CharLength(s)..]))
  }

  const BOM: seq<byte> := [0xEF, 0xBB, 0xBF]

  /** TextDecoder drops one leading byte-order mark. */
  function StripBom(s: seq<byte>): seq<byte> {
    if BOM <= s then s[3..] else s
  }

  function Ascii(s: string): seq<byte> {
    seq(|s|, i requires 0 <= i < |s| => if s[i] as int < 128 then s[i] as int else 0)
  }

  predicate Digit(b: byte) {
    48 <= b < 58
  }

  predicate AllDigits(s: seq<byte>) {
    |s| > 0 && forall i :: 0 <= i < |s| ==> Digit(s[i])
  }

  /** Spells an integer: an optional minus sign and digits. */
  predicate Numeric(s: seq<byte>) {
    AllDigits(s) || (|s| > 0 && s[0] == 45 && AllDigits(s[1..]))
  }

  predicate ForbiddenName(s: seq<byte>) {
    s == Ascii("__proto__") || s == Ascii("constructor") || s == Ascii("prototype")
  }

  predicate KeyOk(k: Key) {
    k.TextKey? ==> !Numeric(k.name) && !ForbiddenName(k.name)
  }

  // ---- the decoder as a function ----------------------------------------------------------

  datatype Decoded<T> = Decoded(value: T, used: nat, items: nat)

  /** A head's argument and how many bytes it took; 64-bit and indefinite are refused. */
  function ReadLength(s: seq<byte>, additional: nat): (r: Option<(int, nat)>)
    ensures r.Some? ==> 0 <= r.value.0 < HEAD_LIMIT && r.value.1 <= |s|
  {
    if additional < 24 then Some((additional, 0))
    else if additional == 24 && |s| >= 1 then Some((s[0] as int, 1))
    else if additional == 25 && |s| >= 2 then Some((s[0] as int * 256 + s[1] as int, 2))
    else if additional == 26 && |s| >= 4 then
      Some((s[0] as int * 0x100_0000 + s[1] as int * 0x1_0000 + s[2] as int * 0x100 + s[3] as int, 4))
    else None
  }

  function DecodeItem(s: seq<byte>, depth: nat, items: nat): (r: Option<Decoded<Value>>)
    ensures r.Some? ==> 0 < r.value.used <= |s| && items < r.value.items <= MAX_ITEMS
    decreases |s|, 0
  {
    if depth > MAX_DEPTH || items >= MAX_ITEMS || |s| == 0 || s[0] % 32 == 31 then None
    else
      var major, additional := s[0] as int / 32, s[0] as int % 32;
      if major == 7 then
        if additional == 20 then Some(Decoded(Bool(false), 1, items + 1))
        else if additional == 21 then Some(Decoded(Bool(true), 1, items + 1))
        else if additional == 22 then Some(Decoded(Null, 1, items + 1))
        else None
      else
        match ReadLength(s[1..], additional)
        case None => None
        case Some((n, k)) => DecodeBody(s[1 + k..], 1 + k, major, n, depth, items + 1)
  }

  /** What follows a head of `head` bytes with argument n. */
  function DecodeBody(s: seq<byte>, head: nat, major: nat, n: nat, depth: nat, items: nat): (r: Option<Decoded<Value>>)
    requires head > 0 && items <= MAX_ITEMS
    ensures r.Some? ==> head <= r.value.used <= head + |s| && items <= r.value.items <= MAX_ITEMS
    decreases |s|, 2
  {
    if major == 0 then Some(Decoded(Num(n), head, items))
    else if major == 1 then Some(Decoded(Num(-1 - n), head, items))
    else if major == 2 then
      if n <= |s| then Some(Decoded(Bytes(s[..n]), head + n, items)) else None
    else if major == 3 then
      if n <= |s| && ValidUtf8(s[..n]) then Some(Decoded(Text(StripBom(s[..n])), head + n, items)) else None
    else if major == 4 then
      ArrayOf(head, DecodeItems(s, n, depth + 1, items))
    else if major == 5 then
      MapOf(head, DecodeEntries(s, n, depth + 1, items, {}))
    else None
  }

  function ArrayOf(head: nat, r: Option<Decoded<seq<Value>>>): Option<Decoded<Value>> {
    match r
    case None => None
    case Some(d) => Some(Decoded(Arr(d.value), head + d.used, d.items))
  }

  function MapOf(head: nat, r: Option<Decoded<seq<Entry>>>): Option<Decoded<Value>> {
    match r
    case None => None
    case Some(d) => Some(Decoded(Obj(d.value), head + d.used, d.items))
  }

  function DecodeItems(s: seq<byte>, count: nat, depth: nat, items: nat): (r: Option<Decoded<seq<Value>>>)
    requires items <= MAX_ITEMS
    ensures r.Some? ==> r.value.used <= |s| && items <= r.value.items <= MAX_ITEMS && |r.value.value| == count
    decreases |s|, 1
  {
    if count == 0 then Some(Decoded([], 0, items))
    else
      match DecodeItem(s, depth, items)
      case None => None
      case Some(d) => Prepended([d.value], d.used, DecodeItems(s[d.used..], count - 1, depth, d.items))
  }

  function Prepended<T>(first: seq<T>, used: nat, r: Option<Decoded<seq<T>>>): Option<Decoded<seq<T>>> {
    match r
    case None => None
    case Some(d) => Some(Decoded(first + d.value, used + d.used, d.items))
  }

  /** The property name a decoded key stands for, if it may be one. */
  function KeyOf(v: Value): Option<Key> {
    if v.Text? && KeyOk(TextKey(v.t)) then Some(TextKey(v.t))
    else if v.Num? then Some(IntKey(v.n))
    else None
  }

  function DecodeEntries(
    s: seq<byte>, count: nat, depth: nat, items: nat, seen: set<Key>): (r: Option<Decoded<seq<Entry>>>)
    requires items <= MAX_ITEMS
    ensures r.Some? ==> r.value.used <= |s| && items <= r.value.items <= MAX_ITEMS && |r.value.value| == count
    decreases |s|, 1
  {
    if count == 0 then Some(Decoded([], 0, items))
    else
      match DecodeItem(s, depth, items)
      case None => None
      case Some(k) =>
        if KeyOf(k.value).None? || KeyOf(k.value).value in seen then None
        else DecodeValueOf(KeyOf(k.value).value, k.used, s[k.used..], count, depth, k.items, seen)
  }

  /** The value of a key that took `used` bytes, then the remaining entries. */
  function DecodeValueOf(key: Key, used: nat, s: seq<byte>, count: nat, depth: nat, items: nat, seen: set<Key>)
    : (r: Option<Decoded<seq<Entry>>>)
    requires items <= MAX_ITEMS && count > 0
    ensures r.Some? ==> r.value.used <= used + |s| && items <= r.value.items <= MAX_ITEMS && |r.value.value| == count
    decreases |s|, 1
  {
    match DecodeItem(s, depth, items)
    case None => None
    case Some(d) =>
      Prepended([Entry(key, d.value)], used + d.used,
                DecodeEntries(s[d.used..], count - 1, depth, d.items, seen + {key}))
  }

  /** cborDecodeFirst: one item from the front, and the bytes it took. */
  function DecodeFirst(s: seq<byte>): Option<Decoded<Value>> {
    DecodeItem(s, 0, 0)
  }

  function DecodeExact(s: seq<byte>): Option<Value> {
    match DecodeFirst(s)
    case Some(d) => if d.used == |s| then Some(d.value) else None
    case None => None
  }

  // ---- the encoder -----------------------------------------------------------------------------

  /** The shortest head; from 2^32 on it silently truncates the argument. */
  function EncodeHead(major: nat, n: nat): (r: seq<byte>)
    requires major < 8
    ensures |r| > 0
  {
    if n < 24 then [major * 32 + n]
    else if n < 256 then [major * 32 + 24, n]
    else if n < 65536 then [major * 32 + 25, n / 256, n % 256]
    else [major * 32 + 26, n / 256 / 256 / 256 % 256, n / 256 / 256 % 256, n / 256 % 256, n % 256]
  }

  function Encode(v: Value): (r: seq<byte>)
    ensures |r| > 0
  {
    match v
    case Num(n) => if n >= 0 then EncodeHead(0, n) else EncodeHead(1, -1 - n)
    case Bytes(b) => EncodeHead(2, |b|) + b
    case Text(t) => EncodeHead(3, |t|) + t
    case Bool(b) => [if b then 0xF5 else 0xF4]
    case Null => [0xF6]
    case Arr(items) => EncodeHead(4, |items|) + EncodeItems(items)
    case Obj(entries) => EncodeHead(5, |entries|) + EncodeEntries(entries)
  }

  function EncodeItems(vs: seq<Value>): seq<byte> {
    if |vs| == 0 then [] else Encode(vs[0]) + EncodeItems(vs[1..])
  }

  function KeyValue(k: Key): Value {
    match k
    case IntKey(i) => Num(i)
    case TextKey(name) => Text(name)
  }

  function KeyText(k: Key): seq<byte> {
    if k.TextKey? then k.name else []
  }

  function EncodeKey(k: Key): seq<byte> {
    match k
    case IntKey(i) => if i >= 0 then EncodeHead(0, i) else EncodeHead(1, -1 - i)
    case TextKey(name) => EncodeHead(3, |name|) + name
  }

  function EncodeEntries(es: seq<Entry>): seq<byte> {
    if |es| == 0 then [] else EncodeEntry(es[0]) + EncodeEntries(es[1..])
  }

  function EncodeEntry(e: Entry): seq<byte> {
    EncodeKey(e.key) + Encode(e.value)
  }

  // ---- the values of the subset --------------------------------------------------------------------

  /** A head's argument fits 32 bits. */
  predicate Fits(n: int) {
    0 <= n < HEAD_LIMIT
  }

  predicate NumOk(n: int) {
    Fits(n) || Fits(-1 - n)
  }

  predicate TextOk(t: seq<byte>) {
    Fits(|t|) && ValidUtf8(t)
  }

  /** Keys are pairwise distinct. */
  predicate KeysDistinct(es: seq<Entry>) {
    forall i, j :: 0 <= i < j < |es| ==> es[i].key != es[j].key
  }

  predicate KeyWellFormed(k: Key) {
    match k
    case IntKey(i) => NumOk(i)
    case TextKey(name) => TextOk(name) && KeyOk(k)
  }

  predicate WellFormed(v: Value) {
    match v
    case Num(n) => NumOk(n)
    case Bytes(b) => Fits(|b|)
    case Text(t) => TextOk(t)
    case Bool(_) => true
    case Null => true
    case Arr(items) => Fits(|items|) && forall i :: 0 <= i < |items| ==> WellFormed(items[i])
    case Obj(entries) =>
      && Fits(|entries|) && KeysDistinct(entries)
      && forall i :: 0 <= i < |entries| ==>
           KeyWellFormed(entries[i].key) && WellFormed(entries[i].value)
  }

  /** No text in the value, key or not, starts with a byte-order mark. */
  predicate BomFree(v: Value) {
    match v
    case Text(t) => !(BOM <= t)
    case Arr(items) => forall i :: 0 <= i < |items| ==> BomFree(items[i])
    case Obj(entries) =>
      forall i :: 0 <= i < |entries| ==> !(BOM <= KeyText(entries[i].key)) && BomFree(entries[i].value)
    case _ => true
  }

  /** Items the decoder counts: every value and every map key. */
  function Count(v: Value): (n: nat)
    ensures n > 0
  {
    match v
    case Arr(items) => 1 + CountItems(items)
    case Obj(entries) => 1 + CountEntries(entries)
    case _ => 1
  }

  function CountItems(vs: seq<Value>): nat {
    if |vs| == 0 then 0 else Count(vs[0]) + CountItems(vs[1..])
  }

  function CountEntries(es: seq<Entry>): nat {
    if |es| == 0 then 0 else CountEntry(es[0]) + CountEntries(es[1..])
  }

  function CountEntry(e: Entry): nat {
    1 + Count(e.value)
  }

  predicate Shallow(v: Value, depth: nat) {
    depth <= MAX_DEPTH
    && match v
       case Arr(items) => forall i :: 0 <= i < |items| ==> Shallow(items[i], depth + 1)
       case Obj(entries) => forall i :: 0 <= i < |entries| ==> EntryShallow(entries[i], depth + 1)
       case _ => true
  }

  /** The key sits as deep as the value. */
  predicate EntryShallow(e: Entry, depth: nat) {
    depth <= MAX_DEPTH && Shallow(e.value, depth)
  }

  // ---- round trip -------------------------------------------------------------------------------

  /** Past its first byte a head is followed by the rest as it stands. */
  lemma HeadBytes(major: nat, n: nat, rest: seq<byte>)
    requires major < 7
    ensures var h, t := EncodeHead(major, n), (EncodeHead(major, n) + rest)[1..];
            |t| >= |h| - 1 && forall i :: 1 <= i < |h| ==> t[i - 1] == h[i]
  {
  }

  /** Heads are exact below 2^32, and only there. */
  lemma HeadRoundTrip(major: nat, n: nat, rest: seq<byte>)
    requires major < 7
    ensures var h := EncodeHead(major, n);
            && h[0] as int / 32 == major && h[0] as int % 32 != 31
            && ReadLength((h + rest)[1..], h[0] as int % 32) == Some((n % HEAD_LIMIT, |h| - 1))
    ensures n % HEAD_LIMIT == n <==> Fits(n)
  {
    HeadBytes(major, n, rest);
    if n >= 65536 {
      Bytes4(n);
    }
  }

  lemma Bytes4(n: nat)
    ensures n / 256 / 256 / 256 % 256 * 0x100_0000 + n / 256 / 256 % 256 * 0x1_0000 + n / 256 % 256 * 0x100 + n % 256
            == n % HEAD_LIMIT
  {
    var a := n / 256;
    var b := a / 256;
    var c := b / 256;
    LowBytes(n, c / 256, c % 256, b % 256, a % 256, n % 256);
  }

  lemma LowBytes(n: nat, high: nat, c: nat, b: nat, a: nat, low: nat)
    requires c < 256 && b < 256 && a < 256 && low < 256
    requires n == 256 * (256 * (256 * (256 * high + c) + b) + a) + low
    ensures c * 0x100_0000 + b * 0x1_0000 + a * 0x100 + low == n % HEAD_LIMIT
  {
  }

  predicate ItemsShallow(vs: seq<Value>, depth: nat) {
    forall i :: 0 <= i < |vs| ==> Shallow(vs[i], depth)
  }

  predicate EntriesShallow(es: seq<Entry>, depth: nat) {
    forall i :: 0 <= i < |es| ==> EntryShallow(es[i], depth)
  }

  predicate EntriesOk(es: seq<Entry>) {
    forall i :: 0 <= i < |es| ==>
      && KeyWellFormed(es[i].key) && !(BOM <= KeyText(es[i].key))
      && WellFormed(es[i].value) && BomFree(es[i].value)
  }

  /** Decoding what follows a printed head. */
  lemma HeadThenBody(major: nat, n: nat, body: seq<byte>, depth: nat, items: nat)
    requires major < 7 && Fits(n) && depth <= MAX_DEPTH && items < MAX_ITEMS
    ensures DecodeItem(EncodeHead(major, n) + body, depth, items)
            == DecodeBody(body, |EncodeHead(major, n)|, major, n, depth, items + 1)
  {
    var h := EncodeHead(major, n);
    HeadRoundTrip(major, n, body);
    assert (h + body)[1 + (|h| - 1)..] == body;
  }

  /** A head alone: nothing decodes at the limits. */
  lemma PastTheLimits(s: seq<byte>, depth: nat, items: nat)
    requires depth > MAX_DEPTH || items >= MAX_ITEMS
    ensures DecodeItem(s, depth, items) == None
  {
  }

  /** What decoding a printed value must yield: the value, or a refusal at the limits. */
  function Expected(v: Value, depth: nat, items: nat): Option<Decoded<Value>> {
    if Shallow(v, depth) && items + Count(v) <= MAX_ITEMS
    then Some(Decoded(v, |Encode(v)|, items + Count(v))) else None
  }

  function ExpectedItems(vs: seq<Value>, depth: nat, items: nat): Option<Decoded<seq<Value>>> {
    if ItemsShallow(vs, depth) && items + CountItems(vs) <= MAX_ITEMS
    then Some(Decoded(vs, |EncodeItems(vs)|, items + CountItems(vs))) else None
  }

  function ExpectedEntries(es: seq<Entry>, depth: nat, items: nat): Option<Decoded<seq<Entry>>> {
    if EntriesShallow(es, depth) && items + CountEntries(es) <= MAX_ITEMS
    then Some(Decoded(es, |EncodeEntries(es)|, items + CountEntries(es))) else None
  }

  lemma ExpectedArray(vs: seq<Value>, depth: nat, items: nat)
    requires depth <= MAX_DEPTH && items < MAX_ITEMS
    ensures Expected(Arr(vs), depth, items)
            == ArrayOf(|EncodeHead(4, |vs|)|, ExpectedItems(vs, depth + 1, items + 1))
  {
    assert Shallow(Arr(vs), depth) <==> ItemsShallow(vs, depth + 1);
  }

  lemma ExpectedMap(es: seq<Entry>, depth: nat, items: nat)
    requires depth <= MAX_DEPTH && items < MAX_ITEMS
    ensures Expected(Obj(es), depth, items)
            == MapOf(|EncodeHead(5, |es|)|, ExpectedEntries(es, depth + 1, items + 1))
  {
    assert Shallow(Obj(es), depth) <==> EntriesShallow(es, depth + 1);
  }

  lemma ExpectedItemsStep(vs: seq<Value>, depth: nat, items: nat)
    requires |vs| > 0 && items <= MAX_ITEMS
    ensures ExpectedItems(vs, depth, items)
            == match Expected(vs[0], depth, items)
               case None => None
               case Some(d) => Prepended([vs[0]], d.used, ExpectedItems(vs[1..], depth, d.items))
  {
    assert vs == [vs[0]] + vs[1..];
    assert ItemsShallow(vs, depth) <==> Shallow(vs[0], depth) && ItemsShallow(vs[1..], depth);
  }

  function ExpectedAfterKey(es: seq<Entry>, used: nat, depth: nat, items: nat): Option<Decoded<seq<Entry>>>
    requires |es| > 0
  {
    match Expected(es[0].value, depth, items)
    case None => None
    case Some(d) => Prepended([es[0]], used + d.used, ExpectedEntries(es[1..], depth, d.items))
  }

  lemma ExpectedEntriesStep(es: seq<Entry>, depth: nat, items: nat)
    requires |es| > 0 && items <= MAX_ITEMS
    ensures ExpectedEntries(es, depth, items)
            == if depth > MAX_DEPTH || items >= MAX_ITEMS then None
               else ExpectedAfterKey(es, |EncodeKey(es[0].key)|, depth, items + 1)
  {
    assert es == [es[0]] + es[1..];
    assert EncodeEntries(es) == EncodeKey(es[0].key) + Encode(es[0].value) + EncodeEntries(es[1..]);
    assert CountEntries(es) == 1 + Count(es[0].value) + CountEntries(es[1..]);
    assert EntriesShallow(es, depth)
      <==> EntryShallow(es[0], depth) && EntriesShallow(es[1..], depth);
  }

  /** Decoding a list starts with its first item. */
  lemma DecodeItemsStep(s: seq<byte>, count: nat, depth: nat, items: nat)
    requires count > 0 && items <= MAX_ITEMS
    ensures DecodeItems(s, count, depth, items)
            == match DecodeItem(s, depth, items)
               case None => None
               case Some(d) => Prepended([d.value], d.used, DecodeItems(s[d.used..], count - 1, depth, d.items))
  {
  }

  lemma NumRoundTrip(n: int, rest: seq<byte>, depth: nat, items: nat)
    requires NumOk(n) && depth <= MAX_DEPTH && items < MAX_ITEMS
    ensures DecodeItem(Encode(Num(n)) + rest, depth, items) == Some(Decoded(Num(n), |Encode(Num(n))|, items + 1))
  {
    HeadThenBody(if n >= 0 then 0 else 1, if n >= 0 then n else -1 - n, rest, depth, items);
  }

  lemma BytesRoundTrip(b: seq<byte>, rest: seq<byte>, depth: nat, items: nat)
    requires Fits(|b|) && depth <= MAX_DEPTH && items < MAX_ITEMS
    ensures DecodeItem(Encode(Bytes(b)) + rest, depth, items)
            == Some(Decoded(Bytes(b), |Encode(Bytes(b))|, items + 1))
  {
    assert Encode(Bytes(b)) == EncodeHead(2, |b|) + b;
    Regrouped(EncodeHead(2, |b|), b, rest);
    HeadThenBody(2, |b|, b + rest, depth, items);
    assert (b + rest)[..|b|] == b;
  }

  lemma TextBody(t: seq<byte>, raw: seq<byte>, rest: seq<byte>, head: nat, depth: nat, items: nat)
    requires raw == t + rest && ValidUtf8(t) && head > 0 && items <= MAX_ITEMS
    ensures DecodeBody(raw, head, 3, |t|, depth, items) == Some(Decoded(Text(StripBom(t)), head + |t|, items))
  {
    assert raw[..|t|] == t;
  }

  lemma Regrouped(a: seq<byte>, b: seq<byte>, c: seq<byte>)
    ensures a + b + c == a + (b + c)
  {
  }

  /** Text comes back without the byte-order mark it may start with. */
  lemma TextRoundTrip(t: seq<byte>, rest: seq<byte>, depth: nat, items: nat)
    requires TextOk(t) && depth <= MAX_DEPTH && items < MAX_ITEMS
    ensures DecodeItem(Encode(Text(t)) + rest, depth, items)
            == Some(Decoded(Text(StripBom(t)), |Encode(Text(t))|, items + 1))
  {
    assert Encode(Text(t)) == EncodeHead(3, |t|) + t;
    var h := EncodeHead(3, |t|);
    Regrouped(h, t, rest);
    HeadThenBody(3, |t|, t + rest, depth, items);
    TextBody(t, t + rest, rest, |h|, depth, items + 1);
  }

  lemma SimpleRoundTrip(v: Value, rest: seq<byte>, depth: nat, items: nat)
    requires (v.Bool? || v.Null?) && depth <= MAX_DEPTH && items < MAX_ITEMS
    ensures DecodeItem(Encode(v) + rest, depth, items) == Some(Decoded(v, 1, items + 1))
  {
    assert Encode(v) + rest == [Encode(v)[0]] + rest;
  }

  lemma ScalarRoundTrip(v: Value, rest: seq<byte>, depth: nat, items: nat)
    requires WellFormed(v) && BomFree(v) && !v.Arr? && !v.Obj? && depth <= MAX_DEPTH && items < MAX_ITEMS
    ensures DecodeItem(Encode(v) + rest, depth, items) == Expected(v, depth, items)
  {
    ExpectedScalar(v, depth, items);
    match v
    case Num(n) => NumRoundTrip(n, rest, depth, items);
    case Bytes(b) => BytesRoundTrip(b, rest, depth, items);
    case Text(t) => TextRoundTrip(t, rest, depth, items);
    case _ => SimpleRoundTrip(v, rest, depth, items);
  }

  lemma ArrayRoundTrip(vs: seq<Value>, rest: seq<byte>, depth: nat, items: nat)
    requires Fits(|vs|) && depth <= MAX_DEPTH && items < MAX_ITEMS
    ensures DecodeItem(Encode(Arr(vs)) + rest, depth, items)
            == ArrayOf(|EncodeHead(4, |vs|)|, DecodeItems(EncodeItems(vs) + rest, |vs|, depth + 1, items + 1))
  {
    hide DecodeItems;
    Regrouped(EncodeHead(4, |vs|), EncodeItems(vs), rest);
    HeadThenBody(4, |vs|, EncodeItems(vs) + rest, depth, items);
  }

  lemma MapRoundTrip(es: seq<Entry>, rest: seq<byte>, depth: nat, items: nat)
    requires Fits(|es|) && depth <= MAX_DEPTH && items < MAX_ITEMS
    ensures DecodeItem(Encode(Obj(es)) + rest, depth, items)
            == MapOf(|EncodeHead(5, |es|)|, DecodeEntries(EncodeEntries(es) + rest, |es|, depth + 1, items + 1, {}))
  {
    hide DecodeEntries;
    Regrouped(EncodeHead(5, |es|), EncodeEntries(es), rest);
    HeadThenBody(5, |es|, EncodeEntries(es) + rest, depth, items);
  }

  lemma ArrayFromItems(vs: seq<Value>, rest: seq<byte>, depth: nat, items: nat)
    requires Fits(|vs|) && depth <= MAX_DEPTH && items < MAX_ITEMS
    requires DecodeItems(EncodeItems(vs) + rest, |vs|, depth + 1, items + 1) == ExpectedItems(vs, depth + 1, items + 1)
    ensures DecodeItem(Encode(Arr(vs)) + rest, depth, items) == Expected(Arr(vs), depth, items)
  {
    ArrayRoundTrip(vs, rest, depth, items);
    ExpectedArray(vs, depth, items);
  }

  lemma MapFromEntries(es: seq<Entry>, rest: seq<byte>, depth: nat, items: nat)
    requires Fits(|es|) && depth <= MAX_DEPTH && items < MAX_ITEMS
    requires DecodeEntries(EncodeEntries(es) + rest, |es|, depth + 1, items + 1, {})
             == ExpectedEntries(es, depth + 1, items + 1)
    ensures DecodeItem(Encode(Obj(es)) + rest, depth, items) == Expected(Obj(es), depth, items)
  {
    MapRoundTrip(es, rest, depth, items);
    ExpectedMap(es, depth, items);
  }

  /**
   * Whatever bytes follow, the decoder returns a printed value, its exact
   * length and its item count when the value is at most 8 deep and the
   * budget of 1024 items allows it, and refuses otherwise.
   */
  lemma {:induction false} RoundTrip(v: Value, rest: seq<byte>, depth: nat, items: nat)
    requires WellFormed(v) && BomFree(v) && items <= MAX_ITEMS
    ensures DecodeItem(Encode(v) + rest, depth, items) == Expected(v, depth, items)
    decreases v, 1
  {
    if depth > MAX_DEPTH || items >= MAX_ITEMS {
      PastTheLimits(Encode(v) + rest, depth, items);
      ExpectedPastTheLimits(v, depth, items);
    } else if v.Arr? {
      ArrayCase(v, rest, depth, items);
    } else if v.Obj? {
      MapCase(v, rest, depth, items);
    } else {
      ScalarRoundTrip(v, rest, depth, items);
    }
  }

  lemma {:induction false} ArrayCase(v: Value, rest: seq<byte>, depth: nat, items: nat)
    requires WellFormed(v) && BomFree(v) && v.Arr? && depth <= MAX_DEPTH && items < MAX_ITEMS
    ensures DecodeItem(Encode(v) + rest, depth, items) == Expected(v, depth, items)
    decreases v, 0
  {
    ItemsRoundTrip(v.items, rest, depth + 1, items + 1);
    ArrayFromItems(v.items, rest, depth, items);
  }

  lemma {:induction false} MapCase(v: Value, rest: seq<byte>, depth: nat, items: nat)
    requires WellFormed(v) && BomFree(v) && v.Obj? && depth <= MAX_DEPTH && items < MAX_ITEMS
    ensures DecodeItem(Encode(v) + rest, depth, items) == Expected(v, depth, items)
    decreases v, 0
  {
    EntriesRoundTrip(v.entries, rest, depth + 1, items + 1, {});
    MapFromEntries(v.entries, rest, depth, items);
  }

  lemma ExpectedScalar(v: Value, depth: nat, items: nat)
    requires !v.Arr? && !v.Obj?
    ensures Expected(v, depth, items)
            == if depth <= MAX_DEPTH && items < MAX_ITEMS then Some(Decoded(v, |Encode(v)|, items + 1)) else None
  {
  }

  lemma ExpectedPastTheLimits(v: Value, depth: nat, items: nat)
    requires depth > MAX_DEPTH || items >= MAX_ITEMS
    ensures Expected(v, depth, items) == None
  {
  }

  lemma EntriesRegrouped(es: seq<Entry>, rest: seq<byte>)
    requires |es| > 0
    ensures EncodeEntries(es) + rest == EncodeKey(es[0].key) + (Encode(es[0].value) + (EncodeEntries(es[1..]) + rest))
  {
    var k, v, more := EncodeKey(es[0].key), Encode(es[0].value), EncodeEntries(es[1..]);
    assert EncodeEntries(es) == k + v + more;
    Regrouped(k + v, more, rest);
    Regrouped(k, v, more + rest);
  }

  lemma ItemsFromFirst(vs: seq<Value>, rest: seq<byte>, depth: nat, items: nat)
    requires |vs| > 0 && items <= MAX_ITEMS
    requires DecodeItem(Encode(vs[0]) + (EncodeItems(vs[1..]) + rest), depth, items) == Expected(vs[0], depth, items)
    requires Expected(vs[0], depth, items).Some? ==>
               DecodeItems(EncodeItems(vs[1..]) + rest, |vs[1..]|, depth, items + Count(vs[0]))
               == ExpectedItems(vs[1..], depth, items + Count(vs[0]))
    ensures DecodeItems(EncodeItems(vs) + rest, |vs|, depth, items) == ExpectedItems(vs, depth, items)
  {
    hide DecodeItem;
    var first, more := Encode(vs[0]), EncodeItems(vs[1..]) + rest;
    Regrouped(first, EncodeItems(vs[1..]), rest);
    DecodeItemsStep(first + more, |vs|, depth, items);
    ExpectedItemsStep(vs, depth, items);
    assert (first + more)[|first|..] == more;
  }

  lemma {:induction false} ItemsRoundTrip(vs: seq<Value>, rest: seq<byte>, depth: nat, items: nat)
    requires forall i :: 0 <= i < |vs| ==> WellFormed(vs[i]) && BomFree(vs[i])
    requires items <= MAX_ITEMS
    ensures DecodeItems(EncodeItems(vs) + rest, |vs|, depth, items) == ExpectedItems(vs, depth, items)
    decreases vs
  {
    hide DecodeItem;
    if |vs| == 0 {
      assert EncodeItems(vs) + rest == rest;
    } else {
      RoundTrip(vs[0], EncodeItems(vs[1..]) + rest, depth, items);
      if Expected(vs[0], depth, items).Some? {
        ItemsRoundTrip(vs[1..], rest, depth, items + Count(vs[0]));
      }
      ItemsFromFirst(vs, rest, depth, items);
    }
  }

  lemma ExpectedKey(k: Key, depth: nat, items: nat)
    requires depth <= MAX_DEPTH && items < MAX_ITEMS
    ensures Expected(KeyValue(k), depth, items) == Some(Decoded(KeyValue(k), |EncodeKey(k)|, items + 1))
    ensures Encode(KeyValue(k)) == EncodeKey(k)
  {
  }

  lemma KeyRoundTrip(k: Key, rest: seq<byte>, depth: nat, items: nat)
    requires KeyWellFormed(k) && !(BOM <= KeyText(k)) && items <= MAX_ITEMS
    ensures DecodeItem(EncodeKey(k) + rest, depth, items)
            == if depth <= MAX_DEPTH && items < MAX_ITEMS
               then Some(Decoded(KeyValue(k), |EncodeKey(k)|, items + 1)) else None
    ensures KeyOf(KeyValue(k)) == Some(k)
  {
    if depth > MAX_DEPTH || items >= MAX_ITEMS {
      PastTheLimits(EncodeKey(k) + rest, depth, items);
    } else {
      ScalarRoundTrip(KeyValue(k), rest, depth, items);
      ExpectedKey(k, depth, items);
    }
  }

  /** Decoding the entries of a map starts with a key. */
  lemma DecodeEntriesStep(s: seq<byte>, count: nat, depth: nat, items: nat, seen: set<Key>, key: Key, used: nat)
    requires count > 0 && items < MAX_ITEMS && key !in seen && 0 < used <= |s|
    requires DecodeItem(s, depth, items) == Some(Decoded(KeyValue(key), used, items + 1))
    requires KeyOf(KeyValue(key)) == Some(key)
    ensures DecodeEntries(s, count, depth, items, seen)
            == DecodeValueOf(key, used, s[used..], count, depth, items + 1, seen)
  {
  }

  lemma DecodeValueStep(key: Key, used: nat, s: seq<byte>, count: nat, depth: nat, items: nat, seen: set<Key>)
    requires items <= MAX_ITEMS && count > 0
    ensures var d := DecodeItem(s, depth, items);
            DecodeValueOf(key, used, s, count, depth, items, seen)
            == if d.None? then None
               else Prepended([Entry(key, d.value.value)], used + d.value.used,
                              DecodeEntries(s[d.value.used..], count - 1, depth, d.value.items, seen + {key}))
  {
    hide DecodeItem, DecodeEntries;
  }

  lemma DecodeEntriesStop(s: seq<byte>, count: nat, depth: nat, items: nat, seen: set<Key>)
    requires count > 0 && items <= MAX_ITEMS && DecodeItem(s, depth, items) == None
    ensures DecodeEntries(s, count, depth, items, seen) == None
  {
  }

  lemma EntriesTail(es: seq<Entry>, seen: set<Key>)
    requires |es| > 0 && EntriesOk(es) && KeysDistinct(es)
    requires forall i :: 0 <= i < |es| ==> es[i].key !in seen
    ensures EntriesOk(es[1..]) && KeysDistinct(es[1..])
    ensures forall i :: 0 <= i < |es[1..]| ==> es[1..][i].key !in seen + {es[0].key}
  {
  }

  lemma {:induction false} EntriesRoundTrip(es: seq<Entry>, rest: seq<byte>, depth: nat, items: nat, seen: set<Key>)
    requires EntriesOk(es) && KeysDistinct(es) && items <= MAX_ITEMS
    requires forall i :: 0 <= i < |es| ==> es[i].key !in seen
    ensures DecodeEntries(EncodeEntries(es) + rest, |es|, depth, items, seen) == ExpectedEntries(es, depth, items)
    decreases es, 1
  {
    hide Encode, EncodeKey;
    if |es| == 0 {
      assert EncodeEntries(es) + rest == rest;
    } else {
      var more := Encode(es[0].value) + (EncodeEntries(es[1..]) + rest);
      if depth <= MAX_DEPTH && items < MAX_ITEMS {
        ValueRoundTrip(es, |EncodeKey(es[0].key)|, rest, depth, items + 1, seen);
      }
      EntriesFromValue(es, more, rest, depth, items, seen);
    }
  }

  lemma EntriesFromValue(es: seq<Entry>, more: seq<byte>, rest: seq<byte>, depth: nat, items: nat, seen: set<Key>)
    requires |es| > 0 && items <= MAX_ITEMS && KeyWellFormed(es[0].key) && !(BOM <= KeyText(es[0].key))
    requires es[0].key !in seen
    requires more == Encode(es[0].value) + (EncodeEntries(es[1..]) + rest)
    requires depth <= MAX_DEPTH && items < MAX_ITEMS ==>
               DecodeValueOf(es[0].key, |EncodeKey(es[0].key)|, more, |es|, depth, items + 1, seen)
               == ExpectedAfterKey(es, |EncodeKey(es[0].key)|, depth, items + 1)
    ensures DecodeEntries(EncodeEntries(es) + rest, |es|, depth, items, seen) == ExpectedEntries(es, depth, items)
  {
    EntriesRegrouped(es, rest);
    ExpectedEntriesStep(es, depth, items);
    FirstKeyRoundTrip(es[0].key, more, |es|, depth, items, seen);
  }

  lemma FirstKeyRoundTrip(k: Key, more: seq<byte>, count: nat, depth: nat, items: nat, seen: set<Key>)
    requires KeyWellFormed(k) && !(BOM <= KeyText(k)) && k !in seen && count > 0 && items <= MAX_ITEMS
    ensures DecodeEntries(EncodeKey(k) + more, count, depth, items, seen)
            == if depth > MAX_DEPTH || items >= MAX_ITEMS then None
               else DecodeValueOf(k, |EncodeKey(k)|, more, count, depth, items + 1, seen)
  {
    KeyRoundTrip(k, more, depth, items);
    if depth > MAX_DEPTH || items >= MAX_ITEMS {
      DecodeEntriesStop(EncodeKey(k) + more, count, depth, items, seen);
    } else {
      DecodeEntriesStep(EncodeKey(k) + more, count, depth, items, seen, k, |EncodeKey(k)|);
      assert (EncodeKey(k) + more)[|EncodeKey(k)|..] == more;
    }
  }

  lemma {:induction false} ValueRoundTrip(
    es: seq<Entry>, used: nat, rest: seq<byte>, depth: nat, items: nat, seen: set<Key>)
    requires |es| > 0 && EntriesOk(es) && KeysDistinct(es) && items <= MAX_ITEMS
    requires forall i :: 0 <= i < |es| ==> es[i].key !in seen
    ensures DecodeValueOf(es[0].key, used, Encode(es[0].value) + (EncodeEntries(es[1..]) + rest), |es|, depth, items,
                          seen)
            == ExpectedAfterKey(es, used, depth, items)
    decreases es, 0
  {
    var value, more := Encode(es[0].value), EncodeEntries(es[1..]) + rest;
    EntryRoundTrip(es[0], more, depth, items);
    DecodeValueStep(es[0].key, used, value + more, |es|, depth, items, seen);
    var d := Expected(es[0].value, depth, items);
    if d.Some? {
      assert (value + more)[d.value.used..] == more;
      EntriesTail(es, seen);
      EntriesRoundTrip(es[1..], rest, depth, d.value.items, seen + {es[0].key});
      assert es[0] == Entry(es[0].key, d.value.value);
    }
  }

  lemma {:induction false} EntryRoundTrip(e: Entry, rest: seq<byte>, depth: nat, items: nat)
    requires WellFormed(e.value) && BomFree(e.value) && items <= MAX_ITEMS
    ensures DecodeItem(Encode(e.value) + rest, depth, items) == Expected(e.value, depth, items)
    decreases e
  {
    RoundTrip(e.value, rest, depth, items);
  }

  // ---- locality ----------------------------------------------------------------------------------

  predicate SameFor(s: seq<byte>, t: seq<byte>, used: nat) {
    used <= |s| && used <= |t| && s[..used] == t[..used]
  }

  lemma SameTail(s: seq<byte>, t: seq<byte>, used: nat, k: nat)
    requires SameFor(s, t, used) && k <= used
    ensures SameFor(s[k..], t[k..], used - k)
  {
    assert s[k..][..used - k] == s[..used][k..];
    assert t[k..][..used - k] == t[..used][k..];
  }

  lemma LengthLocality(s: seq<byte>, t: seq<byte>, additional: nat)
    requires ReadLength(s, additional).Some? && SameFor(s, t, ReadLength(s, additional).value.1)
    ensures ReadLength(t, additional) == ReadLength(s, additional)
  {
    var k := ReadLength(s, additional).value.1;
    assert forall i :: 0 <= i < k ==> s[i] == s[..k][i] && t[i] == t[..k][i];
  }

  /** A successful decode depends only on the bytes it consumed. */
  lemma {:induction false} Locality(s: seq<byte>, t: seq<byte>, depth: nat, items: nat)
    requires DecodeItem(s, depth, items).Some? && SameFor(s, t, DecodeItem(s, depth, items).value.used)
    ensures DecodeItem(t, depth, items) == DecodeItem(s, depth, items)
    decreases |s|, 0
  {
    var used := DecodeItem(s, depth, items).value.used;
    assert s[0] == s[..used][0] && t[0] == t[..used][0];
    var major, additional := s[0] as int / 32, s[0] as int % 32;
    if major != 7 {
      var (n, k) := ReadLength(s[1..], additional).value;
      SameTail(s, t, used, 1);
      assert SameFor(s[1..], t[1..], k) by {
        assert s[1..][..k] == s[1..][..used - 1][..k] && t[1..][..k] == t[1..][..used - 1][..k];
      }
      LengthLocality(s[1..], t[1..], additional);
      SameTail(s, t, used, 1 + k);
      assert s[1..][k..] == s[1 + k..] && t[1..][k..] == t[1 + k..];
      BodyLocality(s[1 + k..], t[1 + k..], 1 + k, major, n, depth, items + 1);
    }
  }

  lemma {:induction false} BodyLocality(
    s: seq<byte>, t: seq<byte>, head: nat, major: nat, n: nat, depth: nat, items: nat)
    requires head > 0 && items <= MAX_ITEMS
    requires DecodeBody(s, head, major, n, depth, items).Some?
    requires SameFor(s, t, DecodeBody(s, head, major, n, depth, items).value.used - head)
    ensures DecodeBody(t, head, major, n, depth, items) == DecodeBody(s, head, major, n, depth, items)
    decreases |s|, 2
  {
    if major == 4 {
      ItemsLocality(s, t, n, depth + 1, items);
    } else if major == 5 {
      EntriesLocality(s, t, n, depth + 1, items, {});
    }
  }

  lemma {:induction false} ItemsLocality(s: seq<byte>, t: seq<byte>, count: nat, depth: nat, items: nat)
    requires items <= MAX_ITEMS && DecodeItems(s, count, depth, items).Some?
    requires SameFor(s, t, DecodeItems(s, count, depth, items).value.used)
    ensures DecodeItems(t, count, depth, items) == DecodeItems(s, count, depth, items)
    decreases |s|, 1
  {
    if count > 0 {
      DecodeItemsStep(s, count, depth, items);
      var d, used := DecodeItem(s, depth, items).value, DecodeItems(s, count, depth, items).value.used;
      SamePrefix(s, t, used, d.used);
      Locality(s, t, depth, items);
      SameTail(s, t, used, d.used);
      ItemsLocality(s[d.used..], t[d.used..], count - 1, depth, d.items);
      DecodeItemsStep(t, count, depth, items);
    }
  }

  lemma SamePrefix(s: seq<byte>, t: seq<byte>, used: nat, k: nat)
    requires SameFor(s, t, used) && k <= used
    ensures SameFor(s, t, k)
  {
    assert s[..k] == s[..used][..k] && t[..k] == t[..used][..k];
  }

  lemma {:induction false} EntriesLocality(
    s: seq<byte>, t: seq<byte>, count: nat, depth: nat, items: nat, seen: set<Key>)
    requires items <= MAX_ITEMS && DecodeEntries(s, count, depth, items, seen).Some?
    requires SameFor(s, t, DecodeEntries(s, count, depth, items, seen).value.used)
    ensures DecodeEntries(t, count, depth, items, seen) == DecodeEntries(s, count, depth, items, seen)
    decreases |s|, 1
  {
    if count > 0 {
      var k, used := DecodeItem(s, depth, items).value, DecodeEntries(s, count, depth, items, seen).value.used;
      var key := KeyOf(k.value).value;
      assert DecodeEntries(s, count, depth, items, seen)
          == DecodeValueOf(key, k.used, s[k.used..], count, depth, k.items, seen);
      ValueConsumes(key, k.used, s[k.used..], count, depth, k.items, seen);
      SamePrefix(s, t, used, k.used);
      Locality(s, t, depth, items);
      SameTail(s, t, used, k.used);
      ValueLocality(key, k.used, s[k.used..], t[k.used..], count, depth, k.items, seen);
    }
  }

  lemma ValueConsumes(key: Key, used: nat, s: seq<byte>, count: nat, depth: nat, items: nat, seen: set<Key>)
    requires items <= MAX_ITEMS && count > 0 && DecodeValueOf(key, used, s, count, depth, items, seen).Some?
    ensures DecodeValueOf(key, used, s, count, depth, items, seen).value.used >= used
  {
  }

  lemma {:induction false} ValueLocality(
    key: Key, used: nat, s: seq<byte>, t: seq<byte>, count: nat, depth: nat, items: nat, seen: set<Key>)
    requires items <= MAX_ITEMS && count > 0 && DecodeValueOf(key, used, s, count, depth, items, seen).Some?
    requires DecodeValueOf(key, used, s, count, depth, items, seen).value.used >= used
    requires SameFor(s, t, DecodeValueOf(key, used, s, count, depth, items, seen).value.used - used)
    ensures DecodeValueOf(key, used, t, count, depth, items, seen)
            == DecodeValueOf(key, used, s, count, depth, items, seen)
    decreases |s|, 1
  {
    hide DecodeItem;
    DecodeValueStep(key, used, s, count, depth, items, seen);
    DecodeValueStep(key, used, t, count, depth, items, seen);
    var d := DecodeItem(s, depth, items).value;
    var all := DecodeValueOf(key, used, s, count, depth, items, seen).value.used - used;
    SamePrefix(s, t, all, d.used);
    Locality(s, t, depth, items);
    SameTail(s, t, all, d.used);
    EntriesLocality(s[d.used..], t[d.used..], count - 1, depth, d.items, seen + {key});
  }

  // ---- what a decoded value looks like --------------------------------------------------------------

  lemma StrippedIsValid(s: seq<byte>)
    requires ValidUtf8(s)
    ensures ValidUtf8(StripBom(s)) && |StripBom(s)| <= |s|
  {
    if BOM <= s {
      assert s[0] == BOM[0] && s[1] == BOM[1] && s[2] == BOM[2];
      assert CharLength(s) == 3;
    }
  }

  /**
   * Every accepted value has distinct, unforbidden, non-numeric text keys,
   * fits the depth and item limits, and took at least a byte per item.
   */
  lemma {:induction false} DecodedIsWellFormed(s: seq<byte>, depth: nat, items: nat)
    requires DecodeItem(s, depth, items).Some?
    ensures var d := DecodeItem(s, depth, items).value;
            && WellFormed(d.value) && Shallow(d.value, depth)
            && d.items == items + Count(d.value) && Count(d.value) <= d.used
    decreases |s|, 0
  {
    var major, additional := s[0] as int / 32, s[0] as int % 32;
    if major != 7 {
      var (n, k) := ReadLength(s[1..], additional).value;
      BodyIsWellFormed(s[1 + k..], 1 + k, major, n, depth, items + 1);
    }
  }

  lemma {:induction false} BodyIsWellFormed(s: seq<byte>, head: nat, major: nat, n: nat, depth: nat, items: nat)
    requires head > 0 && 0 < items <= MAX_ITEMS && depth <= MAX_DEPTH && n < HEAD_LIMIT
    requires DecodeBody(s, head, major, n, depth, items).Some?
    ensures var d := DecodeBody(s, head, major, n, depth, items).value;
            && WellFormed(d.value) && Shallow(d.value, depth)
            && d.items == items - 1 + Count(d.value) && Count(d.value) <= d.used
    decreases |s|, 2
  {
    if major == 3 {
      StrippedIsValid(s[..n]);
    } else if major == 4 {
      ItemsAreWellFormed(s, n, depth + 1, items);
    } else if major == 5 {
      EntriesAreWellFormed(s, n, depth + 1, items, {});
    }
  }

  lemma {:induction false} ItemsAreWellFormed(s: seq<byte>, count: nat, depth: nat, items: nat)
    requires items <= MAX_ITEMS && DecodeItems(s, count, depth, items).Some?
    ensures var d := DecodeItems(s, count, depth, items).value;
            && (forall i :: 0 <= i < |d.value| ==> WellFormed(d.value[i]))
            && ItemsShallow(d.value, depth) && d.items == items + CountItems(d.value) && CountItems(d.value) <= d.used
    decreases |s|, 1
  {
    hide DecodeItem;
    if count > 0 {
      DecodeItemsStep(s, count, depth, items);
      var d := DecodeItem(s, depth, items).value;
      DecodedIsWellFormed(s, depth, items);
      ItemsAreWellFormed(s[d.used..], count - 1, depth, d.items);
      var vs := DecodeItems(s[d.used..], count - 1, depth, d.items).value.value;
      assert ([d.value] + vs)[1..] == vs;
    }
  }

  ghost predicate EntriesFit(es: seq<Entry>, depth: nat, seen: set<Key>) {
    && EntriesShallow(es, depth) && KeysDistinct(es)
    && forall i :: 0 <= i < |es| ==> KeyWellFormed(es[i].key) && WellFormed(es[i].value) && es[i].key !in seen
  }

  lemma EntriesFitCons(e: Entry, es: seq<Entry>, depth: nat, seen: set<Key>)
    requires EntriesFit(es, depth, seen + {e.key}) && EntryShallow(e, depth)
    requires KeyWellFormed(e.key) && WellFormed(e.value) && e.key !in seen
    ensures EntriesFit([e] + es, depth, seen)
    ensures CountEntries([e] + es) == 1 + Count(e.value) + CountEntries(es)
  {
    assert ([e] + es)[1..] == es;
  }

  lemma {:induction false} EntriesAreWellFormed(s: seq<byte>, count: nat, depth: nat, items: nat, seen: set<Key>)
    requires items <= MAX_ITEMS && DecodeEntries(s, count, depth, items, seen).Some?
    ensures var d := DecodeEntries(s, count, depth, items, seen).value;
            && EntriesFit(d.value, depth, seen)
            && d.items == items + CountEntries(d.value) && CountEntries(d.value) <= d.used
    decreases |s|, 1
  {
    if count > 0 {
      var k := DecodeItem(s, depth, items).value;
      var key := KeyOf(k.value).value;
      DecodedIsWellFormed(s, depth, items);
      ValueIsWellFormed(key, k.used, s[k.used..], count, depth, k.items, seen);
    }
  }

  lemma {:induction false} ValueIsWellFormed(
    key: Key, used: nat, s: seq<byte>, count: nat, depth: nat, items: nat, seen: set<Key>)
    requires items <= MAX_ITEMS && count > 0 && used > 0 && KeyWellFormed(key) && key !in seen
    requires DecodeValueOf(key, used, s, count, depth, items, seen).Some?
    ensures var d := DecodeValueOf(key, used, s, count, depth, items, seen).value;
            && EntriesFit(d.value, depth, seen)
            && d.items == items - 1 + CountEntries(d.value) && CountEntries(d.value) <= d.used
    decreases |s|, 1
  {
    hide DecodeEntries;
    DecodeValueStep(key, used, s, count, depth, items, seen);
    var d := DecodeItem(s, depth, items).value;
    DecodedIsWellFormed(s, depth, items);
    EntriesAreWellFormed(s[d.used..], count - 1, depth, d.items, seen + {key});
    EntriesFitCons(Entry(key, d.value), DecodeEntries(s[d.used..], count - 1, depth, d.items, seen + {key}).value.value,
                   depth, seen);
  }

  // ---- the round trip, exactly ---------------------------------------------------------------------------

  /** A printed head, followed by anything, is decoded as a head. */
  lemma HeadDecoded(major: nat, n: nat, body: seq<byte>, depth: nat, items: nat, d: Decoded<Value>)
    requires major < 7 && Fits(n) && DecodeItem(EncodeHead(major, n) + body, depth, items) == Some(d)
    ensures depth <= MAX_DEPTH && items < MAX_ITEMS
    ensures DecodeBody(body, |EncodeHead(major, n)|, major, n, depth, items + 1) == Some(d)
  {
    assert depth <= MAX_DEPTH && items < MAX_ITEMS;
    HeadThenBody(major, n, body, depth, items);
  }

  lemma StrippedIsShorter(t: seq<byte>)
    ensures StripBom(t) == t <==> !(BOM <= t)
  {
  }

  lemma ScalarSurvives(v: Value, rest: seq<byte>, depth: nat, items: nat, d: Decoded<Value>)
    requires WellFormed(v) && !v.Arr? && !v.Obj? && DecodeItem(Encode(v) + rest, depth, items) == Some(d)
    ensures d.used == |Encode(v)| && d.items == items + Count(v) && (d.value == v ==> BomFree(v))
  {
    assert depth <= MAX_DEPTH && items < MAX_ITEMS;
    if v.Text? {
      TextRoundTrip(v.t, rest, depth, items);
      StrippedIsShorter(v.t);
    } else {
      ScalarRoundTrip(v, rest, depth, items);
      ExpectedScalar(v, depth, items);
    }
  }

  /**
   * Whatever a printed value decodes to, its bytes and items are all used; and
   * it decodes to itself only if no text inside it, key or not, is marked.
   */
  lemma {:induction false} SurvivorsAreUnmarked(v: Value, rest: seq<byte>, depth: nat, items: nat, d: Decoded<Value>)
    requires WellFormed(v) && DecodeItem(Encode(v) + rest, depth, items) == Some(d)
    ensures d.used == |Encode(v)| && d.items == items + Count(v) && (d.value == v ==> BomFree(v))
    decreases v, 1
  {
    if v.Arr? {
      ArraySurvives(v, rest, depth, items, d);
    } else if v.Obj? {
      MapSurvives(v.entries, rest, depth, items, d);
    } else {
      ScalarSurvives(v, rest, depth, items, d);
    }
  }

  /** What an array's decode says of the decode of its items. */
  lemma ArrayDecoded(vs: seq<Value>, rest: seq<byte>, depth: nat, items: nat, d: Decoded<Value>)
    returns (ds: Decoded<seq<Value>>)
    requires Fits(|vs|) && DecodeItem(Encode(Arr(vs)) + rest, depth, items) == Some(d)
    ensures items < MAX_ITEMS && DecodeItems(EncodeItems(vs) + rest, |vs|, depth + 1, items + 1) == Some(ds)
    ensures d == Decoded(Arr(ds.value), |EncodeHead(4, |vs|)| + ds.used, ds.items)
  {
    Regrouped(EncodeHead(4, |vs|), EncodeItems(vs), rest);
    HeadDecoded(4, |vs|, EncodeItems(vs) + rest, depth, items, d);
    ds := DecodeItems(EncodeItems(vs) + rest, |vs|, depth + 1, items + 1).value;
  }

  lemma {:induction false} ArraySurvives(v: Value, rest: seq<byte>, depth: nat, items: nat, d: Decoded<Value>)
    requires WellFormed(v) && v.Arr? && DecodeItem(Encode(v) + rest, depth, items) == Some(d)
    ensures d.used == |Encode(v)| && d.items == items + Count(v) && (d.value == v ==> BomFree(v))
    decreases v, 0
  {
    hide DecodeItem, DecodeItems;
    var ds := ArrayDecoded(v.items, rest, depth, items, d);
    ItemsSurvive(v.items, rest, depth + 1, items + 1, ds);
  }

  lemma MapDecoded(es: seq<Entry>, rest: seq<byte>, depth: nat, items: nat, d: Decoded<Value>)
    returns (ds: Decoded<seq<Entry>>)
    requires Fits(|es|) && DecodeItem(Encode(Obj(es)) + rest, depth, items) == Some(d)
    ensures items < MAX_ITEMS && DecodeEntries(EncodeEntries(es) + rest, |es|, depth + 1, items + 1, {}) == Some(ds)
    ensures d == Decoded(Obj(ds.value), |EncodeHead(5, |es|)| + ds.used, ds.items)
  {
    Regrouped(EncodeHead(5, |es|), EncodeEntries(es), rest);
    HeadDecoded(5, |es|, EncodeEntries(es) + rest, depth, items, d);
    ds := DecodeEntries(EncodeEntries(es) + rest, |es|, depth + 1, items + 1, {}).value;
  }

  lemma UnmarkedMap(es: seq<Entry>)
    requires forall i :: 0 <= i < |es| ==> EntryUnmarked(es[i])
    ensures BomFree(Obj(es))
  {
  }

  lemma {:induction false} MapSurvives(
    es: seq<Entry>, rest: seq<byte>, depth: nat, items: nat, d: Decoded<Value>)
    requires WellFormed(Obj(es)) && DecodeItem(Encode(Obj(es)) + rest, depth, items) == Some(d)
    ensures d.used == |Encode(Obj(es))| && d.items == items + Count(Obj(es))
    ensures d.value == Obj(es) ==> BomFree(Obj(es))
    decreases es, 2
  {
    hide DecodeItem, DecodeEntries;
    var ds := MapDecoded(es, rest, depth, items, d);
    EntriesSurvive(es, rest, depth + 1, items + 1, {}, ds);
    if ds.value == es {
      UnmarkedMap(es);
    }
  }

  lemma {:induction false} ItemsSurvive(vs: seq<Value>, rest: seq<byte>, depth: nat, items: nat, d: Decoded<seq<Value>>)
    requires (forall i :: 0 <= i < |vs| ==> WellFormed(vs[i])) && items <= MAX_ITEMS
    requires DecodeItems(EncodeItems(vs) + rest, |vs|, depth, items) == Some(d)
    ensures d.used == |EncodeItems(vs)| && d.items == items + CountItems(vs)
    ensures d.value == vs ==> forall i :: 0 <= i < |vs| ==> BomFree(vs[i])
    decreases vs
  {
    if |vs| > 0 {
      var first, more := Encode(vs[0]), EncodeItems(vs[1..]) + rest;
      Regrouped(first, EncodeItems(vs[1..]), rest);
      DecodeItemsStep(first + more, |vs|, depth, items);
      var x := DecodeItem(first + more, depth, items).value;
      SurvivorsAreUnmarked(vs[0], more, depth, items, x);
      assert (first + more)[|first|..] == more;
      var xs := DecodeItems(more, |vs| - 1, depth, x.items).value;
      ItemsSurvive(vs[1..], rest, depth, x.items, xs);
      if d.value == vs {
        ConsAgrees(x.value, xs.value, vs);
      }
    }
  }

  lemma ConsAgrees<T>(x: T, xs: seq<T>, vs: seq<T>)
    requires |vs| > 0 && [x] + xs == vs
    ensures x == vs[0] && xs == vs[1..]
  {
  }

  ghost predicate AllEntriesWellFormed(es: seq<Entry>) {
    forall i :: 0 <= i < |es| ==> KeyWellFormed(es[i].key) && WellFormed(es[i].value)
  }

  predicate EntryUnmarked(e: Entry) {
    !(BOM <= KeyText(e.key)) && BomFree(e.value)
  }

  lemma EntriesStartWithAKey(s: seq<byte>, count: nat, depth: nat, items: nat, seen: set<Key>)
    requires count > 0 && items <= MAX_ITEMS && DecodeEntries(s, count, depth, items, seen).Some?
    ensures DecodeItem(s, depth, items).Some?
  {
  }

  lemma {:induction false} EntriesSurvive(
    es: seq<Entry>, rest: seq<byte>, depth: nat, items: nat, seen: set<Key>, d: Decoded<seq<Entry>>)
    requires AllEntriesWellFormed(es) && items <= MAX_ITEMS
    requires DecodeEntries(EncodeEntries(es) + rest, |es|, depth, items, seen) == Some(d)
    ensures d.used == |EncodeEntries(es)| && d.items == items + CountEntries(es)
    ensures d.value == es ==> forall i :: 0 <= i < |es| ==> EntryUnmarked(es[i])
    decreases es, 1
  {
    if |es| > 0 {
      var more := Encode(es[0].value) + (EncodeEntries(es[1..]) + rest);
      EntriesRegrouped(es, rest);
      var s := EncodeKey(es[0].key) + more;
      EntriesStartWithAKey(s, |es|, depth, items, seen);
      var k := DecodeItem(s, depth, items).value;
      KeySurvives(es[0].key, more, depth, items, k);
      assert s[k.used..] == more;
      var key := KeyOf(k.value).value;
      assert DecodeEntries(s, |es|, depth, items, seen) == DecodeValueOf(key, k.used, more, |es|, depth, k.items, seen);
      ValueSurvives(es, key, k.used, rest, depth, k.items, seen, d);
    }
  }

  lemma KeySurvives(k: Key, rest: seq<byte>, depth: nat, items: nat, d: Decoded<Value>)
    requires KeyWellFormed(k) && DecodeItem(EncodeKey(k) + rest, depth, items) == Some(d)
    ensures d.used == |EncodeKey(k)| && d.items == items + 1
    ensures KeyOf(d.value) == Some(k) ==> !(BOM <= KeyText(k))
  {
    assert Encode(KeyValue(k)) == EncodeKey(k);
    ScalarSurvives(KeyValue(k), rest, depth, items, d);
  }

  lemma {:induction false} ValueSurvives(
    es: seq<Entry>, key: Key, used: nat, rest: seq<byte>, depth: nat, items: nat, seen: set<Key>,
    d: Decoded<seq<Entry>>)
    requires |es| > 0 && AllEntriesWellFormed(es) && items <= MAX_ITEMS
    requires DecodeValueOf(key, used, Encode(es[0].value) + (EncodeEntries(es[1..]) + rest), |es|, depth, items, seen)
             == Some(d)
    ensures d.used == used + |Encode(es[0].value)| + |EncodeEntries(es[1..])|
    ensures d.items == items + Count(es[0].value) + CountEntries(es[1..])
    ensures d.value == es ==>
              key == es[0].key && BomFree(es[0].value) && forall i :: 1 <= i < |es| ==> EntryUnmarked(es[i])
    decreases es, 0
  {
    var value, more := Encode(es[0].value), EncodeEntries(es[1..]) + rest;
    DecodeValueStep(key, used, value + more, |es|, depth, items, seen);
    var x := DecodeItem(value + more, depth, items).value;
    EntryValueSurvives(es[0], more, depth, items, x);
    assert (value + more)[x.used..] == more;
    var xs := DecodeEntries(more, |es| - 1, depth, x.items, seen + {key}).value;
    EntriesSurvive(es[1..], rest, depth, x.items, seen + {key}, xs);
    if d.value == es {
      ConsAgrees(Entry(key, x.value), xs.value, es);
      assert forall i :: 1 <= i < |es| ==> es[i] == es[1..][i - 1];
    }
  }

  lemma {:induction false} EntryValueSurvives(e: Entry, rest: seq<byte>, depth: nat, items: nat, d: Decoded<Value>)
    requires WellFormed(e.value) && DecodeItem(Encode(e.value) + rest, depth, items) == Some(d)
    ensures d.used == |Encode(e.value)| && d.items == items + Count(e.value)
    ensures d.value == e.value ==> BomFree(e.value)
    decreases e
  {
    SurvivorsAreUnmarked(e.value, rest, depth, items, d);
  }

  /** The values the wire carries: in the subset, unmarked, within the limits from here on. */
  predicate Carried(v: Value, depth: nat, items: nat) {
    WellFormed(v) && BomFree(v) && Shallow(v, depth) && items + Count(v) <= MAX_ITEMS
  }

  /**
   * The round trip, for every value whatsoever, at any depth and budget, and
   * whatever bytes follow: what was printed comes back exactly when the value
   * is in the subset, no text or key in it starts with a byte-order mark, and
   * it fits the depth of 8 and the 1024 items. Then its length and count are exact.
   */
  lemma RoundTripExactly(v: Value, rest: seq<byte>, depth: nat, items: nat)
    requires items <= MAX_ITEMS
    ensures var r := DecodeItem(Encode(v) + rest, depth, items);
            && ((r.Some? && r.value.value == v) <==> Carried(v, depth, items))
            && (Carried(v, depth, items) ==> r == Some(Decoded(v, |Encode(v)|, items + Count(v))))
  {
    var r := DecodeItem(Encode(v) + rest, depth, items);
    if r.Some? && r.value.value == v {
      DecodedIsWellFormed(Encode(v) + rest, depth, items);
      SurvivorsAreUnmarked(v, rest, depth, items, r.value);
    }
    if Carried(v, depth, items) {
      RoundTrip(v, rest, depth, items);
    }
  }

  /** The two entry points: one item from the front, or one item that is the whole input. */
  lemma FirstRoundTrip(v: Value, rest: seq<byte>)
    ensures var r := DecodeFirst(Encode(v) + rest);
            && ((r.Some? && r.value.value == v) <==> Carried(v, 0, 0))
            && (Carried(v, 0, 0) ==> r.value.used == |Encode(v)|)
    ensures DecodeExact(Encode(v)) == Some(v) <==> Carried(v, 0, 0)
  {
    RoundTripExactly(v, rest, 0, 0);
    RoundTripExactly(v, [], 0, 0);
    assert Encode(v) + [] == Encode(v);
  }

  /** A text value survives the round trip exactly when it starts with no byte-order mark. */
  lemma TextSurvivesUnlessMarked(t: seq<byte>)
    requires TextOk(t)
    ensures DecodeExact(Encode(Text(t))) == Some(Text(t)) <==> !(BOM <= t)
  {
    FirstRoundTrip(Text(t), []);
  }

  /**
   * Printing what was decoded, whatever its original encoding, gives it back
   * exactly when it carries no byte-order mark: one mark is dropped per decode.
   */
  lemma DecodeNormalizes(s: seq<byte>, d: Decoded<Value>, rest: seq<byte>)
    requires DecodeFirst(s) == Some(d)
    ensures var r := DecodeFirst(Encode(d.value) + rest);
            (r.Some? && r.value.value == d.value) <==> BomFree(d.value)
  {
    DecodedIsWellFormed(s, 0, 0);
    FirstRoundTrip(d.value, rest);
  }
}
