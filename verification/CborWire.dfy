/**
 * The input language of the decoder: byte by byte, what it accepts and what
 * it makes of it, whoever printed the bytes. A head may spell its argument in
 * more bytes than it needs, and text may start with a byte-order mark.
 */
module CborWire {
  import opened Wrappers
  import opened Cbor

  /** How many bytes after its first a head spells its argument in. */
  datatype Width = Inside | One | Two | Four

  datatype Wire =
    | WUint(w: Width, n: nat)
    | WNegative(w: Width, n: nat)
    | WBytes(w: Width, b: seq<byte>)
    | WText(w: Width, t: seq<byte>)
    | WFalse
    | WTrue
    | WNull
    | WArray(w: Width, items: seq<Wire>)
    | WMap(w: Width, entries: seq<WEntry>)

  datatype WEntry = WEntry(key: Wire, value: Wire)

  // ---- the grammar -------------------------------------------------------------------------------

  predicate Holds(w: Width, n: nat) {
    match w
    case Inside => n < 24
    case One => n < 0x100
    case Two => n < 0x1_0000
    case Four => n < 0x1_0000_0000
  }

  function Head(major: nat, w: Width, n: nat): (r: seq<byte>)
    requires major < 7 && Holds(w, n)
    ensures |r| > 0
  {
    match w
    case Inside => [major * 32 + n]
    case One => [major * 32 + 24, n]
    case Two => [major * 32 + 25, n / 0x100, n % 0x100]
    case Four => [major * 32 + 26, n / 0x100_0000, n / 0x1_0000 % 0x100, n / 0x100 % 0x100, n % 0x100]
  }

  /** A key is an integer, or a text that is no forbidden and no numeric name. */
  predicate LawfulKey(k: Wire) {
    match k
    case WUint(w, n) => Holds(w, n)
    case WNegative(w, n) => Holds(w, n)
    case WText(w, t) => Holds(w, |t|) && ValidUtf8(t) && KeyOk(TextKey(StripBom(t)))
    case _ => false
  }

  function KeyMeant(k: Wire): Key {
    match k
    case WUint(_, n) => IntKey(n)
    case WNegative(_, n) => IntKey(-1 - n)
    case WText(_, t) => TextKey(StripBom(t))
    case _ => IntKey(0)
  }

  predicate KeysApart(es: seq<WEntry>) {
    forall i, j :: 0 <= i < j < |es| ==> KeyMeant(es[i].key) != KeyMeant(es[j].key)
  }

  predicate Lawful(t: Wire) {
    match t
    case WUint(w, n) => Holds(w, n)
    case WNegative(w, n) => Holds(w, n)
    case WBytes(w, b) => Holds(w, |b|)
    case WText(w, u) => Holds(w, |u|) && ValidUtf8(u)
    case WArray(w, items) => Holds(w, |items|) && forall i :: 0 <= i < |items| ==> Lawful(items[i])
    case WMap(w, entries) =>
      && Holds(w, |entries|) && KeysApart(entries)
      && forall i :: 0 <= i < |entries| ==> LawfulKey(entries[i].key) && Lawful(entries[i].value)
    case _ => true
  }

  function KeyBytes(k: Wire): seq<byte>
    requires LawfulKey(k)
  {
    match k
    case WUint(w, n) => Head(0, w, n)
    case WNegative(w, n) => Head(1, w, n)
    case WText(w, t) => Head(3, w, |t|) + t
  }

  function Spelled(t: Wire): (r: seq<byte>)
    requires Lawful(t)
    ensures |r| > 0
  {
    match t
    case WUint(w, n) => Head(0, w, n)
    case WNegative(w, n) => Head(1, w, n)
    case WBytes(w, b) => Head(2, w, |b|) + b
    case WText(w, u) => Head(3, w, |u|) + u
    case WFalse => [0xF4]
    case WTrue => [0xF5]
    case WNull => [0xF6]
    case WArray(w, items) => Head(4, w, |items|) + SpelledItems(items)
    case WMap(w, entries) => Head(5, w, |entries|) + SpelledEntries(entries)
  }

  function SpelledItems(ts: seq<Wire>): seq<byte>
    requires forall i :: 0 <= i < |ts| ==> Lawful(ts[i])
  {
    if |ts| == 0 then [] else Spelled(ts[0]) + SpelledItems(ts[1..])
  }

  function SpelledEntries(es: seq<WEntry>): seq<byte>
    requires forall i :: 0 <= i < |es| ==> LawfulKey(es[i].key) && Lawful(es[i].value)
  {
    if |es| == 0 then [] else SpelledEntry(es[0]) + SpelledEntries(es[1..])
  }

  function SpelledEntry(e: WEntry): seq<byte>
    requires LawfulKey(e.key) && Lawful(e.value)
  {
    KeyBytes(e.key) + Spelled(e.value)
  }

  /** What a spelling means: widths are forgotten, and a leading byte-order mark with them. */
  function Meaning(t: Wire): Value {
    match t
    case WUint(_, n) => Num(n)
    case WNegative(_, n) => Num(-1 - n)
    case WBytes(_, b) => Bytes(b)
    case WText(_, u) => Text(StripBom(u))
    case WFalse => Bool(false)
    case WTrue => Bool(true)
    case WNull => Null
    case WArray(_, items) => Arr(Meanings(items))
    case WMap(_, entries) => Obj(EntryMeanings(entries))
  }

  function Meanings(ts: seq<Wire>): seq<Value> {
    if |ts| == 0 then [] else [Meaning(ts[0])] + Meanings(ts[1..])
  }

  function EntryMeanings(es: seq<WEntry>): seq<Entry> {
    if |es| == 0 then [] else [EntryMeaning(es[0])] + EntryMeanings(es[1..])
  }

  function EntryMeaning(e: WEntry): Entry {
    Entry(KeyMeant(e.key), Meaning(e.value))
  }

  /** Every value and every key is an item. */
  function Size(t: Wire): (n: nat)
    ensures n > 0
  {
    match t
    case WArray(_, items) => 1 + Sizes(items)
    case WMap(_, entries) => 1 + EntrySizes(entries)
    case _ => 1
  }

  function Sizes(ts: seq<Wire>): nat {
    if |ts| == 0 then 0 else Size(ts[0]) + Sizes(ts[1..])
  }

  function EntrySizes(es: seq<WEntry>): nat {
    if |es| == 0 then 0 else EntrySize(es[0]) + EntrySizes(es[1..])
  }

  function EntrySize(e: WEntry): nat {
    1 + Size(e.value)
  }

  /** No item lies deeper than eight levels. */
  predicate Nests(t: Wire, depth: nat) {
    && depth <= 8
    && match t
       case WArray(_, items) => forall i :: 0 <= i < |items| ==> Nests(items[i], depth + 1)
       case WMap(_, entries) =>
         forall i :: 0 <= i < |entries| ==> depth + 1 <= 8 && Nests(entries[i].value, depth + 1)
       case _ => true
  }

  /** The spelling starts the input, and this is what decoding it yields. */
  ghost predicate Denotes(t: Wire, s: seq<byte>, depth: nat, items: nat, d: Decoded<Value>) {
    && Lawful(t) && Nests(t, depth) && Spelled(t) <= s
    && items + Size(t) <= 1024
    && d == Decoded(Meaning(t), |Spelled(t)|, items + Size(t))
  }

  // ---- heads ---------------------------------------------------------------------------------------

  lemma HeadIsRead(major: nat, w: Width, n: nat, body: seq<byte>, depth: nat, items: nat)
    requires major < 7 && Holds(w, n) && depth <= MAX_DEPTH && items < MAX_ITEMS
    ensures DecodeItem(Head(major, w, n) + body, depth, items)
            == DecodeBody(body, |Head(major, w, n)|, major, n, depth, items + 1)
  {
    var h := Head(major, w, n);
    var s := h + body;
    assert s[0] == h[0] && s[0] as int / 32 == major;
    assert s[1..] == h[1..] + body;
    ArgumentIsRead(w, n, body);
    assert s[|h|..] == body;
  }

  lemma ArgumentIsRead(w: Width, n: nat, body: seq<byte>)
    requires Holds(w, n)
    ensures var h := Head(0, w, n);
            ReadLength(h[1..] + body, h[0] as int) == Some((n, |h| - 1)) && h[0] < 27
    ensures forall major: nat :: major < 7 ==>
              Head(major, w, n)[0] as int % 32 == Head(0, w, n)[0] as int
              && Head(major, w, n)[1..] == Head(0, w, n)[1..]
  {
    match w
    case Inside =>
    case One =>
    case Two =>
    case Four =>
      assert n / 0x100 / 0x100 == n / 0x1_0000 && n / 0x1_0000 / 0x100 == n / 0x100_0000;
  }

  /** Every head the decoder reads is the spelling of its argument at some width. */
  lemma ReadHeadIsSpelled(s: seq<byte>, n: int, k: nat) returns (w: Width)
    requires |s| > 0 && s[0] as int / 32 < 7 && s[0] as int % 32 != 31
    requires ReadLength(s[1..], s[0] as int % 32) == Some((n, k))
    ensures n >= 0 && Holds(w, n) && 1 + k <= |s| && Head(s[0] as int / 32, w, n) == s[..1 + k]
  {
    var additional := s[0] as int % 32;
    if additional < 24 {
      w := Inside;
    } else if additional == 24 {
      w := One;
    } else if additional == 25 {
      w := Two;
    } else {
      w := Four;
      FourBytes(s[1], s[2], s[3], s[4]);
    }
  }

  lemma FourBytes(a: byte, b: byte, c: byte, d: byte)
    ensures var n := a as int * 0x100_0000 + b as int * 0x1_0000 + c as int * 0x100 + d as int;
            n / 0x100_0000 == a as int && n / 0x1_0000 % 0x100 == b as int && n / 0x100 % 0x100 == c as int
            && n % 0x100 == d as int
  {
    var n := a as int * 0x100_0000 + b as int * 0x1_0000 + c as int * 0x100 + d as int;
    assert n / 0x1_0000 == a as int * 0x100 + b as int;
    assert n / 0x100 == (a as int * 0x100 + b as int) * 0x100 + c as int;
  }

  // ---- building spellings up -----------------------------------------------------------------------

  ghost predicate AllLawful(ts: seq<Wire>, depth: nat) {
    forall i :: 0 <= i < |ts| ==> Lawful(ts[i]) && Nests(ts[i], depth)
  }

  ghost predicate EntriesLawful(es: seq<WEntry>, depth: nat) {
    forall i :: 0 <= i < |es| ==> LawfulKey(es[i].key) && Lawful(es[i].value) && depth <= 8 && Nests(es[i].value, depth)
  }

  lemma ItemsCons(t: Wire, rest: seq<Wire>, depth: nat)
    requires Lawful(t) && Nests(t, depth) && AllLawful(rest, depth)
    ensures AllLawful([t] + rest, depth)
    ensures SpelledItems([t] + rest) == Spelled(t) + SpelledItems(rest)
    ensures Meanings([t] + rest) == [Meaning(t)] + Meanings(rest)
    ensures Sizes([t] + rest) == Size(t) + Sizes(rest)
  {
    assert ([t] + rest)[1..] == rest;
  }

  lemma EntriesCons(e: WEntry, rest: seq<WEntry>, depth: nat)
    requires LawfulKey(e.key) && Lawful(e.value) && depth <= 8 && Nests(e.value, depth) && EntriesLawful(rest, depth)
    ensures EntriesLawful([e] + rest, depth)
    ensures SpelledEntries([e] + rest) == SpelledEntry(e) + SpelledEntries(rest)
    ensures EntryMeanings([e] + rest) == [EntryMeaning(e)] + EntryMeanings(rest)
    ensures EntrySizes([e] + rest) == EntrySize(e) + EntrySizes(rest)
  {
    assert ([e] + rest)[1..] == rest;
  }

  /** A list of entries, as its first and the rest. */
  lemma EntriesSplit(es: seq<WEntry>, depth: nat)
    requires |es| > 0 && EntriesLawful(es, depth)
    ensures LawfulKey(es[0].key) && Lawful(es[0].value) && depth <= 8 && Nests(es[0].value, depth)
    ensures EntriesLawful(es[1..], depth)
    ensures SpelledEntries(es) == SpelledEntry(es[0]) + SpelledEntries(es[1..])
    ensures EntryMeanings(es) == [EntryMeaning(es[0])] + EntryMeanings(es[1..])
    ensures EntrySizes(es) == EntrySize(es[0]) + EntrySizes(es[1..])
  {
  }

  lemma Adjacent(s: seq<byte>, m: nat, n: nat)
    requires m <= n <= |s|
    ensures s[..n] == s[..m] + s[m..][..n - m]
  {
  }

  // ---- what is spelled is decoded ------------------------------------------------------------------

  function Result(t: Wire, items: nat): Option<Decoded<Value>>
    requires Lawful(t)
  {
    Some(Decoded(Meaning(t), |Spelled(t)|, items + Size(t)))
  }

  lemma Regroup(a: seq<byte>, b: seq<byte>, c: seq<byte>)
    ensures a + b + c == a + (b + c)
  {
  }

  lemma BytesAfter(h: seq<byte>, b: seq<byte>, rest: seq<byte>)
    ensures (b + rest)[..|b|] == b && (h + b)[..|h|] == h && (b + rest)[|b|..] == rest
  {
  }

  lemma {:induction false} SpelledDecodes(t: Wire, rest: seq<byte>, depth: nat, items: nat)
    requires Lawful(t) && Nests(t, depth) && items + Size(t) <= MAX_ITEMS
    ensures DecodeItem(Spelled(t) + rest, depth, items) == Result(t, items)
    decreases t, 1
  {
    match t
    case WArray(_, _) => ArrayDecodes(t, rest, depth, items);
    case WMap(_, _) => MapDecodes(t, rest, depth, items);
    case _ => ScalarDecodes(t, rest, depth, items);
  }

  lemma ScalarDecodes(t: Wire, rest: seq<byte>, depth: nat, items: nat)
    requires Lawful(t) && !t.WArray? && !t.WMap? && depth <= MAX_DEPTH && items < MAX_ITEMS
    ensures DecodeItem(Spelled(t) + rest, depth, items) == Result(t, items)
  {
    hide DecodeItem;
    match t
    case WUint(w, n) => HeadIsRead(0, w, n, rest, depth, items);
    case WNegative(w, n) => HeadIsRead(1, w, n, rest, depth, items);
    case WBytes(_, _) => BytesDecode(t, rest, depth, items);
    case WText(_, _) => TextDecodes(t, rest, depth, items);
    case _ => SimpleDecodes(t, rest, depth, items);
  }

  lemma BytesDecode(t: Wire, rest: seq<byte>, depth: nat, items: nat)
    requires Lawful(t) && t.WBytes? && depth <= MAX_DEPTH && items < MAX_ITEMS
    ensures DecodeItem(Spelled(t) + rest, depth, items) == Result(t, items)
  {
    hide DecodeItem;
    HeadIsRead(2, t.w, |t.b|, t.b + rest, depth, items);
    Regroup(Head(2, t.w, |t.b|), t.b, rest);
    BytesAfter([], t.b, rest);
  }

  lemma TextDecodes(t: Wire, rest: seq<byte>, depth: nat, items: nat)
    requires Lawful(t) && t.WText? && depth <= MAX_DEPTH && items < MAX_ITEMS
    ensures DecodeItem(Spelled(t) + rest, depth, items) == Result(t, items)
  {
    hide DecodeItem;
    HeadIsRead(3, t.w, |t.t|, t.t + rest, depth, items);
    Regroup(Head(3, t.w, |t.t|), t.t, rest);
    BytesAfter([], t.t, rest);
  }

  lemma SimpleDecodes(t: Wire, rest: seq<byte>, depth: nat, items: nat)
    requires (t.WFalse? || t.WTrue? || t.WNull?) && depth <= MAX_DEPTH && items < MAX_ITEMS
    ensures DecodeItem(Spelled(t) + rest, depth, items) == Result(t, items)
  {
  }

  lemma {:induction false} ArrayDecodes(t: Wire, rest: seq<byte>, depth: nat, items: nat)
    requires t.WArray? && Lawful(t) && Nests(t, depth) && items + Size(t) <= MAX_ITEMS
    ensures DecodeItem(Spelled(t) + rest, depth, items) == Result(t, items)
    decreases t, 0
  {
    hide DecodeItem, DecodeItems;
    HeadIsRead(4, t.w, |t.items|, SpelledItems(t.items) + rest, depth, items);
    Regroup(Head(4, t.w, |t.items|), SpelledItems(t.items), rest);
    ItemsDecode(t.items, rest, depth + 1, items + 1);
  }

  lemma {:induction false} ItemsDecode(ts: seq<Wire>, rest: seq<byte>, depth: nat, items: nat)
    requires forall i :: 0 <= i < |ts| ==> Lawful(ts[i]) && Nests(ts[i], depth)
    requires items + Sizes(ts) <= MAX_ITEMS
    ensures DecodeItems(SpelledItems(ts) + rest, |ts|, depth, items)
            == Some(Decoded(Meanings(ts), |SpelledItems(ts)|, items + Sizes(ts)))
    decreases ts
  {
    hide DecodeItem, Lawful, Nests, Spelled, Size, Meaning;
    if |ts| == 0 {
      assert SpelledItems(ts) + rest == rest;
    } else {
      var first, more := Spelled(ts[0]), SpelledItems(ts[1..]) + rest;
      Regroup(first, SpelledItems(ts[1..]), rest);
      SpelledDecodes(ts[0], more, depth, items);
      BytesAfter([], first, more);
      ItemsDecode(ts[1..], rest, depth, items + Size(ts[0]));
      DecodeItemsStep(first + more, |ts|, depth, items);
    }
  }

  lemma {:induction false} MapDecodes(t: Wire, rest: seq<byte>, depth: nat, items: nat)
    requires t.WMap? && Lawful(t) && Nests(t, depth) && items + Size(t) <= MAX_ITEMS
    ensures DecodeItem(Spelled(t) + rest, depth, items) == Result(t, items)
    decreases t, 0
  {
    hide DecodeItem, DecodeEntries, SpelledEntries, EntryMeanings, EntrySizes;
    HeadIsRead(5, t.w, |t.entries|, SpelledEntries(t.entries) + rest, depth, items);
    Regroup(Head(5, t.w, |t.entries|), SpelledEntries(t.entries), rest);
    EntriesDecode(t.entries, rest, depth + 1, items + 1, {});
  }

  /** A lawful key, as an item of its own. */
  lemma KeyDecodes(k: Wire, rest: seq<byte>, depth: nat, items: nat)
    requires LawfulKey(k) && depth <= MAX_DEPTH && items < MAX_ITEMS
    ensures Lawful(k) && Spelled(k) == KeyBytes(k) && KeyOf(Meaning(k)) == Some(KeyMeant(k))
    ensures DecodeItem(KeyBytes(k) + rest, depth, items)
            == Some(Decoded(Meaning(k), |KeyBytes(k)|, items + 1))
  {
    ScalarDecodes(k, rest, depth, items);
  }

  predicate NoneSeen(es: seq<WEntry>, seen: set<Key>) {
    forall i :: 0 <= i < |es| ==> KeyMeant(es[i].key) !in seen
  }

  lemma SeenTail(es: seq<WEntry>, seen: set<Key>)
    requires |es| > 0 && KeysApart(es) && NoneSeen(es, seen)
    ensures KeysApart(es[1..]) && NoneSeen(es[1..], seen + {KeyMeant(es[0].key)})
  {
  }

  lemma {:induction false} EntriesDecode(es: seq<WEntry>, rest: seq<byte>, depth: nat, items: nat, seen: set<Key>)
    requires EntriesLawful(es, depth) && KeysApart(es) && NoneSeen(es, seen) && items + EntrySizes(es) <= MAX_ITEMS
    ensures DecodeEntries(SpelledEntries(es) + rest, |es|, depth, items, seen)
            == Some(Decoded(EntryMeanings(es), |SpelledEntries(es)|, items + EntrySizes(es)))
    decreases es, 1
  {
    hide DecodeItem, DecodeEntries, EntriesLawful, KeysApart, NoneSeen, Lawful, Nests, Spelled;
    hide EntryMeanings, SpelledEntries, KeyMeant, Size, Meaning;
    if |es| == 0 {
      NoEntries(es, rest, depth, items, seen);
    } else {
      EntriesSplit(es, depth);
      FirstUnseen(es, seen);
      SeenTail(es, seen);
      EntriesDecode(es[1..], rest, depth, items + EntrySize(es[0]), seen + {KeyMeant(es[0].key)});
      EntriesFromFirst(es, rest, depth, items, seen);
    }
  }

  lemma {:induction false} EntriesFromFirst(
    es: seq<WEntry>, rest: seq<byte>, depth: nat, items: nat, seen: set<Key>)
    requires |es| > 0 && EntriesLawful(es, depth) && EntriesLawful(es[1..], depth)
    requires KeyMeant(es[0].key) !in seen && items + EntrySizes(es) <= MAX_ITEMS
    requires EntrySizes(es) == EntrySize(es[0]) + EntrySizes(es[1..])
    requires DecodeEntries(SpelledEntries(es[1..]) + rest, |es[1..]|, depth, items + EntrySize(es[0]),
                           seen + {KeyMeant(es[0].key)})
             == Some(Decoded(EntryMeanings(es[1..]), |SpelledEntries(es[1..])|, items + EntrySizes(es)))
    ensures DecodeEntries(SpelledEntries(es) + rest, |es|, depth, items, seen)
            == Some(Decoded(EntryMeanings(es), |SpelledEntries(es)|, items + EntrySizes(es)))
    decreases es, 0
  {
    hide DecodeItem, DecodeEntries, EntriesLawful, SpelledEntries, EntryMeanings, EntrySizes, Lawful, Nests;
    hide LawfulKey, KeyBytes, Spelled, Size, Meaning, SpelledEntry, EntryMeaning;
    EntriesSplit(es, depth);
    FirstEntryDecodes(es[0], SpelledEntries(es[1..]) + rest, |es|, depth, items, seen);
    EntryGrouped(es[0], SpelledEntries(es[1..]), rest);
  }

  lemma FirstUnseen(es: seq<WEntry>, seen: set<Key>)
    requires |es| > 0 && NoneSeen(es, seen)
    ensures KeyMeant(es[0].key) !in seen
  {
  }

  lemma NoEntries(es: seq<WEntry>, rest: seq<byte>, depth: nat, items: nat, seen: set<Key>)
    requires |es| == 0 && items <= MAX_ITEMS
    ensures DecodeEntries(SpelledEntries(es) + rest, |es|, depth, items, seen)
            == Some(Decoded(EntryMeanings(es), |SpelledEntries(es)|, items + EntrySizes(es)))
  {
    assert SpelledEntries(es) + rest == rest;
  }

  /** One entry, and then whatever the rest decodes to. */
  lemma {:induction false} FirstEntryDecodes(
    e: WEntry, more: seq<byte>, count: nat, depth: nat, items: nat, seen: set<Key>)
    requires LawfulKey(e.key) && Lawful(e.value) && depth <= MAX_DEPTH && Nests(e.value, depth)
    requires KeyMeant(e.key) !in seen && count > 0 && items + EntrySize(e) <= MAX_ITEMS
    ensures DecodeEntries(KeyBytes(e.key) + (Spelled(e.value) + more), count, depth, items, seen)
            == Prepended([EntryMeaning(e)], |KeyBytes(e.key)| + |Spelled(e.value)|,
                         DecodeEntries(more, count - 1, depth, items + EntrySize(e), seen + {KeyMeant(e.key)}))
    decreases e, 0
  {
    hide DecodeItem, DecodeEntries;
    var key, value := KeyBytes(e.key), Spelled(e.value);
    KeyDecodes(e.key, value + more, depth, items);
    BytesAfter([], key, value + more);
    SpelledDecodes(e.value, more, depth, items + 1);
    BytesAfter([], value, more);
    EntryStep(key + (value + more), count, depth, items, seen, Meaning(e.key), |key|);
    DecodeValueStep(KeyMeant(e.key), |key|, value + more, count, depth, items + 1, seen);
  }

  lemma EntryGrouped(e: WEntry, more: seq<byte>, rest: seq<byte>)
    requires LawfulKey(e.key) && Lawful(e.value)
    ensures SpelledEntry(e) + more + rest == KeyBytes(e.key) + (Spelled(e.value) + (more + rest))
    ensures |SpelledEntry(e) + more| == |KeyBytes(e.key)| + |Spelled(e.value)| + |more|
  {
    hide KeyBytes, Spelled, Lawful, LawfulKey;
    var key, value := KeyBytes(e.key), Spelled(e.value);
    Regroup(key + value, more, rest);
    Regroup(key, value, more + rest);
  }

  /** Decoding entries starts with a key. */
  lemma EntryStep(s: seq<byte>, count: nat, depth: nat, items: nat, seen: set<Key>, v: Value, used: nat)
    requires count > 0 && items < MAX_ITEMS && 0 < used <= |s|
    requires DecodeItem(s, depth, items) == Some(Decoded(v, used, items + 1))
    requires KeyOf(v).Some? && KeyOf(v).value !in seen
    ensures DecodeEntries(s, count, depth, items, seen)
            == DecodeValueOf(KeyOf(v).value, used, s[used..], count, depth, items + 1, seen)
  {
  }

  // ---- what is decoded is spelled ------------------------------------------------------------------

  lemma {:induction false} DecodedIsSpelled(s: seq<byte>, depth: nat, items: nat) returns (t: Wire)
    requires DecodeItem(s, depth, items).Some?
    ensures var d := DecodeItem(s, depth, items).value;
            && Lawful(t) && Nests(t, depth) && Spelled(t) == s[..d.used]
            && d.value == Meaning(t) && d.items == items + Size(t)
    decreases |s|, 0
  {
    var major, additional := s[0] as int / 32, s[0] as int % 32;
    if major == 7 {
      t := if additional == 20 then WFalse else if additional == 21 then WTrue else WNull;
    } else {
      var (n, k) := ReadLength(s[1..], additional).value;
      var w := ReadHeadIsSpelled(s, n, k);
      t := BodyIsSpelled(s[1 + k..], 1 + k, major, w, n, depth, items + 1);
      Adjacent(s, 1 + k, DecodeItem(s, depth, items).value.used);
    }
  }

  /** The rest of an item whose head has been read. */
  lemma {:induction false} BodyIsSpelled(
    s: seq<byte>, head: nat, major: nat, w: Width, n: nat, depth: nat, items: nat) returns (t: Wire)
    requires head > 0 && 0 < items <= MAX_ITEMS && depth <= MAX_DEPTH && major < 7 && Holds(w, n)
    requires DecodeBody(s, head, major, n, depth, items).Some? && |Head(major, w, n)| == head
    ensures var d := DecodeBody(s, head, major, n, depth, items).value;
            && Lawful(t) && Nests(t, depth) && Spelled(t) == Head(major, w, n) + s[..d.used - head]
            && d.value == Meaning(t) && d.items == items - 1 + Size(t)
    decreases |s|, 2
  {
    hide DecodeItems, DecodeEntries;
    if major == 4 {
      var ts := ItemsAreSpelled(s, n, depth + 1, items);
      t := WArray(w, ts);
    } else if major == 5 {
      var es := EntriesAreSpelled(s, n, depth + 1, items, {});
      t := WMap(w, es);
    } else {
      t := ScalarIsSpelled(s, head, major, w, n, depth, items);
    }
  }

  lemma ScalarIsSpelled(s: seq<byte>, head: nat, major: nat, w: Width, n: nat, depth: nat, items: nat)
    returns (t: Wire)
    requires head > 0 && 0 < items <= MAX_ITEMS && depth <= MAX_DEPTH && major < 7 && Holds(w, n)
    requires major != 4 && major != 5
    requires DecodeBody(s, head, major, n, depth, items).Some? && |Head(major, w, n)| == head
    ensures var d := DecodeBody(s, head, major, n, depth, items).value;
            && Lawful(t) && Nests(t, depth) && d.used >= head && Spelled(t) == Head(major, w, n) + s[..d.used - head]
            && d.value == Meaning(t) && d.items == items - 1 + Size(t)
  {
    hide Head;
    t := if major == 0 then WUint(w, n) else if major == 1 then WNegative(w, n)
         else if major == 2 then WBytes(w, s[..n]) else WText(w, s[..n]);
  }

  lemma {:induction false} ItemsAreSpelled(s: seq<byte>, count: nat, depth: nat, items: nat) returns (ts: seq<Wire>)
    requires items <= MAX_ITEMS && DecodeItems(s, count, depth, items).Some?
    ensures var d := DecodeItems(s, count, depth, items).value;
            && |ts| == count && AllLawful(ts, depth)
            && SpelledItems(ts) == s[..d.used] && d.value == Meanings(ts) && d.items == items + Sizes(ts)
    decreases |s|, 1
  {
    if count == 0 {
      ts := [];
    } else {
      hide DecodeItem, DecodeItems, AllLawful, SpelledItems, Meanings, Sizes, Lawful, Nests, Spelled;
      DecodeItemsStep(s, count, depth, items);
      var first := DecodeItem(s, depth, items).value;
      var t := DecodedIsSpelled(s, depth, items);
      var rest := ItemsAreSpelled(s[first.used..], count - 1, depth, first.items);
      ts := [t] + rest;
      ItemsCons(t, rest, depth);
      Adjacent(s, first.used, DecodeItems(s, count, depth, items).value.used);
    }
  }

  lemma {:induction false} EntriesAreSpelled(s: seq<byte>, count: nat, depth: nat, items: nat, seen: set<Key>)
    returns (es: seq<WEntry>)
    requires items <= MAX_ITEMS && DecodeEntries(s, count, depth, items, seen).Some?
    ensures var d := DecodeEntries(s, count, depth, items, seen).value;
            && |es| == count && KeysApart(es) && NoneSeen(es, seen)
            && EntriesLawful(es, depth)
            && SpelledEntries(es) == s[..d.used] && d.value == EntryMeanings(es) && d.items == items + EntrySizes(es)
    decreases |s|, 1
  {
    if count == 0 {
      es := [];
    } else {
      var k := DecodeItem(s, depth, items).value;
      var key := DecodedIsSpelled(s, depth, items);
      KeyIsLawful(key);
      es := ValueIsSpelled(key, k.used, s[k.used..], count, depth, k.items, seen);
      Adjacent(s, k.used, DecodeEntries(s, count, depth, items, seen).value.used);
    }
  }

  lemma KeyIsLawful(k: Wire)
    requires Lawful(k) && KeyOf(Meaning(k)).Some?
    ensures LawfulKey(k) && KeyOf(Meaning(k)).value == KeyMeant(k) && KeyBytes(k) == Spelled(k) && Size(k) == 1
  {
  }

  /** A key's value and the entries after it. */
  lemma {:induction false} ValueIsSpelled(
    key: Wire, used: nat, s: seq<byte>, count: nat, depth: nat, items: nat, seen: set<Key>) returns (es: seq<WEntry>)
    requires items <= MAX_ITEMS && count > 0 && LawfulKey(key) && KeyMeant(key) !in seen && depth <= 8
    requires |KeyBytes(key)| == used
    requires DecodeValueOf(KeyMeant(key), used, s, count, depth, items, seen).Some?
    ensures var d := DecodeValueOf(KeyMeant(key), used, s, count, depth, items, seen).value;
            && |es| == count && KeysApart(es) && NoneSeen(es, seen)
            && EntriesLawful(es, depth)
            && d.used >= used && SpelledEntries(es) == KeyBytes(key) + s[..d.used - used]
            && d.value == EntryMeanings(es) && d.items == items - 1 + EntrySizes(es)
    decreases |s|, 1
  {
    hide DecodeItem, DecodeEntries, DecodeValueOf, EntriesLawful, SpelledEntries, EntryMeanings, EntrySizes, Lawful;
    hide Nests, Spelled, LawfulKey, KeyBytes, KeyMeant, KeysApart, NoneSeen;
    DecodeValueStep(KeyMeant(key), used, s, count, depth, items, seen);
    var v := DecodeItem(s, depth, items).value;
    var t := DecodedIsSpelled(s, depth, items);
    var rest := EntriesAreSpelled(s[v.used..], count - 1, depth, v.items, seen + {KeyMeant(key)});
    es := [WEntry(key, t)] + rest;
    EntriesCons(WEntry(key, t), rest, depth);
    SeenCons(key, t, rest, seen);
    Adjacent(s, v.used, DecodeValueOf(KeyMeant(key), used, s, count, depth, items, seen).value.used - used);
  }

  lemma SeenCons(key: Wire, value: Wire, rest: seq<WEntry>, seen: set<Key>)
    requires KeysApart(rest) && NoneSeen(rest, seen + {KeyMeant(key)}) && KeyMeant(key) !in seen
    ensures KeysApart([WEntry(key, value)] + rest) && NoneSeen([WEntry(key, value)] + rest, seen)
  {
  }

  // ---- the decoder, exactly ------------------------------------------------------------------------

  /**
   * The decoder accepts an input exactly when some lawful spelling starts it,
   * within eight levels and the budget of 1024 items, and what it returns is
   * that spelling's meaning, length and item count.
   */
  lemma DecodesExactly(s: seq<byte>, depth: nat, items: nat, d: Decoded<Value>)
    ensures DecodeItem(s, depth, items) == Some(d) <==> exists t :: Denotes(t, s, depth, items, d)
  {
    hide DecodeItem, Lawful, Nests, Spelled, Meaning, Size;
    if DecodeItem(s, depth, items) == Some(d) {
      var t := DecodedIsSpelled(s, depth, items);
      assert Denotes(t, s, depth, items, d);
    }
    if t :| Denotes(t, s, depth, items, d) {
      var n := |Spelled(t)|;
      SpelledDecodes(t, s[n..], depth, items);
      assert s == Spelled(t) + s[n..];
    }
  }

  /** The whole input is this lawful spelling of the value. */
  predicate SpellsWhole(t: Wire, s: seq<byte>, v: Value) {
    Lawful(t) && Nests(t, 0) && Size(t) <= 1024 && Spelled(t) == s && Meaning(t) == v
  }

  /** The entry point: one item and nothing after it. */
  lemma ExactInputs(s: seq<byte>, v: Value)
    ensures DecodeExact(s) == Some(v) <==> exists t :: SpellsWhole(t, s, v)
  {
    hide Nests, Meaning, Size, Lawful, Spelled, DecodeItem;
    if DecodeExact(s) == Some(v) {
      var d := DecodeItem(s, 0, 0).value;
      DecodesExactly(s, 0, 0, d);
      var t :| Denotes(t, s, 0, 0, d);
      assert Spelled(t) == s;
      assert SpellsWhole(t, s, v);
    }
    if t :| SpellsWhole(t, s, v) {
      DecodesExactly(s, 0, 0, Decoded(v, |s|, Size(t)));
      assert Denotes(t, s, 0, 0, Decoded(v, |s|, Size(t)));
    }
  }
}
