/**
 * The decoder as it runs: a cursor over the input, item by item, with loops
 * whose 32-bit counts are only ever bounded by the bytes that remain.
 */
module CborReader {
  import opened Wrappers
  import opened Cbor
  import Decimal

  lemma PrependedNothing<T>(r: Option<Decoded<seq<T>>>)
    ensures Prepended([], 0, r) == r
  {
    if r.Some? {
      assert [] + r.value.value == r.value.value;
    }
  }

  lemma AppendedNothing<T>(a: seq<T>, used: nat, items: nat)
    ensures Prepended(a, used, Some(Decoded([], 0, items))) == Some(Decoded(a, used, items))
  {
    assert a + [] == a;
  }

  lemma PrependedTwice<T>(a: seq<T>, i: nat, b: seq<T>, j: nat, r: Option<Decoded<seq<T>>>)
    ensures Prepended(a, i, Prepended(b, j, r)) == Prepended(a + b, i + j, r)
  {
    if r.Some? {
      assert a + (b + r.value.value) == a + b + r.value.value;
    }
  }

  lemma NoMoreItems(s: seq<byte>, depth: nat, items: nat, out: seq<Value>, used: nat)
    requires items <= MAX_ITEMS
    ensures Prepended(out, used, DecodeItems(s, 0, depth, items)) == Some(Decoded(out, used, items))
  {
    AppendedNothing(out, used, items);
  }

  lemma NoMoreEntries(s: seq<byte>, depth: nat, items: nat, seen: set<Key>, out: seq<Entry>, used: nat)
    requires items <= MAX_ITEMS
    ensures Prepended(out, used, DecodeEntries(s, 0, depth, items, seen)) == Some(Decoded(out, used, items))
  {
    AppendedNothing(out, used, items);
  }

  lemma SliceTwice(s: seq<byte>, a: nat, b: nat)
    requires a <= b <= |s|
    ensures s[a..][b - a..] == s[b..]
  {
  }

  lemma ValueDecoded(
    key: Key, used: nat, s: seq<byte>, count: nat, depth: nat, items: nat, seen: set<Key>, d: Decoded<Value>,
    rest: Option<Decoded<seq<Entry>>>)
    requires items <= MAX_ITEMS && count > 0 && DecodeItem(s, depth, items) == Some(d)
    requires rest == DecodeEntries(s[d.used..], count - 1, depth, d.items, seen + {key})
    ensures DecodeValueOf(key, used, s, count, depth, items, seen)
            == Prepended([Entry(key, d.value)], used + d.used, rest)
  {
    DecodeValueStep(key, used, s, count, depth, items, seen);
  }

  class Reader {
    const bytes: seq<byte>
    var offset: nat
    var items: nat

    predicate Valid()
      reads this
    {
      offset <= |bytes| && items <= MAX_ITEMS
    }

    constructor (bytes: seq<byte>)
      ensures Valid() && this.bytes == bytes && offset == 0 && items == 0
    {
      this.bytes, offset, items := bytes, 0, 0;
    }

    method Take(count: nat) returns (r: Result<seq<byte>>)
      requires Valid()
      modifies this`offset
      ensures Valid() && offset >= old(offset)
      ensures if count <= |bytes| - old(offset)
              then r == Ok(bytes[old(offset)..][..count]) && offset == old(offset) + count
              else r.Err?
    {
      if offset + count > |bytes| {
        return Err;
      }
      r := Ok(bytes[offset..offset + count]);
      assert bytes[offset..][..count] == bytes[offset..offset + count];
      offset := offset + count;
    }

    /** The argument of a head; indefinite and 64-bit lengths are refused. */
    method ReadLength(additional: nat) returns (r: Result<nat>)
      requires Valid()
      modifies this`offset
      ensures Valid() && offset >= old(offset)
      ensures match Cbor.ReadLength(bytes[old(offset)..], additional)
              case None => r.Err?
              case Some((n, k)) => r == Ok(n) && offset == old(offset) + k
    {
      if additional < 24 {
        return Ok(additional);
      }
      if additional > 26 {
        return Err;
      }
      var width := if additional == 24 then 1 else if additional == 25 then 2 else 4;
      var raw := Take(width);
      if raw.Err? {
        return Err;
      }
      var n, i := 0, 0;
      while i < width
        invariant i <= width
        invariant n == if i == 0 then 0
                       else if i == 1 then raw.value[0] as int
                       else if i == 2 then raw.value[0] as int * 0x100 + raw.value[1] as int
                       else if i == 3
                       then (raw.value[0] as int * 0x100 + raw.value[1] as int) * 0x100 + raw.value[2] as int
                       else ((raw.value[0] as int * 0x100 + raw.value[1] as int) * 0x100 + raw.value[2] as int) * 0x100
                            + raw.value[3] as int
      {
        n, i := n * 0x100 + raw.value[i] as int, i + 1;
      }
      r := Ok(n);
    }

    method DecodeItem(depth: nat) returns (r: Result<Value>)
      requires Valid()
      modifies this
      ensures Valid() && offset >= old(offset)
      ensures match Cbor.DecodeItem(bytes[old(offset)..], depth, old(items))
              case None => r.Err?
              case Some(d) => r == Ok(d.value) && offset == old(offset) + d.used && items == d.items
      decreases |bytes| - offset, 0
    {
      if depth > MAX_DEPTH || items == MAX_ITEMS {
        return Err;
      }
      items := items + 1;
      if offset == |bytes| {
        return Err;
      }
      var initial := bytes[offset];
      offset := offset + 1;
      var major, additional := initial as int / 32, initial as int % 32;
      if additional == 31 {
        return Err;
      }
      if major == 7 {
        return if additional == 20 then Ok(Bool(false)) else if additional == 21 then Ok(Bool(true))
               else if additional == 22 then Ok(Null) else Err;
      }
      assert bytes[old(offset)..][1..] == bytes[offset..];
      ghost var argument := Cbor.ReadLength(bytes[offset..], additional);
      assert argument == None ==> Cbor.DecodeItem(bytes[old(offset)..], depth, old(items)) == None;
      var n := ReadLength(additional);
      if n.Err? {
        return Err;
      }
      assert bytes[old(offset)..][offset - old(offset)..] == bytes[offset..];
      r := DecodeBody(major, n.value, depth, offset - old(offset));
    }

    method DecodeBody(major: nat, n: nat, depth: nat, ghost head: nat) returns (r: Result<Value>)
      requires Valid() && head > 0
      modifies this
      ensures Valid() && offset >= old(offset)
      ensures match Cbor.DecodeBody(bytes[old(offset)..], head, major, n, depth, old(items))
              case None => r.Err?
              case Some(d) => r == Ok(d.value) && offset + head == old(offset) + d.used && items == d.items
      decreases |bytes| - offset, 5
    {
      if major == 0 {
        return Ok(Num(n));
      } else if major == 1 {
        return Ok(Num(-1 - n));
      } else if major == 2 {
        var raw := Take(n);
        return if raw.Ok? then Ok(Bytes(raw.value)) else Err;
      } else if major == 3 {
        var raw := Take(n);
        return if raw.Ok? && ValidUtf8(raw.value) then Ok(Text(StripBom(raw.value))) else Err;
      } else if major == 4 {
        var vs := DecodeArray(n, depth + 1);
        return if vs.Ok? then Ok(Arr(vs.value)) else Err;
      } else if major == 5 {
        var es := DecodeMap(n, depth + 1);
        return if es.Ok? then Ok(Obj(es.value)) else Err;
      }
      r := Err;
    }

    method DecodeArray(count: nat, depth: nat) returns (r: Result<seq<Value>>)
      requires Valid()
      modifies this
      ensures Valid() && offset >= old(offset)
      ensures match DecodeItems(bytes[old(offset)..], count, depth, old(items))
              case None => r.Err?
              case Some(d) => r == Ok(d.value) && offset == old(offset) + d.used && items == d.items
      decreases |bytes| - offset, 3
    {
      hide DecodeItems;
      var out: seq<Value> := [];
      ghost var start := offset;
      ghost var whole := DecodeItems(bytes[offset..], count, depth, items);
      PrependedNothing(whole);
      for i := 0 to count
        invariant Valid() && offset >= start
        invariant whole == Prepended(out, offset - start, DecodeItems(bytes[offset..], count - i, depth, items))
      {
        var pushed := PushElement(out, depth, count - i, whole, offset - start);
        if pushed.Err? {
          return Err;
        }
        out := pushed.value;
      }
      NoMoreItems(bytes[offset..], depth, items, out, offset - start);
      r := Ok(out);
    }

    /** One turn of the array loop: out.push(decodeItem(...)). */
    method PushElement(
      out: seq<Value>, depth: nat, ghost left: nat, ghost whole: Option<Decoded<seq<Value>>>, ghost used: nat)
      returns (r: Result<seq<Value>>)
      requires Valid() && left > 0
      requires whole == Prepended(out, used, DecodeItems(bytes[offset..], left, depth, items))
      modifies this
      ensures Valid() && offset >= old(offset)
      ensures match r
              case Err => whole == None
              case Ok(out') =>
                whole == Prepended(out', used + (offset - old(offset)),
                                   DecodeItems(bytes[offset..], left - 1, depth, items))
      decreases |bytes| - offset, 2
    {
      hide DecodeItems;
      var item, tail := DecodeElement(depth, left);
      if item.Err? {
        return Err;
      }
      PrependedTwice(out, used, [item.value], offset - old(offset), tail);
      r := Ok(out + [item.value]);
    }

    method DecodeElement(depth: nat, ghost count: nat)
      returns (r: Result<Value>, ghost rest: Option<Decoded<seq<Value>>>)
      requires Valid() && count > 0
      modifies this
      ensures Valid() && offset >= old(offset)
      ensures var whole := DecodeItems(bytes[old(offset)..], count, depth, old(items));
              match r
              case Err => whole == None
              case Ok(v) =>
                && rest == DecodeItems(bytes[offset..], count - 1, depth, items)
                && whole == Prepended([v], offset - old(offset), rest)
      decreases |bytes| - offset, 1
    {
      ghost var at := offset;
      DecodeItemsStep(bytes[at..], count, depth, items);
      r := DecodeItem(depth);
      if r.Err? {
        return Err, None;
      }
      SliceTwice(bytes, at, offset);
      rest := DecodeItems(bytes[offset..], count - 1, depth, items);
    }

    /** Key, checks, value, entry by entry; `seen` are the names already set. */
    method DecodeMap(count: nat, depth: nat) returns (r: Result<seq<Entry>>)
      requires Valid()
      modifies this
      ensures Valid() && offset >= old(offset)
      ensures match DecodeEntries(bytes[old(offset)..], count, depth, old(items), {})
              case None => r.Err?
              case Some(d) => r == Ok(d.value) && offset == old(offset) + d.used && items == d.items
      decreases |bytes| - offset, 4
    {
      hide DecodeEntries;
      var out: seq<Entry> := [];
      var seen: set<Key> := {};
      ghost var start := offset;
      ghost var whole := DecodeEntries(bytes[offset..], count, depth, items, {});
      PrependedNothing(whole);
      for i := 0 to count
        invariant Valid() && offset >= start
        invariant whole == Prepended(out, offset - start, DecodeEntries(bytes[offset..], count - i, depth, items, seen))
      {
        var e := NextEntry(out, seen, depth, count - i, whole, offset - start);
        if e.Err? {
          return Err;
        }
        out, seen := out + [e.value], seen + {e.value.key};
      }
      NoMoreEntries(bytes[offset..], depth, items, seen, out, offset - start);
      assert whole == Some(Decoded(out, offset - start, items));
      r := Ok(out);
    }

    /** One turn of the map loop. */
    method NextEntry(
      ghost out: seq<Entry>, seen: set<Key>, depth: nat, ghost left: nat, ghost whole: Option<Decoded<seq<Entry>>>,
      ghost used: nat)
      returns (r: Result<Entry>)
      requires Valid() && left > 0
      requires whole == Prepended(out, used, DecodeEntries(bytes[offset..], left, depth, items, seen))
      modifies this
      ensures Valid() && offset >= old(offset)
      ensures match r
              case Err => whole == None
              case Ok(e) =>
                whole == Prepended(out + [e], used + (offset - old(offset)),
                                   DecodeEntries(bytes[offset..], left - 1, depth, items, seen + {e.key}))
      decreases |bytes| - offset, 3
    {
      hide DecodeEntries;
      ghost var tail;
      r, tail := DecodeEntry(depth, seen, left);
      if r.Ok? {
        PrependedTwice(out, used, [r.value], offset - old(offset), tail);
      }
    }

    method DecodeEntry(depth: nat, seen: set<Key>, ghost count: nat)
      returns (r: Result<Entry>, ghost rest: Option<Decoded<seq<Entry>>>)
      requires Valid() && count > 0
      modifies this
      ensures Valid() && offset >= old(offset)
      ensures var whole := DecodeEntries(bytes[old(offset)..], count, depth, old(items), seen);
              match r
              case Err => whole == None
              case Ok(e) =>
                && rest == DecodeEntries(bytes[offset..], count - 1, depth, items, seen + {e.key})
                && whole == Prepended([e], offset - old(offset), rest)
      decreases |bytes| - offset, 2
    {
      var key := DecodeKey(depth, seen, count);
      if key.Err? {
        return Err, None;
      }
      var value;
      value, rest := DecodeValue(key.value, depth, seen, count, offset - old(offset));
      r := if value.Ok? then Ok(Entry(key.value, value.value)) else Err;
    }

    method DecodeValue(key: Key, depth: nat, seen: set<Key>, ghost count: nat, ghost used: nat)
      returns (r: Result<Value>, ghost rest: Option<Decoded<seq<Entry>>>)
      requires Valid() && count > 0
      modifies this
      ensures Valid() && offset >= old(offset)
      ensures var whole := DecodeValueOf(key, used, bytes[old(offset)..], count, depth, old(items), seen);
              match r
              case Err => whole == None
              case Ok(v) =>
                && rest == DecodeEntries(bytes[offset..], count - 1, depth, items, seen + {key})
                && whole == Prepended([Entry(key, v)], used + (offset - old(offset)), rest)
      decreases |bytes| - offset, 1
    {
      ghost var at, items0 := offset, items;
      r := DecodeItem(depth);
      if r.Err? {
        DecodeValueStep(key, used, bytes[at..], count, depth, items0, seen);
        return Err, None;
      }
      SliceTwice(bytes, at, offset);
      rest := DecodeEntries(bytes[offset..], count - 1, depth, items, seen + {key});
      ValueDecoded(key, used, bytes[at..], count, depth, items0, seen, Decoded(r.value, offset - at, items), rest);
    }

    /** A key item that names a property not yet set. */
    method DecodeKey(depth: nat, seen: set<Key>, ghost count: nat) returns (r: Result<Key>)
      requires Valid() && count > 0
      modifies this
      ensures Valid() && offset >= old(offset)
      ensures DecodeEntries(bytes[old(offset)..], count, depth, old(items), seen)
              == match r
                 case Err => None
                 case Ok(key) => DecodeValueOf(key, offset - old(offset), bytes[offset..], count, depth, items, seen)
      decreases |bytes| - offset, 1
    {
      ghost var start := offset;
      var key := DecodeItem(depth);
      if key.Err? || KeyOf(key.value) == None {
        return Err;
      }
      var name := KeyOf(key.value).value;
      if name in seen {
        return Err;
      }
      SliceTwice(bytes, start, offset);
      r := Ok(name);
    }
  }

  /** One item from the front of the input, and how many bytes it took. */
  method CborDecodeFirst(bytes: seq<byte>) returns (r: Result<(Value, nat)>)
    ensures match DecodeFirst(bytes)
            case None => r.Err?
            case Some(d) => r == Ok((d.value, d.used))
  {
    var reader := new Reader(bytes);
    assert bytes[0..] == bytes;
    var v := reader.DecodeItem(0);
    r := if v.Ok? then Ok((v.value, reader.offset)) else Err;
  }

  /** One item that must be the whole input. */
  method CborDecodeExact(bytes: seq<byte>) returns (r: Result<Value>)
    ensures r == match DecodeExact(bytes) case Some(v) => Ok(v) case None => Err
  {
    var d := CborDecodeFirst(bytes);
    r := if d.Ok? && d.value.1 == |bytes| then Ok(d.value.0) else Err;
  }

  // ---- property names ---------------------------------------------------------------------------

  /** The JavaScript property a key becomes: integers in canonical decimal. */
  function NameOf(k: Key): seq<byte> {
    match k
    case TextKey(name) => name
    case IntKey(i) => Ascii(Decimal.Text(i))
  }

  predicate IsAscii(s: string) {
    forall i :: 0 <= i < |s| ==> s[i] as int < 128
  }

  lemma AsciiInjective(s: string, t: string)
    requires IsAscii(s) && IsAscii(t)
    ensures Ascii(s) == Ascii(t) <==> s == t
  {
    if Ascii(s) == Ascii(t) {
      assert |Ascii(s)| == |s| && |Ascii(t)| == |t|;
      forall i | 0 <= i < |s|
        ensures s[i] == t[i]
      {
        assert Ascii(s)[i] == s[i] as int && Ascii(t)[i] == t[i] as int;
      }
    }
  }

  /** An integer key's name spells an integer, which no accepted text key does. */
  lemma IntNamesAreNumeric(i: int)
    ensures Numeric(NameOf(IntKey(i))) && IsAscii(Decimal.Text(i)) && !ForbiddenName(NameOf(IntKey(i)))
  {
    var digits, name := Decimal.Digits(if i >= 0 then i else -i), NameOf(IntKey(i));
    assert i < 0 ==> Decimal.Text(i)[1..] == digits && name[1..] == Ascii(digits);
    assert AllDigits(Ascii(digits));
    assert Digit(name[0]) || name[0] == 45;
    assert Ascii("__proto__")[0] == 95 && Ascii("constructor")[0] == 99 && Ascii("prototype")[0] == 112;
  }

  /** Distinct accepted keys never share a property name, so no label can impersonate another. */
  lemma NamesNeverCollide(a: Key, b: Key)
    requires KeyOk(a) && KeyOk(b)
    ensures NameOf(a) == NameOf(b) <==> a == b
    ensures !ForbiddenName(NameOf(a))
  {
    if a.IntKey? {
      IntNamesAreNumeric(a.i);
    }
    if b.IntKey? {
      IntNamesAreNumeric(b.i);
    }
    if a.IntKey? && b.IntKey? {
      AsciiInjective(Decimal.Text(a.i), Decimal.Text(b.i));
      Decimal.TextInjective(a.i, b.i);
    }
  }
}
