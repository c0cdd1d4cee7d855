/** Unpadded base64url, canonical by round trip: the only encoding the stores accept. */
module Base64Url {
  /** The six bits a character stands for. */
  function Sextet(c: char): (v: int)
    ensures -1 <= v < 64
    ensures v >= 0 <==> 'A' <= c <= 'Z' || 'a' <= c <= 'z' || '0' <= c <= '9' || c == '-' || c == '_'
  {
    if 'A' <= c <= 'Z' then c as int - 'A' as int
    else if 'a' <= c <= 'z' then 26 + (c as int - 'a' as int)
    else if '0' <= c <= '9' then 52 + (c as int - '0' as int)
    else if c == '-' then 62
    else if c == '_' then 63
    else -1
  }

  function DecodedLength(s: string): nat {
    |s| * 6 / 8
  }

  /**
   * Decoding and re-encoding gives the string back: alphabet only, no lone
   * trailing character, and no unused bits set in the last one.
   */
  predicate Canonical(s: string) {
    && |s| > 0
    && (forall i :: 0 <= i < |s| ==> Sextet(s[i]) >= 0)
    && |s| % 4 != 1
    && (|s| % 4 == 2 ==> Sextet(s[|s| - 1]) % 16 == 0)
    && (|s| % 4 == 3 ==> Sextet(s[|s| - 1]) % 4 == 0)
  }

  predicate CanonicalWithin(s: string, minBytes: nat, maxBytes: nat) {
    Canonical(s) && minBytes <= DecodedLength(s) <= maxBytes
  }
}
