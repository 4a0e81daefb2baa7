/** Player names and chat messages: the limits are on UTF-8 bytes, the exclusions on characters. */
module Text {
  import opened Bytes

  const MAX_PLAYER_NAME_BYTES := 15
  const MAX_CHAT_BYTES := 254
  const MAX_GAME_NAME_BYTES := 31

  /** The UTF-8 encoding of one Unicode scalar value. */
  function Utf8Char(c: char): (bytes: seq<u8>)
    ensures 1 <= |bytes| <= 4
    ensures 0 in bytes ==> c == '\0'
  {
    var n := c as int;
    if n < 0x80 then [n]
    else if n < 0x800 then [0xC0 + n / 0x40, 0x80 + n % 0x40]
    else if n < 0x1_0000 then [0xE0 + n / 0x1000, 0x80 + n / 0x40 % 0x40, 0x80 + n % 0x40]
    else [0xF0 + n / 0x4_0000, 0x80 + n / 0x1000 % 0x40, 0x80 + n / 0x40 % 0x40, 0x80 + n % 0x40]
  }

  function Utf8(s: string): (bytes: seq<u8>)
  {
    if s == [] then [] else Utf8Char(s[0]) + Utf8(s[1..])
  }

  lemma {:induction false} Utf8WithoutNul(s: string)
    requires '\0' !in s
    ensures 0 !in Utf8(s)
    ensures s != [] ==> Utf8(s) != []
  {
    if s != [] {
      Utf8WithoutNul(s[1..]);
    }
  }

  /** The first byte tells the length, and all bytes together the character. */
  lemma Utf8CharIsPrefixFree(c: char, d: char, x: seq<u8>, y: seq<u8>)
    requires Utf8Char(c) + x == Utf8Char(d) + y
    ensures c == d && x == y
  {
    var a, b := Utf8Char(c), Utf8Char(d);
    assert a[0] == (a + x)[0] == (b + y)[0] == b[0];
    assert |a| == |b|;
    assert a == (a + x)[..|a|] == (b + y)[..|b|] == b;
    assert x == (a + x)[|a|..] == (b + y)[|b|..] == y;
    SameBytes(c, d);
  }

  lemma SameSixBits(m: nat, n: nat)
    requires m / 0x40 == n / 0x40 && m % 0x40 == n % 0x40
    ensures m == n
  {
    assert m == m / 0x40 * 0x40 + m % 0x40;
    assert n == n / 0x40 * 0x40 + n % 0x40;
  }

  lemma QuotientOfQuotient(m: nat)
    ensures m / 0x40 / 0x40 == m / 0x1000
    ensures m / 0x1000 / 0x40 == m / 0x4_0000
  {
  }

  lemma SameTwelveBits(m: nat, n: nat)
    requires m / 0x1000 == n / 0x1000 && m / 0x40 % 0x40 == n / 0x40 % 0x40 && m % 0x40 == n % 0x40
    ensures m == n
  {
    QuotientOfQuotient(m);
    QuotientOfQuotient(n);
    SameSixBits(m / 0x40, n / 0x40);
    SameSixBits(m, n);
  }

  lemma SameEighteenBits(m: nat, n: nat)
    requires m / 0x4_0000 == n / 0x4_0000 && m / 0x1000 % 0x40 == n / 0x1000 % 0x40
    requires m / 0x40 % 0x40 == n / 0x40 % 0x40 && m % 0x40 == n % 0x40
    ensures m == n
  {
    QuotientOfQuotient(m);
    QuotientOfQuotient(n);
    SameSixBits(m / 0x1000, n / 0x1000);
    SameTwelveBits(m, n);
  }

  lemma SameBytes(c: char, d: char)
    requires Utf8Char(c) == Utf8Char(d)
    ensures c == d
  {
    var m, n := c as int, d as int;
    var a, b := Utf8Char(c), Utf8Char(d);
    assert |a| == |b| && forall i | 0 <= i < |a| :: a[i] == b[i];
    if |a| == 2 {
      SameSixBits(m, n);
    } else if |a| == 3 {
      assert a[2] == b[2];
      SameTwelveBits(m, n);
    } else if |a| == 4 {
      assert a[2] == b[2] && a[3] == b[3];
      SameEighteenBits(m, n);
    }
    assert a[0] == b[0];
  }

  lemma {:induction false} Utf8IsInjective(s: string, t: string)
    requires Utf8(s) == Utf8(t)
    ensures s == t
  {
    hide Utf8Char;
    if s == "" || t == "" {
    } else {
      Utf8CharIsPrefixFree(s[0], t[0], Utf8(s[1..]), Utf8(t[1..]));
      Utf8IsInjective(s[1..], t[1..]);
      assert s == [s[0]] + s[1..] && t == [t[0]] + t[1..];
    }
  }

  /** Unicode general category Cc. */
  predicate IsControl(c: char)
  {
    c as int < 0x20 || 0x7F <= c as int <= 0x9F
  }

  predicate ValidPlayerName(name: string)
  {
    && name != ""
    && |Utf8(name)| <= MAX_PLAYER_NAME_BYTES
    && forall c | c in name :: !IsControl(c)
  }

  predicate ValidChatMessage(message: string)
  {
    && message != ""
    && |Utf8(message)| <= MAX_CHAT_BYTES
    && forall c | c in message :: !IsControl(c)
  }

  predicate ValidGameName(name: string)
  {
    name != "" && |Utf8(name)| <= MAX_GAME_NAME_BYTES && '\0' !in name
  }
}
