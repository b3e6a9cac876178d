/** UTF-8 as the language's own library reads and writes it: a byte that fits nothing is U+FFFD by itself. */
module Utf8 {
  import opened LogLines

  /** The bytes of one character. */
  function EncodeOne(c: char): (bytes: seq<Byte>)
    ensures 1 <= |bytes| <= 4 && (NEWLINE in bytes <==> c == '\n')
  {
    var n := c as int;
    if n < 0x80 then [n]
    else if n < 0x800 then [0xC0 + n / 64, 0x80 + n % 64]
    else if n < 0x1_0000 then [0xE0 + n / 4096, 0x80 + n / 64 % 64, 0x80 + n % 64]
    else [0xF0 + n / 262144, 0x80 + n / 4096 % 64, 0x80 + n / 64 % 64, 0x80 + n % 64]
  }

  function Encode(s: string): (bytes: seq<Byte>)
    ensures NEWLINE in bytes <==> '\n' in s
  {
    if |s| == 0 then [] else EncodeOne(s[0]) + Encode(s[1..])
  }

  /** One character read: how many bytes it took, and whether they were those of a character. */
  datatype Rune = Rune(c: char, size: nat, valid: bool)

  const BAD := Rune('\U{FFFD}', 1, false)

  predicate Follows(b: Byte) { 0x80 <= b < 0xC0 }

  /** What a byte that follows another adds: its lower six bits. */
  function Six(b: Byte): int { b as int - 0x80 }

  /** utf8.DecodeRune: neither a longer form than needed, nor half of a surrogate pair, nor past U+10FFFF. */
  function First(t: seq<Byte>): (r: Rune)
    requires |t| > 0
    ensures 1 <= r.size <= |t|
  {
    var a := t[0];
    if a < 0x80 then Rune(a as char, 1, true)
    else if 0xC2 <= a < 0xE0 then
      if |t| >= 2 && Follows(t[1]) then Rune(((a - 0xC0) * 64 + Six(t[1])) as char, 2, true) else BAD
    else if 0xE0 <= a < 0xF0 then
      if |t| >= 3 && Follows(t[1]) && Follows(t[2]) && (a == 0xE0 ==> t[1] >= 0xA0) && (a == 0xED ==> t[1] < 0xA0)
      then Rune(((a - 0xE0) * 4096 + Six(t[1]) * 64 + Six(t[2])) as char, 3, true) else BAD
    else if 0xF0 <= a < 0xF5 then
      if |t| >= 4 && Follows(t[1]) && Follows(t[2]) && Follows(t[3]) && (a == 0xF0 ==> t[1] >= 0x90) && (a == 0xF4 ==> t[1] < 0x90)
      then Rune(((a - 0xF0) * 262144 + Six(t[1]) * 4096 + Six(t[2]) * 64 + Six(t[3])) as char, 4, true) else BAD
    else BAD
  }

  /** The characters of a text of bytes, with U+FFFD for every byte that belongs to none. */
  function Repair(t: seq<Byte>): string {
    if |t| == 0 then "" else [First(t).c] + Repair(t[First(t).size..])
  }

  ghost predicate Valid(t: seq<Byte>) { exists s :: t == Encode(s) }

  /** Every character is read back from its own bytes, whatever follows. */
  lemma {:induction false} FirstOfOne(c: char, t: seq<Byte>)
    ensures First(EncodeOne(c) + t) == Rune(c, |EncodeOne(c)|, true)
  {
    var n, e := c as int, EncodeOne(c);
    var s := e + t;
    assert forall i :: 0 <= i < |e| ==> s[i] == e[i];
    if n < 0x80 {
    } else if n < 0x800 {
      TwoBack(n);
    } else if n < 0x1_0000 {
      ThreeBack(n);
    } else {
      FourBack(n);
    }
  }

  /** The examples of section 7 of RFC 3629. */
  lemma KnownBytes()
    ensures Encode("A\U{2262}\U{0391}.") == [0x41, 0xE2, 0x89, 0xA2, 0xCE, 0x91, 0x2E]
    ensures Encode("\U{233B4}") == [0xF0, 0xA3, 0x8E, 0xB4]
  {
    hide First, Repair;
    var t := "A\U{2262}\U{0391}.";
    assert t[1..] == "\U{2262}\U{0391}." && t[1..][1..] == "\U{0391}." && "\U{0391}."[1..] == "." && "."[1..] == "";
    assert EncodeOne('\U{2262}') == [0xE2, 0x89, 0xA2];
    assert EncodeOne('\U{0391}') == [0xCE, 0x91];
    assert "\U{233B4}"[1..] == "";
    assert EncodeOne('\U{233B4}') == [0xF0, 0xA3, 0x8E, 0xB4];
  }

  /** What is read is the character whose bytes come first, and a byte that starts none is no character. */
  lemma FirstExactly(t: seq<Byte>)
    requires |t| > 0
    ensures First(t).valid <==> exists c :: EncodeOne(c) <= t
    ensures First(t).valid ==> EncodeOne(First(t).c) == t[..First(t).size]
    ensures !First(t).valid ==> First(t).c == '\U{FFFD}' && First(t).size == 1
  {
    if First(t).valid { ValidComesFirst(t); }
    if c :| EncodeOne(c) <= t {
      var e := EncodeOne(c);
      assert t == e + t[|e|..];
      hide EncodeOne, First;
      FirstOfOne(c, t[|e|..]);
    }
  }

  lemma ValidComesFirst(t: seq<Byte>)
    requires |t| > 0 && First(t).valid
    ensures EncodeOne(First(t).c) == t[..First(t).size]
  {
    var n := First(t).c as int;
    if First(t).size == 1 {
    } else if First(t).size == 2 {
      Sixes(0, 0, t[0] as int - 0xC0, Six(t[1]));
    } else if First(t).size == 3 {
      ThreeIs(t[0], t[1], t[2]);
      assert t[..3] == [t[0], t[1], t[2]];
      hide EncodeOne;
    } else {
      FourIs(t[0], t[1], t[2], t[3]);
      assert t[..4] == [t[0], t[1], t[2], t[3]];
      hide EncodeOne;
    }
  }

  lemma Sixes(p: int, q: int, r: int, s: int)
    requires 0 <= p && 0 <= q < 64 && 0 <= r < 64 && 0 <= s < 64
    ensures var n := p * 262144 + q * 4096 + r * 64 + s;
      n / 262144 == p && n / 4096 % 64 == q && n / 64 % 64 == r && n % 64 == s && (p == 0 ==> n / 4096 == q) && (p == 0 && q == 0 ==> n / 64 == r)
  {
    var n := p * 262144 + q * 4096 + r * 64 + s;
    assert n / 64 == p * 4096 + q * 64 + r && n / 4096 == p * 64 + q;
  }

  lemma ThreeIs(a: Byte, b: Byte, c: Byte)
    requires 0xE0 <= a < 0xF0 && Follows(b) && Follows(c) && (a == 0xE0 ==> b >= 0xA0) && (a == 0xED ==> b < 0xA0)
    ensures EncodeOne(((a - 0xE0) * 4096 + Six(b) * 64 + Six(c)) as char) == [a, b, c]
  {
    Sixes(0, a as int - 0xE0, Six(b), Six(c));
  }

  lemma FourIs(a: Byte, b: Byte, c: Byte, d: Byte)
    requires 0xF0 <= a < 0xF5 && Follows(b) && Follows(c) && Follows(d) && (a == 0xF0 ==> b >= 0x90) && (a == 0xF4 ==> b < 0x90)
    ensures EncodeOne(((a - 0xF0) * 262144 + Six(b) * 4096 + Six(c) * 64 + Six(d)) as char) == [a, b, c, d]
  {
    Sixes(a as int - 0xF0, Six(b), Six(c), Six(d));
  }

  lemma TwoBack(n: int)
    requires 0x80 <= n < 0x800
    ensures 0xC2 <= 0xC0 + n / 64 < 0xE0 && n == (n / 64) * 64 + n % 64
  {
  }

  lemma ThreeBack(n: int)
    requires 0x800 <= n < 0xD800 || 0xE000 <= n < 0x1_0000
    ensures var a, b := n / 4096, n / 64 % 64;
      && 0 <= a < 16 && (a == 0 ==> b >= 0x20) && (a == 0xD ==> b < 0x20) && n == a * 4096 + b * 64 + n % 64
  {
    assert n == (n / 64) * 64 + n % 64 && n / 64 == (n / 64 / 64) * 64 + n / 64 % 64 && n / 64 / 64 == n / 4096;
  }

  lemma FourBack(n: int)
    requires 0x1_0000 <= n < 0x11_0000
    ensures var a, b := n / 262144, n / 4096 % 64;
      && 0 <= a < 5 && (a == 0 ==> b >= 0x10) && (a == 4 ==> b < 0x10)
      && n == a * 262144 + b * 4096 + (n / 64 % 64) * 64 + n % 64
  {
    assert n == (n / 64) * 64 + n % 64 && n / 64 == (n / 4096) * 64 + n / 64 % 64 && n / 4096 == (n / 262144) * 64 + n / 4096 % 64;
  }

  lemma {:induction false} RepairOf(s: string)
    ensures Repair(Encode(s)) == s
    decreases |s|
  {
    if |s| > 0 {
      var e, rest := EncodeOne(s[0]), Encode(s[1..]);
      RepairOf(s[1..]);
      hide EncodeOne, First;
      FirstOfOne(s[0], rest);
      assert (e + rest)[|e|..] == rest;
    }
  }

  /** A text of bytes comes back from its repair unchanged exactly when it was UTF-8. */
  lemma UnchangedExactlyWhen(t: seq<Byte>)
    ensures Encode(Repair(t)) == t <==> Valid(t)
  {
    if Valid(t) {
      var s :| t == Encode(s);
      RepairOf(s);
    }
  }

  lemma {:induction false} EncodeAppend(a: string, b: string)
    ensures Encode(a + b) == Encode(a) + Encode(b)
    decreases |a|
  {
    if |a| == 0 {
      assert a + b == b;
    } else {
      assert (a + b)[1..] == a[1..] + b;
      EncodeAppend(a[1..], b);
    }
  }
}
