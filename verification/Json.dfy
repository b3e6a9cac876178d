/**
 * The canonical document format: JSON values written with sorted keys and minimal escaping, and read back
 * as RFC 8259 has it.
 */
module Json {
  import opened Wrappers
  import opened Text
  import opened Numerals

  /**
   * Cut and Null are only met in reading, no job is written with one: a number whose literal goes on with a
   * fraction or an exponent after its whole part n, and null.
   */
  datatype Value =
    | Words(text: string)
    | Number(n: int)
    | Cut(n: int)
    | Flag(on: bool)
    | Null
    | Array(items: seq<Value>)
    | Object(members: seq<Member>)

  datatype Member = Member(key: string, value: Value)

  // ----- strings -----

  const HEX := "0123456789abcdef"

  /** The short escapes of section 7: the letter after the backslash. */
  function ShortEscape(c: char): Option<char> {
    if c == '"' then Some('"')
    else if c == '\\' then Some('\\')
    else if c == 8 as char then Some('b')
    else if c == 12 as char then Some('f')
    else if c == '\n' then Some('n')
    else if c == '\r' then Some('r')
    else if c == '\t' then Some('t')
    else None
  }

  function EscapeOne(c: char): string {
    match ShortEscape(c)
    case Some(letter) => ['\\', letter]
    case None =>
      if c < ' ' then ['\\', 'u', '0', '0', HEX[c as int / 16], HEX[c as int % 16]]
      else [c]
  }

  function Escaped(s: string): string {
    if |s| == 0 then "" else EscapeOne(s[0]) + Escaped(s[1..])
  }

  function Quoted(s: string): string { ['"'] + Escaped(s) + ['"'] }

  datatype Read<T> = Read(value: T, rest: string)

  function HexDigit(c: char): (d: Option<int>)
    ensures d.Some? ==> 0 <= d.value < 16
  {
    if '0' <= c <= '9' then Some(c as int - '0' as int)
    else if 'a' <= c <= 'f' then Some(c as int - 'a' as int + 10)
    else if 'A' <= c <= 'F' then Some(c as int - 'A' as int + 10)
    else None
  }

  /** Four hexadecimal digits. */
  function Unit(t: string): (r: Option<int>)
    ensures r.Some? ==> 0 <= r.value < 0x1_0000 && |t| >= 4
  {
    hide HexDigit;
    if |t| < 4 then None
    else
      match (HexDigit(t[0]), HexDigit(t[1]), HexDigit(t[2]), HexDigit(t[3]))
      case (Some(a), Some(b), Some(c), Some(d)) => Some(a * 4096 + b * 256 + c * 16 + d)
      case _ => None
  }

  predicate HighHalf(u: int) { 0xD800 <= u < 0xDC00 }

  predicate LowHalf(u: int) { 0xDC00 <= u < 0xE000 }

  /** What follows the u of an escape: a character, two escapes that make one, or half a pair alone. */
  function Unicode(t: string): (r: Option<Read<char>>)
    ensures r.Some? ==> |r.value.rest| < |t|
  {
    match Unit(t)
    case None => None
    case Some(u) =>
      var rest := t[4..];
      if !HighHalf(u) && !LowHalf(u) then Some(Read(u as char, rest))
      else if HighHalf(u) && |rest| >= 2 && rest[0] == '\\' && rest[1] == 'u' then
        match Unit(rest[2..])
        case Some(v) =>
          if LowHalf(v) then Some(Read((0x1_0000 + (u - 0xD800) * 0x400 + (v - 0xDC00)) as char, rest[6..]))
          else Some(Read('\U{FFFD}', rest))
        case None => Some(Read('\U{FFFD}', rest))
      else Some(Read('\U{FFFD}', rest))
  }

  /** What follows a backslash. */
  function Unescape(t: string): (r: Option<Read<char>>)
    ensures r.Some? ==> |r.value.rest| < |t|
  {
    if |t| == 0 then None
    else if t[0] == '"' || t[0] == '\\' || t[0] == '/' then Some(Read(t[0], t[1..]))
    else if t[0] == 'b' then Some(Read(8 as char, t[1..]))
    else if t[0] == 'f' then Some(Read(12 as char, t[1..]))
    else if t[0] == 'n' then Some(Read('\n', t[1..]))
    else if t[0] == 'r' then Some(Read('\r', t[1..]))
    else if t[0] == 't' then Some(Read('\t', t[1..]))
    else if t[0] == 'u' then Unicode(t[1..])
    else None
  }

  /** The characters of a string and its closing quote. */
  function Unquote(t: string): (r: Option<Read<string>>)
    ensures r.Some? ==> |r.value.rest| < |t|
    decreases |t|
  {
    if |t| == 0 || t[0] < ' ' then None
    else if t[0] == '"' then Some(Read("", t[1..]))
    else if t[0] == '\\' then
      match Unescape(t[1..])
      case None => None
      case Some(Read(c, rest)) => Prepend(c, Unquote(rest))
    else Prepend(t[0], Unquote(t[1..]))
  }

  function Prepend(c: char, r: Option<Read<string>>): Option<Read<string>> {
    match r case None => None case Some(Read(s, rest)) => Some(Read([c] + s, rest))
  }

  lemma {:induction false} HexBack(d: int)
    requires 0 <= d < 16
    ensures HexDigit(HEX[d]) == Some(d)
  {
    assert HEX[d] == if d < 10 then ('0' as int + d) as char else ('a' as int + d - 10) as char;
  }

  lemma {:induction false} ControlBack(c: char, t: string)
    requires c < ' ' && ShortEscape(c).None?
    ensures EscapeOne(c) == ['\\'] + EscapeOne(c)[1..]
    ensures Unescape(EscapeOne(c)[1..] + t) == Some(Read(c, t))
  {
    var n := c as int;
    HexBack(n / 16);
    HexBack(n % 16);
    HexBack(0);
    var u := ['0', '0', HEX[n / 16], HEX[n % 16]] + t;
    assert EscapeOne(c)[1..] + t == ['u'] + u;
    assert (['u'] + u)[1..] == u && u[4..] == t;
    hide HexDigit;
    assert Unit(u) == Some(n);
  }

  lemma {:induction false} UnescapesOne(c: char, t: string)
    ensures Unquote(EscapeOne(c) + t) == Prepend(c, Unquote(t))
  {
    var e := EscapeOne(c);
    var whole := e + t;
    match ShortEscape(c)
    case Some(letter) =>
      assert whole[0] == '\\' && whole[1..] == [letter] + t;
      assert ([letter] + t)[1..] == t;
    case None =>
      if c < ' ' {
        ControlBack(c, t);
        assert whole == ['\\'] + (e[1..] + t);
        assert whole[0] == '\\' && whole[1..] == e[1..] + t;
      } else {
        assert whole[0] == c && whole[1..] == t;
      }
  }

  /** Every string reads back as it was, whatever comes after its closing quote. */
  lemma {:induction false} UnquotesBack(s: string, rest: string)
    ensures Unquote(Escaped(s) + ['"'] + rest) == Some(Read(s, rest))
    decreases |s|
  {
    if |s| == 0 {
      var t := ['"'] + rest;
      assert Escaped(s) + ['"'] + rest == t && t[1..] == rest;
    } else {
      UnquotesBack(s[1..], rest);
      hide Unquote, EscapeOne;
      assert Escaped(s) + ['"'] + rest == EscapeOne(s[0]) + (Escaped(s[1..]) + ['"'] + rest);
      UnescapesOne(s[0], Escaped(s[1..]) + ['"'] + rest);
      assert s == [s[0]] + s[1..];
    }
  }

  /** How many backslashes stand right before position i. */
  function Slashes(t: string, i: nat): nat
    requires i <= |t|
    decreases i
  {
    if i > 0 && t[i - 1] == '\\' then 1 + Slashes(t, i - 1) else 0
  }

  /** A backslash that starts an escape, rather than being the second of one. */
  predicate StartsEscape(t: string, i: nat)
    requires i < |t|
  {
    t[i] == '\\' && Slashes(t, i) % 2 == 0
  }

  lemma {:induction false} SlashesFront(a: string, b: string, i: nat)
    requires i <= |a|
    ensures Slashes(a + b, i) == Slashes(a, i)
    decreases i
  {
    if i > 0 { SlashesFront(a, b, i - 1); }
  }

  lemma {:induction false} SlashesBack(a: string, b: string, k: nat)
    requires k <= |b| && Slashes(a, |a|) % 2 == 0
    ensures Slashes(a + b, |a| + k) % 2 == Slashes(b, k) % 2 && Slashes(b, k) <= k
    ensures Slashes(a + b, |a| + k) == Slashes(b, k) + if Slashes(b, k) == k then Slashes(a, |a|) else 0
    decreases k
  {
    if k == 0 {
      SlashesFront(a, b, |a|);
    } else {
      SlashesBack(a, b, k - 1);
      assert (a + b)[|a| + k - 1] == b[k - 1];
    }
  }

  /** No control character is left, a quote is always the second of an escape, and every escape is one the format has. */
  ghost predicate Armed(t: string, i: nat)
    requires i < |t|
  {
    && t[i] >= ' '
    && (t[i] == '"' ==> Slashes(t, i) % 2 == 1)
    && (StartsEscape(t, i) ==> i + 1 < |t| && t[i + 1] in "\"\\bfnrtu")
  }

  lemma {:induction false} ArmedOne(c: char, i: nat)
    requires i < |EscapeOne(c)|
    ensures Armed(EscapeOne(c), i) && Slashes(EscapeOne(c), |EscapeOne(c)|) % 2 == 0
  {
    var e := EscapeOne(c);
    match ShortEscape(c)
    case Some(letter) =>
      assert e == ['\\', letter];
      assert Slashes(e, 0) == 0 && Slashes(e, 1) == 1;
    case None =>
      if c < ' ' {
        HexIsPlain(c as int / 16);
        HexIsPlain(c as int % 16);
        assert |e| == 6 && Slashes(e, 6) == 0 && Slashes(e, 0) == 0;
        assert forall k :: 1 <= k < 6 ==> e[k] != '\\' && e[k] != '"' && e[k] >= ' ';
      } else {
        assert e == [c] && Slashes(e, 1) == 0;
      }
  }

  lemma {:induction false} HexIsPlain(d: int)
    requires 0 <= d < 16
    ensures HEX[d] >= ' ' && HEX[d] != '\\' && HEX[d] != '"'
  {
  }

  /**
   * Section 7 is met to the letter: no control character is left bare, every quote follows an odd run of
   * backslashes, and every backslash that starts an escape is followed by a letter the format knows.
   */
  lemma {:induction false} EscapesEverything(s: string, i: nat)
    requires i < |Escaped(s)|
    ensures Armed(Escaped(s), i)
    decreases |s|
  {
    var e, rest := EscapeOne(s[0]), Escaped(s[1..]);
    assert Escaped(s) == e + rest;
    ArmedOne(s[0], if i < |e| then i else 0);
    if i >= |e| { EscapesEverything(s[1..], i - |e|); }
    hide EscapeOne, Escaped;
    if i < |e| { ArmedFront(e, rest, i); } else { ArmedBack(e, rest, i - |e|); }
  }

  lemma {:induction false} ArmedFront(a: string, b: string, i: nat)
    requires i < |a| && Armed(a, i)
    ensures Armed(a + b, i)
  {
    SlashesFront(a, b, i);
    assert (a + b)[i] == a[i];
    if StartsEscape(a, i) { assert (a + b)[i + 1] == a[i + 1]; }
  }

  lemma {:induction false} ArmedBack(a: string, b: string, k: nat)
    requires k < |b| && Armed(b, k) && Slashes(a, |a|) % 2 == 0
    ensures Armed(a + b, |a| + k)
  {
    SlashesBack(a, b, k);
    assert (a + b)[|a| + k] == b[k];
    if StartsEscape(b, k) { assert (a + b)[|a| + k + 1] == b[k + 1]; }
  }

  // ----- writing -----

  function FormatInt(n: int): string { if n < 0 then "-" + Decimal(-n) else Decimal(n) }

  /** A value with its members in the order they have. */
  function Write(v: Value): string
    decreases v, 0
  {
    match v
    case Words(s) => Quoted(s)
    case Number(n) => FormatInt(n)
    case Cut(n) => FormatInt(n) + ".0"
    case Flag(on) => if on then "true" else "false"
    case Null => "null"
    case Array(items) => "[" + WriteItems(items) + "]"
    case Object(members) => "{" + WriteMembers(members) + "}"
  }

  function WriteItems(items: seq<Value>): string
    decreases items, 1
  {
    if |items| == 0 then "" else Write(items[0]) + WriteMoreItems(items[1..])
  }

  function WriteMoreItems(items: seq<Value>): string
    decreases items, 1
  {
    if |items| == 0 then "" else "," + Write(items[0]) + WriteMoreItems(items[1..])
  }

  function WriteMember(m: Member): string
    decreases m, 1
  {
    Quoted(m.key) + ":" + Write(m.value)
  }

  function WriteMembers(members: seq<Member>): string
    decreases members, 2
  {
    if |members| == 0 then "" else WriteMember(members[0]) + WriteMoreMembers(members[1..])
  }

  function WriteMoreMembers(members: seq<Member>): string
    decreases members, 2
  {
    if |members| == 0 then "" else "," + WriteMember(members[0]) + WriteMoreMembers(members[1..])
  }

  // ----- reading -----

  predicate White(c: char) { c == ' ' || c == '\t' || c == '\n' || c == '\r' }

  /** Without the white space a text starts with. */
  function Skip(t: string): (r: string)
    ensures |r| <= |t| && (r == "" || !White(r[0]))
  {
    if |t| > 0 && White(t[0]) then Skip(t[1..]) else t
  }

  /** How much of a text is a fraction; None when it has a point and no digit after it. */
  function FractionSize(t: string): (n: Option<nat>)
    ensures n.Some? ==> n.value <= |t|
  {
    if |t| == 0 || t[0] != '.' then Some(0)
    else if Digits(t[1..]) == 0 then None
    else Some(1 + Digits(t[1..]))
  }

  function ExponentSize(t: string): (n: Option<nat>)
    ensures n.Some? ==> n.value <= |t|
  {
    if |t| == 0 || (t[0] != 'e' && t[0] != 'E') then Some(0)
    else
      var mark: nat := if |t| > 1 && (t[1] == '+' || t[1] == '-') then 2 else 1;
      if Digits(t[mark..]) == 0 then None else Some(mark + Digits(t[mark..]))
  }

  /** What follows the whole part of a number: nothing, a fraction, an exponent or both. */
  function TailSize(t: string): (n: Option<nat>)
    ensures n.Some? ==> n.value <= |t|
  {
    match FractionSize(t)
    case None => None
    case Some(f) =>
      match ExponentSize(t[f..])
      case None => None
      case Some(e) => Some(f + e)
  }

  /** A number whose whole part has been read. */
  function NumberWith(whole: int, after: string): (r: Option<Read<Value>>)
    ensures r.Some? ==> |r.value.rest| <= |after|
  {
    match TailSize(after)
    case None => None
    case Some(k) => Some(Read(if k == 0 then Number(whole) else Cut(whole), after[k..]))
  }

  function ReadNumber(t: string): (r: Option<Read<Value>>)
    ensures r.Some? ==> |r.value.rest| < |t|
  {
    var minus := |t| > 0 && t[0] == '-';
    var digits := if minus then t[1..] else t;
    var n := Digits(digits);
    if n == 0 || (n > 1 && digits[0] == '0') then None
    else
      var size: int := Numerals.Value(digits[..n]);
      NumberWith(if minus then 0 - size else size, digits[n..])
  }

  /** One value, at its first character. */
  function ReadValue(t: string): (r: Option<Read<Value>>)
    ensures r.Some? ==> |r.value.rest| < |t|
    decreases |t|, 0
  {
    if |t| == 0 then None
    else if t[0] == '"' then
      match Unquote(t[1..])
      case None => None
      case Some(Read(s, rest)) => Some(Read(Words(s), rest))
    else if "true" <= t then Some(Read(Flag(true), t[4..]))
    else if "false" <= t then Some(Read(Flag(false), t[5..]))
    else if "null" <= t then Some(Read(Null, t[4..]))
    else if t[0] == '[' then
      var inside := Skip(t[1..]);
      if |inside| > 0 && inside[0] == ']' then Some(Read(Array([]), inside[1..]))
      else
        match ReadItems(inside)
        case None => None
        case Some(Read(items, rest)) => Some(Read(Array(items), rest))
    else if t[0] == '{' then
      var inside := Skip(t[1..]);
      if |inside| > 0 && inside[0] == '}' then Some(Read(Object([]), inside[1..]))
      else
        match ReadMembers(inside)
        case None => None
        case Some(Read(members, rest)) => Some(Read(Object(members), rest))
    else ReadNumber(t)
  }

  /** At least one value, up to the closing bracket. */
  function ReadItems(t: string): (r: Option<Read<seq<Value>>>)
    ensures r.Some? ==> |r.value.rest| < |t|
    decreases |t|, 1
  {
    match ReadValue(t)
    case None => None
    case Some(Read(v, rest)) =>
      var next := Skip(rest);
      if |next| > 0 && next[0] == ']' then Some(Read([v], next[1..]))
      else if |next| > 0 && next[0] == ',' then
        match ReadItems(Skip(next[1..]))
        case None => None
        case Some(Read(more, after)) => Some(Read([v] + more, after))
      else None
  }

  function ReadMember(t: string): (r: Option<Read<Member>>)
    ensures r.Some? ==> |r.value.rest| < |t|
    decreases |t|, 1
  {
    if |t| == 0 || t[0] != '"' then None
    else
      match Unquote(t[1..])
      case None => None
      case Some(Read(key, rest)) =>
        var next := Skip(rest);
        if |next| > 0 && next[0] == ':' then
          match ReadValue(Skip(next[1..]))
          case None => None
          case Some(Read(v, after)) => Some(Read(Member(key, v), after))
        else None
  }

  function ReadMembers(t: string): (r: Option<Read<seq<Member>>>)
    ensures r.Some? ==> |r.value.rest| < |t|
    decreases |t|, 2
  {
    match ReadMember(t)
    case None => None
    case Some(Read(m, rest)) =>
      var next := Skip(rest);
      if |next| > 0 && next[0] == '}' then Some(Read([m], next[1..]))
      else if |next| > 0 && next[0] == ',' then
        match ReadMembers(Skip(next[1..]))
        case None => None
        case Some(Read(more, after)) => Some(Read([m] + more, after))
      else None
  }

  // ----- reading back what was written -----

  /** What may follow a value: nothing, white space, or the punctuation of what it is in. */
  ghost predicate Ends(rest: string) { |rest| == 0 || White(rest[0]) || rest[0] == ',' || rest[0] == ']' || rest[0] == '}' }

  lemma {:induction false} NoLeadingZero(n: nat)
    ensures Decimal(n)[0] == '0' ==> |Decimal(n)| == 1
    decreases n
  {
    if n >= 10 {
      NoLeadingZero(n / 10);
      assert Decimal(n)[0] == Decimal(n / 10)[0];
      if Decimal(n / 10)[0] == '0' { ZeroIsZero(n / 10); }
    }
  }

  lemma {:induction false} ZeroIsZero(n: nat)
    requires Decimal(n)[0] == '0' && |Decimal(n)| == 1
    ensures n == 0
  {
    assert Decimal(n) == "0";
    assert Numerals.Value("0") == 0;
  }

  /** A whole number, or one that is cut at a point and a zero. */
  lemma {:induction false} NumberBack(n: int, rest: string)
    requires Ends(rest)
    ensures ReadNumber(FormatInt(n) + rest) == Some(Read(Number(n), rest))
    ensures ReadNumber(FormatInt(n) + ".0" + rest) == Some(Read(Cut(n), rest))
  {
    hide Decimal, Numerals.Value, Digits, ReadNumber, AllDigits, TailSize;
    TailIsNone(rest);
    NumberThen(n, rest);
    assert rest[0..] == rest;
    TailIsPointZero(rest);
    var tail := ".0" + rest;
    NumberThen(n, tail);
    assert tail[2..] == rest && FormatInt(n) + ".0" + rest == FormatInt(n) + tail;
  }

  lemma TailIsNone(rest: string)
    requires Ends(rest)
    ensures TailSize(rest) == Some(0) && (rest == "" || !Digit(rest[0]))
  {
    assert rest[0..] == rest;
  }

  lemma TailIsPointZero(rest: string)
    requires Ends(rest)
    ensures TailSize(".0" + rest) == Some(2)
  {
    var t := ".0" + rest;
    assert t[1..] == "0" + rest && t[2..] == rest;
    DigitsAre("0" + rest, 1);
    assert FractionSize(t) == Some(2) && ExponentSize(rest) == Some(0);
  }

  lemma {:induction false} NumberThen(n: int, after: string)
    requires after == "" || !Digit(after[0])
    ensures ReadNumber(FormatInt(n) + after) == NumberWith(n, after)
  {
    hide Decimal, Numerals.Value, Digits, ReadNumber, AllDigits, NumberWith;
    var size: nat := if n < 0 then -n else n;
    var d := Decimal(size);
    NoLeadingZero(size);
    DigitsRead(d, after);
    if n < 0 {
      assert FormatInt(n) + after == "-" + (d + after);
      ReadsNegative(d, after);
    } else {
      ReadsPositive(d, after);
    }
  }

  lemma {:induction false} NumberStarts(n: int)
    ensures FormatInt(n) != "" && (Digit(FormatInt(n)[0]) || FormatInt(n)[0] == '-')
  {
    hide Decimal, Numerals.Value;
  }

  lemma {:induction false} ReadsPositive(d: string, after: string)
    requires AllDigits(d) && d != "" && (d[0] == '0' ==> |d| == 1)
    requires Digits(d + after) == |d| && (d + after)[..|d|] == d && (d + after)[|d|..] == after
    ensures ReadNumber(d + after) == NumberWith(Numerals.Value(d), after)
  {
    hide Numerals.Value, Digits, NumberWith;
    assert (d + after)[0] == d[0] && Digit(d[0]);
  }

  lemma {:induction false} ReadsNegative(d: string, after: string)
    requires AllDigits(d) && d != "" && (d[0] == '0' ==> |d| == 1)
    requires Digits(d + after) == |d| && (d + after)[..|d|] == d && (d + after)[|d|..] == after
    ensures ReadNumber("-" + (d + after)) == NumberWith(0 - Numerals.Value(d), after)
  {
    hide Numerals.Value, Digits, NumberWith;
    var t := "-" + (d + after);
    assert t[0] == '-' && t[1..] == d + after;
  }

  lemma {:induction false} DigitsRead(d: string, after: string)
    requires AllDigits(d) && d != "" && (after == "" || !Digit(after[0]))
    ensures Digits(d + after) == |d| && (d + after)[..|d|] == d && (d + after)[|d|..] == after && (d + after)[0] == d[0]
  {
    if after == "" { assert d + after == d; }
    DigitsAre(d + after, |d|);
  }

  lemma {:induction false} WordsBack(s: string, rest: string)
    ensures ReadValue(Quoted(s) + rest) == Some(Read(Words(s), rest))
    ensures Quoted(s) + rest == ['"'] + (Escaped(s) + ['"'] + rest)
    ensures Unquote((Quoted(s) + rest)[1..]) == Some(Read(s, rest))
  {
    var t := Quoted(s) + rest;
    assert t == ['"'] + (Escaped(s) + ['"'] + rest);
    assert t[1..] == Escaped(s) + ['"'] + rest;
    UnquotesBack(s, rest);
    hide Unquote, Escaped;
  }

  /** The first character says what kind of value follows, and it is never the end of an array or object. */
  lemma {:induction false} Starts(v: Value)
    ensures var w := Write(v); w != "" && w[0] != ']' && w[0] != '}' && !White(w[0])
  {
    match v
    case Number(n) => NumberStarts(n);
    case Cut(n) => NumberStarts(n);
    case _ =>
  }

  /** A number reads as one, the texts without structure as what they stand for. */
  lemma {:induction false} PlainReads(v: Value, rest: string)
    requires !v.Array? && !v.Object? && (v.Number? || v.Cut? ==> Ends(rest))
    ensures ReadValue(Write(v) + rest) == Some(Read(v, rest))
  {
    match v
    case Words(s) => WordsBack(s, rest);
    case Number(n) =>
      NumberBack(n, rest);
      NumberStarts(n);
      AsNumber(FormatInt(n) + rest);
    case Cut(n) =>
      NumberBack(n, rest);
      NumberStarts(n);
      AsNumber(FormatInt(n) + ".0" + rest);
    case _ => NameReads(v, rest);
  }

  lemma {:induction false} AsNumber(t: string)
    requires t != "" && (Digit(t[0]) || t[0] == '-')
    ensures ReadValue(t) == ReadNumber(t)
  {
    hide ReadNumber, Unquote, ReadItems, ReadMembers, Skip;
    assert "true"[0] != t[0] && "false"[0] != t[0] && "null"[0] != t[0];
  }

  lemma {:induction false} NameReads(v: Value, rest: string)
    requires v.Flag? || v.Null?
    ensures ReadValue(Write(v) + rest) == Some(Read(v, rest))
  {
    hide ReadNumber, Unquote, ReadItems, ReadMembers, Skip;
    var w, t := Write(v), Write(v) + rest;
    assert t[..|w|] == w && t[|w|..] == rest && t[0] == w[0];
  }

  // ----- one step of the reader -----

  lemma ArrayOpens(t: string, next: string)
    requires t == "[" + next
    ensures var inside := Skip(next);
      ReadValue(t) == if |inside| > 0 && inside[0] == ']' then Some(Read(Array([]), inside[1..]))
                      else match ReadItems(inside) case None => None case Some(r) => Some(Read(Array(r.value), r.rest))
  {
    hide ReadNumber, Unquote, ReadItems, ReadMembers, Skip;
    assert t[1..] == next;
  }

  lemma ObjectOpens(t: string, next: string)
    requires t == "{" + next
    ensures var inside := Skip(next);
      ReadValue(t) == if |inside| > 0 && inside[0] == '}' then Some(Read(Object([]), inside[1..]))
                      else match ReadMembers(inside) case None => None case Some(r) => Some(Read(Object(r.value), r.rest))
  {
    hide ReadNumber, Unquote, ReadItems, ReadMembers, Skip;
    assert t[1..] == next;
  }

  lemma ItemsLast(t: string, v: Value, after: string, rest: string)
    requires ReadValue(t) == Some(Read(v, after)) && Skip(after) == "]" + rest
    ensures ReadItems(t) == Some(Read([v], rest))
  {
    hide ReadValue, Skip;
    assert ("]" + rest)[1..] == rest;
  }

  lemma ItemsMore(t: string, v: Value, after: string, next: string, more: seq<Value>, rest: string)
    requires ReadValue(t) == Some(Read(v, after)) && Skip(after) == "," + next
    requires ReadItems(Skip(next)) == Some(Read(more, rest))
    ensures ReadItems(t) == Some(Read([v] + more, rest))
  {
    hide ReadValue, Skip;
    assert ("," + next)[1..] == next;
  }

  lemma MembersLast(t: string, m: Member, after: string, rest: string)
    requires ReadMember(t) == Some(Read(m, after)) && Skip(after) == "}" + rest
    ensures ReadMembers(t) == Some(Read([m], rest))
  {
    hide ReadMember, Skip;
    assert ("}" + rest)[1..] == rest;
  }

  lemma MembersMore(t: string, m: Member, after: string, next: string, more: seq<Member>, rest: string)
    requires ReadMember(t) == Some(Read(m, after)) && Skip(after) == "," + next
    requires ReadMembers(Skip(next)) == Some(Read(more, rest))
    ensures ReadMembers(t) == Some(Read([m] + more, rest))
  {
    hide ReadMember, Skip;
    assert ("," + next)[1..] == next;
  }

  lemma MemberGoes(t: string, key: string, colon: string, next: string, v: Value, after: string)
    requires t == Quoted(key) + colon && Skip(colon) == ":" + next && ReadValue(Skip(next)) == Some(Read(v, after))
    ensures ReadMember(t) == Some(Read(Member(key, v), after))
  {
    hide Unquote, ReadValue, Escaped, Skip;
    WordsBack(key, colon);
    assert t[0] == '"' && (":" + next)[1..] == next;
  }

  // ----- a document with white space between its tokens -----

  ghost predicate Blank(gap: string) { forall i :: 0 <= i < |gap| ==> White(gap[i]) }

  lemma {:induction false} SkipsBlank(gap: string, t: string)
    requires Blank(gap) && (t == "" || !White(t[0]))
    ensures Skip(gap + t) == t
    decreases |gap|
  {
    if gap == "" {
      assert gap + t == t;
    } else {
      assert (gap + t)[1..] == gap[1..] + t;
      SkipsBlank(gap[1..], t);
    }
  }

  /** A value with this gap wherever white space may stand inside it. */
  function Spread(v: Value, gap: string): string
    decreases v, 0
  {
    match v
    case Array(items) => "[" + gap + SpreadItems(items, gap) + "]"
    case Object(members) => "{" + gap + SpreadMembers(members, gap) + "}"
    case _ => Write(v)
  }

  function SpreadItems(items: seq<Value>, gap: string): string
    decreases items, 1
  {
    if |items| == 0 then ""
    else Spread(items[0], gap) + gap + if |items| == 1 then "" else "," + gap + SpreadItems(items[1..], gap)
  }

  function SpreadMember(m: Member, gap: string): string
    decreases m, 1
  {
    Quoted(m.key) + gap + ":" + gap + Spread(m.value, gap)
  }

  function SpreadMembers(members: seq<Member>, gap: string): string
    decreases members, 2
  {
    if |members| == 0 then ""
    else SpreadMember(members[0], gap) + gap + if |members| == 1 then "" else "," + gap + SpreadMembers(members[1..], gap)
  }

  lemma {:induction false} SpreadStarts(v: Value, gap: string)
    ensures var w := Spread(v, gap); w != "" && w[0] != ']' && w[0] != '}' && !White(w[0])
  {
    if !v.Array? && !v.Object? { Starts(v); }
  }

  /** Whatever white space stands between the tokens, every value reads back as it was. */
  lemma {:induction false} SpacesDoNotMatter(v: Value, gap: string, rest: string)
    requires Blank(gap) && (v.Number? || v.Cut? ==> Ends(rest))
    ensures ReadValue(Spread(v, gap) + rest) == Some(Read(v, rest))
    decreases v, 0
  {
    hide ReadValue, ReadItems, ReadMembers, Skip, Write;
    match v
    case Array(items) =>
      var inside := SpreadItems(items, gap) + "]" + rest;
      assert Spread(v, gap) + rest == "[" + (gap + inside);
      if |items| > 0 {
        ItemsSpread(items, gap, rest);
        SpreadStarts(items[0], gap);
        assert inside[0] == Spread(items[0], gap)[0];
      } else {
        assert inside == "]" + rest && inside[1..] == rest;
      }
      hide Spread, SpreadItems;
      SkipsBlank(gap, inside);
      ArrayOpens("[" + (gap + inside), gap + inside);
    case Object(members) =>
      var inside := SpreadMembers(members, gap) + "}" + rest;
      assert Spread(v, gap) + rest == "{" + (gap + inside);
      if |members| > 0 {
        MembersSpread(members, gap, rest);
        assert inside[0] == '"';
      } else {
        assert inside == "}" + rest && inside[1..] == rest;
      }
      hide Spread, SpreadMembers;
      SkipsBlank(gap, inside);
      ObjectOpens("{" + (gap + inside), gap + inside);
    case _ => PlainReads(v, rest);
  }

  /** What stands after the first of several values or members. */
  function Stop(last: bool, close: string, gap: string, tail: string, rest: string): string {
    if last then close + rest else "," + (gap + tail)
  }

  lemma {:induction false} ItemsAre(items: seq<Value>, gap: string, rest: string)
    requires |items| > 0
    ensures var tail := SpreadItems(items[1..], gap) + "]" + rest;
      && SpreadItems(items, gap) + "]" + rest == Spread(items[0], gap) + (gap + Stop(|items| == 1, "]", gap, tail, rest))
      && (|items| > 1 ==> tail != "" && tail[0] == Spread(items[1], gap)[0] && !White(tail[0]))
  {
    hide Spread;
    if |items| > 1 { SpreadStarts(items[1], gap); }
  }

  lemma {:induction false} ItemsSpread(items: seq<Value>, gap: string, rest: string)
    requires |items| > 0 && Blank(gap)
    ensures ReadItems(SpreadItems(items, gap) + "]" + rest) == Some(Read(items, rest))
    decreases items, 1
  {
    var v, more := items[0], items[1..];
    var tail := SpreadItems(more, gap) + "]" + rest;
    var stop := Stop(|more| == 0, "]", gap, tail, rest);
    assert items == [v] + more;
    ItemsAre(items, gap, rest);
    EndsGap(gap, stop);
    SkipsBlank(gap, stop);
    hide ReadValue, ReadItems, Skip, Spread, SpreadItems, Blank, Ends;
    var t := Spread(v, gap) + (gap + stop);
    SpacesDoNotMatter(v, gap, gap + stop);
    if |more| == 0 {
      assert items == [v];
      ItemsLast(t, v, gap + stop, rest);
    } else {
      SkipsBlank(gap, tail);
      ItemsSpread(more, gap, rest);
      ItemsMore(t, v, gap + stop, gap + tail, more, rest);
    }
  }

  lemma EndsGap(gap: string, stop: string)
    requires Blank(gap) && Ends(stop)
    ensures Ends(gap + stop)
  {
    if gap == "" { assert gap + stop == stop; }
  }

  lemma {:induction false} MembersAre(members: seq<Member>, gap: string, rest: string)
    requires |members| > 0
    ensures var tail := SpreadMembers(members[1..], gap) + "}" + rest;
      && SpreadMembers(members, gap) + "}" + rest
      == SpreadMember(members[0], gap) + (gap + Stop(|members| == 1, "}", gap, tail, rest))
      && (|members| > 1 ==> tail != "" && tail[0] == '"')
  {
    if |members| > 1 { assert SpreadMember(members[1], gap)[0] == '"'; }
    hide SpreadMember;
  }

  lemma {:induction false} MembersSpread(members: seq<Member>, gap: string, rest: string)
    requires |members| > 0 && Blank(gap)
    ensures ReadMembers(SpreadMembers(members, gap) + "}" + rest) == Some(Read(members, rest))
    decreases members, 1
  {
    var m, more := members[0], members[1..];
    var tail := SpreadMembers(more, gap) + "}" + rest;
    var stop := Stop(|more| == 0, "}", gap, tail, rest);
    assert members == [m] + more;
    MembersAre(members, gap, rest);
    EndsGap(gap, stop);
    SkipsBlank(gap, stop);
    hide ReadValue, ReadMember, ReadMembers, Skip, Spread, SpreadMember, SpreadMembers, Blank, Ends;
    var t := SpreadMember(m, gap) + (gap + stop);
    SpacesDoNotMatter(m.value, gap, gap + stop);
    MemberSpread(m, gap, gap + stop);
    if |more| == 0 {
      assert members == [m];
      MembersLast(t, m, gap + stop, rest);
    } else {
      SkipsBlank(gap, tail);
      MembersSpread(more, gap, rest);
      MembersMore(t, m, gap + stop, gap + tail, more, rest);
    }
  }

  lemma {:induction false} MemberSpread(m: Member, gap: string, after: string)
    requires Blank(gap) && ReadValue(Spread(m.value, gap) + after) == Some(Read(m.value, after))
    ensures ReadMember(SpreadMember(m, gap) + after) == Some(Read(m, after))
  {
    hide ReadValue, Skip, Spread;
    var value := Spread(m.value, gap) + after;
    var colon := gap + (":" + (gap + value));
    assert SpreadMember(m, gap) + after == Quoted(m.key) + colon;
    SkipsBlank(gap, ":" + (gap + value));
    SpreadStarts(m.value, gap);
    assert value[0] == Spread(m.value, gap)[0];
    SkipsBlank(gap, value);
    MemberGoes(SpreadMember(m, gap) + after, m.key, colon, gap + value, m.value, after);
  }

  // ----- and without -----

  lemma {:induction false} WriteIsSpread(v: Value)
    ensures Write(v) == Spread(v, "")
    decreases v, 0
  {
    match v
    case Array(items) => WriteItemsSpread(items);
    case Object(members) => WriteMembersSpread(members);
    case _ =>
  }

  lemma {:induction false} WriteItemsSpread(items: seq<Value>)
    ensures WriteItems(items) == SpreadItems(items, "")
    ensures WriteMoreItems(items) == if |items| == 0 then "" else "," + WriteItems(items)
    decreases items, 1
  {
    if |items| > 0 {
      WriteIsSpread(items[0]);
      WriteItemsSpread(items[1..]);
      hide Write, Spread;
    }
  }

  lemma {:induction false} WriteMembersSpread(members: seq<Member>)
    ensures WriteMembers(members) == SpreadMembers(members, "")
    ensures WriteMoreMembers(members) == if |members| == 0 then "" else "," + WriteMembers(members)
    decreases members, 1
  {
    if |members| > 0 {
      WriteIsSpread(members[0].value);
      WriteMembersSpread(members[1..]);
      hide Write, Spread;
    }
  }

  lemma {:induction false} ReadsBack(v: Value, rest: string)
    requires v.Number? || v.Cut? ==> Ends(rest)
    ensures ReadValue(Write(v) + rest) == Some(Read(v, rest))
  {
    hide Write, Spread, ReadValue;
    WriteIsSpread(v);
    SpacesDoNotMatter(v, "", rest);
  }

  // ----- the canonical order -----

  predicate KeysOrdered(ms: seq<Member>) { forall i, j :: 0 <= i < j < |ms| ==> AtMost(ms[i].key, ms[j].key) }

  /** Sorting by key, equals left as they came. */
  function SortMembers(ms: seq<Member>): (r: seq<Member>)
    ensures KeysOrdered(r) && multiset(r) == multiset(ms)
  {
    if |ms| == 0 then []
    else
      assert ms == ms[..|ms| - 1] + [ms[|ms| - 1]];
      PlaceMember(SortMembers(ms[..|ms| - 1]), ms[|ms| - 1])
  }

  function PlaceMember(s: seq<Member>, m: Member): (r: seq<Member>)
    requires KeysOrdered(s)
    ensures KeysOrdered(r) && multiset(r) == multiset(s) + multiset{m}
  {
    if |s| == 0 || AtMost(s[|s| - 1].key, m.key) then
      PlaceMemberLast(s, m);
      s + [m]
    else
      var last := s[|s| - 1];
      AtMostOrders(last.key, m.key, m.key);
      assert s == s[..|s| - 1] + [last];
      var r := PlaceMember(s[..|s| - 1], m);
      PlaceMemberBefore(s[..|s| - 1], m, last, r);
      r + [last]
  }

  lemma {:induction false} PlaceMemberLast(s: seq<Member>, m: Member)
    requires KeysOrdered(s) && (|s| == 0 || AtMost(s[|s| - 1].key, m.key))
    ensures KeysOrdered(s + [m])
  {
    forall i | 0 <= i < |s| ensures AtMost(s[i].key, m.key) { AtMostOrders(s[i].key, s[|s| - 1].key, m.key); }
  }

  lemma {:induction false} PlaceMemberBefore(s: seq<Member>, m: Member, last: Member, r: seq<Member>)
    requires KeysOrdered(s + [last]) && KeysOrdered(r) && multiset(r) == multiset(s) + multiset{m} && AtMost(m.key, last.key)
    ensures KeysOrdered(r + [last])
  {
    forall i | 0 <= i < |r| ensures AtMost(r[i].key, last.key) {
      assert r[i] in multiset(r);
      if r[i] != m {
        assert r[i] in multiset(s);
        var j :| 0 <= j < |s| && s[j] == r[i];
        assert (s + [last])[j] == r[i] && (s + [last])[|s|] == last;
      }
    }
  }

  /** The value with the members of every object in it sorted. */
  function Norm(v: Value): Value
    decreases v, 0
  {
    match v
    case Array(items) => Array(NormItems(items))
    case Object(members) => Object(SortMembers(NormMembers(members)))
    case _ => v
  }

  function NormItems(items: seq<Value>): (r: seq<Value>)
    ensures |r| == |items| && forall i :: 0 <= i < |items| ==> r[i] == Norm(items[i])
    decreases items, 1
  {
    if |items| == 0 then [] else [Norm(items[0])] + NormItems(items[1..])
  }

  function NormMember(m: Member): Member
    decreases m, 1
  {
    Member(m.key, Norm(m.value))
  }

  function NormMembers(ms: seq<Member>): (r: seq<Member>)
    ensures |r| == |ms| && forall i :: 0 <= i < |ms| ==> r[i] == NormMember(ms[i])
    decreases ms, 2
  {
    if |ms| == 0 then [] else [NormMember(ms[0])] + NormMembers(ms[1..])
  }

  /** The canonical text of a value. */
  function Encode(v: Value): string { Write(Norm(v)) }

  /** Reading a document: its first value, whatever follows it. */
  function Decode(t: string): Option<Value> {
    match ReadValue(Skip(t)) case None => None case Some(Read(v, _)) => Some(v)
  }

  /** A canonical document reads back as the value with its keys in order. */
  lemma {:induction false} DecodesBack(v: Value)
    ensures Decode(Encode(v)) == Some(Norm(v))
  {
    hide Write, Norm, ReadValue, Skip;
    var none: string := "";
    assert Write(Norm(v)) + none == Write(Norm(v));
    ReadsBack(Norm(v), none);
    Starts(Norm(v));
    SkipsBlank(none, Encode(v));
    assert none + Encode(v) == Encode(v);
  }

  /** What follows an object is not looked at. */
  lemma {:induction false} TailIsIgnored(v: Value, tail: string)
    requires v.Object?
    ensures Decode(Encode(v) + tail) == Some(Norm(v))
  {
    NormOfObject(v);
    hide Norm, Write, ReadValue, Skip;
    ReadsBack(Norm(v), tail);
    Starts(Norm(v));
    var none: string := "";
    assert (Encode(v) + tail)[0] == Encode(v)[0];
    SkipsBlank(none, Encode(v) + tail);
    assert none + (Encode(v) + tail) == Encode(v) + tail;
  }

  lemma {:induction false} NormOfObject(v: Value)
    requires v.Object?
    ensures Norm(v).Object? && Norm(v) == Object(Norm(v).members)
  {
  }

  /** Two values have one text exactly when they differ in nothing but the order of members. */
  lemma {:induction false} EncodesInjectively(v: Value, w: Value)
    ensures Encode(v) == Encode(w) <==> Norm(v) == Norm(w)
  {
    DecodesBack(v);
    DecodesBack(w);
  }

  ghost predicate Distinct(ms: seq<Member>) { forall i, j :: 0 <= i < j < |ms| ==> ms[i].key != ms[j].key }

  /** With every key used once there is one sorted order. */
  lemma {:induction false} SortedOnce(a: seq<Member>, b: seq<Member>)
    requires KeysOrdered(a) && KeysOrdered(b) && Distinct(a) && multiset(a) == multiset(b)
    ensures a == b
    decreases |a|
  {
    hide AtMost;
    assert |a| == |multiset(a)| == |multiset(b)| == |b|;
    if |a| > 0 {
      LastIsGreatest(a, b);
      WithoutLast(a);
      WithoutLast(b);
      hide KeysOrdered, Distinct;
      SortedOnce(a[..|a| - 1], b[..|b| - 1]);
    }
  }

  lemma {:induction false} WithoutLast(a: seq<Member>)
    requires |a| > 0 && KeysOrdered(a)
    ensures KeysOrdered(a[..|a| - 1]) && (Distinct(a) ==> Distinct(a[..|a| - 1]))
    ensures a == a[..|a| - 1] + [a[|a| - 1]] && multiset(a[..|a| - 1]) == multiset(a) - multiset{a[|a| - 1]}
  {
    assert a == a[..|a| - 1] + [a[|a| - 1]];
  }

  lemma {:induction false} LastIsGreatest(a: seq<Member>, b: seq<Member>)
    requires |a| == |b| > 0 && KeysOrdered(a) && KeysOrdered(b) && Distinct(a) && multiset(a) == multiset(b)
    ensures a[|a| - 1] == b[|b| - 1]
  {
    var x, y := a[|a| - 1], b[|b| - 1];
    assert x in multiset(b) && y in multiset(a);
    var i :| 0 <= i < |b| && b[i] == x;
    var j :| 0 <= j < |a| && a[j] == y;
    AtMostOrders(x.key, y.key, y.key);
    assert AtMost(x.key, y.key) && AtMost(y.key, x.key);
  }

  /** Whatever order the members of an object are listed in, its text is the same. */
  lemma {:induction false} OrderDoesNotMatter(a: seq<Member>, b: seq<Member>)
    requires multiset(a) == multiset(b) && Distinct(a)
    ensures Encode(Object(a)) == Encode(Object(b))
  {
    NormSame(a, b);
    DistinctSorted(NormMembers(a));
    SortedOnce(SortMembers(NormMembers(a)), SortMembers(NormMembers(b)));
  }

  lemma {:induction false} NormCounts(ms: seq<Member>, n: Member)
    ensures n in multiset(NormMembers(ms)) <==> exists m :: m in ms && NormMember(m) == n
  {
    var r := NormMembers(ms);
    if n in multiset(r) {
      var i :| 0 <= i < |r| && r[i] == n;
      assert ms[i] in ms;
    }
    forall m | m in ms && NormMember(m) == n ensures n in multiset(r) {
      var i :| 0 <= i < |ms| && ms[i] == m;
      assert r[i] == n;
    }
  }

  lemma {:induction false} OnceEach(ms: seq<Member>, m: Member)
    requires Distinct(ms)
    ensures multiset(ms)[m] <= 1
    decreases |ms|
  {
    if |ms| > 0 {
      var before, last := ms[..|ms| - 1], ms[|ms| - 1];
      assert ms == before + [last];
      OnceEach(before, m);
      assert forall i :: 0 <= i < |before| ==> before[i] == ms[i] && ms[i].key != last.key;
      assert last !in before;
    }
  }

  lemma Repeats(b: seq<Member>, i: nat, j: nat)
    requires i < j < |b| && b[i] == b[j]
    ensures multiset(b)[b[i]] >= 2
  {
    assert b == b[..i] + [b[i]] + b[i + 1..j] + [b[j]] + b[j + 1..];
  }

  lemma {:induction false} DistinctNorm(ms: seq<Member>)
    requires Distinct(ms)
    ensures Distinct(NormMembers(ms))
  {
  }

  lemma {:induction false} DistinctShuffled(a: seq<Member>, b: seq<Member>)
    requires multiset(a) == multiset(b) && Distinct(a)
    ensures Distinct(b)
  {
    forall i, j | 0 <= i < j < |b| ensures b[i].key != b[j].key {
      assert b[i] in multiset(a) && b[j] in multiset(a);
      var x :| 0 <= x < |a| && a[x] == b[i];
      var y :| 0 <= y < |a| && a[y] == b[j];
      if x == y {
        OnceEach(a, b[i]);
        Repeats(b, i, j);
      }
    }
  }

  lemma {:induction false} DistinctSorted(ms: seq<Member>)
    requires Distinct(ms)
    ensures Distinct(SortMembers(ms))
  {
    DistinctShuffled(ms, SortMembers(ms));
  }

  lemma {:induction false} NormSame(a: seq<Member>, b: seq<Member>)
    requires multiset(a) == multiset(b) && Distinct(a)
    ensures multiset(NormMembers(a)) == multiset(NormMembers(b)) && Distinct(NormMembers(a))
  {
    DistinctShuffled(a, b);
    DistinctNorm(a);
    DistinctNorm(b);
    hide Distinct, Norm, NormMembers, NormMember;
    forall n ensures multiset(NormMembers(a))[n] == multiset(NormMembers(b))[n] {
      OnceEach(NormMembers(a), n);
      OnceEach(NormMembers(b), n);
      SameNorms(a, b, n);
    }
  }

  lemma {:induction false} SameNorms(a: seq<Member>, b: seq<Member>, n: Member)
    requires multiset(a) == multiset(b)
    ensures n in multiset(NormMembers(a)) <==> n in multiset(NormMembers(b))
  {
    NormCounts(a, n);
    NormCounts(b, n);
    hide NormMembers, NormMember;
    assert forall m :: m in a <==> m in multiset(a);
    assert forall m :: m in b <==> m in multiset(b);
  }

  // ----- the encoder itself -----

  lemma {:induction false} PlaceNorm(s: seq<Member>, m: Member)
    requires KeysOrdered(s) && KeysOrdered(NormMembers(s))
    ensures NormMembers(PlaceMember(s, m)) == PlaceMember(NormMembers(s), NormMember(m))
    decreases |s|
  {
    hide NormMembers, AtMost, Norm;
    assert NormMembers(s + [m]) == NormMembers(s) + [NormMember(m)];
    if |s| > 0 && !AtMost(s[|s| - 1].key, m.key) {
      var before := s[..|s| - 1];
      assert NormMembers(before) == NormMembers(s)[..|s| - 1];
      PlaceNorm(before, m);
      assert NormMembers(PlaceMember(before, m) + [s[|s| - 1]]) == NormMembers(PlaceMember(before, m)) + [NormMember(s[|s| - 1])];
    } else {
      assert NormMembers(s + [m]) == NormMembers(s) + [NormMember(m)];
    }
  }

  lemma {:induction false} NormInit(ms: seq<Member>)
    requires |ms| > 0
    ensures var norms := NormMembers(ms);
      norms[..|ms| - 1] == NormMembers(ms[..|ms| - 1]) && norms[|ms| - 1] == NormMember(ms[|ms| - 1])
  {
  }

  lemma {:induction false} SortInit(ms: seq<Member>)
    requires |ms| > 0
    ensures SortMembers(ms) == PlaceMember(SortMembers(ms[..|ms| - 1]), ms[|ms| - 1])
  {
    hide PlaceMember;
  }

  /** Sorting the members and normalising what they hold can be done in either order. */
  lemma {:induction false} SortNorm(ms: seq<Member>)
    ensures NormMembers(SortMembers(ms)) == SortMembers(NormMembers(ms))
    decreases |ms|
  {
    if |ms| > 0 {
      NormInit(ms);
      SortInit(ms);
      SortInit(NormMembers(ms));
      hide *;
      var before, m := ms[..|ms| - 1], ms[|ms| - 1];
      SortNorm(before);
      KeepsOrder(SortMembers(before));
      PlaceNorm(SortMembers(before), m);
    }
  }

  lemma {:induction false} KeepsOrder(ms: seq<Member>)
    requires KeysOrdered(ms)
    ensures KeysOrdered(NormMembers(ms))
  {
    hide AtMost;
  }

  /** What is still to be written of an array when i of its items have been. */
  function ItemsLeft(items: seq<Value>, i: nat): string
    requires i <= |items|
  {
    (if i == 0 then WriteItems(items) else WriteMoreItems(items[i..])) + "]"
  }

  function MembersLeft(members: seq<Member>, i: nat): string
    requires i <= |members|
  {
    (if i == 0 then WriteMembers(members) else WriteMoreMembers(members[i..])) + "}"
  }

  lemma {:induction false} OneItem(items: seq<Value>, i: nat, text: string)
    requires i < |items|
    ensures text + ItemsLeft(items, i) == ((if i > 0 then text + "," else text) + Write(items[i])) + ItemsLeft(items, i + 1)
  {
    hide Write;
    assert items[i..][0] == items[i] && items[i..][1..] == items[i + 1..];
    if i == 0 { assert items[1..] == items[i + 1..]; }
  }

  lemma {:induction false} OneMember(members: seq<Member>, i: nat, text: string)
    requires i < |members|
    ensures text + MembersLeft(members, i)
         == ((((if i > 0 then text + "," else text) + Quoted(members[i].key)) + ":") + Write(members[i].value)) + MembersLeft(members, i + 1)
  {
    hide Write, Quoted;
    assert members[i..][0] == members[i] && members[i..][1..] == members[i + 1..];
    if i == 0 { assert members[1..] == members[i + 1..]; }
    var more := WriteMoreMembers(members[i + 1..]);
    assert MembersLeft(members, i) == (if i > 0 then "," else "") + WriteMember(members[i]) + more + "}" by {
      hide WriteMember;
    }
    hide WriteMoreMembers, WriteMembers;
    Strung(text, if i > 0 then "," else "", Quoted(members[i].key), Write(members[i].value), more);
    assert text + "" == text;
  }

  lemma {:induction false} Strung(text: string, comma: string, key: string, value: string, more: string)
    ensures text + (comma + (key + ":" + value) + more + "}") == ((((text + comma) + key) + ":") + value) + (more + "}")
  {
  }

  /** Where a member stood before the sort. */
  lemma {:induction false} CameFrom(ms: seq<Member>, i: nat) returns (j: nat)
    requires i < |SortMembers(ms)|
    ensures j < |ms| && SortMembers(ms)[i] == ms[j]
  {
    assert SortMembers(ms)[i] in multiset(ms);
    j :| j < |ms| && ms[j] == SortMembers(ms)[i];
  }

  lemma {:induction false} InsideIsSmaller(v: Value, members: seq<Member>, j: nat)
    requires v == Object(members) && j < |members|
    ensures members[j].value < v
  {
    assert members[j] in members;
    match v case Object(ms) => assert ms[j].value < v;
  }

  class Buffer {
    var text: string

    constructor ()
      ensures text == ""
    {
      text := "";
    }

    method EncodeString(s: string)
      modifies this
      ensures text == old(text) + Quoted(s)
    {
      hide EscapeOne;
      text := text + "\"";
      var i := 0;
      ghost var begun := text;
      assert s[0..] == s;
      while i < |s|
        invariant 0 <= i <= |s| && text + Escaped(s[i..]) == begun + Escaped(s)
      {
        ghost var before := text;
        var c := s[i];
        assert s[i..][0] == c && s[i..][1..] == s[i + 1..];
        text := text + EscapeOne(c);
        assert before + (EscapeOne(c) + Escaped(s[i + 1..])) == text + Escaped(s[i + 1..]);
        i := i + 1;
      }
      assert text == begun + Escaped(s);
      text := text + "\"";
    }

    /** encode, of every kind of value: an object sorts its members first. */
    method EncodeValue(v: Value)
      modifies this
      ensures text == old(text) + Encode(v)
      decreases v
    {
      hide Quoted, FormatInt, SortMembers, NormItems, NormMembers, WriteItems, WriteMembers, ItemsLeft, MembersLeft;
      match v {
        case Words(s) => EncodeString(s);
        case Number(n) => text := text + FormatInt(n);
        case Cut(n) => text := text + FormatInt(n) + ".0";
        case Flag(on) => text := text + if on then "true" else "false";
        case Null => text := text + "null";
        case Array(items) => EncodeArray(v);
        case Object(members) => EncodeObject(v);
      }
    }

    method EncodeArray(v: Value)
      requires v.Array?
      modifies this
      ensures text == old(text) + Encode(v)
      decreases v, 0
    {
      hide Write, ItemsLeft;
      var items := v.items;
      ghost var norms := NormItems(items);
      text := text + "[";
      ghost var whole := text + ItemsLeft(norms, 0);
      ArrayText(v, old(text));
      for i := 0 to |items|
        invariant text + ItemsLeft(norms, i) == whole
      {
        OneItem(norms, i, text);
        if i > 0 { text := text + ","; }
        EncodeValue(items[i]);
      }
      NothingLeft(norms, []);
      text := text + "]";
    }

    method EncodeObject(v: Value)
      requires v.Object?
      modifies this
      ensures text == old(text) + Encode(v)
      decreases v, 0
    {
      hide Write, MembersLeft, Quoted, SortMembers, NormMembers;
      var members := SortMembers(v.members);
      ghost var norms := NormMembers(members);
      SortNorm(v.members);
      text := text + "{";
      ghost var whole := text + MembersLeft(norms, 0);
      ObjectText(v, old(text));
      for i := 0 to |members|
        invariant text + MembersLeft(norms, i) == whole
      {
        OneMember(norms, i, text);
        var j := CameFrom(v.members, i);
        InsideIsSmaller(v, v.members, j);
        if i > 0 { text := text + ","; }
        EncodeString(members[i].key);
        text := text + ":";
        EncodeValue(members[i].value);
      }
      NothingLeft([], norms);
      text := text + "}";
    }
  }

  lemma {:induction false} ArrayText(v: Value, text: string)
    requires v.Array?
    ensures text + Encode(v) == (text + "[") + ItemsLeft(NormItems(v.items), 0)
  {
    hide NormItems, WriteItems;
  }

  lemma {:induction false} ObjectText(v: Value, text: string)
    requires v.Object?
    ensures text + Encode(v) == (text + "{") + MembersLeft(SortMembers(NormMembers(v.members)), 0)
  {
    hide NormMembers, SortMembers, WriteMembers;
  }

  lemma {:induction false} NothingLeft(items: seq<Value>, members: seq<Member>)
    ensures ItemsLeft(items, |items|) == "]" && MembersLeft(members, |members|) == "}"
  {
  }
}
