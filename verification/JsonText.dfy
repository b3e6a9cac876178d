/**
 * What the two encoders put on the page, letter for letter: the escapes, the punctuation, the order of the
 * keys and the fields of a log record.
 */
module JsonText {
  import opened Wrappers
  import opened Text
  import N = Numerals
  import opened Json
  import opened Backoff
  import opened LogLines
  import opened LogSink
  import opened LogCodec
  import Utf8

  // ----- values -----

  /** Parts with a comma between any two, and no space. */
  function Joined(parts: seq<string>): string {
    if |parts| == 0 then "" else if |parts| == 1 then parts[0] else parts[0] + "," + Joined(parts[1..])
  }

  function ItemTexts(items: seq<Value>): (parts: seq<string>)
    ensures |parts| == |items| && forall i :: 0 <= i < |items| ==> parts[i] == Write(items[i])
  {
    seq(|items|, i requires 0 <= i < |items| => Write(items[i]))
  }

  function MemberTexts(ms: seq<Member>): (parts: seq<string>)
    ensures |parts| == |ms| && forall i :: 0 <= i < |ms| ==> parts[i] == "\"" + Escaped(ms[i].key) + "\":" + Write(ms[i].value)
  {
    seq(|ms|, i requires 0 <= i < |ms| => "\"" + Escaped(ms[i].key) + "\":" + Write(ms[i].value))
  }

  /** The decimal digits of a number, without leading zeros. */
  ghost predicate IsDecimal(d: string, n: nat) { N.AllDigits(d) && N.Value(d) == n && d != "" && (d[0] == '0' ==> d == "0") }

  function Abs(n: int): nat { if n < 0 then -n else n }

  ghost predicate IsNumber(t: string, n: int) { exists d :: IsDecimal(d, Abs(n)) && t == (if n < 0 then "-" else "") + d }

  /** Every value is written by the grammar of RFC 8259 with nothing between its tokens. */
  lemma WrittenExactly(v: Value)
    ensures match v
      case Words(s) => Write(v) == "\"" + Escaped(s) + "\""
      case Number(n) => IsNumber(Write(v), n)
      case Cut(n) => Write(v) == Write(Number(n)) + ".0"
      case Flag(on) => Write(v) == (if on then "true" else "false")
      case Null => Write(v) == "null"
      case Array(items) => Write(v) == "[" + Joined(ItemTexts(items)) + "]"
      case Object(ms) => Write(v) == "{" + Joined(MemberTexts(ms)) + "}"
  {
    match v
    case Number(n) =>
      var d := N.Decimal(Abs(n));
      assert IsDecimal(d, Abs(n));
      assert "" + d == d;
    case Array(items) => ItemsWritten(items);
    case Object(ms) => MembersWritten(ms);
    case _ =>
  }

  lemma {:induction false} ItemsWritten(items: seq<Value>)
    ensures WriteItems(items) == Joined(ItemTexts(items))
    ensures |items| > 0 ==> WriteMoreItems(items) == "," + Joined(ItemTexts(items))
    decreases |items|
  {
    if |items| > 0 {
      ItemsWritten(items[1..]);
      assert ItemTexts(items)[1..] == ItemTexts(items[1..]);
      hide Write;
    }
  }

  lemma {:induction false} MembersWritten(ms: seq<Member>)
    ensures WriteMembers(ms) == Joined(MemberTexts(ms))
    ensures |ms| > 0 ==> WriteMoreMembers(ms) == "," + Joined(MemberTexts(ms))
    decreases |ms|
  {
    if |ms| > 0 {
      MembersWritten(ms[1..]);
      OneMemberWritten(ms);
      hide Write, WriteMember, Escaped, MemberTexts;
    }
  }

  lemma OneMemberWritten(ms: seq<Member>)
    requires |ms| > 0
    ensures WriteMember(ms[0]) == MemberTexts(ms)[0] && MemberTexts(ms)[1..] == MemberTexts(ms[1..])
  {
    hide Write, Escaped;
    var key, text := Escaped(ms[0].key), Write(ms[0].value);
    assert ['"'] + key + ['"'] + ":" + text == "\"" + key + "\":" + text;
  }

  // ----- strings -----

  /** A character of a string: seven have an escape of one letter, the other controls one of four digits, the rest stand as they are. */
  lemma EscapedExactly(c: char)
    ensures Escaped([c]) ==
      if c == '"' then "\\\"" else if c == '\\' then "\\\\" else if c == '\n' then "\\n" else if c == '\r' then "\\r"
      else if c == '\t' then "\\t" else if c == '\U{08}' then "\\b" else if c == '\U{0C}' then "\\f"
      else if c < '\U{10}' then "\\u000" + [Hex(c as int)] else if c < ' ' then "\\u001" + [Hex(c as int - 16)]
      else [c]
  {
    assert [c][1..] == "";
    assert Escaped([c]) == EscapeOne(c) + "";
    assert HEX[0] == '0' && HEX[1] == '1';
    if c < ' ' { HexIs(c as int % 16); }
  }

  function Hex(d: int): char
    requires 0 <= d < 16
  {
    if d < 10 then ('0' as int + d) as char else ('a' as int + d - 10) as char
  }

  lemma HexIs(d: int)
    requires 0 <= d < 16
    ensures HEX[d] == Hex(d)
  {
  }

  /** And a string is escaped character by character. */
  lemma {:induction false} EscapedInOrder(s: string, t: string)
    ensures Escaped("") == "" && Escaped(s + t) == Escaped(s) + Escaped(t)
    decreases |s|
  {
    if |s| == 0 {
      assert s + t == t;
    } else {
      EscapedInOrder(s[1..], t);
      assert (s + t)[1..] == s[1..] + t;
      hide EscapeOne;
    }
  }

  predicate PlainText(s: string) { forall i :: 0 <= i < |s| ==> s[i] >= ' ' && s[i] != '"' && s[i] != '\\' }

  lemma {:induction false} PlainStays(s: string)
    requires PlainText(s)
    ensures Quoted(s) == "\"" + s + "\"" && Escaped(s) == s
    decreases |s|
  {
    if |s| > 0 {
      PlainStays(s[1..]);
      assert EscapeOne(s[0]) == [s[0]];
    }
  }

  // ----- the order of keys -----

  /** By the first character that differs, and a text before what extends it. */
  ghost predicate Before(a: string, b: string) {
    || (|a| < |b| && b[..|a|] == a)
    || (exists k: nat :: k < |a| && k < |b| && a[..k] == b[..k] && a[k] < b[k])
  }

  lemma {:induction false} LessExactly(a: string, b: string)
    ensures Less(a, b) <==> Before(a, b)
    decreases |a|
  {
    forall k: nat | 0 < k < |a| && k < |b| && a[..k] == b[..k] ensures a[0] == b[0] { SameStart(a, b, k); }
    if 0 < |a| < |b| && b[..|a|] == a { assert b[..|a|][0] == b[0]; }
    if |a| > 0 && |b| > 0 {
      if a[0] == b[0] {
        LessExactly(a[1..], b[1..]);
        LessRest(a, b);
      } else if a[0] < b[0] {
        assert a[..0] == b[..0];
      }
    }
  }

  lemma SameStart(a: string, b: string, k: nat)
    requires 0 < k <= |a| && k <= |b| && a[..k] == b[..k]
    ensures a[0] == b[0]
  {
    assert a[..k][0] == a[0];
  }

  lemma LessRest(a: string, b: string)
    requires |a| > 0 && |b| > 0 && a[0] == b[0]
    ensures Before(a, b) <==> Before(a[1..], b[1..])
  {
    var x, y := a[1..], b[1..];
    if |x| < |y| && y[..|x|] == x {
      assert b[..|a|] == [b[0]] + y[..|x|] && a == [a[0]] + x;
    } else if Before(x, y) {
      var k: nat :| k < |x| && k < |y| && x[..k] == y[..k] && x[k] < y[k];
      assert a[..k + 1] == [a[0]] + x[..k] && b[..k + 1] == [b[0]] + y[..k];
      assert a[k + 1] < b[k + 1];
    }
    if |a| < |b| && b[..|a|] == a {
      assert y[..|x|] == b[..|a|][1..];
    } else if Before(a, b) {
      var k: nat :| k < |a| && k < |b| && a[..k] == b[..k] && a[k] < b[k];
      var j: nat := k - 1;
      assert x[..j] == a[..k][1..] && y[..j] == b[..k][1..];
      assert x[j] < y[j];
    }
  }

  /** The members of every object stand in the order of their keys. */
  ghost predicate SortedDeep(v: Value)
    decreases v
  {
    match v
    case Array(items) => forall i :: 0 <= i < |items| ==> SortedDeep(items[i])
    case Object(ms) => KeysOrdered(ms) && forall i :: 0 <= i < |ms| ==> SortedDeep(ms[i].value)
    case _ => true
  }

  lemma {:induction false} NormIsSorted(v: Value)
    ensures SortedDeep(Norm(v))
    decreases v
  {
    match v
    case Array(items) =>
      forall i | 0 <= i < |items| ensures SortedDeep(NormItems(items)[i]) { NormIsSorted(items[i]); }
    case Object(ms) =>
      var sorted := SortMembers(NormMembers(ms));
      forall i | 0 <= i < |sorted| ensures SortedDeep(sorted[i].value) {
        assert sorted[i] in multiset(NormMembers(ms));
        var j :| 0 <= j < |ms| && NormMembers(ms)[j] == sorted[i];
        NormIsSorted(ms[j].value);
      }
    case _ =>
  }

  // ----- the record of a line -----

  function StreamText(s: Stream): string { match s case Stdout => "stdout" case Stderr => "stderr" case Pulseq => "pulseq" }

  function Keyed(key: string, text: string): string { "\"" + key + "\":" + text }

  function Between(text: string): string { "\"" + text + "\"" }

  /** The fields of a record: three always, four unless they are empty. */
  function RecordParts(l: Line): seq<string> {
    [Keyed("ts", Write(Number(l.ts))), Keyed("stream", Between(StreamText(l.stream))), Keyed("seq", Write(Number(l.no)))]
    + (if l.text == [] then [] else [Keyed("line", Between(MarshalText(l.text)))])
    + (if l.event == "" then [] else [Keyed("event", Between(MarshalText(Utf8.Encode(l.event))))])
    + (if l.split then [Keyed("split", "true")] else [])
    + (if l.dropped == 0 then [] else [Keyed("dropped_bytes", Write(Number(l.dropped)))])
  }

  function FieldTexts(fs: seq<Field>): (ts: seq<string>)
    ensures |ts| == |fs| && forall i :: 0 <= i < |fs| ==> ts[i] == FieldText(fs[i])
  {
    seq(|fs|, i requires 0 <= i < |fs| => FieldText(fs[i]))
  }

  lemma {:induction false} ClosedIs(fs: seq<Field>)
    requires |fs| > 0
    ensures Closed(fs, "") == Joined(FieldTexts(fs)) + "}"
    decreases |fs|
  {
    hide FieldText;
    if |fs| > 1 {
      ClosedIs(fs[1..]);
      assert FieldTexts(fs)[1..] == FieldTexts(fs[1..]);
    }
  }

  lemma KeyWritten(f: Field)
    requires PlainText(f.key)
    ensures FieldText(f) == Keyed(f.key, f.text)
  {
    PlainStays(f.key);
    assert "\"" + f.key + "\"" + ":" + f.text == Keyed(f.key, f.text);
  }

  lemma StreamIs(s: Stream)
    ensures MarshalText(Utf8.Encode(StreamName(s))) == StreamText(s)
  {
    var name := StreamName(s);
    assert forall i :: 0 <= i < |name| ==> 'a' <= name[i] <= 'z';
    LettersStay(name);
  }

  lemma {:induction false} LettersStay(s: string)
    requires forall i :: 0 <= i < |s| ==> 'a' <= s[i] <= 'z'
    ensures MarshalText(Utf8.Encode(s)) == s
    decreases |s|
  {
    if |s| > 0 {
      var rest := Utf8.Encode(s[1..]);
      LettersStay(s[1..]);
      OneLetter(s[0]);
      Utf8.FirstOfOne(s[0], rest);
      hide Utf8.EncodeOne, Utf8.First, MarshalOne;
      assert Utf8.Encode(s)[1..] == rest;
    }
  }

  lemma OneLetter(c: char)
    requires 'a' <= c <= 'z'
    ensures |Utf8.EncodeOne(c)| == 1 && MarshalOne(Utf8.Rune(c, 1, true)) == [c]
  {
  }

  lemma TextIs(key: string, t: seq<Byte>)
    ensures TextField(key, t).text == Between(MarshalText(t)) && TextField(key, t).key == key
  {
    hide MarshalText, Utf8.Repair;
  }

  /** A record is one object of those fields, with nothing between its tokens. */
  lemma RecordWritten(l: Line)
    ensures LineText(l) == "{" + Joined(RecordParts(l)) + "}"
  {
    StreamIs(l.stream);
    ClosedIs(FieldsOf(l));
    hide FieldText, MarshalText, Write, Utf8.Encode, StreamText, Closed, Joined, StreamName;
    PartsAre(l);
  }

  lemma PartsAre(l: Line)
    requires MarshalText(Utf8.Encode(StreamName(l.stream))) == StreamText(l.stream)
    ensures FieldTexts(FieldsOf(l)) == RecordParts(l)
  {
    TextIs("stream", Utf8.Encode(StreamName(l.stream)));
    TextIs("line", l.text);
    TextIs("event", Utf8.Encode(l.event));
    NumberIs(l.ts);
    NumberIs(l.no);
    NumberIs(l.dropped);
    hide FieldText, MarshalText, Write, Utf8.Encode, StreamText, StreamName, FormatInt, TextField, Keyed, Between;
    PlainKeys(l);
    var fs := FieldsOf(l);
    forall i | 0 <= i < |fs| ensures FieldText(fs[i]) == Keyed(fs[i].key, fs[i].text) { KeyWritten(fs[i]); }
  }

  lemma PlainKeys(l: Line)
    ensures forall i :: 0 <= i < |FieldsOf(l)| ==> PlainText(FieldsOf(l)[i].key)
  {
    hide FieldText, MarshalText, Utf8.Encode, StreamName, FormatInt, PlainText;
    TextIs("stream", Utf8.Encode(StreamName(l.stream)));
    TextIs("line", l.text);
    TextIs("event", Utf8.Encode(l.event));
    hide TextField;
    AreKeys();
  }

  lemma AreKeys()
    ensures PlainText("ts") && PlainText("stream") && PlainText("seq") && PlainText("line") && PlainText("event") && PlainText("split")
    ensures PlainText("dropped_bytes")
  {
  }

  lemma NumberIs(n: int)
    ensures Write(Number(n)) == FormatInt(n)
  {
    hide FormatInt;
  }

  /**
   * A byte in a log's text: JSON's own escapes, four digits for the controls and for the three signs HTML reads,
   * else itself; a byte that belongs to no character is written as the escape of U+FFFD.
   */
  lemma MarshalledExactly(b: Byte)
    ensures MarshalText([b]) ==
      if b >= 0x80 then "\\ufffd"
      else if b == '<' as Byte || b == '>' as Byte || b == '&' as Byte || (b < 0x20 && b != 8 && b != 9 && b != 10 && b != 12 && b != 13)
      then "\\u00" + [Hex(b as int / 16), Hex(b as int % 16)]
      else Escaped([b as char])
  {
    hide MarshalOne, Utf8.First;
    OneByte(b);
    assert [b][1..] == [];
    if b >= 0x80 {
      HexedIs('\U{FFFD}', 15, 15, 15, 13);
      Replaced();
    } else {
      AsciiOne(b as char);
    }
  }

  lemma OneByte(b: Byte)
    ensures Utf8.First([b]) == if b < 0x80 then Utf8.Rune(b as char, 1, true) else Utf8.BAD
  {
  }

  lemma Replaced()
    ensures MarshalOne(Utf8.BAD) == Hexed('\U{FFFD}')
  {
    hide Hexed;
  }

  /** The escape of a character by its four digits. */
  lemma HexedIs(c: char, p: int, q: int, r: int, s: int)
    requires 0 <= p < 16 && 0 <= q < 16 && 0 <= r < 16 && 0 <= s < 16 && c as int == p * 4096 + q * 256 + r * 16 + s
    ensures Hexed(c) == "\\u" + [Hex(p), Hex(q), Hex(r), Hex(s)]
  {
    DigitsOf(c as int, p, q, r, s);
    HexIs(p);
    HexIs(q);
    HexIs(r);
    HexIs(s);
    hide Hex;
  }

  lemma DigitsOf(n: nat, p: nat, q: nat, r: nat, s: nat)
    requires q < 16 && r < 16 && s < 16 && n == p * 4096 + q * 256 + r * 16 + s
    ensures n / 4096 == p && n / 256 % 16 == q && n / 16 % 16 == r && n % 16 == s
  {
    assert n / 16 == p * 256 + q * 16 + r && n / 256 == p * 16 + q;
  }

  lemma AsciiOne(c: char)
    requires c < '\U{80}'
    ensures MarshalOne(Utf8.Rune(c, 1, true)) ==
      if c == '<' || c == '>' || c == '&' || (c < ' ' && c != '\U{08}' && c != '\t' && c != '\n' && c != '\U{0C}' && c != '\r')
      then "\\u00" + [Hex(c as int / 16), Hex(c as int % 16)]
      else Escaped([c])
  {
    EscapedExactly(c);
    HexedIs(c, 0, 0, c as int / 16, c as int % 16);
    hide Hexed, Escaped, Hex;
  }

  /** Any other character of it stands as it is, but for the two separators that end a line of script. */
  lemma WideExactly(c: char, t: seq<Byte>)
    requires c >= '\U{80}'
    ensures MarshalText(Utf8.EncodeOne(c) + t) ==
      (if c == '\U{2028}' then "\\u2028" else if c == '\U{2029}' then "\\u2029" else [c]) + MarshalText(t)
  {
    Utf8.FirstOfOne(c, t);
    var e := Utf8.EncodeOne(c);
    assert (e + t)[|e|..] == t;
    WideOne(c, |e|);
    hide Utf8.First, Utf8.EncodeOne, MarshalOne;
  }

  lemma WideOne(c: char, n: nat)
    requires c >= '\U{80}'
    ensures MarshalOne(Utf8.Rune(c, n, true)) ==
      if c == '\U{2028}' then "\\u2028" else if c == '\U{2029}' then "\\u2029" else [c]
  {
    if c == '\U{2028}' || c == '\U{2029}' { HexedIs(c, 2, 0, 2, if c == '\U{2028}' then 8 else 9); }
    hide Hexed;
  }

  /** And what the decoder makes of each key; it passes over any other. */
  lemma KeysSet(rec: Record, n: int, s: string, on: bool, other: string, v: Value)
    requires IsInt64(n)
    requires other !in ["ts", "stream", "seq", "line", "event", "split", "dropped_bytes"]
    ensures Set(rec, Member("ts", Number(n))) == Some(rec.(ts := n)) && Set(rec, Member("seq", Number(n))) == Some(rec.(no := n))
    ensures Set(rec, Member("dropped_bytes", Number(n))) == Some(rec.(dropped := n))
    ensures Set(rec, Member("stream", Words(s))) == Some(rec.(stream := s)) && Set(rec, Member("line", Words(s))) == Some(rec.(text := s))
    ensures Set(rec, Member("event", Words(s))) == Some(rec.(event := s)) && Set(rec, Member("split", Flag(on))) == Some(rec.(split := on))
    ensures Set(rec, Member(other, v)) == Some(rec)
  {
  }

  /** Bytes that are no value, or more than one, are no record; an object of no members and null are the record of nothing. */
  lemma RecordsRead(raw: seq<Byte>)
    ensures match ReadValue(Skip(Utf8.Repair(raw)))
      case None => Unmarshal(raw) == None
      case Some(Read(v, rest)) =>
        && (Skip(rest) != "" ==> Unmarshal(raw) == None)
        && (Skip(rest) == "" && (v == Null || v == Object([])) ==> Unmarshal(raw) == Some(Record(0, "", 0, "", "", false, 0)))
        && (v != Null && !v.Object? ==> Unmarshal(raw) == None)
  {
    hide ReadValue, Skip, Utf8.Repair;
  }
}
