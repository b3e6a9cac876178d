/**
 * One record of a log as bytes: json.Marshal of a Line and json.Unmarshal into one, with the repair of
 * output that is not UTF-8 and the escapes meant for HTML, and with them what a finished file reads back as.
 */
module LogCodec {
  import opened Wrappers
  import opened Backoff
  import opened Json
  import opened LogLines
  import opened LogSink
  import opened LogTail
  import opened Utf8
  import N = Numerals

  // ----- writing -----

  /** The u escape of a character of four hexadecimal digits. */
  function Hexed(c: char): string
    requires c as int < 0x1_0000
  {
    var n := c as int;
    ['\\', 'u', HEX[n / 4096], HEX[n / 256 % 16], HEX[n / 16 % 16], HEX[n % 16]]
  }

  /** What json.Marshal escapes beyond what JSON asks for. */
  predicate ForHtml(c: char) { c == '<' || c == '>' || c == '&' || c == '\U{2028}' || c == '\U{2029}' }

  function MarshalOne(r: Rune): string {
    if !r.valid then Hexed('\U{FFFD}')
    else
      match ShortEscape(r.c)
      case Some(letter) => ['\\', letter]
      case None => if r.c < ' ' || ForHtml(r.c) then Hexed(r.c) else [r.c]
  }

  function MarshalText(t: seq<Byte>): string {
    if |t| == 0 then "" else MarshalOne(First(t)) + MarshalText(t[First(t).size..])
  }

  /** One field of a record: its key, its text and the value that stands for. */
  datatype Field = Field(key: string, text: string, value: Value)

  function TextField(key: string, t: seq<Byte>): Field {
    Field(key, ['"'] + MarshalText(t) + ['"'], Words(Repair(t)))
  }

  function IntField(key: string, n: int): Field { Field(key, FormatInt(n), Number(n)) }

  /** omitempty. */
  function Unless(empty: bool, f: Field): seq<Field> { if empty then [] else [f] }

  function StreamName(s: Stream): string { match s case Stdout => "stdout" case Stderr => "stderr" case Pulseq => "pulseq" }

  function FieldsOf(l: Line): (fs: seq<Field>)
    ensures |fs| > 0
  {
    [IntField("ts", l.ts), TextField("stream", Utf8.Encode(StreamName(l.stream))), IntField("seq", l.no)]
    + Unless(l.text == [], TextField("line", l.text))
    + Unless(l.event == "", TextField("event", Utf8.Encode(l.event)))
    + Unless(!l.split, Field("split", "true", Flag(true)))
    + Unless(l.dropped == 0, IntField("dropped_bytes", l.dropped))
  }

  function FieldText(f: Field): string { Quoted(f.key) + ":" + f.text }

  /** The fields of a record, its closing brace and what comes after. */
  function Closed(fs: seq<Field>, rest: string): string
    requires |fs| > 0
  {
    FieldText(fs[0]) + if |fs| == 1 then "}" + rest else "," + Closed(fs[1..], rest)
  }

  function LineText(l: Line): string { "{" + Closed(FieldsOf(l), "") }

  /** json.Marshal of a record. */
  function Marshal(l: Line): seq<Byte> { Utf8.Encode(LineText(l)) }

  // ----- reading -----

  /** A record as the decoder fills it in. */
  datatype Record = Record(ts: int, stream: string, no: int, text: string, event: string, split: bool, dropped: int)

  const EMPTY := Record(0, "", 0, "", "", false, 0)

  /** One member into its field; null leaves the field as it is, and a key of no field says nothing. */
  function Set(rec: Record, m: Member): Option<Record> {
    if m.value.Null? then Some(rec)
    else if m.key == "ts" || m.key == "seq" || m.key == "dropped_bytes" then
      match m.value
      case Number(n) =>
        if !IsInt64(n) then None
        else Some(if m.key == "ts" then rec.(ts := n) else if m.key == "seq" then rec.(no := n) else rec.(dropped := n))
      case _ => None
    else if m.key == "stream" || m.key == "line" || m.key == "event" then
      match m.value
      case Words(s) =>
        Some(if m.key == "stream" then rec.(stream := s) else if m.key == "line" then rec.(text := s) else rec.(event := s))
      case _ => None
    else if m.key == "split" then
      match m.value case Flag(on) => Some(rec.(split := on)) case _ => None
    else Some(rec)
  }

  function SetAll(rec: Record, ms: seq<Member>): Option<Record>
    decreases |ms|
  {
    if |ms| == 0 then Some(rec)
    else match Set(rec, ms[0]) case None => None case Some(next) => SetAll(next, ms[1..])
  }

  /** json.Unmarshal into an empty record: one value, and nothing but white space around it. */
  function Unmarshal(raw: seq<Byte>): Option<Record> {
    match ReadValue(Skip(Repair(raw)))
    case None => None
    case Some(Read(v, rest)) =>
      if Skip(rest) != "" then None
      else
        match v
        case Object(ms) => SetAll(EMPTY, ms)
        case Null => Some(EMPTY)
        case _ => None
  }

  /** What a reader gets of a line: everything, its text repaired. */
  function RecordOf(l: Line): Record {
    Record(l.ts, StreamName(l.stream), l.no, Repair(l.text), l.event, l.split, l.dropped)
  }

  /** The numbers of a record are int64 in the program. */
  predicate Fits(l: Line) { IsInt64(l.ts) && IsInt64(l.no) && IsInt64(l.dropped) }

  // ----- strings -----

  lemma UnitOf(a: int, b: int, c: int, d: int, t: string)
    requires 0 <= a < 16 && 0 <= b < 16 && 0 <= c < 16 && 0 <= d < 16
    ensures Unit([HEX[a], HEX[b], HEX[c], HEX[d]] + t) == Some(a * 4096 + b * 256 + c * 16 + d)
  {
    HexBack(a);
    HexBack(b);
    HexBack(c);
    HexBack(d);
    hide HexDigit;
  }

  lemma HexedBack(c: char, t: string)
    requires c as int < 0x1_0000
    ensures Unescape(Hexed(c)[1..] + t) == Some(Read(c, t))
  {
    var n := c as int;
    var u := Hexed(c)[2..] + t;
    assert Hexed(c)[1..] + t == ['u'] + u && (['u'] + u)[1..] == u && u[4..] == t;
    assert u == [HEX[n / 4096], HEX[n / 256 % 16], HEX[n / 16 % 16], HEX[n % 16]] + t;
    UnitOf(n / 4096, n / 256 % 16, n / 16 % 16, n % 16, t);
    FourDigits(n);
    hide Unit, Hexed;
  }

  lemma FourDigits(n: int)
    requires 0 <= n < 0x1_0000
    ensures (n / 4096) * 4096 + (n / 256 % 16) * 256 + (n / 16 % 16) * 16 + n % 16 == n
    ensures 0 <= n / 4096 < 16
  {
    assert n == (n / 16) * 16 + n % 16 && n / 16 == (n / 256) * 16 + n / 16 % 16 && n / 256 == (n / 4096) * 16 + n / 256 % 16;
  }

  lemma EscapeReads(escape: string, c: char, t: string)
    requires Unescape(escape + t) == Some(Read(c, t))
    ensures Unquote("\\" + (escape + t)) == Prepend(c, Unquote(t))
  {
    hide Unescape;
    var whole := "\\" + (escape + t);
    assert whole[0] == '\\' && whole[1..] == escape + t;
  }

  lemma HexedReads(c: char, t: string)
    requires c as int < 0x1_0000
    ensures Unquote(Hexed(c) + t) == Prepend(c, Unquote(t))
  {
    var escape := Hexed(c)[1..];
    assert Hexed(c) + t == "\\" + (escape + t);
    HexedBack(c, t);
    hide Unquote, Unescape, Hexed;
    EscapeReads(escape, c, t);
  }

  lemma ShortReads(c: char, letter: char, t: string)
    requires ShortEscape(c) == Some(letter)
    ensures Unquote(['\\', letter] + t) == Prepend(c, Unquote(t))
  {
    assert ([letter] + t)[1..] == t;
    assert Unescape([letter] + t) == Some(Read(c, t));
    hide Unquote, Unescape, ShortEscape;
    assert ['\\', letter] + t == "\\" + ([letter] + t);
    EscapeReads([letter], c, t);
  }

  lemma MarshalsOne(r: Rune, t: string)
    requires !r.valid ==> r.c == '\U{FFFD}'
    ensures Unquote(MarshalOne(r) + t) == Prepend(r.c, Unquote(t))
  {
    if !r.valid || (ShortEscape(r.c).None? && (r.c < ' ' || ForHtml(r.c))) {
      HexedReads(r.c, t);
      hide Unquote, Hexed;
    } else if ShortEscape(r.c).Some? {
      ShortReads(r.c, ShortEscape(r.c).value, t);
      hide Unquote, ShortEscape;
    } else {
      var whole := [r.c] + t;
      assert whole[0] == r.c && whole[1..] == t;
    }
  }

  /** A string of any bytes reads back as its repair, whatever follows. */
  lemma {:induction false} TextBack(t: seq<Byte>, rest: string)
    ensures Unquote(MarshalText(t) + ['"'] + rest) == Some(Read(Repair(t), rest))
    decreases |t|
  {
    var end := ['"'] + rest;
    if |t| == 0 {
      assert MarshalText(t) + ['"'] + rest == end && end[1..] == rest;
    } else {
      var r := First(t);
      var more := MarshalText(t[r.size..]) + ['"'] + rest;
      TextBack(t[r.size..], rest);
      assert !r.valid ==> r.c == '\U{FFFD}';
      assert MarshalText(t) + ['"'] + rest == MarshalOne(r) + more;
      hide Unquote, MarshalOne, First;
      MarshalsOne(r, more);
    }
  }

  // ----- fields -----

  /** The text of a field reads back before whatever may follow a value. */
  ghost predicate Reads(f: Field) {
    && f.text != "" && !White(f.text[0])
    && forall rest :: Ends(rest) ==> ReadValue(f.text + rest) == Some(Read(f.value, rest))
  }

  lemma StringReads(s: string, text: string, rest: string)
    requires Unquote(s) == Some(Read(text, rest))
    ensures ReadValue(['"'] + s) == Some(Read(Words(text), rest))
  {
    hide Unquote;
    assert (['"'] + s)[1..] == s;
  }

  lemma TextReads(key: string, t: seq<Byte>)
    ensures Reads(TextField(key, t))
  {
    hide Unquote, MarshalText, Repair, ReadValue;
    var f := TextField(key, t);
    forall rest | Ends(rest) ensures ReadValue(f.text + rest) == Some(Read(f.value, rest)) {
      var s := MarshalText(t) + ['"'] + rest;
      TextBack(t, rest);
      StringReads(s, Repair(t), rest);
      assert f.text + rest == ['"'] + s;
    }
  }

  lemma PlainFieldReads(key: string, v: Value)
    requires v.Number? || v.Flag?
    ensures Reads(Field(key, Write(v), v))
  {
    Starts(v);
    forall rest | Ends(rest) ensures ReadValue(Write(v) + rest) == Some(Read(v, rest)) { PlainReads(v, rest); }
  }

  ghost predicate AllRead(fs: seq<Field>) { forall i :: 0 <= i < |fs| ==> Reads(fs[i]) }

  function MemberOf(f: Field): Member { Member(f.key, f.value) }

  function MembersOf(fs: seq<Field>): seq<Member> { seq(|fs|, i requires 0 <= i < |fs| => MemberOf(fs[i])) }

  lemma ReadsThen(f: Field, after: string)
    requires Reads(f) && Ends(after)
    ensures ReadValue(f.text + after) == Some(Read(f.value, after)) && f.text + after != "" && !White((f.text + after)[0])
  {
    hide ReadValue;
  }

  lemma FieldReads(f: Field, after: string)
    requires Reads(f) && Ends(after)
    ensures ReadMember(FieldText(f) + after) == Some(Read(MemberOf(f), after))
  {
    hide ReadValue, Reads, Quoted, ReadMember, Skip, Ends;
    var value := f.text + after;
    ReadsThen(f, after);
    Solid(value);
    Solid(":" + value);
    assert FieldText(f) + after == Quoted(f.key) + (":" + value);
    MemberGoes(FieldText(f) + after, f.key, ":" + value, value, f.value, after);
  }

  lemma FieldStarts(f: Field, after: string)
    ensures FieldText(f) + after != "" && (FieldText(f) + after)[0] == '"'
  {
  }

  lemma MembersAre(fs: seq<Field>)
    requires |fs| > 0
    ensures MembersOf(fs) == [MemberOf(fs[0])] + MembersOf(fs[1..])
    ensures |fs| == 1 ==> MembersOf(fs) == [MemberOf(fs[0])]
  {
    hide MemberOf;
  }

  lemma {:induction false} FieldsRead(fs: seq<Field>, rest: string)
    requires |fs| > 0 && AllRead(fs)
    ensures ReadMembers(Closed(fs, rest)) == Some(Read(MembersOf(fs), rest)) && Closed(fs, rest)[0] == '"'
    decreases |fs|
  {
    var f, more := fs[0], fs[1..];
    var stop := if |more| == 0 then "}" + rest else "," + Closed(more, rest);
    assert Closed(fs, rest) == FieldText(f) + stop;
    MembersAre(fs);
    FieldStarts(f, stop);
    hide ReadMembers, ReadMember, Closed, FieldText, MembersOf, Reads, MemberOf, Skip;
    FieldReads(f, stop);
    Solid(stop);
    if |more| == 0 {
      MembersLast(Closed(fs, rest), MemberOf(f), stop, rest);
    } else {
      FieldsRead(more, rest);
      Solid(Closed(more, rest));
      MembersMore(Closed(fs, rest), MemberOf(f), stop, Closed(more, rest), MembersOf(more), rest);
    }
  }

  lemma {:induction false} ClosedThen(fs: seq<Field>, rest: string)
    requires |fs| > 0
    ensures Closed(fs, "") + rest == Closed(fs, rest)
    decreases |fs|
  {
    hide FieldText;
    if |fs| > 1 { ClosedThen(fs[1..], rest); }
  }

  /** A text that starts with no white space. */
  lemma Solid(t: string)
    requires t != "" && !White(t[0])
    ensures Skip(t) == t
  {
    SkipsBlank("", t);
    assert "" + t == t;
  }

  lemma {:induction false} SetAppend(rec: Record, a: seq<Member>, b: seq<Member>)
    ensures SetAll(rec, a + b) == match SetAll(rec, a) case None => None case Some(next) => SetAll(next, b)
    decreases |a|
  {
    if |a| == 0 {
      assert a + b == b;
    } else {
      assert (a + b)[1..] == a[1..] + b;
      match Set(rec, a[0])
      case None =>
      case Some(next) => SetAppend(next, a[1..], b);
    }
  }

  /** Setting what is not left out because it is empty, over a field that is still empty. */
  lemma SetUnless(rec: Record, fs: seq<Field>, sofar: Record, empty: bool, f: Field, next: Record)
    requires SetAll(rec, MembersOf(fs)) == Some(sofar)
    requires if empty then next == sofar else Set(sofar, MemberOf(f)) == Some(next)
    ensures SetAll(rec, MembersOf(fs + Unless(empty, f))) == Some(next)
  {
    hide Set;
    assert MembersOf(fs + Unless(empty, f)) == MembersOf(fs) + MembersOf(Unless(empty, f));
    SetAppend(rec, MembersOf(fs), MembersOf(Unless(empty, f)));
    if !empty { assert MembersOf([f]) == [MemberOf(f)] && [MemberOf(f)][1..] == []; }
  }

  lemma NamesBack(l: Line)
    ensures Repair(Utf8.Encode(StreamName(l.stream))) == StreamName(l.stream) && Repair(Utf8.Encode(l.event)) == l.event
  {
    RepairOf(StreamName(l.stream));
    RepairOf(l.event);
  }

  function Head(l: Line): seq<Field> {
    [IntField("ts", l.ts), TextField("stream", Utf8.Encode(StreamName(l.stream))), IntField("seq", l.no)]
  }

  lemma HeadSets(l: Line)
    requires Fits(l)
    ensures SetAll(EMPTY, MembersOf(Head(l))) == Some(Started(l))
  {
    hide FormatInt, MarshalText, Repair, Utf8.Encode;
    NamesBack(l);
    var a, b, c := Member("ts", Number(l.ts)), Member("stream", Words(StreamName(l.stream))), Member("seq", Number(l.no));
    assert MembersOf(Head(l)) == [a, b, c];
    hide StreamName;
    var r1 := EMPTY.(ts := l.ts);
    var r2 := r1.(stream := StreamName(l.stream));
    assert Set(EMPTY, a) == Some(r1);
    assert Set(r1, b) == Some(r2);
    assert Set(r2, c) == Some(r2.(no := l.no));
    hide Set;
    var none: seq<Member> := [];
    assert [a, b, c][1..] == [b, c] && [b, c][1..] == [c] && [c][1..] == none;
    assert SetAll(r2, [c]) == SetAll(r2.(no := l.no), none);
    assert SetAll(r1, [b, c]) == SetAll(r2, [c]);
    assert SetAll(EMPTY, [a, b, c]) == SetAll(r1, [b, c]);
  }

  /** The record after the three fields that are always there. */
  function Started(l: Line): Record { Record(l.ts, StreamName(l.stream), l.no, "", "", false, 0) }

  lemma TextSets(l: Line, rec: Record)
    requires Fits(l)
    ensures Set(rec, MemberOf(TextField("line", l.text))) == Some(rec.(text := Repair(l.text)))
    ensures Set(rec, MemberOf(TextField("event", Utf8.Encode(l.event)))) == Some(rec.(event := l.event))
    ensures Set(rec, MemberOf(Field("split", "true", Flag(true)))) == Some(rec.(split := true))
    ensures Set(rec, MemberOf(IntField("dropped_bytes", l.dropped))) == Some(rec.(dropped := l.dropped))
  {
    hide FormatInt, MarshalText, Repair, Utf8.Encode;
    NamesBack(l);
  }

  lemma Accumulates(l: Line)
    ensures FieldsOf(l) == Head(l) + Unless(l.text == [], TextField("line", l.text))
      + Unless(l.event == "", TextField("event", Utf8.Encode(l.event))) + Unless(!l.split, Field("split", "true", Flag(true)))
      + Unless(l.dropped == 0, IntField("dropped_bytes", l.dropped))
  {
    hide IntField, TextField, Utf8.Encode, Unless, StreamName;
  }

  /** The fields of a line fill in its record. */
  lemma FieldsSet(l: Line)
    requires Fits(l)
    ensures SetAll(EMPTY, MembersOf(FieldsOf(l))) == Some(RecordOf(l))
  {
    var r0 := Started(l);
    var r1 := r0.(text := Repair(l.text));
    var r2 := r1.(event := l.event);
    var r3 := r2.(split := l.split);
    HeadSets(l);
    Accumulates(l);
    assert l.text == [] ==> r1 == r0;
    assert r3.(dropped := l.dropped) == RecordOf(l);
    TextSets(l, r0);
    TextSets(l, r1);
    TextSets(l, r2);
    TextSets(l, r3);
    hide *;
    var text, event := TextField("line", l.text), TextField("event", Utf8.Encode(l.event));
    var split, dropped := Field("split", "true", Flag(true)), IntField("dropped_bytes", l.dropped);
    var f0 := Head(l);
    SetUnless(EMPTY, f0, r0, l.text == [], text, r1);
    var f1 := f0 + Unless(l.text == [], text);
    SetUnless(EMPTY, f1, r1, l.event == "", event, r2);
    var f2 := f1 + Unless(l.event == "", event);
    SetUnless(EMPTY, f2, r2, !l.split, split, r3);
    var f3 := f2 + Unless(!l.split, split);
    SetUnless(EMPTY, f3, r3, l.dropped == 0, dropped, r3.(dropped := l.dropped));
  }

  lemma ReadUnless(fs: seq<Field>, empty: bool, f: Field)
    requires AllRead(fs) && Reads(f)
    ensures AllRead(fs + Unless(empty, f))
  {
    hide Reads;
  }

  lemma HeadReads(l: Line)
    ensures AllRead(Head(l))
  {
    PlainFieldReads("ts", Number(l.ts));
    PlainFieldReads("seq", Number(l.no));
    TextReads("stream", Utf8.Encode(StreamName(l.stream)));
    hide Reads, FormatInt, TextField, Utf8.Encode, StreamName;
  }

  lemma LineReads(l: Line)
    ensures AllRead(FieldsOf(l)) && |FieldsOf(l)| > 0
  {
    PlainFieldReads("dropped_bytes", Number(l.dropped));
    PlainFieldReads("split", Flag(true));
    TextReads("line", l.text);
    TextReads("event", Utf8.Encode(l.event));
    HeadReads(l);
    Accumulates(l);
    assert |Head(l)| > 0;
    hide Reads, FormatInt, TextField, Utf8.Encode, StreamName, AllRead, FieldsOf, Head, Unless;
    var f0 := Head(l);
    ReadUnless(f0, l.text == [], TextField("line", l.text));
    var f1 := f0 + Unless(l.text == [], TextField("line", l.text));
    ReadUnless(f1, l.event == "", TextField("event", Utf8.Encode(l.event)));
    var f2 := f1 + Unless(l.event == "", TextField("event", Utf8.Encode(l.event)));
    ReadUnless(f2, !l.split, Field("split", "true", Flag(true)));
    var f3 := f2 + Unless(!l.split, Field("split", "true", Flag(true)));
    ReadUnless(f3, l.dropped == 0, IntField("dropped_bytes", l.dropped));
  }

  // ----- no newline inside a record -----

  lemma {:induction false} TextIsOneLine(t: seq<Byte>)
    ensures '\n' !in MarshalText(t)
    decreases |t|
  {
    if |t| > 0 {
      TextIsOneLine(t[First(t).size..]);
      hide First;
      OneIsOneLine(First(t));
    }
  }

  lemma OneIsOneLine(r: Rune)
    ensures '\n' !in MarshalOne(r)
  {
    HexIsOneLine();
  }

  lemma HexIsOneLine()
    ensures forall d :: 0 <= d < 16 ==> HEX[d] != '\n'
  {
    forall d | 0 <= d < 16 ensures HEX[d] != '\n' { HexIsPlain(d); }
  }

  lemma {:induction false} DecimalIsOneLine(n: int)
    ensures '\n' !in FormatInt(n)
  {
    hide N.Decimal;
    var d := N.Decimal(if n < 0 then -n else n);
    assert forall i :: 0 <= i < |d| ==> N.Digit(d[i]);
  }

  lemma {:induction false} KeyIsOneLine(key: string)
    ensures '\n' !in Quoted(key)
  {
    forall i | 0 <= i < |Escaped(key)| ensures Escaped(key)[i] != '\n' { EscapesEverything(key, i); }
  }

  lemma {:induction false} FieldsAreOneLine(fs: seq<Field>)
    requires |fs| > 0 && forall i :: 0 <= i < |fs| ==> '\n' !in fs[i].text
    ensures '\n' !in Closed(fs, "")
    decreases |fs|
  {
    KeyIsOneLine(fs[0].key);
    if |fs| > 1 { FieldsAreOneLine(fs[1..]); }
    hide Quoted;
  }

  lemma LineIsOneLine(l: Line)
    ensures NEWLINE !in Marshal(l)
  {
    DecimalIsOneLine(l.ts);
    DecimalIsOneLine(l.no);
    DecimalIsOneLine(l.dropped);
    TextIsOneLine(Utf8.Encode(StreamName(l.stream)));
    TextIsOneLine(l.text);
    TextIsOneLine(Utf8.Encode(l.event));
    hide FormatInt, MarshalText, Repair, StreamName;
    FieldsAreOneLine(FieldsOf(l));
  }

  // ----- the round trip -----

  /** Every line the sink writes is decoded, and comes back with everything it had but for the repair of its text. */
  lemma LineBack(l: Line)
    requires Fits(l)
    ensures NEWLINE !in Marshal(l) && Unmarshal(Marshal(l) + [NEWLINE]) == Some(RecordOf(l))
  {
    hide Marshal, LineText, FieldsOf, MembersOf, Unmarshal, RecordOf, ReadValue, Skip, Repair, SetAll;
    LineIsOneLine(l);
    RepairWithNewline(l);
    ObjectReads(l, "\n");
    FieldsSet(l);
    OnlyNewline();
    UnmarshalIs(Marshal(l) + [NEWLINE], LineText(l) + "\n", MembersOf(FieldsOf(l)), "\n");
  }

  lemma OnlyNewline()
    ensures Skip("\n") == ""
  {
    SkipsBlank("\n", "");
    assert "\n" + "" == "\n";
  }

  lemma UnmarshalIs(raw: seq<Byte>, t: string, ms: seq<Member>, rest: string)
    requires Repair(raw) == t && t != "" && t[0] == '{' && ReadValue(t) == Some(Read(Object(ms), rest)) && Skip(rest) == ""
    ensures Unmarshal(raw) == SetAll(EMPTY, ms)
  {
    hide ReadValue, Skip, Repair, SetAll;
    Solid(t);
  }

  lemma ObjectReads(l: Line, end: string)
    ensures ReadValue(LineText(l) + end) == Some(Read(Object(MembersOf(FieldsOf(l))), end)) && (LineText(l) + end)[0] == '{'
  {
    var fs := FieldsOf(l);
    LineReads(l);
    ClosedThen(fs, end);
    var inside := Closed(fs, end);
    assert LineText(l) + end == "{" + inside;
    hide FieldsOf, Closed, ReadMembers, MembersOf, ReadValue, Skip, AllRead, LineText;
    FieldsRead(fs, end);
    Solid(inside);
    ObjectOpens("{" + inside, inside);
  }

  lemma RepairWithNewline(l: Line)
    ensures Repair(Marshal(l) + [NEWLINE]) == LineText(l) + "\n"
  {
    hide LineText, First;
    assert Utf8.Encode("\n") == [NEWLINE];
    EncodeAppend(LineText(l), "\n");
    RepairOf(LineText(l) + "\n");
  }

  /** The text of a line survives writing and reading exactly when it was UTF-8. */
  lemma TextSurvivesExactlyWhen(l: Line)
    requires Fits(l)
    ensures var read := Unmarshal(Marshal(l) + [NEWLINE]);
      read.Some? && (Utf8.Encode(read.value.text) == l.text <==> Utf8.Valid(l.text))
  {
    LineBack(l);
    UnchangedExactlyWhen(l.text);
  }

  /** Two texts no encoder of JSON can keep apart: the same record is written for both. */
  lemma TwoTextsOneRecord(l: Line)
    requires l.text == [0xFF]
    ensures Marshal(l) == Marshal(l.(text := [0xFE])) && l != l.(text := [0xFE])
  {
    var m := l.(text := [0xFE]);
    assert First(l.text) == BAD == First(m.text);
    var none: seq<Byte> := [];
    assert l.text[1..] == none == m.text[1..];
    assert MarshalText(l.text) == MarshalOne(BAD) + MarshalText(none) == MarshalText(m.text);
    assert Repair(l.text) == [BAD.c] + Repair(none) == Repair(m.text);
    hide MarshalText, Repair, First, FormatInt, StreamName;
  }

  // ----- a finished log -----

  /** Lines 1 to h, the marker's N + 1, then h + k + 1 to N: each as it was taken but for the repair of its text. */
  ghost predicate ReadBack(b: Books, marked: bool, read: seq<Record>) {
    && |read| == |b.file| && b.h <= |b.taken| && b.h <= |read|
    && (forall i :: 0 <= i < b.h ==> read[i] == RecordOf(b.taken[i].line) && read[i].no == i + 1)
    && (forall i :: b.h < i < |read| ==>
          i - 1 + b.k < |b.taken| && read[i] == RecordOf(b.taken[i - 1 + b.k].line) && read[i].no == i + b.k)
    && if marked
       then |read| == |b.taken| + 1 - b.k && b.h < |read| && read[b.h].event == "truncated" && read[b.h].no == |b.taken| + 1
       else |read| == b.h == |b.taken|
  }

  /** The reader of the program, for a caller that takes every record. */
  function ReaderOf(fragment: seq<Byte> -> Record, blank: seq<Byte> -> bool): Reader<Record> {
    Reader(Unmarshal, fragment, blank, (rec: Record) => true)
  }

  /** Whatever bytes the job wrote, a reader of its finished log gets the lines that are in it, and then is at its end. */
  lemma SealedReadsBack(b: Books, headLimit: int, limit: int, marker: Option<Encoded>,
                        fragment: seq<Byte> -> Record, blank: seq<Byte> -> bool)
    requires Sealed(b, headLimit, limit, Marshal, marker)
    requires forall i :: 0 <= i < |b.file| ==> Fits(b.file[i].line)
    ensures var p := Poll(ReaderOf(fragment, blank), Bytes(b.file));
      ReadBack(b, marker.Some?, p.given) && p.used == |Bytes(b.file)| && p.stop == Drained
  {
    hide *;
    SealedPlaces(b, headLimit, limit, Marshal, marker);
    AllRecovered(b.file, fragment, blank);
    FileReadsBack(ReaderOf(fragment, blank), b.file, RecordOf);
    PlacedReadBack(b, marker, LinesOf(b.file, RecordOf));
  }

  lemma AllRecovered(file: seq<Encoded>, fragment: seq<Byte> -> Record, blank: seq<Byte> -> bool)
    requires forall i :: 0 <= i < |file| ==> Fits(file[i].line) && file[i].bytes == Marshal(file[i].line) + [NEWLINE]
    ensures Recovers(ReaderOf(fragment, blank), file, RecordOf)
  {
    var r := ReaderOf(fragment, blank);
    hide Marshal, Unmarshal, Fits, RecordOf, IndexNewline;
    forall i | 0 <= i < |file| ensures Recovered(r, file[i], RecordOf(file[i].line)) {
      LineBack(file[i].line);
      OneNewline(Marshal(file[i].line));
    }
  }

  lemma PlacedReadBack(b: Books, marker: Option<Encoded>, read: seq<Record>)
    requires Placed(b, marker) && |read| == |b.file| && forall i :: 0 <= i < |read| ==> read[i] == RecordOf(b.file[i].line)
    ensures ReadBack(b, marker.Some?, read)
  {
    hide Repair, StreamName;
  }

  lemma OneNewline(s: seq<Byte>)
    requires NEWLINE !in s
    ensures IndexNewline(s + [NEWLINE]) == Some(|s|)
  {
    IndexIs(s + [NEWLINE], |s|);
  }
}
