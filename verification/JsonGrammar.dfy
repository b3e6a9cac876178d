/**
 * What the decoder accepts, and as what: exactly the texts of RFC 8259. A spelling is a parse of a text; every
 * spelling is read as the value it stands for, and whatever is read is a spelling.
 */
module JsonGrammar {
  import opened Wrappers
  import opened Json
  import N = Numerals

  // ----- spellings -----

  /** Of a string its escaped body and what that says; of a number its parts; of a list and an object their gaps too. */
  datatype Spelling =
    | Quote(body: string, words: string)
    | Figure(minus: bool, digits: string, fraction: string, mark: string, exponent: string)
    | Name(value: Value)
    | List(gap: string, items: Items)
    | Record(gap: string, members: Pairs)

  datatype Items = NoItem | Item(before: string, value: Spelling, after: string, more: Items)

  datatype Pairs = NoPair | Pair(before: string, body: string, key: string, colon: string, gap: string, value: Spelling, after: string, more: Pairs)

  /** A fraction and an exponent, each left out when it has no digits. */
  function Tail(fraction: string, mark: string, exponent: string): string { Point(fraction) + Power(mark, exponent) }

  function Point(fraction: string): string { if fraction == "" then "" else "." + fraction }

  function Power(mark: string, exponent: string): string { if exponent == "" then "" else mark + exponent }

  /** The text of a spelling, and what follows it. */
  function Spell(sp: Spelling, rest: string): string
    decreases sp
  {
    match sp
    case Quote(body, _) => "\"" + (body + ("\"" + rest))
    case Figure(minus, digits, fraction, mark, exponent) =>
      var t := digits + (Tail(fraction, mark, exponent) + rest);
      if minus then "-" + t else t
    case Name(v) => Write(v) + rest
    case List(gap, items) => "[" + (if items.NoItem? then gap + ("]" + rest) else SpellItems(items, rest))
    case Record(gap, members) => "{" + (if members.NoPair? then gap + ("}" + rest) else SpellPairs(members, rest))
  }

  function SpellItems(items: Items, rest: string): string
    decreases items
  {
    match items
    case NoItem => ""
    case Item(before, value, after, more) => before + Spell(value, after + (if more.NoItem? then "]" + rest else "," + SpellItems(more, rest)))
  }

  function SpellPairs(pairs: Pairs, rest: string): string
    decreases pairs
  {
    match pairs
    case NoPair => ""
    case Pair(before, body, _, colon, gap, value, after, more) =>
      before + ("\"" + (body + ("\"" + (colon + (":" + (gap + Spell(value, after + (if more.NoPair? then "}" + rest else "," + SpellPairs(more, rest)))))))))
  }

  /** The value it stands for. */
  function ValueOf(sp: Spelling): Value
    requires Legal(sp)
    decreases sp
  {
    match sp
    case Quote(_, words) => Words(words)
    case Figure(minus, digits, fraction, _, exponent) =>
      var n := if minus then 0 - N.Value(digits) else N.Value(digits);
      if fraction == "" && exponent == "" then Number(n) else Cut(n)
    case Name(v) => v
    case List(_, items) => Array(ValuesOf(items))
    case Record(_, members) => Object(MembersOf(members))
  }

  function ValuesOf(items: Items): seq<Value>
    requires LegalItems(items)
    decreases items
  {
    match items case NoItem => [] case Item(_, value, _, more) => [ValueOf(value)] + ValuesOf(more)
  }

  function MembersOf(pairs: Pairs): seq<Member>
    requires LegalPairs(pairs)
    decreases pairs
  {
    match pairs case NoPair => [] case Pair(_, _, key, _, _, value, _, more) => [Member(key, ValueOf(value))] + MembersOf(more)
  }

  /** The body of a string says these words. */
  predicate Says(body: string, words: string) { Unquote(body + "\"") == Some(Read(words, "")) }

  predicate Legal(sp: Spelling)
    decreases sp
  {
    match sp
    case Quote(body, words) => Says(body, words)
    case Figure(_, digits, fraction, mark, exponent) =>
      && digits != "" && N.AllDigits(digits) && (digits[0] == '0' ==> digits == "0")
      && N.AllDigits(fraction) && N.AllDigits(exponent)
      && IsMark(mark)
    case Name(v) => v.Flag? || v.Null?
    case List(gap, items) => AllBlank(gap) && LegalItems(items)
    case Record(gap, members) => AllBlank(gap) && LegalPairs(members)
  }

  predicate IsMark(mark: string) { mark == "e" || mark == "E" || mark == "e+" || mark == "E+" || mark == "e-" || mark == "E-" }

  predicate LegalItems(items: Items)
    decreases items
  {
    match items case NoItem => true case Item(before, value, after, more) => AllBlank(before) && Legal(value) && AllBlank(after) && LegalItems(more)
  }

  predicate LegalPairs(pairs: Pairs)
    decreases pairs
  {
    match pairs
    case NoPair => true
    case Pair(before, body, key, colon, gap, value, after, more) =>
      AllBlank(before) && Says(body, key) && AllBlank(colon) && AllBlank(gap) && Legal(value) && AllBlank(after) && LegalPairs(more)
  }

  predicate AllBlank(gap: string) { forall i :: 0 <= i < |gap| ==> gap[i] == ' ' || gap[i] == '\t' || gap[i] == '\n' || gap[i] == '\r' }

  // ----- strings -----

  lemma UnitLocal(x: string, y: string)
    requires |x| >= 4
    ensures Unit(x + y) == Unit(x)
  {
    hide HexDigit;
    assert forall i :: 0 <= i < 4 ==> (x + y)[i] == x[i];
  }

  /** A digit of four, in either case; nothing else is one. */
  lemma HexReads(c: char, d: int)
    ensures HexDigit(c) == Some(d) <==> 0 <= d < 16 && (c == "0123456789abcdef"[d] || c == "0123456789ABCDEF"[d])
  {
    if 0 <= d < 16 {
      var small, large := "0123456789abcdef"[d], "0123456789ABCDEF"[d];
      assert small as int == if d < 10 then '0' as int + d else 'a' as int + d - 10;
      assert large as int == if d < 10 then '0' as int + d else 'A' as int + d - 10;
    }
  }

  lemma UnitReads(a: char, b: char, c: char, d: char, rest: string, p: int, q: int, r: int, s: int)
    requires HexDigit(a) == Some(p) && HexDigit(b) == Some(q) && HexDigit(c) == Some(r) && HexDigit(d) == Some(s)
    ensures Unit([a, b, c, d] + rest) == Some(((p * 16 + q) * 16 + r) * 16 + s)
  {
    hide HexDigit;
  }

  predicate Escapes(r: string) { |r| >= 2 && r[0] == '\\' && r[1] == 'u' }

  /** Where a string goes on with another escape of four digits, all of it is there. */
  lemma LookInside(inside: string, rest: string)
    requires Unquote(inside).Some?
    ensures Escapes(inside) <==> Escapes(inside + rest)
    ensures Escapes(inside) ==> Unit(inside[2..]).Some? && Unit((inside + rest)[2..]) == Unit(inside[2..])
  {
    hide Unit;
    assert |inside| > 0 && (inside + rest)[0] == inside[0];
    if inside[0] == '\\' {
      assert Unescape(inside[1..]).Some?;
      assert (inside + rest)[1] == inside[1];
      if inside[1] == 'u' {
        assert inside[1..][1..] == inside[2..] && (inside + rest)[2..] == inside[2..] + rest;
        assert Unit(inside[2..]).Some?;
        UnitLocal(inside[2..], rest);
      }
    }
  }

  /** The four digits after a u, and what is looked at behind them. */
  lemma UnicodeIs(t: string)
    ensures match Unit(t)
      case None => Unicode(t) == None
      case Some(u) =>
        |t| >= 4 &&
        var r := t[4..];
        Unicode(t) ==
          if !HighHalf(u) && !LowHalf(u) then Some(Read(u as char, r))
          else if HighHalf(u) && Escapes(r) && Unit(r[2..]).Some? && LowHalf(Unit(r[2..]).value)
          then Some(Read((0x1_0000 + (u - 0xD800) * 0x400 + (Unit(r[2..]).value - 0xDC00)) as char, r[6..]))
          else Some(Read('\U{FFFD}', r))
  {
    hide Unit;
  }

  lemma UnicodeAlike(x: string, c: char, inside: string, rest: string)
    requires Unquote(inside).Some?
    ensures Unicode(x + inside) == Some(Read(c, inside)) <==> Unicode(x + (inside + rest)) == Some(Read(c, inside + rest))
  {
    var s, t := x + inside, x + (inside + rest);
    UnicodeIs(s);
    UnicodeIs(t);
    LookInside(inside, rest);
    hide Unicode, Unquote, Unit, Escapes, HighHalf, LowHalf;
    if |x| == 4 {
      UnitLocal(x, inside);
      UnitLocal(x, inside + rest);
      assert s[4..] == inside && t[4..] == inside + rest;
    } else if |x| == 10 {
      TenAlike(x, inside, inside + rest);
    } else {
      NotThere(x, c, inside);
      NotThere(x, c, inside + rest);
    }
  }

  lemma NotThere(x: string, c: char, after: string)
    requires |x| != 4 && |x| != 10
    ensures Unicode(x + after) != Some(Read(c, after))
  {
    UnicodeIs(x + after);
    hide Unicode, Unit, HighHalf, LowHalf;
    var t := x + after;
    if |t| >= 4 { assert |t[4..]| == |x| + |after| - 4; }
  }

  lemma TenAlike(x: string, a: string, b: string)
    requires |x| == 10
    ensures forall c :: Unicode(x + a) == Some(Read(c, a)) <==> Unicode(x + b) == Some(Read(c, b))
  {
    UnicodeIs(x + a);
    UnicodeIs(x + b);
    UnitLocal(x, a);
    UnitLocal(x, b);
    var y := x[4..];
    assert (x + a)[4..] == y + a && (x + b)[4..] == y + b;
    assert (y + a)[2..] == y[2..] + a && (y + b)[2..] == y[2..] + b;
    UnitLocal(y[2..], a);
    UnitLocal(y[2..], b);
    assert (y + a)[6..] == a && (y + b)[6..] == b;
    assert Escapes(y + a) == Escapes(y) == Escapes(y + b);
    hide Unicode, Unit, Escapes, HighHalf, LowHalf;
  }

  lemma OnlyNothing(x: string, a: string)
    ensures x + a == a <==> x == ""
  {
    if x == "" { assert x + a == a; } else { assert |x + a| > |a|; }
  }

  /** What a letter after a backslash stands for. */
  function Letter(c: char): Option<char> {
    if c == '"' || c == '\\' || c == '/' then Some(c)
    else if c == 'b' then Some('\U{08}') else if c == 'f' then Some('\U{0C}') else if c == 'n' then Some('\n')
    else if c == 'r' then Some('\r') else if c == 't' then Some('\t') else None
  }

  lemma UnescapeIs(t: string)
    ensures Unescape(t) ==
      if t == "" then None
      else if Letter(t[0]).Some? then Some(Read(Letter(t[0]).value, t[1..]))
      else if t[0] == 'u' then Unicode(t[1..])
      else None
  {
    hide Unicode;
  }

  /** What an escape is does not depend on what follows the string it stands in. */
  lemma UnescapeAlike(e: string, c: char, inside: string, rest: string)
    requires |e| > 0 && Unquote(inside).Some?
    ensures Unescape(e + inside) == Some(Read(c, inside)) <==> Unescape(e + (inside + rest)) == Some(Read(c, inside + rest))
  {
    UnicodeAlike(e[1..], c, inside, rest);
    hide *;
    UnescapeOne(e, c, inside);
    UnescapeOne(e, c, inside + rest);
  }

  lemma UnescapeOne(e: string, c: char, t: string)
    requires |e| > 0
    ensures Unescape(e + t) == Some(Read(c, t)) <==>
      if Letter(e[0]).Some? then Letter(e[0]) == Some(c) && e[1..] == "" else e[0] == 'u' && Unicode(e[1..] + t) == Some(Read(c, t))
  {
    UnescapeIs(e + t);
    hide *;
    assert (e + t)[0] == e[0] && (e + t)[1..] == e[1..] + t;
    OnlyNothing(e[1..], t);
  }

  /** One character of a string, or the end of it. */
  lemma UnquoteIs(t: string)
    ensures Unquote(t) ==
      if t == "" || t[0] < ' ' then None
      else if t[0] == '"' then Some(Read("", t[1..]))
      else if t[0] == '\\' then
        (match Unescape(t[1..]) case None => None case Some(Read(c, rest)) => Prepend(c, Unquote(rest)))
      else Prepend(t[0], Unquote(t[1..]))
  {
    hide Unescape, Prepend;
  }

  /** A string and what it says do not depend on what follows its closing quote. */
  lemma {:induction false} UnquoteOn(s: string, w: string, u: string, rest: string)
    requires Unquote(s) == Some(Read(w, u))
    ensures Unquote(s + rest) == Some(Read(w, u + rest))
    decreases |s|
  {
    UnquoteIs(s);
    UnquoteIs(s + rest);
    hide Unquote;
    assert (s + rest)[0] == s[0] && (s + rest)[1..] == s[1..] + rest;
    if s[0] == '"' {
    } else if s[0] == '\\' {
      var Read(c, r) := Unescape(s[1..]).value;
      hide Unescape;
      var t := s[1..];
      Consumed(t, c, r);
      var e := t[..|t| - |r|];
      assert t == e + r && t + rest == e + (r + rest);
      UnescapeAlike(e, c, r, rest);
      UnquoteOn(r, Unquote(r).value.value, u, rest);
    } else {
      UnquoteOn(s[1..], Unquote(s[1..]).value.value, u, rest);
    }
  }

  /** What an escape leaves is the end of what it was given. */
  lemma Consumed(t: string, c: char, r: string)
    requires Unescape(t) == Some(Read(c, r))
    ensures |r| < |t| && t == t[..|t| - |r|] + r
  {
    UnescapeIs(t);
    hide Unescape, Unicode;
    if t[0] == 'u' {
      UnicodeIs(t[1..]);
      hide Unit, Escapes;
      assert t[1..][4..] == t[5..];
      if |t| >= 11 { assert t[5..][6..] == t[11..]; }
    }
  }

  /** One more plain character in front. */
  lemma PlainFirst(c: char, more: string, w: string)
    requires c >= ' ' && c != '"' && c != '\\' && Says(more, w)
    ensures Says([c] + more, [c] + w)
  {
    var t := [c] + more + "\"";
    assert t[0] == c && t[1..] == more + "\"";
    UnquoteIs(t);
    hide Unquote;
  }

  /** One more escape in front. */
  lemma EscapeFirst(e: string, c: char, more: string, w: string)
    requires Says(more, w) && Unescape(e + (more + "\"")) == Some(Read(c, more + "\""))
    ensures Says("\\" + (e + more), [c] + w)
  {
    var t := "\\" + (e + more) + "\"";
    assert t[0] == '\\' && t[1..] == e + (more + "\"");
    UnquoteIs(t);
    hide Unquote, Unescape;
  }

  /** Whatever is read as a string is its body, its quote and the rest. */
  lemma {:induction false} StringIs(t: string) returns (body: string)
    requires Unquote(t).Some?
    ensures t == body + ("\"" + Unquote(t).value.rest) && Says(body, Unquote(t).value.value)
    decreases |t|
  {
    var rest := Unquote(t).value.rest;
    UnquoteIs(t);
    hide Unquote, Says;
    if t[0] == '"' {
      body := "";
      assert t == "" + ("\"" + t[1..]);
      NothingSaid();
    } else if t[0] == '\\' {
      var Read(c, r) := Unescape(t[1..]).value;
      hide Unescape;
      Consumed(t[1..], c, r);
      var more := StringIs(r);
      body := EscapedBody(t, t[1..][..|t[1..]| - |r|], c, r, more, Unquote(r).value.value, rest);
    } else {
      var more := StringIs(t[1..]);
      PlainFirst(t[0], more, Unquote(t[1..]).value.value);
      body := [t[0]] + more;
      assert t == [t[0]] + t[1..];
    }
  }

  lemma NothingSaid()
    ensures Says("", "")
  {
    assert "" + "\"" == "\"";
  }

  lemma EscapedIs(e: string, c: char, more: string, w: string, rest: string)
    requires e != "" && Says(more, w) && Unescape(e + ((more + "\"") + rest)) == Some(Read(c, (more + "\"") + rest))
    ensures Says("\\" + (e + more), [c] + w)
  {
    var inside := more + "\"";
    SaysReads(more, w);
    hide Unescape, Unquote, Says;
    UnescapeAlike(e, c, inside, rest);
    EscapeFirst(e, c, more, w);
  }

  lemma EscapedBody(t: string, e: string, c: char, r: string, more: string, w: string, rest: string) returns (body: string)
    requires t != "" && t[0] == '\\' && t[1..] == e + r && e != "" && r == more + ("\"" + rest)
    requires Says(more, w) && Unescape(t[1..]) == Some(Read(c, r))
    ensures t == body + ("\"" + rest) && Says(body, [c] + w)
  {
    hide *;
    assert r == (more + "\"") + rest;
    EscapedIs(e, c, more, w, rest);
    body := "\\" + (e + more);
    Around(e, more, rest);
    assert t == "\\" + t[1..];
  }

  lemma Around(e: string, more: string, rest: string)
    ensures "\\" + (e + ((more + "\"") + rest)) == ("\\" + (e + more)) + ("\"" + rest)
  {
  }

  lemma SaysReads(body: string, w: string)
    requires Says(body, w)
    ensures Unquote(body + "\"") == Some(Read(w, ""))
  {
  }

  // ----- numbers -----

  predicate NoDigit(t: string) { t == "" || !N.Digit(t[0]) }


  lemma DigitsOn(d: string, t: string)
    requires N.AllDigits(d) && NoDigit(t)
    ensures N.Digits(d + t) == |d| && (d + t)[..|d|] == d && (d + t)[|d|..] == t
  {
    N.DigitsAre(d + t, |d|);
  }

  lemma PowerSize(mark: string, exponent: string, rest: string)
    requires IsMark(mark) && N.AllDigits(exponent) && Ends(rest)
    ensures ExponentSize(Power(mark, exponent) + rest) == Some(|Power(mark, exponent)|)
    ensures NoDigit(Power(mark, exponent) + rest) && (Power(mark, exponent) + rest == "" || (Power(mark, exponent) + rest)[0] != '.')
  {
    hide *;
    if exponent == "" { NoPower(mark, rest); } else { SomePower(mark, exponent, rest); }
  }

  lemma NoPower(mark: string, rest: string)
    requires Ends(rest)
    ensures Power(mark, "") == "" && Power(mark, "") + rest == rest
    ensures ExponentSize(rest) == Some(0) && NoDigit(rest) && (rest == "" || rest[0] != '.')
  {
    assert "" + rest == rest;
  }

  lemma SomePower(mark: string, exponent: string, rest: string)
    requires IsMark(mark) && exponent != "" && N.AllDigits(exponent) && Ends(rest)
    ensures var t := Power(mark, exponent) + rest;
      t != "" && ExponentSize(t) == Some(|Power(mark, exponent)|) && NoDigit(t) && t[0] != '.'
  {
    PowerIs(mark, exponent, rest);
    hide *;
    MarkSize(mark, exponent, exponent + rest);
    DigitsFirst(exponent, rest);
  }

  lemma PowerIs(mark: string, exponent: string, rest: string)
    requires exponent != ""
    ensures Power(mark, exponent) + rest == mark + (exponent + rest) && |Power(mark, exponent)| == |mark| + |exponent|
  {
  }

  lemma DigitsFirst(d: string, rest: string)
    requires N.AllDigits(d) && Ends(rest)
    ensures N.Digits(d + rest) == |d|
  {
    DigitsOn(d, rest);
    hide N.Digits, N.AllDigits;
  }

  lemma MarkSize(mark: string, exponent: string, t: string)
    requires IsMark(mark) && exponent != "" && N.AllDigits(exponent) && exponent <= t
    ensures N.Digits(t) == |exponent| ==> ExponentSize(mark + t) == Some(|mark| + |exponent|)
    ensures NoDigit(mark + t) && (mark + t)[0] != '.'
  {
    var whole := mark + t;
    assert t[0] == exponent[0] && N.Digit(t[0]);
    assert whole[0] == mark[0] && whole[|mark|..] == t;
    if |mark| == 1 { assert whole[1] == t[0]; } else { assert whole[1] == mark[1]; }
    hide N.Digits, N.AllDigits;
  }

  lemma PointSize(fraction: string, t: string)
    requires N.AllDigits(fraction) && NoDigit(t) && (t == "" || t[0] != '.')
    ensures FractionSize(Point(fraction) + t) == Some(|Point(fraction)|) && NoDigit(Point(fraction) + t)
  {
    if fraction == "" {
      assert Point(fraction) + t == t;
    } else {
      assert Point(fraction) + t == "." + (fraction + t);
      assert ("." + (fraction + t))[1..] == fraction + t;
      DigitsOn(fraction, t);
      hide N.Digits, N.AllDigits;
    }
  }

  lemma SizesAdd(t: string, f: nat, e: nat)
    requires FractionSize(t) == Some(f) && f <= |t| && ExponentSize(t[f..]) == Some(e)
    ensures TailSize(t) == Some(f + e)
  {
    hide FractionSize, ExponentSize;
  }

  lemma Regroup(p: string, q: string, r: string)
    ensures (p + q) + r == p + (q + r) && (p + (q + r))[|p|..] == q + r
  {
  }

  lemma TailReads(fraction: string, mark: string, exponent: string, rest: string)
    requires N.AllDigits(fraction) && IsMark(mark) && N.AllDigits(exponent) && Ends(rest)
    ensures var tail := Tail(fraction, mark, exponent);
      TailSize(tail + rest) == Some(|tail|) && NoDigit(tail + rest) && (|tail| == 0 <==> fraction == "" && exponent == "")
  {
    hide *;
    var point, power := Point(fraction), Power(mark, exponent);
    PowerSize(mark, exponent, rest);
    PointSize(fraction, power + rest);
    Lengths(fraction, mark, exponent);
    TailSum(fraction, mark, exponent);
    Regroup(point, power, rest);
    SizesAdd(point + (power + rest), |point|, |power|);
  }

  lemma TailSum(fraction: string, mark: string, exponent: string)
    ensures Tail(fraction, mark, exponent) == Point(fraction) + Power(mark, exponent)
    ensures |Tail(fraction, mark, exponent)| == |Point(fraction)| + |Power(mark, exponent)|
  {
    hide Point, Power;
  }

  lemma Lengths(fraction: string, mark: string, exponent: string)
    requires IsMark(mark)
    ensures (|Point(fraction)| == 0 <==> fraction == "") && (|Power(mark, exponent)| == 0 <==> exponent == "")
  {
  }

  lemma FigureReads(sp: Spelling, rest: string)
    requires sp.Figure? && Legal(sp) && Ends(rest)
    ensures ReadValue(Spell(sp, rest)) == Some(Read(ValueOf(sp), rest))
    ensures Spell(sp, rest) != "" && (N.Digit(Spell(sp, rest)[0]) || Spell(sp, rest)[0] == '-')
  {
    hide *;
    var s, v := Spell(sp, rest), ValueOf(sp);
    FigureIs(sp, rest);
    FigureRead(sp.minus, sp.digits, sp.fraction, sp.mark, sp.exponent, rest);
  }

  lemma FigureRead(minus: bool, d: string, fraction: string, mark: string, exponent: string, rest: string)
    requires d != "" && N.AllDigits(d) && (d[0] == '0' ==> d == "0")
    requires N.AllDigits(fraction) && N.AllDigits(exponent) && IsMark(mark) && Ends(rest)
    ensures var t := d + (Tail(fraction, mark, exponent) + rest); var s := if minus then "-" + t else t;
      var n := if minus then 0 - N.Value(d) else N.Value(d);
      && ReadValue(s) == Some(Read(if fraction == "" && exponent == "" then Number(n) else Cut(n), rest))
      && s != "" && (N.Digit(s[0]) || s[0] == '-')
  {
    hide *;
    var tail := Tail(fraction, mark, exponent);
    var after := tail + rest;
    TailReads(fraction, mark, exponent, rest);
    FigureStarts(d, after);
    assert after[|tail|..] == rest;
    WithTail(if minus then 0 - N.Value(d) else N.Value(d), after, |tail|);
    if minus {
      assert ("-" + (d + after))[0] == '-';
      AsNumber("-" + (d + after));
    } else {
      AsNumber(d + after);
    }
  }

  /** A number taken apart. */
  lemma FigureIs(sp: Spelling, rest: string)
    requires sp.Figure? && Legal(sp)
    ensures var t := sp.digits + (Tail(sp.fraction, sp.mark, sp.exponent) + rest); Spell(sp, rest) == if sp.minus then "-" + t else t
    ensures var n := if sp.minus then 0 - N.Value(sp.digits) else N.Value(sp.digits);
      ValueOf(sp) == if sp.fraction == "" && sp.exponent == "" then Number(n) else Cut(n)
    ensures sp.digits != "" && N.AllDigits(sp.digits) && (sp.digits[0] == '0' ==> sp.digits == "0")
    ensures N.AllDigits(sp.fraction) && N.AllDigits(sp.exponent) && IsMark(sp.mark)
  {
    hide N.AllDigits, N.Value, Tail, IsMark;
  }

  lemma FigureLegal(minus: bool, digits: string, fraction: string, mark: string, exponent: string)
    requires digits != "" && N.AllDigits(digits) && (digits[0] == '0' ==> digits == "0")
    requires N.AllDigits(fraction) && N.AllDigits(exponent) && IsMark(mark)
    ensures Legal(Figure(minus, digits, fraction, mark, exponent))
  {
    hide N.AllDigits, IsMark;
  }

  lemma FigureStarts(d: string, after: string)
    requires d != "" && N.AllDigits(d) && (d[0] == '0' ==> d == "0") && NoDigit(after)
    ensures ReadNumber(d + after) == NumberWith(N.Value(d), after) && ReadNumber("-" + (d + after)) == NumberWith(0 - N.Value(d), after)
    ensures N.Digit((d + after)[0])
  {
    DigitsOn(d, after);
    hide N.Value, N.Digits, NumberWith, ReadNumber;
    ReadsPositive(d, after);
    ReadsNegative(d, after);
    assert (d + after)[0] == d[0];
  }

  lemma WithTail(whole: int, after: string, k: nat)
    requires TailSize(after) == Some(k)
    ensures NumberWith(whole, after) == Some(Read(if k == 0 then Number(whole) else Cut(whole), after[k..]))
  {
    hide TailSize;
  }

  /** A fraction that is read is a point and digits. */
  lemma FractionIs(t: string) returns (fraction: string)
    requires FractionSize(t).Some?
    ensures N.AllDigits(fraction) && Point(fraction) == t[..FractionSize(t).value]
  {
    if t == "" || t[0] != '.' {
      fraction := "";
      assert t[..0] == "";
    } else {
      fraction := t[1..][..N.Digits(t[1..])];
      assert t[..1 + |fraction|] == "." + fraction;
    }
  }

  lemma ExponentIs(t: string) returns (mark: string, exponent: string)
    requires ExponentSize(t).Some?
    ensures IsMark(mark) && N.AllDigits(exponent) && Power(mark, exponent) == t[..ExponentSize(t).value]
  {
    if t == "" || (t[0] != 'e' && t[0] != 'E') {
      mark, exponent := "e", "";
      assert t[..0] == "";
    } else {
      var m: nat := if |t| > 1 && (t[1] == '+' || t[1] == '-') then 2 else 1;
      mark := t[..m];
      exponent := t[m..][..N.Digits(t[m..])];
      assert t[..m + |exponent|] == mark + exponent;
      assert m == 1 ==> mark == [t[0]];
      assert m == 2 ==> mark == [t[0], t[1]];
    }
  }

  lemma NumberIs(t: string) returns (sp: Spelling)
    requires ReadNumber(t).Some?
    ensures sp.Figure? && Legal(sp) && t == Spell(sp, ReadNumber(t).value.rest) && ValueOf(sp) == ReadNumber(t).value.value
  {
    hide *;
    var minus, d, after := Parted(t);
    var whole := if minus then 0 - N.Value(d) else N.Value(d);
    HasTail(whole, after);
    var fraction, mark, exponent := TailIs(after);
    WithTail(whole, after, TailSize(after).value);
    sp := Figure(minus, d, fraction, mark, exponent);
    FigureLegal(minus, d, fraction, mark, exponent);
    FigureIs(sp, ReadNumber(t).value.rest);
  }

  lemma HasTail(whole: int, after: string)
    requires NumberWith(whole, after).Some?
    ensures TailSize(after).Some?
  {
    hide TailSize;
  }

  lemma Parted(t: string) returns (minus: bool, d: string, after: string)
    requires ReadNumber(t).Some?
    ensures d != "" && N.AllDigits(d) && (d[0] == '0' ==> d == "0")
    ensures t == (if minus then "-" + (d + after) else d + after)
    ensures ReadNumber(t) == NumberWith(if minus then 0 - N.Value(d) else N.Value(d), after)
  {
    hide N.Value, NumberWith, N.Digits, N.AllDigits;
    minus := |t| > 0 && t[0] == '-';
    var digits := if minus then t[1..] else t;
    var n := N.Digits(digits);
    d, after := digits[..n], digits[n..];
    Halves(digits, n);
    assert minus ==> t == "-" + digits;
  }

  lemma Halves(digits: string, n: nat)
    requires 0 < n <= |digits| && !(n > 1 && digits[0] == '0')
    ensures digits == digits[..n] + digits[n..] && digits[..n] != "" && (digits[..n][0] == '0' ==> digits[..n] == "0")
  {
    if n == 1 { assert digits[..n] == [digits[0]]; }
  }

  lemma TailIs(t: string) returns (fraction: string, mark: string, exponent: string)
    requires TailSize(t).Some?
    ensures N.AllDigits(fraction) && IsMark(mark) && N.AllDigits(exponent)
    ensures t == Tail(fraction, mark, exponent) + t[TailSize(t).value..]
    ensures TailSize(t).value == 0 <==> fraction == "" && exponent == ""
  {
    var f := FractionSize(t).value;
    fraction := FractionIs(t);
    mark, exponent := ExponentIs(t[f..]);
    Lengths(fraction, mark, exponent);
    var e := ExponentSize(t[f..]).value;
    hide FractionSize, ExponentSize, N.AllDigits, Point, Power, IsMark;
    Cut3(t, f, e);
  }

  lemma Cut3(t: string, f: nat, e: nat)
    requires f + e <= |t|
    ensures t == (t[..f] + t[f..][..e]) + t[f + e..]
  {
  }

  // ----- every spelling is read -----

  lemma BlankIs(gap: string)
    requires AllBlank(gap)
    ensures Blank(gap)
  {
  }

  /** A gap, then something that is no white space. */
  lemma Past(gap: string, t: string)
    requires AllBlank(gap) && t != "" && !White(t[0])
    ensures Skip(gap + t) == t
  {
    BlankIs(gap);
    SkipsBlank(gap, t);
  }

  /** Where a spelling starts: never in white space, and never at a closing bracket. */
  lemma SpellStarts(sp: Spelling, rest: string)
    requires Legal(sp) && (sp.Figure? ==> Ends(rest))
    ensures var t := Spell(sp, rest); t != "" && !White(t[0]) && t[0] != ']' && t[0] != '}'
  {
    match sp
    case Figure(_, _, _, _, _) =>
      FigureReads(sp, rest);
      hide Spell, Legal, Ends;
    case Name(v) =>
      assert Write(v)[0] == 't' || Write(v)[0] == 'f' || Write(v)[0] == 'n';
    case _ => hide SpellItems, SpellPairs, LegalItems, LegalPairs;
  }

  /** Every spelling is read as its value, whatever follows; after a number only what may follow one. */
  lemma {:induction false} SpellingReads(sp: Spelling, rest: string)
    requires Legal(sp) && (sp.Figure? ==> Ends(rest))
    ensures ReadValue(Spell(sp, rest)) == Some(Read(ValueOf(sp), rest))
    decreases sp, 1
  {
    match sp
    case Quote(body, words) => QuoteReads(body, words, rest);
    case Figure(_, _, _, _, _) => FigureReads(sp, rest);
    case Name(v) => NameReads(v, rest);
    case List(gap, items) =>
      if items.NoItem? {
        Past(gap, "]" + rest);
        NothingInside("[", gap, "]", rest);
        ArrayOpens("[" + (gap + ("]" + rest)), gap + ("]" + rest));
      } else {
        var inside := ItemsRead(items, rest);
        ArrayOpens("[" + SpellItems(items, rest), SpellItems(items, rest));
      }
      hide ReadValue, ReadItems, Skip, SpellItems, LegalItems, ValuesOf;
    case Record(gap, members) =>
      if members.NoPair? {
        Past(gap, "}" + rest);
        NothingInside("{", gap, "}", rest);
        ObjectOpens("{" + (gap + ("}" + rest)), gap + ("}" + rest));
      } else {
        var inside := PairsRead(members, rest);
        ObjectOpens("{" + SpellPairs(members, rest), SpellPairs(members, rest));
      }
      hide ReadValue, ReadMembers, Skip, SpellPairs, LegalPairs, MembersOf;
  }

  lemma NothingInside(open: string, gap: string, close: string, rest: string)
    requires close == "]" || close == "}"
    ensures (close + rest)[0] == close[0] && (close + rest)[1..] == rest
  {
  }

  lemma QuoteReads(body: string, words: string, rest: string)
    requires Says(body, words)
    ensures ReadValue("\"" + (body + ("\"" + rest))) == Some(Read(Words(words), rest))
  {
    var s := body + "\"";
    SaysReads(body, words);
    hide Says, ReadNumber, ReadItems, ReadMembers, Unquote;
    UnquoteOn(s, words, "", rest);
    assert s + rest == body + ("\"" + rest) && "" + rest == rest;
    StringReads(body + ("\"" + rest), words, rest);
  }

  lemma StringReads(s: string, words: string, rest: string)
    requires Unquote(s) == Some(Read(words, rest))
    ensures ReadValue("\"" + s) == Some(Read(Words(words), rest))
  {
    hide Unquote, ReadItems, ReadMembers, ReadNumber, Skip;
    assert ("\"" + s)[1..] == s;
  }

  /** What stands after an item: its gap, then the bracket or a comma and the next. */
  function Stop(last: bool, close: string, next: string, rest: string): string { if last then close + rest else "," + next }

  lemma StopEnds(after: string, last: bool, close: string, next: string, rest: string)
    requires AllBlank(after) && (close == "]" || close == "}")
    ensures var stop := Stop(last, close, next, rest); Ends(after + stop) && Skip(after + stop) == stop
  {
    var stop := Stop(last, close, next, rest);
    Past(after, stop);
    BlankIs(after);
    hide Skip;
    EndsGap(after, stop);
  }

  lemma {:induction false} ItemsRead(items: Items, rest: string) returns (inside: string)
    requires items.Item? && LegalItems(items)
    ensures Skip(SpellItems(items, rest)) == inside && inside != "" && inside[0] != ']'
    ensures ReadItems(inside) == Some(Read(ValuesOf(items), rest))
    decreases items, 0
  {
    var next := SpellItems(items.more, rest);
    var stop := Stop(items.more.NoItem?, "]", next, rest);
    inside := Spell(items.value, items.after + stop);
    assert SpellItems(items, rest) == items.before + inside;
    StopEnds(items.after, items.more.NoItem?, "]", next, rest);
    SpellStarts(items.value, items.after + stop);
    Past(items.before, inside);
    SpellingReads(items.value, items.after + stop);
    assert ValuesOf(items) == [ValueOf(items.value)] + ValuesOf(items.more);
    hide ReadValue, ReadItems, Skip, Ends, Spell, SpellItems, ValueOf;
    if items.more.NoItem? {
      assert ValuesOf(items) == [ValueOf(items.value)];
      ItemsLast(inside, ValueOf(items.value), items.after + stop, rest);
    } else {
      var more := ItemsRead(items.more, rest);
      ItemsMore(inside, ValueOf(items.value), items.after + stop, next, ValuesOf(items.more), rest);
    }
  }

  lemma {:induction false} PairsRead(pairs: Pairs, rest: string) returns (inside: string)
    requires pairs.Pair? && LegalPairs(pairs)
    ensures Skip(SpellPairs(pairs, rest)) == inside && inside != "" && inside[0] == '"'
    ensures ReadMembers(inside) == Some(Read(MembersOf(pairs), rest))
    decreases pairs, 0
  {
    var next := SpellPairs(pairs.more, rest);
    var stop := Stop(pairs.more.NoPair?, "}", next, rest);
    var value := Spell(pairs.value, pairs.after + stop);
    inside := "\"" + (pairs.body + ("\"" + (pairs.colon + (":" + (pairs.gap + value)))));
    assert SpellPairs(pairs, rest) == pairs.before + inside;
    StopEnds(pairs.after, pairs.more.NoPair?, "}", next, rest);
    SpellStarts(pairs.value, pairs.after + stop);
    Past(pairs.before, inside);
    Past(pairs.gap, value);
    SpellingReads(pairs.value, pairs.after + stop);
    assert MembersOf(pairs) == [Member(pairs.key, ValueOf(pairs.value))] + MembersOf(pairs.more);
    hide ReadValue, ReadMembers, ReadMember, Skip, Ends, Spell, SpellPairs, ValueOf, Says;
    PairReads(pairs.body, pairs.key, pairs.colon, pairs.gap + value, ValueOf(pairs.value), pairs.after + stop);
    var m := Member(pairs.key, ValueOf(pairs.value));
    if pairs.more.NoPair? {
      assert MembersOf(pairs) == [m];
      MembersLast(inside, m, pairs.after + stop, rest);
    } else {
      var more := PairsRead(pairs.more, rest);
      MembersMore(inside, m, pairs.after + stop, next, MembersOf(pairs.more), rest);
    }
  }

  lemma PairReads(body: string, key: string, colon: string, next: string, v: Value, after: string)
    requires Says(body, key) && AllBlank(colon) && ReadValue(Skip(next)) == Some(Read(v, after))
    ensures ReadMember("\"" + (body + ("\"" + (colon + (":" + next))))) == Some(Read(Member(key, v), after))
  {
    hide *;
    var s, rest := body + "\"", colon + (":" + next);
    SaysReads(body, key);
    PastColon(colon, next);
    UnquoteOn(s, key, "", rest);
    assert s + rest == body + ("\"" + rest) && "" + rest == rest;
    MemberReads(body + ("\"" + rest), key, rest, next, v, after);
  }

  lemma PastColon(colon: string, next: string)
    requires AllBlank(colon)
    ensures Skip(colon + (":" + next)) == ":" + next
  {
    Past(colon, ":" + next);
  }

  lemma MemberReads(s: string, key: string, rest: string, next: string, v: Value, after: string)
    requires Unquote(s) == Some(Read(key, rest)) && Skip(rest) == ":" + next && ReadValue(Skip(next)) == Some(Read(v, after))
    ensures ReadMember("\"" + s) == Some(Read(Member(key, v), after))
  {
    hide Unquote, Skip, ReadValue;
    assert ("\"" + s)[1..] == s && (":" + next)[1..] == next;
  }

  // ----- whatever is read is a spelling -----

  lemma SkipIs(t: string)
    ensures Skip(t) == if t != "" && White(t[0]) then Skip(t[1..]) else t
  {
  }

  lemma {:induction false} Skipped(t: string) returns (gap: string)
    ensures t == gap + Skip(t) && AllBlank(gap)
    decreases |t|
  {
    gap := "";
    SkipIs(t);
    hide Skip;
    if t != "" && White(t[0]) {
      var more := Skipped(t[1..]);
      gap := [t[0]] + more;
      assert t == [t[0]] + t[1..];
      assert t == gap + Skip(t);
    } else {
      assert t == "" + t;
    }
  }

  lemma {:induction false} ValueIsSpelt(t: string) returns (sp: Spelling)
    requires ReadValue(t).Some?
    ensures Legal(sp) && t == Spell(sp, ReadValue(t).value.rest) && ValueOf(sp) == ReadValue(t).value.value
    decreases |t|, 0
  {
    var rest := ReadValue(t).value.rest;
    assert t != "";
    var tail := t[1..];
    assert t == [t[0]] + tail;
    if t[0] == '"' {
      var body := StringIs(tail);
      sp := Quote(body, Unquote(tail).value.value);
      assert t == "\"" + tail;
    } else if t[0] == '[' {
      assert t == "[" + tail;
      ArrayOpens(t, tail);
      var gap := Skipped(tail);
      sp := ListIs(t, tail, gap);
    } else if t[0] == '{' {
      assert t == "{" + tail;
      ObjectOpens(t, tail);
      var gap := Skipped(tail);
      sp := RecordIs(t, tail, gap);
    } else {
      sp := PlainIs(t);
    }
  }

  lemma PlainIs(t: string) returns (sp: Spelling)
    requires ReadValue(t).Some? && t != "" && t[0] != '"' && t[0] != '[' && t[0] != '{'
    ensures Legal(sp) && t == Spell(sp, ReadValue(t).value.rest) && ValueOf(sp) == ReadValue(t).value.value
  {
    hide ReadNumber, ReadItems, ReadMembers, Unquote, Skip;
    if "true" <= t {
      sp := Name(Flag(true));
      assert t == "true" + t[4..];
    } else if "false" <= t {
      sp := Name(Flag(false));
      assert t == "false" + t[5..];
    } else if "null" <= t {
      sp := Name(Null);
      assert t == "null" + t[4..];
    } else {
      sp := NumberIs(t);
    }
  }

  lemma {:induction false} ListIs(t: string, tail: string, gap: string) returns (sp: Spelling)
    requires ReadValue(t).Some? && t == "[" + tail && tail == gap + Skip(tail) && AllBlank(gap)
    ensures Legal(sp) && t == Spell(sp, ReadValue(t).value.rest) && ValueOf(sp) == ReadValue(t).value.value
    decreases |tail|, 2
  {
    ArrayOpens(t, tail);
    hide ReadValue, ReadItems;
    var inside := Skip(tail);
    if |inside| > 0 && inside[0] == ']' {
      sp := List(gap, NoItem);
      assert inside == "]" + inside[1..];
    } else {
      var items := ItemsAreSpelt(inside);
      sp := List("", items.(before := gap));
      FirstGap(items, gap, ReadItems(inside).value.rest);
    }
  }

  lemma FirstGap(items: Items, gap: string, rest: string)
    requires items.Item? && items.before == "" && LegalItems(items) && AllBlank(gap)
    ensures var wider := items.(before := gap);
      LegalItems(wider) && SpellItems(wider, rest) == gap + SpellItems(items, rest) && ValuesOf(wider) == ValuesOf(items)
  {
    hide Spell, ValueOf;
    var x := Spell(items.value, items.after + (if items.more.NoItem? then "]" + rest else "," + SpellItems(items.more, rest)));
    assert SpellItems(items, rest) == "" + x && "" + x == x;
  }

  lemma {:induction false} ItemsAreSpelt(t: string) returns (items: Items)
    requires ReadItems(t).Some?
    ensures items.Item? && items.before == "" && LegalItems(items)
    ensures t == SpellItems(items, ReadItems(t).value.rest) && ValuesOf(items) == ReadItems(t).value.value
    decreases |t|, 1
  {
    var Read(v, after) := ReadValue(t).value;
    var rest := ReadItems(t).value.rest;
    var sp := ValueIsSpelt(t);
    var gap := Skipped(after);
    var next := Skip(after);
    items := Item("", sp, gap, NoItem);
    if next[0] == ']' {
      assert next == "]" + next[1..];
      hide ReadItems, ReadValue, Skip, Spell;
      OneItem(t, items, after, next, rest);
    } else {
      assert next == "," + next[1..];
      var wide := Skipped(next[1..]);
      var more := ItemsAreSpelt(Skip(next[1..]));
      FirstGap(more, wide, rest);
      items := Item("", sp, gap, more.(before := wide));
      hide ReadItems, ReadValue, Skip, Spell;
      OneItem(t, items, after, next, rest);
    }
  }

  lemma OneItem(t: string, items: Items, after: string, next: string, rest: string)
    requires items.Item? && items.before == "" && after == items.after + next
    requires next == (if items.more.NoItem? then "]" + rest else "," + SpellItems(items.more, rest))
    requires t == Spell(items.value, after)
    ensures t == SpellItems(items, rest)
  {
    hide Spell;
    assert t == "" + t;
  }

  lemma {:induction false} RecordIs(t: string, tail: string, gap: string) returns (sp: Spelling)
    requires ReadValue(t).Some? && t == "{" + tail && tail == gap + Skip(tail) && AllBlank(gap)
    ensures Legal(sp) && t == Spell(sp, ReadValue(t).value.rest) && ValueOf(sp) == ReadValue(t).value.value
    decreases |tail|, 2
  {
    ObjectOpens(t, tail);
    hide ReadValue, ReadMembers;
    var inside := Skip(tail);
    if |inside| > 0 && inside[0] == '}' {
      sp := Record(gap, NoPair);
      assert inside == "}" + inside[1..];
    } else {
      var pairs := PairsAreSpelt(inside);
      sp := Record("", pairs.(before := gap));
      FirstPairGap(pairs, gap, ReadMembers(inside).value.rest);
    }
  }

  lemma FirstPairGap(pairs: Pairs, gap: string, rest: string)
    requires pairs.Pair? && pairs.before == "" && LegalPairs(pairs) && AllBlank(gap)
    ensures var wider := pairs.(before := gap);
      LegalPairs(wider) && SpellPairs(wider, rest) == gap + SpellPairs(pairs, rest) && MembersOf(wider) == MembersOf(pairs)
  {
    hide Spell, ValueOf, Says;
  }

  lemma {:induction false} PairsAreSpelt(t: string) returns (pairs: Pairs)
    requires ReadMembers(t).Some?
    ensures pairs.Pair? && pairs.before == "" && LegalPairs(pairs)
    ensures t == SpellPairs(pairs, ReadMembers(t).value.rest) && MembersOf(pairs) == ReadMembers(t).value.value
    decreases |t|, 1
  {
    var Read(m, after) := ReadMember(t).value;
    var rest := ReadMembers(t).value.rest;
    MembersGo(t);
    hide ReadMember, ReadMembers, Says, Legal, ValueOf, Spell, Skip;
    var body, colon, gap, sp := PairIsSpelt(t);
    var between := Skipped(after);
    var next := Skip(after);
    if next[0] == '}' {
      assert next == "}" + next[1..];
      pairs := Pair("", body, m.key, colon, gap, sp, between, NoPair);
      PairMade(pairs);
      OnePair(t, pairs, after, next, rest);
    } else {
      assert next == "," + next[1..];
      var wide := Skipped(next[1..]);
      var more := PairsAreSpelt(Skip(next[1..]));
      FirstPairGap(more, wide, rest);
      pairs := Pair("", body, m.key, colon, gap, sp, between, more.(before := wide));
      PairMade(pairs);
      hide SpellPairs, LegalPairs, MembersOf;
      OnePair(t, pairs, after, next, rest);
    }
  }

  lemma PairMade(pairs: Pairs)
    requires pairs.Pair? && AllBlank(pairs.before) && AllBlank(pairs.colon) && AllBlank(pairs.gap) && AllBlank(pairs.after)
    requires Says(pairs.body, pairs.key) && Legal(pairs.value) && LegalPairs(pairs.more)
    ensures LegalPairs(pairs) && MembersOf(pairs) == [Member(pairs.key, ValueOf(pairs.value))] + MembersOf(pairs.more)
    ensures pairs.more.NoPair? ==> MembersOf(pairs) == [Member(pairs.key, ValueOf(pairs.value))]
  {
    hide Says, Legal, ValueOf;
  }

  /** One member of several, and what follows it. */
  lemma MembersGo(t: string)
    requires ReadMembers(t).Some?
    ensures ReadMember(t).Some? && |ReadMember(t).value.rest| < |t|
    ensures var Read(m, after) := ReadMember(t).value; var next := Skip(after);
      && next != "" && |next| <= |after|
      && (if next[0] == '}' then ReadMembers(t) == Some(Read([m], next[1..]))
          else next[0] == ',' && |Skip(next[1..])| < |next| && ReadMembers(Skip(next[1..])).Some?
               && ReadMembers(t) == Some(Read([m] + ReadMembers(Skip(next[1..])).value.value, ReadMembers(Skip(next[1..])).value.rest)))
  {
    hide ReadMember, Skip;
  }

  lemma OnePair(t: string, pairs: Pairs, after: string, next: string, rest: string)
    requires pairs.Pair? && pairs.before == "" && after == pairs.after + next
    requires next == (if pairs.more.NoPair? then "}" + rest else "," + SpellPairs(pairs.more, rest))
    requires t == "\"" + (pairs.body + ("\"" + (pairs.colon + (":" + (pairs.gap + Spell(pairs.value, after))))))
    ensures t == SpellPairs(pairs, rest)
  {
    hide Spell;
    assert t == "" + t;
  }

  lemma {:induction false} PairIsSpelt(t: string) returns (body: string, colon: string, gap: string, sp: Spelling)
    requires ReadMember(t).Some?
    ensures Legal(sp) && AllBlank(colon) && AllBlank(gap) && Says(body, ReadMember(t).value.value.key)
    ensures ValueOf(sp) == ReadMember(t).value.value.value
    ensures t == "\"" + (body + ("\"" + (colon + (":" + (gap + Spell(sp, ReadMember(t).value.rest))))))
    decreases |t|, 0
  {
    var tail := t[1..];
    assert t == "\"" + tail;
    body := StringIs(tail);
    var rest := Unquote(tail).value.rest;
    colon := Skipped(rest);
    var next := Skip(rest);
    assert next == ":" + next[1..];
    gap := Skipped(next[1..]);
    sp := ValueIsSpelt(Skip(next[1..]));
    hide ReadValue, Skip, Unquote, Says, Legal, ValueOf, Spell;
  }

  /** The decoder reads a value off a text exactly when the text starts with a spelling of it, for what may follow one. */
  lemma ReadsExactly(t: string, v: Value, rest: string)
    requires v.Number? || v.Cut? ==> Ends(rest)
    ensures ReadValue(t) == Some(Read(v, rest)) <==> exists sp :: Legal(sp) && t == Spell(sp, rest) && v == ValueOf(sp)
  {
    forall sp | Legal(sp) ensures sp.Figure? ==> ValueOf(sp).Number? || ValueOf(sp).Cut? { OnlyFigures(sp); }
    hide ReadValue, Legal, Spell, ValueOf, Ends;
    if ReadValue(t) == Some(Read(v, rest)) { var sp := ValueIsSpelt(t); }
    if sp :| Legal(sp) && t == Spell(sp, rest) && v == ValueOf(sp) { SpellingReads(sp, rest); }
  }

  lemma OnlyFigures(sp: Spelling)
    requires Legal(sp)
    ensures sp.Figure? ==> ValueOf(sp).Number? || ValueOf(sp).Cut?
  {
    hide N.Value, LegalItems, LegalPairs;
  }

  /** A document is white space, a spelling and whatever follows it. */
  ghost predicate Documents(t: string, v: Value, gap: string, sp: Spelling, rest: string) {
    AllBlank(gap) && Legal(sp) && t == gap + Spell(sp, rest) && v == ValueOf(sp)
  }

  lemma DecodesExactly(t: string, v: Value)
    requires v.Object?
    ensures Decode(t) == Some(v) <==> exists gap, sp, rest :: Documents(t, v, gap, sp, rest)
  {
    hide ReadValue, Legal, Spell, ValueOf, Skip;
    if Decode(t) == Some(v) {
      var gap := Skipped(t);
      var sp := ValueIsSpelt(Skip(t));
      assert Documents(t, v, gap, sp, ReadValue(Skip(t)).value.rest);
    }
    if gap, sp, rest :| Documents(t, v, gap, sp, rest) {
      OnlyFigures(sp);
      SpellStarts(sp, rest);
      Past(gap, Spell(sp, rest));
      SpellingReads(sp, rest);
    }
  }
}
