/** Looking ids up by what a user typed of them: the half-open range of strings that share a prefix. */
module Prefix {
  import opened Wrappers
  import opened Text

  function Alphabet(): string { "0123456789ABCDEFGHJKMNPQRSTVWXYZ" }

  const LENGTH := 26
  const FIRST := '0'
  const LAST := 'Z'

  lemma AlphabetAscends()
    ensures |Alphabet()| == 32 && Alphabet()[0] == FIRST && Alphabet()[31] == LAST
    ensures forall i, j :: 0 <= i < j < |Alphabet()| ==> Alphabet()[i] < Alphabet()[j]
  {
    assert forall i :: 0 <= i < 31 ==> Alphabet()[i] < Alphabet()[i + 1];
    forall i, j | 0 <= i < j < |Alphabet()| ensures Alphabet()[i] < Alphabet()[j] { Climb(i, j); }
  }

  lemma {:induction false} Climb(i: nat, j: nat)
    requires i < j < 32 && forall k :: 0 <= k < 31 ==> Alphabet()[k] < Alphabet()[k + 1]
    ensures Alphabet()[i] < Alphabet()[j]
    decreases j
  {
    assert Alphabet()[j - 1] < Alphabet()[j - 1 + 1];
    if i < j - 1 { Climb(i, j - 1); }
  }

  predicate Spelt(s: string) { forall i :: 0 <= i < |s| ==> s[i] in Alphabet() }

  predicate IsId(s: string) { |s| == LENGTH && Spelt(s) }

  lemma IdsAre(s: string)
    ensures IsId(s) <==> |s| == 26 && forall i :: 0 <= i < |s| ==> s[i] in "0123456789ABCDEFGHJKMNPQRSTVWXYZ"
  {
    hide IsSpace;
  }

  /** Of two texts with heads of the same length the heads decide, then the rest. */
  lemma {:induction false} LessAppend(a: string, b: string, u: string, v: string)
    requires |a| == |b|
    ensures Less(a + u, b + v) <==> Less(a, b) || (a == b && Less(u, v))
    decreases |a|
  {
    if |a| == 0 {
      assert a + u == u && b + v == v;
    } else {
      assert (a + u)[1..] == a[1..] + u && (b + v)[1..] == b[1..] + v;
      LessAppend(a[1..], b[1..], u, v);
      assert a == [a[0]] + a[1..] && b == [b[0]] + b[1..];
    }
  }

  function Repeat(c: char, n: nat): (s: string)
    ensures |s| == n && forall i :: 0 <= i < n ==> s[i] == c
  {
    seq(n, i => c)
  }

  lemma {:induction false} NothingBelow(u: string, n: nat)
    requires Spelt(u) && |u| == n
    ensures !Less(u, Repeat(FIRST, n))
    decreases n
  {
    hide Alphabet;
    if n > 0 {
      assert u[0] in Alphabet();
      LettersFollow(u[0], u[0]);
      assert Repeat(FIRST, n)[1..] == Repeat(FIRST, n - 1);
      NothingBelow(u[1..], n - 1);
    }
  }

  // ----- what the user typed -----

  function Upper(c: char): char { if 'a' <= c <= 'z' then c - 32 as char else c }

  /** A letter of the alphabet in either case is that letter; anything else stays as it was typed. */
  lemma UpperIs(i: nat, c: char)
    requires i < 26
    ensures Upper("abcdefghijklmnopqrstuvwxyz"[i]) == "ABCDEFGHIJKLMNOPQRSTUVWXYZ"[i]
    ensures c < 'a' || c > 'z' ==> Upper(c) == c
  {
    var lower, upper := "abcdefghijklmnopqrstuvwxyz", "ABCDEFGHIJKLMNOPQRSTUVWXYZ";
    assert lower[i] as int == 'a' as int + i && upper[i] as int == 'A' as int + i;
  }

  function Uppered(s: string): (r: string)
    ensures |r| == |s| && forall i :: 0 <= i < |s| ==> r[i] == Upper(s[i])
  {
    seq(|s|, i requires 0 <= i < |s| => Upper(s[i]))
  }

  datatype Complaint = Empty | Stranger(position: nat, typed: char) | TooLong(n: nat)

  /** The first character outside the alphabet, whichever case it was typed in. */
  ghost predicate FirstStranger(typed: string, i: nat) {
    i < |typed| && Upper(typed[i]) !in Alphabet() && forall j :: 0 <= j < i ==> Upper(typed[j]) in Alphabet()
  }

  ghost predicate Normalized(s: string, r: Result<string, Complaint>) {
    var typed := Trimmed(s);
    match r
    case Ok(p) => typed != "" && p == Uppered(typed) && Spelt(p) && |p| <= 26
    case Err(Empty) => typed == ""
    case Err(Stranger(i, c)) => FirstStranger(typed, i) && c == typed[i]
    case Err(TooLong(n)) => typed != "" && Spelt(Uppered(typed)) && n == |typed| > 26
  }

  /** NormalizePrefix: upper case in place, a byte at a time, stopping at the first stranger. */
  method NormalizePrefix(s: string) returns (r: Result<string, Complaint>)
    ensures Normalized(s, r)
  {
    hide Alphabet, IsSpace, Trimmed;
    var typed := Trimmed(s);
    if typed == "" { return Err(Empty); }
    var prefix := new char[|typed|](i requires 0 <= i < |typed| => typed[i]);
    for i := 0 to prefix.Length
      invariant forall j :: 0 <= j < i ==> prefix[j] == Upper(typed[j]) && prefix[j] in Alphabet()
      invariant forall j :: i <= j < prefix.Length ==> prefix[j] == typed[j]
    {
      var c := prefix[i];
      if 'a' <= c <= 'z' { c := c - 32 as char; }
      if c !in Alphabet() { return Err(Stranger(i, typed[i])); }
      prefix[i] := c;
    }
    assert prefix[..] == Uppered(typed);
    if prefix.Length > LENGTH { return Err(TooLong(prefix.Length)); }
    r := Ok(prefix[..]);
  }

  // ----- the range -----

  /** strings.IndexByte. */
  function Position(s: string, c: char): (i: int)
    ensures if c in s then 0 <= i < |s| && s[i] == c else i == -1
  {
    if |s| == 0 then -1
    else if s[0] == c then 0
    else
      var i := Position(s[1..], c);
      if i < 0 then -1 else i + 1
  }

  /** One place of the carry: the next letter, or none after the last one. */
  function NextLetter(c: char): (d: Option<char>) {
    var pos := Position(Alphabet(), c);
    if pos < |Alphabet()| - 1 then Some(Alphabet()[pos + 1]) else None
  }

  lemma LettersFollow(c: char, d: char)
    requires c in Alphabet() && d in Alphabet()
    ensures FIRST in Alphabet() && FIRST <= d <= LAST
    ensures match NextLetter(c) case None => d <= c case Some(e) => e in Alphabet() && (d < e <==> d <= c)
  {
    AlphabetAscends();
    hide Alphabet;
    var i, j := Position(Alphabet(), c), Position(Alphabet(), d);
    assert FIRST == Alphabet()[0];
    if i + 1 < |Alphabet()| {
      assert i < i + 1;
      if j > i + 1 { assert Alphabet()[i + 1] < Alphabet()[j]; }
      if j < i { assert Alphabet()[j] < Alphabet()[i]; }
      if j < i + 1 { assert Alphabet()[j] < Alphabet()[i + 1]; }
    }
  }

  /** The next prefix of the same length, the carry moving left; None when it runs off the end. */
  function Next(p: string): (q: Option<string>)
    ensures q.Some? ==> |q.value| == |p|
  {
    if |p| == 0 then None
    else
      var before, c := p[..|p| - 1], p[|p| - 1];
      match NextLetter(c)
      case Some(d) => Some(before + [d])
      case None =>
        match Next(before)
        case None => None
        case Some(q) => Some(q + [FIRST])
  }

  /** successor: the carry over a byte slice, from the right. */
  method Successor(p: string) returns (q: Option<string>)
    requires Spelt(p)
    ensures q == Next(p)
  {
    hide Next, Alphabet, NextLetter, Position, Spelt;
    AlphabetAscends();
    NothingPadded(p, Next(p));
    var next := new char[|p|](i requires 0 <= i < |p| => p[i]);
    var i := |p| - 1;
    assert next[..i + 1] == p[..i + 1];
    while i >= 0
      invariant -1 <= i < |p| && Spelt(p[..i + 1]) && next[..i + 1] == p[..i + 1]
      invariant next[i + 1..] == Repeat(FIRST, |p| - 1 - i)
      invariant Next(p) == Padded(Next(p[..i + 1]), |p| - 1 - i)
    {
      NextStep(p, i);
      assert next[i] == next[..i + 1][i] == p[i];
      var pos := Position(Alphabet(), next[i]);
      assert NextLetter(p[i]) == if pos < |Alphabet()| - 1 then Some(Alphabet()[pos + 1]) else None by { NextLetterIs(p[i]); }
      if pos < |Alphabet()| - 1 {
        next[i] := Alphabet()[pos + 1];
        assert next[..] == (p[..i] + [Alphabet()[pos + 1]]) + Repeat(FIRST, |p| - 1 - i) by {
          assert next[..] == next[..i] + [next[i]] + next[i + 1..];
        }
        return Some(next[..]);
      }
      next[i] := Alphabet()[0];
      assert next[i..] == [FIRST] + next[i + 1..];
      i := i - 1;
    }
    q := None;
    NextOfNothing(p[..0]);
  }

  function Padded(q: Option<string>, n: nat): Option<string> {
    match q case None => None case Some(r) => Some(r + Repeat(FIRST, n))
  }

  lemma NothingPadded(p: string, q: Option<string>)
    ensures Padded(q, 0) == q && p[..|p|] == p
  {
    var none: string := [];
    assert Repeat(FIRST, 0) == none;
    if q.Some? { assert q.value + none == q.value; }
  }

  lemma NextLetterIs(c: char)
    ensures var pos := Position(Alphabet(), c);
      NextLetter(c) == if pos < |Alphabet()| - 1 then Some(Alphabet()[pos + 1]) else None
  {
  }

  lemma NextOfNothing(p: string)
    requires |p| == 0
    ensures Spelt(p) && Next(p) == None
  {
  }

  lemma NextStep(p: string, i: nat)
    requires i < |p| && Spelt(p[..i + 1])
    ensures p[i] in Alphabet() && Spelt(p[..i])
    ensures Padded(Next(p[..i + 1]), |p| - 1 - i) == match NextLetter(p[i])
      case Some(d) => Some((p[..i] + [d]) + Repeat(FIRST, |p| - 1 - i))
      case None => Padded(Next(p[..i]), |p| - i)
  {
    var q := p[..i + 1];
    assert q[..i] == p[..i] && q[i] == p[i];
    assert q[i] in Alphabet();
    hide Alphabet, NextLetter;
    if NextLetter(p[i]).None? && Next(p[..i]).Some? {
      var r := Next(p[..i]).value;
      assert (r + [FIRST]) + Repeat(FIRST, |p| - 1 - i) == r + Repeat(FIRST, |p| - i);
    }
  }

  /** Nothing of its length lies between a prefix and its successor, and nothing above one without. */
  lemma {:induction false} NextIsNext(p: string, x: string)
    requires Spelt(p) && Spelt(x) && |x| == |p|
    ensures match Next(p) case None => x == p || Less(x, p) case Some(q) => Less(x, q) <==> x == p || Less(x, p)
    decreases |p|
  {
    hide Alphabet, NextLetter, Less;
    if |p| > 0 {
      var p', c, x', d := p[..|p| - 1], p[|p| - 1], x[..|p| - 1], x[|p| - 1];
      assert p == p' + [c] && x == x' + [d] && c in Alphabet() && d in Alphabet();
      NextIsNext(p', x');
      LessLast(x', p', d, c);
      LettersFollow(c, d);
      match NextLetter(c) {
        case Some(e) =>
          LessLast(x', p', d, e);
        case None =>
          match Next(p') {
            case None =>
            case Some(q) => LessLast(x', q, d, FIRST);
          }
      }
    }
  }

  lemma LessLast(a: string, b: string, c: char, d: char)
    requires |a| == |b|
    ensures Less(a + [c], b + [d]) <==> Less(a, b) || (a == b && c < d)
    ensures a + [c] == b + [d] <==> a == b && c == d
  {
    LessAppend(a, b, [c], [d]);
    if a + [c] == b + [d] { assert (a + [c])[..|a|] == (b + [d])[..|a|]; assert (a + [c])[|a|] == (b + [d])[|a|]; }
  }

  datatype Range = Range(lower: string, upper: string)

  ghost predicate Within(r: Range, id: string) { !Less(id, r.lower) && Less(id, r.upper) }

  function RangeOf(p: string): Range
    requires |p| <= LENGTH
  {
    var pad := Repeat(FIRST, LENGTH - |p|);
    Range(p + pad, match Next(p) case Some(q) => q + pad case None => Repeat(LAST, LENGTH) + [FIRST])
  }

  /** The scan finds exactly the ids that start with the prefix, the carry off the left end included. */
  lemma RangeIsPrefix(p: string, id: string)
    requires Spelt(p) && 1 <= |p| <= LENGTH && IsId(id)
    ensures Within(RangeOf(p), id) <==> p <= id
  {
    hide Alphabet, Next, Less;
    var x, u := id[..|p|], id[|p|..];
    var pad := Repeat(FIRST, LENGTH - |p|);
    assert id == x + u;
    NothingBelow(u, LENGTH - |p|);
    LessAppend(x, p, u, pad);
    NextIsNext(p, x);
    Trichotomy(x, p);
    match Next(p)
    case Some(q) => LessAppend(x, q, u, pad);
    case None => Topmost(id);
  }

  lemma Topmost(id: string)
    requires IsId(id)
    ensures Less(id, Repeat(LAST, LENGTH) + [FIRST])
  {
    AtMostLast(id);
    var none: string := [];
    assert id + none == id;
    LessAppend(id, Repeat(LAST, LENGTH), none, [FIRST]);
  }

  lemma {:induction false} AtMostLast(x: string)
    requires Spelt(x)
    ensures x == Repeat(LAST, |x|) || Less(x, Repeat(LAST, |x|))
    decreases |x|
  {
    hide Alphabet;
    if |x| > 0 {
      assert x[0] in Alphabet();
      LettersFollow(x[0], x[0]);
      assert Repeat(LAST, |x|)[1..] == Repeat(LAST, |x| - 1);
      AtMostLast(x[1..]);
      assert x == [x[0]] + x[1..];
      assert Repeat(LAST, |x|) == [LAST] + Repeat(LAST, |x| - 1);
    }
  }

  /** The complaint about what was typed, or the range of exactly the ids that start with it. */
  ghost predicate Looked(typed: string, r: Result<Range, Complaint>) {
    match r
    case Err(e) => Normalized(typed, Err(e))
    case Ok(range) =>
      var p := Uppered(Trimmed(typed));
      Normalized(typed, Ok(p)) && forall id :: IsId(id) ==> (Within(range, id) <==> p <= id)
  }

  /** PrefixRange, from raw user input: the range of the ids that start with what was typed, in any case. */
  method PrefixRange(typed: string) returns (r: Result<Range, Complaint>)
    ensures Looked(typed, r)
  {
    var n := NormalizePrefix(typed);
    match n {
      case Err(e) => return Err(e);
      case Ok(p) =>
        var pad := Repeat(FIRST, LENGTH - |p|);
        var next := Successor(p);
        match next {
          case None => r := Ok(Range(p + pad, Repeat(LAST, LENGTH) + [FIRST]));
          case Some(q) => r := Ok(Range(p + pad, q + pad));
        }
        assert r == Ok(RangeOf(p));
        forall id | IsId(id) ensures Within(RangeOf(p), id) <==> p <= id { RangeIsPrefix(p, id); }
    }
  }
}
