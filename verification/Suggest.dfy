/** The suggestion for a mistyped name: edit distance over two rows, and the closest known name. */
module Suggest {
  import opened Wrappers
  import opened Text
  import Utf8

  const MAX_DISTANCE := 2

  function Min(x: nat, y: nat): nat { if x < y then x else y }

  // ----- edit scripts -----

  datatype Edit = Keep | Insert(c: char) | Delete | Substitute(c: char)

  /** What a script makes of a text, working from the right end; None when the text runs out or is left over. */
  function Turn(script: seq<Edit>, a: string): Option<string> {
    if |script| == 0 then if a == [] then Some([]) else None
    else
      var before := script[..|script| - 1];
      var edit := script[|script| - 1];
      if edit.Insert? then Append(Turn(before, a), [edit.c])
      else if a == [] then None
      else
        var rest := Turn(before, a[..|a| - 1]);
        if edit.Delete? then rest
        else Append(rest, [if edit.Substitute? then edit.c else a[|a| - 1]])
  }

  function Append(s: Option<string>, t: string): Option<string> {
    match s
    case None => None
    case Some(v) => Some(v + t)
  }

  function Price(e: Edit): nat { if e == Keep then 0 else 1 }

  function Cost(script: seq<Edit>): nat {
    if |script| == 0 then 0 else Cost(script[..|script| - 1]) + Price(script[|script| - 1])
  }

  // ----- the recurrence -----

  function Dist(a: string, b: string): nat
    decreases |a| + |b|
  {
    if |a| == 0 then |b|
    else if |b| == 0 then |a|
    else
      var a', b' := a[..|a| - 1], b[..|b| - 1];
      var cost := if a[|a| - 1] == b[|b| - 1] then 0 else 1;
      Min(Min(Dist(a', b) + 1, Dist(a, b') + 1), Dist(a', b') + cost)
  }

  /** No script is cheaper than the recurrence says. */
  lemma {:induction false} NoneCheaper(script: seq<Edit>, a: string, b: string)
    requires Turn(script, a) == Some(b)
    ensures Dist(a, b) <= Cost(script)
    decreases |script|
  {
    if |script| > 0 {
      var before, edit := script[..|script| - 1], script[|script| - 1];
      var a' := if edit.Insert? then a else a[..|a| - 1];
      var rest := Turn(before, a').value;
      assert !edit.Delete? ==> b[..|b| - 1] == rest;
      assert edit == Keep ==> a[|a| - 1] == b[|b| - 1];
      hide Turn;
      NoneCheaper(before, a', rest);
      OneEdit(a, b);
      hide Dist;
    }
  }

  /** What one edit at the right end can save. */
  lemma {:induction false} OneEdit(a: string, b: string)
    ensures |b| > 0 ==> Dist(a, b) <= Dist(a, b[..|b| - 1]) + 1
    ensures |a| > 0 ==> Dist(a, b) <= Dist(a[..|a| - 1], b) + 1
    ensures |a| > 0 && |b| > 0 ==>
      Dist(a, b) <= Dist(a[..|a| - 1], b[..|b| - 1]) + if a[|a| - 1] == b[|b| - 1] then 0 else 1
  {
  }

  lemma {:induction false} TurnMore(script: seq<Edit>, e: Edit, a: string)
    ensures Cost(script + [e]) == Cost(script) + Price(e)
    ensures Turn(script + [e], a) ==
      if e.Insert? then Append(Turn(script, a), [e.c])
      else if a == [] then None
      else
        var rest := Turn(script, a[..|a| - 1]);
        if e.Delete? then rest else Append(rest, [if e.Substitute? then e.c else a[|a| - 1]])
  {
    assert (script + [e])[..|script|] == script;
  }

  /** A script as cheap as the recurrence says. */
  lemma {:induction false} Cheapest(a: string, b: string) returns (script: seq<Edit>)
    ensures Turn(script, a) == Some(b) && Cost(script) == Dist(a, b)
    decreases |a| + |b|
  {
    if |a| == 0 && |b| == 0 {
      script := [];
    } else {
      var e: Edit;
      var before;
      if |a| == 0 || (|b| > 0 && Dist(a, b) == Dist(a, b[..|b| - 1]) + 1) {
        e := Insert(b[|b| - 1]);
        before := Cheapest(a, b[..|b| - 1]);
      } else if |b| == 0 || Dist(a, b) == Dist(a[..|a| - 1], b) + 1 {
        e := Delete;
        before := Cheapest(a[..|a| - 1], b);
      } else {
        e := if a[|a| - 1] == b[|b| - 1] then Keep else Substitute(b[|b| - 1]);
        before := Cheapest(a[..|a| - 1], b[..|b| - 1]);
      }
      TurnMore(before, e, a);
      assert |b| > 0 ==> b == b[..|b| - 1] + [b[|b| - 1]];
      script := before + [e];
    }
  }

  /** The distance is what the cheapest script costs. */
  lemma DistIsLeastCost(a: string, b: string, d: nat)
    ensures d == Dist(a, b) <==>
      && (exists script :: Turn(script, a) == Some(b) && Cost(script) == d)
      && (forall script :: Turn(script, a) == Some(b) ==> d <= Cost(script))
  {
    var best := Cheapest(a, b);
    forall script | Turn(script, a) == Some(b) ensures Dist(a, b) <= Cost(script) {
      NoneCheaper(script, a, b);
    }
  }

  lemma {:induction false} DistSymmetric(a: string, b: string)
    ensures Dist(a, b) == Dist(b, a)
    decreases |a| + |b|
  {
    if |a| > 0 && |b| > 0 {
      DistSymmetric(a[..|a| - 1], b);
      DistSymmetric(a, b[..|b| - 1]);
      DistSymmetric(a[..|a| - 1], b[..|b| - 1]);
    }
  }

  lemma {:induction false} DistZeroExactlyWhenEqual(a: string, b: string)
    ensures Dist(a, b) == 0 <==> a == b
    decreases |a| + |b|
  {
    if |a| > 0 && |b| > 0 {
      DistZeroExactlyWhenEqual(a[..|a| - 1], b[..|b| - 1]);
      assert a == a[..|a| - 1] + [a[|a| - 1]] && b == b[..|b| - 1] + [b[|b| - 1]];
    }
  }

  /** One script after another, as a single script no dearer than the two. */
  lemma {:induction false} Compose(s: seq<Edit>, t: seq<Edit>, a: string, b: string, c: string) returns (u: seq<Edit>)
    requires Turn(s, a) == Some(b) && Turn(t, b) == Some(c)
    ensures Turn(u, a) == Some(c) && Cost(u) <= Cost(s) + Cost(t)
    decreases |s| + |t|
  {
    if |t| > 0 && t[|t| - 1].Insert? {
      var t', e := t[..|t| - 1], t[|t| - 1];
      var c' := Turn(t', b).value;
      var u' := Compose(s, t', a, b, c');
      TurnMore(u', e, a);
      u := u' + [e];
    } else if |s| > 0 && s[|s| - 1].Delete? {
      var u' := Compose(s[..|s| - 1], t, a[..|a| - 1], b, c);
      TurnMore(u', Delete, a);
      u := u' + [Delete];
    } else if |s| == 0 {
      assert b == [];
      u := [];
    } else {
      u := ComposeBoth(s, t, a, b, c);
    }
  }

  lemma {:induction false} ComposeBoth(s: seq<Edit>, t: seq<Edit>, a: string, b: string, c: string) returns (u: seq<Edit>)
    requires Turn(s, a) == Some(b) && Turn(t, b) == Some(c)
    requires |s| > 0 && !s[|s| - 1].Delete? && (|t| > 0 ==> !t[|t| - 1].Insert?)
    ensures Turn(u, a) == Some(c) && Cost(u) <= Cost(s) + Cost(t)
    decreases |s| + |t|, 0
  {
    var s', x := s[..|s| - 1], s[|s| - 1];
    assert |b| > 0;
    var t', y := t[..|t| - 1], t[|t| - 1];
    var b' := b[..|b| - 1];
    var a' := if x.Insert? then a else a[..|a| - 1];
    assert Turn(s', a') == Some(b');
    var c' := Turn(t', b').value;
    var u' := Compose(s', t', a', b', c');
    if x.Insert? && y.Delete? {
      u := u';
    } else {
      var e := if x.Insert? then Insert(if y.Keep? then x.c else y.c)
               else if y.Keep? then x else y;
      TurnMore(u', e, a);
      u := u' + [e];
    }
  }

  lemma Triangle(a: string, b: string, c: string)
    ensures Dist(a, c) <= Dist(a, b) + Dist(b, c)
  {
    var s := Cheapest(a, b);
    var t := Cheapest(b, c);
    var u := Compose(s, t, a, b, c);
    NoneCheaper(u, a, c);
  }

  lemma DistPrefix(a: string, b: string, i: nat, j: nat)
    requires 1 <= i <= |a| && 1 <= j <= |b|
    ensures Dist(a[..i], b[..j])
         == Min(Min(Dist(a[..i - 1], b[..j]) + 1, Dist(a[..i], b[..j - 1]) + 1),
                Dist(a[..i - 1], b[..j - 1]) + if a[i - 1] == b[j - 1] then 0 else 1)
  {
    assert a[..i][..i - 1] == a[..i - 1] && b[..j][..j - 1] == b[..j - 1];
  }

  /** The first n entries of the row for the first i characters. */
  ghost predicate Row(row: seq<nat>, from: string, to: string, i: nat, n: nat) {
    i <= |from| && n <= |to| + 1 && n <= |row| && forall k :: 0 <= k < n ==> row[k] == Dist(from[..i], to[..k])
  }

  lemma RowMore(above: seq<nat>, row: seq<nat>, from: string, to: string, i: nat, j: nat, entry: nat)
    requires 1 <= i && 1 <= j <= |to| && |above| == |row| == |to| + 1
    requires Row(above, from, to, i - 1, |to| + 1) && Row(row, from, to, i, j)
    requires entry == Min(Min(above[j] + 1, row[j - 1] + 1), above[j - 1] + if from[i - 1] == to[j - 1] then 0 else 1)
    ensures Row(row[j := entry], from, to, i, j + 1)
  {
    DistPrefix(from, to, i, j);
    hide Dist, Min;
  }

  lemma RowStart(row: seq<nat>, from: string, to: string, i: nat)
    requires i <= |from| && |row| > 0 && row[0] == i
    ensures Row(row, from, to, i, 1)
  {
  }

  /** Distance: the rows of the matrix one at a time, two arrays swapped after each. */
  method Distance(from: string, to: string) returns (d: nat)
    ensures d == Dist(from, to)
  {
    if |from| == 0 { return |to|; }
    if |to| == 0 { return |from|; }
    var previous := new nat[|to| + 1];
    var current := new nat[|to| + 1];
    for j := 0 to |to| + 1
      invariant forall k :: 0 <= k < j ==> previous[k] == k
    {
      previous[j] := j;
    }
    assert Row(previous[..], from, to, 0, |to| + 1);
    hide Dist, Min, Row;
    for i := 1 to |from| + 1
      invariant previous != current && previous.Length == current.Length == |to| + 1
      invariant fresh(previous) && fresh(current)
      invariant Row(previous[..], from, to, i - 1, |to| + 1)
    {
      current[0] := i;
      RowStart(current[..], from, to, i);
      for j := 1 to |to| + 1
        invariant Row(previous[..], from, to, i - 1, |to| + 1) && Row(current[..], from, to, i, j)
      {
        var cost := if from[i - 1] == to[j - 1] then 0 else 1;
        var entry: nat := Min(Min(previous[j] + 1, current[j - 1] + 1), previous[j - 1] + cost);
        RowMore(previous[..], current[..], from, to, i, j, entry);
        ghost var row := current[..];
        current[j] := entry;
        assert current[..] == row[j := entry];
      }
      previous, current := current, previous;
    }
    RowEnd(previous[..], from, to);
    d := previous[|to|];
  }

  lemma RowEnd(row: seq<nat>, from: string, to: string)
    requires Row(row, from, to, |from|, |to| + 1)
    ensures row[|to|] == Dist(from, to)
  {
    assert from[..|from|] == from && to[..|to|] == to;
  }

  // ----- the closest known name -----

  function RuneBytes(c: char): nat {
    if c < 0x80 as char then 1 else if c < 0x800 as char then 2 else if c < 0x1_0000 as char then 3 else 4
  }

  /** The length in bytes, which is what the tie break compares. */
  function ByteLen(s: string): nat {
    if |s| == 0 then 0 else ByteLen(s[..|s| - 1]) + RuneBytes(s[|s| - 1])
  }

  /** That is the length of its UTF-8. */
  lemma {:induction false} BytesOf(s: string)
    ensures ByteLen(s) == |Utf8.Encode(s)|
    decreases |s|
  {
    if |s| > 0 {
      var head, last := s[..|s| - 1], s[|s| - 1];
      BytesOf(head);
      assert s == head + [last];
      Utf8.EncodeAppend(head, [last]);
      assert [last][1..] == "";
      assert Utf8.Encode([last]) == Utf8.EncodeOne(last) + [];
    }
  }

  /** A candidate that extends what was written is offered whatever the distance. */
  function Away(lower: string -> string, written: string, candidate: string): nat {
    if lower(written) <= lower(candidate) then 0 else Dist(lower(written), lower(candidate))
  }

  /** So nothing is no distance away but what extends it, and that is the only case the edits do not decide. */
  lemma AwayExactly(lower: string -> string, written: string, candidate: string)
    ensures var w, c := lower(written), lower(candidate);
      if |w| <= |c| && c[..|w|] == w then Away(lower, written, candidate) == 0
      else Away(lower, written, candidate) == Dist(w, c) > 0
  {
    DistZeroExactlyWhenEqual(lower(written), lower(candidate));
    hide Dist;
  }

  /** The order of preference: nearest, then shortest, then first in the alphabet. */
  ghost predicate Preferred(lower: string -> string, written: string, x: string, y: string) {
    var dx, dy := Away(lower, written, x), Away(lower, written, y);
    dx < dy || (dx == dy && (ByteLen(x) < ByteLen(y) || (ByteLen(x) == ByteLen(y) && AtMost(x, y))))
  }

  ghost predicate NoneNear(lower: string -> string, written: string, known: seq<string>) {
    forall name :: name in known ==> Away(lower, written, name) > 2
  }

  /** What is suggested: nothing, or the first in the order of preference among those near enough. */
  ghost predicate Suggested(lower: string -> string, written: string, known: seq<string>, r: string) {
    if written == "" || written in known || NoneNear(lower, written, known)
    then r == ""
    else
      && r in known && Away(lower, written, r) <= 2
      && forall c :: c in known ==> Preferred(lower, written, r, c)
  }

  /** There is one answer, whatever order the known names come in and however often each is repeated. */
  lemma OrderDoesNotMatter(lower: string -> string, written: string, known: seq<string>, shuffled: seq<string>, r: string, q: string)
    requires forall c :: c in known <==> c in shuffled
    requires Suggested(lower, written, known, r) && Suggested(lower, written, shuffled, q)
    ensures r == q
  {
    AtMostOrders(r, q, q);
  }

  ghost predicate Best(lower: string -> string, written: string, seen: seq<string>, best: string, distance: nat) {
    if distance > MAX_DISTANCE then
      distance == MAX_DISTANCE + 1 && best == "" && NoneNear(lower, written, seen)
    else
      && best in seen && distance == Away(lower, written, best)
      && forall c :: c in seen ==> Preferred(lower, written, best, c)
  }

  method Closest(lower: string -> string, written: string, known: seq<string>) returns (best: string)
    ensures Suggested(lower, written, known, best)
  {
    if written == "" || |known| == 0 { return ""; }
    var lowered := lower(written);
    var candidates := Sort(known);
    SameNames(known, candidates);
    var bestDistance: nat := MAX_DISTANCE + 1;
    best := "";
    BestNone(lower, written);
    hide Dist, AtMost, ByteLen, Best, Ordered;
    for i := 0 to |candidates|
      invariant written !in candidates[..i]
      invariant Best(lower, written, candidates[..i], best, bestDistance)
    {
      var candidate := candidates[i];
      assert candidates[..i + 1] == candidates[..i] + [candidate];
      if candidate == written { return ""; }
      var name := lower(candidate);
      var distance := Distance(lowered, name);
      if lowered <= name { distance := 0; }
      assert distance == Away(lower, written, candidate);
      BestMore(lower, written, candidates, i, best, bestDistance);
      if distance > MAX_DISTANCE { continue; }
      if distance < bestDistance || (distance == bestDistance && ByteLen(candidate) < ByteLen(best)) {
        best, bestDistance := candidate, distance;
      }
    }
    assert candidates[..|candidates|] == candidates;
    BestOfAll(lower, written, known, candidates, best, bestDistance);
  }

  lemma BestNone(lower: string -> string, written: string)
    ensures Best(lower, written, [], "", MAX_DISTANCE + 1)
  {
  }

  lemma BestOfAll(lower: string -> string, written: string, known: seq<string>, candidates: seq<string>, best: string, distance: nat)
    requires (forall c :: c in known <==> c in candidates) && written !in candidates && written != ""
    requires Best(lower, written, candidates, best, distance)
    ensures Suggested(lower, written, known, best)
  {
  }

  lemma BestMore(lower: string -> string, written: string, candidates: seq<string>, i: nat, best: string, distance: nat)
    requires Ordered(candidates) && i < |candidates| && Best(lower, written, candidates[..i], best, distance)
    ensures var c := candidates[i]; var d := Away(lower, written, c);
      Best(lower, written, candidates[..i] + [c],
           if d <= MAX_DISTANCE && (d < distance || (d == distance && ByteLen(c) < ByteLen(best))) then c else best,
           if d <= MAX_DISTANCE && (d < distance || (d == distance && ByteLen(c) < ByteLen(best))) then d else distance)
  {
    var c := candidates[i];
    AtMostOrders(c, c, c);
    if distance <= MAX_DISTANCE {
      var k :| 0 <= k < i && candidates[..i][k] == best;
      assert AtMost(candidates[k], candidates[i]);
    }
    forall e | e in candidates[..i] ensures Preferred(lower, written, c, e) || !Preferred(lower, written, c, best)
                                            || !Preferred(lower, written, best, e) {
      AtMostOrders(c, best, e);
    }
  }
}
