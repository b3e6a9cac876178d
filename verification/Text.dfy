/** Text as the language's own library orders, sorts and trims it. */
module Text {
  /** The order of an index on text: byte by byte, a prefix before what extends it. */
  predicate Less(a: string, b: string) {
    |b| > 0 && (|a| == 0 || a[0] < b[0] || (a[0] == b[0] && Less(a[1..], b[1..])))
  }

  lemma {:induction false} Trichotomy(a: string, b: string)
    ensures Less(a, b) ==> !Less(b, a) && a != b
    ensures Less(a, b) || Less(b, a) || a == b
    decreases |a|
  {
    if |a| > 0 && |b| > 0 {
      Trichotomy(a[1..], b[1..]);
      assert a == [a[0]] + a[1..] && b == [b[0]] + b[1..];
    }
  }

  lemma {:induction false} LessTransitive(a: string, b: string, c: string)
    requires Less(a, b) && Less(b, c)
    ensures Less(a, c)
    decreases |a|
  {
    if |a| > 0 && a[0] == b[0] == c[0] { LessTransitive(a[1..], b[1..], c[1..]); }
  }

  predicate AtMost(a: string, b: string) { a == b || Less(a, b) }

  lemma AtMostOrders(a: string, b: string, c: string)
    ensures AtMost(a, b) || AtMost(b, a)
    ensures AtMost(a, b) && AtMost(b, a) ==> a == b
    ensures AtMost(a, b) && AtMost(b, c) ==> AtMost(a, c)
  {
    Trichotomy(a, b);
    if Less(a, b) && Less(b, c) { LessTransitive(a, b, c); }
  }

  // ----- sorting -----

  predicate Ordered(s: seq<string>) { forall i, j :: 0 <= i < j < |s| ==> AtMost(s[i], s[j]) }

  /** sort.Strings. */
  function Sort(s: seq<string>): (r: seq<string>)
    ensures Ordered(r) && multiset(r) == multiset(s)
  {
    if |s| == 0 then []
    else
      assert s == s[..|s| - 1] + [s[|s| - 1]];
      Place(Sort(s[..|s| - 1]), s[|s| - 1])
  }

  function Place(s: seq<string>, x: string): (r: seq<string>)
    requires Ordered(s)
    ensures Ordered(r) && multiset(r) == multiset(s) + multiset{x}
  {
    if |s| == 0 || AtMost(s[|s| - 1], x) then
      PlaceLast(s, x);
      s + [x]
    else
      var last := s[|s| - 1];
      AtMostOrders(last, x, x);
      assert s == s[..|s| - 1] + [last];
      var r := Place(s[..|s| - 1], x);
      PlaceBefore(s[..|s| - 1], x, last, r);
      r + [last]
  }

  lemma PlaceLast(s: seq<string>, x: string)
    requires Ordered(s) && (|s| == 0 || AtMost(s[|s| - 1], x))
    ensures Ordered(s + [x])
  {
    forall i | 0 <= i < |s| ensures AtMost(s[i], x) { AtMostOrders(s[i], s[|s| - 1], x); }
  }

  lemma PlaceBefore(s: seq<string>, x: string, last: string, r: seq<string>)
    requires Ordered(s + [last]) && Ordered(r) && multiset(r) == multiset(s) + multiset{x} && AtMost(x, last)
    ensures Ordered(r + [last])
  {
    forall i | 0 <= i < |r| ensures AtMost(r[i], last) {
      assert r[i] in multiset(r);
      if r[i] != x {
        assert r[i] in multiset(s);
        var j :| 0 <= j < |s| && s[j] == r[i];
        assert (s + [last])[j] == r[i] && (s + [last])[|s|] == last;
      }
    }
  }

  lemma SameNames(s: seq<string>, t: seq<string>)
    requires multiset(s) == multiset(t)
    ensures forall c :: c in s <==> c in t
  {
    forall c ensures c in s <==> c in t {
      assert c in s <==> c in multiset(s);
      assert c in t <==> c in multiset(t);
    }
  }

  // ----- trimming -----

  /** unicode.IsSpace. */
  predicate IsSpace(c: char) {
    c in "\t\n\U{0B}\U{0C}\r \U{85}\U{A0}\U{1680}\U{2028}\U{2029}\U{202F}\U{205F}\U{3000}" || '\U{2000}' <= c <= '\U{200A}'
  }

  function Trimmed(s: string): (t: string)
    ensures |t| <= |s| && (|t| > 0 ==> !IsSpace(t[0]) && !IsSpace(t[|t| - 1]))
    ensures exists i, j :: 0 <= i <= j <= |s| && t == s[i..j] && (forall k :: 0 <= k < |s| && (k < i || j <= k) ==> IsSpace(s[k]))
  {
    if |s| > 0 && IsSpace(s[0]) then
      var t := Trimmed(s[1..]);
      TrimmedFront(s, t);
      t
    else if |s| > 0 && IsSpace(s[|s| - 1]) then
      var t := Trimmed(s[..|s| - 1]);
      TrimmedBack(s, t);
      t
    else
      assert s == s[0..|s|];
      s
  }

  lemma TrimmedFront(s: string, t: string)
    requires |s| > 0 && IsSpace(s[0])
    requires var r := s[1..]; exists i, j :: 0 <= i <= j <= |r| && t == r[i..j] && forall k :: 0 <= k < |r| && (k < i || j <= k) ==> IsSpace(r[k])
    ensures exists i, j :: 0 <= i <= j <= |s| && t == s[i..j] && forall k :: 0 <= k < |s| && (k < i || j <= k) ==> IsSpace(s[k])
  {
    var r := s[1..];
    var i, j :| 0 <= i <= j <= |r| && t == r[i..j] && forall k :: 0 <= k < |r| && (k < i || j <= k) ==> IsSpace(r[k]);
    forall k | 0 <= k < |s| && (k < i + 1 || j + 1 <= k) ensures IsSpace(s[k]) {
      if k > 0 { assert IsSpace(r[k - 1]); }
    }
    assert t == s[i + 1..j + 1];
  }

  lemma TrimmedBack(s: string, t: string)
    requires |s| > 0 && IsSpace(s[|s| - 1])
    requires var r := s[..|s| - 1]; exists i, j :: 0 <= i <= j <= |r| && t == r[i..j] && forall k :: 0 <= k < |r| && (k < i || j <= k) ==> IsSpace(r[k])
    ensures exists i, j :: 0 <= i <= j <= |s| && t == s[i..j] && forall k :: 0 <= k < |s| && (k < i || j <= k) ==> IsSpace(s[k])
  {
    var r := s[..|s| - 1];
    var i, j :| 0 <= i <= j <= |r| && t == r[i..j] && forall k :: 0 <= k < |r| && (k < i || j <= k) ==> IsSpace(r[k]);
    forall k | 0 <= k < |s| && (k < i || j <= k) ensures IsSpace(s[k]) {
      if k < |r| { assert IsSpace(r[k]); }
    }
    assert t == s[i..j];
  }
}
