/** Cutting a byte stream into lines: the assembler's writer side and ReadFrom's reader side of a log. */
module LogLines {
  import opened Wrappers

  type Byte = b: int | 0 <= b < 256

  const NEWLINE: Byte := 10
  const MAX_FRAGMENT := 65536

  /** A piece of output the assembler hands to the sink: a whole line, or one cut before its newline. */
  datatype Piece = Piece(raw: seq<Byte>, split: bool)

  /** bytes.IndexByte for the newline. */
  function IndexNewline(s: seq<Byte>): (i: Option<nat>)
    ensures i.Some? ==> i.value < |s| && s[i.value] == NEWLINE && NEWLINE !in s[..i.value]
    ensures i.None? ==> NEWLINE !in s
  {
    if |s| == 0 then None
    else if s[0] == NEWLINE then Some(0)
    else
      match IndexNewline(s[1..])
      case None => assert s == [s[0]] + s[1..]; None
      case Some(i) => assert s[..i + 1] == [s[0]] + s[1..][..i]; Some(i + 1)
  }

  datatype Fed = Fed(pieces: seq<Piece>, partial: seq<Byte>)

  /** What one Write emits and keeps back, given the partial line it starts from. */
  function Feed(partial: seq<Byte>, p: seq<Byte>): Fed
    requires |partial| < MAX_FRAGMENT
    decreases |p|
  {
    match IndexNewline(p)
    case Some(i) =>
      var rest := Feed([], p[i + 1..]);
      Fed([Piece(partial + p[..i], false)] + rest.pieces, rest.partial)
    case None => Fill(partial, p)
  }

  /** The window loop: no newline left, so the line is cut whenever it fills a window. */
  function Fill(partial: seq<Byte>, rest: seq<Byte>): Fed
    requires |partial| < MAX_FRAGMENT
    decreases |rest|
  {
    var space := MAX_FRAGMENT - |partial|;
    if space > |rest| then Fed([], partial + rest)
    else
      var more := Fill([], rest[space..]);
      Fed([Piece(partial + rest[..space], true)] + more.pieces, more.partial)
  }

  /** The bytes a list of pieces stands for: a newline comes back after every unsplit one. */
  function Rejoin(pieces: seq<Piece>): seq<Byte> {
    if |pieces| == 0 then []
    else pieces[0].raw + (if pieces[0].split then [] else [NEWLINE]) + Rejoin(pieces[1..])
  }

  lemma RejoinCons(p: Piece, ps: seq<Piece>)
    ensures Rejoin([p] + ps) == p.raw + (if p.split then [] else [NEWLINE]) + Rejoin(ps)
  {
    assert ([p] + ps)[1..] == ps;
  }

  lemma Glue(a: seq<Byte>, b: seq<Byte>, sep: seq<Byte>, c: seq<Byte>, r: seq<Byte>, m: seq<Byte>)
    requires r + m == [] + c
    ensures (a + b + sep + r) + m == a + (b + sep + c)
  {
    assert (a + b + sep + r) + m == (a + b + sep) + (r + m);
  }

  lemma GlueWrites(p: seq<Byte>, c: seq<Byte>, tail: seq<Byte>, r1: seq<Byte>, m1: seq<Byte>, r2: seq<Byte>, m2: seq<Byte>)
    requires r1 + m1 == p + c && r2 + m2 == m1 + tail
    ensures (r1 + r2) + m2 == p + (c + tail)
  {
    calc {
      (r1 + r2) + m2;
      r1 + (r2 + m2);
      (r1 + m1) + tail;
      p + (c + tail);
    }
  }

  lemma {:induction false} FillLosesNothing(partial: seq<Byte>, rest: seq<Byte>)
    requires |partial| < MAX_FRAGMENT
    ensures var f := Fill(partial, rest); Rejoin(f.pieces) + f.partial == partial + rest
    decreases |rest|
  {
    var space := MAX_FRAGMENT - |partial|;
    if space <= |rest| {
      var b, c := rest[..space], rest[space..];
      FillLosesNothing([], c);
      var more := Fill([], c);
      RejoinCons(Piece(partial + b, true), more.pieces);
      assert rest == b + [] + c;
      hide Fill, Rejoin;
      Glue(partial, b, [], c, Rejoin(more.pieces), more.partial);
    }
  }

  lemma {:induction false} FillKeepsWindows(partial: seq<Byte>, rest: seq<Byte>)
    requires |partial| < MAX_FRAGMENT
    ensures var f := Fill(partial, rest);
      |f.partial| < MAX_FRAGMENT && forall i :: 0 <= i < |f.pieces| ==> f.pieces[i].split && |f.pieces[i].raw| == MAX_FRAGMENT
    decreases |rest|
  {
    if MAX_FRAGMENT - |partial| <= |rest| { FillKeepsWindows([], rest[MAX_FRAGMENT - |partial|..]); }
  }

  /**
   * One Write loses no byte: the pieces with their newlines restored, then the partial line, are the
   * bytes that came in.
   */
  lemma {:induction false} FeedLosesNothing(partial: seq<Byte>, p: seq<Byte>)
    requires |partial| < MAX_FRAGMENT
    ensures var f := Feed(partial, p); Rejoin(f.pieces) + f.partial == partial + p
    decreases |p|
  {
    match IndexNewline(p)
    case None => FillLosesNothing(partial, p);
    case Some(i) =>
      var b, c := p[..i], p[i + 1..];
      FeedLosesNothing([], c);
      var rest := Feed([], c);
      RejoinCons(Piece(partial + b, false), rest.pieces);
      assert p == b + [NEWLINE] + c;
      hide Feed, Rejoin;
      Glue(partial, b, [NEWLINE], c, Rejoin(rest.pieces), rest.partial);
  }

  /** A Write keeps back less than a window and splits only at a full one. */
  lemma {:induction false} FeedKeepsWindows(partial: seq<Byte>, p: seq<Byte>)
    requires |partial| < 65_536
    ensures var f := Feed(partial, p);
      |f.partial| < 65_536 && forall i :: 0 <= i < |f.pieces| && f.pieces[i].split ==> |f.pieces[i].raw| == 65_536
    decreases |p|
  {
    match IndexNewline(p)
    case None => FillKeepsWindows(partial, p);
    case Some(i) => FeedKeepsWindows([], p[i + 1..]);
  }

  /** Writes one after the other. */
  function FeedAll(partial: seq<Byte>, chunks: seq<seq<Byte>>): (f: Fed)
    requires |partial| < MAX_FRAGMENT
    ensures |f.partial| < MAX_FRAGMENT
    decreases |chunks|
  {
    if |chunks| == 0 then Fed([], partial)
    else
      var first := Feed(partial, chunks[0]);
      FeedKeepsWindows(partial, chunks[0]);
      var rest := FeedAll(first.partial, chunks[1..]);
      Fed(first.pieces + rest.pieces, rest.partial)
  }

  function Concat(chunks: seq<seq<Byte>>): seq<Byte> {
    if |chunks| == 0 then [] else chunks[0] + Concat(chunks[1..])
  }

  lemma Regroup(x: seq<Byte>, sep: seq<Byte>, y: seq<Byte>, z: seq<Byte>)
    ensures x + sep + (y + z) == (x + sep + y) + z
  {
  }

  lemma {:induction false} RejoinAppend(a: seq<Piece>, b: seq<Piece>)
    ensures Rejoin(a + b) == Rejoin(a) + Rejoin(b)
  {
    if |a| == 0 {
      assert a + b == b;
    } else {
      var head, tail := a[0], a[1..];
      assert a == [head] + tail && a + b == [head] + (tail + b);
      hide Rejoin;
      RejoinAppend(tail, b);
      RejoinCons(head, tail);
      RejoinCons(head, tail + b);
      Regroup(head.raw, if head.split then [] else [NEWLINE], Rejoin(tail), Rejoin(b));
    }
  }

  /** However a stream is sliced into writes, the pieces and the partial line give it back. */
  lemma {:induction false} StreamLosesNothing(partial: seq<Byte>, chunks: seq<seq<Byte>>)
    requires |partial| < MAX_FRAGMENT
    ensures var f := FeedAll(partial, chunks); Rejoin(f.pieces) + f.partial == partial + Concat(chunks)
    decreases |chunks|
  {
    if |chunks| > 0 {
      var first := Feed(partial, chunks[0]);
      FeedLosesNothing(partial, chunks[0]);
      FeedKeepsWindows(partial, chunks[0]);
      StreamLosesNothing(first.partial, chunks[1..]);
      var rest := FeedAll(first.partial, chunks[1..]);
      RejoinAppend(first.pieces, rest.pieces);
      hide Feed, Rejoin;
      GlueWrites(partial, chunks[0], Concat(chunks[1..]), Rejoin(first.pieces), first.partial, Rejoin(rest.pieces), rest.partial);
    }
  }

  // ----- independence of chunk boundaries -----

  /** The plain newline split of a stream: its complete lines, and what follows the last newline. */
  function Lines(s: seq<Byte>): Fed
    decreases |s|
  {
    match IndexNewline(s)
    case None => Fed([], s)
    case Some(i) =>
      var rest := Lines(s[i + 1..]);
      Fed([Piece(s[..i], false)] + rest.pieces, rest.partial)
  }

  /** Every line of the stream, the unfinished one too, is shorter than a window. */
  predicate ShortLines(s: seq<Byte>)
    decreases |s|
  {
    match IndexNewline(s)
    case None => |s| < MAX_FRAGMENT
    case Some(i) => i < MAX_FRAGMENT && ShortLines(s[i + 1..])
  }

  /** The first newline is where it is. */
  lemma IndexIs(s: seq<Byte>, i: nat)
    requires i < |s| && s[i] == NEWLINE && forall j :: 0 <= j < i ==> s[j] != NEWLINE
    ensures IndexNewline(s) == Some(i)
  {
    var k := IndexNewline(s).value;
    assert forall j :: 0 <= j < k ==> s[..k][j] == s[j];
    assert forall j :: 0 <= j < k ==> s[j] != NEWLINE;
  }

  lemma IndexShift(a: seq<Byte>, b: seq<Byte>)
    requires NEWLINE !in a
    ensures IndexNewline(a + b) == match IndexNewline(b) case None => None case Some(i) => Some(|a| + i)
  {
    match IndexNewline(b)
    case None => assert NEWLINE !in a + b;
    case Some(i) =>
      assert forall j :: 0 <= j < i ==> b[j] == b[..i][j];
      IndexIs(a + b, |a| + i);
  }

  lemma {:induction false} ShortFeed(partial: seq<Byte>, p: seq<Byte>)
    requires NEWLINE !in partial && |partial| < MAX_FRAGMENT && ShortLines(partial + p)
    ensures Feed(partial, p) == Lines(partial + p) && NEWLINE !in Feed(partial, p).partial
    decreases |p|
  {
    IndexShift(partial, p);
    match IndexNewline(p)
    case None =>
    case Some(i) =>
      var head, tail := Piece(partial + p[..i], false), p[i + 1..];
      assert (partial + p)[..|partial| + i] == partial + p[..i];
      assert (partial + p)[|partial| + i + 1..] == tail;
      assert Feed(partial, p) == Fed([head] + Feed([], tail).pieces, Feed([], tail).partial);
      assert Lines(partial + p) == Fed([head] + Lines(tail).pieces, Lines(tail).partial);
      assert ShortLines(tail);
      hide Feed, Lines, ShortLines;
      assert [] + tail == tail;
      ShortFeed([], tail);
  }

  lemma IndexStays(s: seq<Byte>, more: seq<Byte>)
    requires IndexNewline(s).Some?
    ensures IndexNewline(s + more) == IndexNewline(s)
  {
    var i := IndexNewline(s).value;
    assert forall j :: 0 <= j < i ==> s[j] == s[..i][j];
    IndexIs(s + more, i);
  }

  lemma LinesCons(s: seq<Byte>, line: seq<Byte>, tail: seq<Byte>)
    requires NEWLINE !in line && s == line + [NEWLINE] + tail
    ensures Lines(s) == Fed([Piece(line, false)] + Lines(tail).pieces, Lines(tail).partial)
  {
    IndexIs(s, |line|);
    assert s[..|line|] == line && s[|line| + 1..] == tail;
  }

  lemma {:induction false} LinesAppend(s: seq<Byte>, more: seq<Byte>)
    ensures var a := Lines(s); var b := Lines(a.partial + more);
      Lines(s + more) == Fed(a.pieces + b.pieces, b.partial)
    decreases |s|
  {
    match IndexNewline(s)
    case None =>
      assert Lines(s) == Fed([], s);
      hide Lines;
      assert [] + Lines(s + more).pieces == Lines(s + more).pieces;
    case Some(i) =>
      hide Lines, IndexNewline;
      var line, tail := s[..i], s[i + 1..];
      assert s == line + [NEWLINE] + tail;
      assert s + more == line + [NEWLINE] + (tail + more);
      LinesCons(s, line, tail);
      LinesCons(s + more, line, tail + more);
      LinesAppend(tail, more);
      PiecesRegroup(Piece(line, false), Lines(tail).pieces, Lines(Lines(tail).partial + more).pieces);
  }

  lemma PiecesRegroup(x: Piece, a: seq<Piece>, b: seq<Piece>)
    ensures [x] + (a + b) == ([x] + a) + b
  {
  }

  lemma {:induction false} ShortAppend(s: seq<Byte>, more: seq<Byte>)
    ensures ShortLines(s + more) ==> ShortLines(s) && ShortLines(Lines(s).partial + more)
    ensures NEWLINE !in Lines(s).partial && (ShortLines(s) ==> |Lines(s).partial| < MAX_FRAGMENT)
    decreases |s|
  {
    match IndexNewline(s)
    case None => IndexShift(s, more);
    case Some(i) =>
      IndexStays(s, more);
      assert (s + more)[i + 1..] == s[i + 1..] + more;
      ShortAppend(s[i + 1..], more);
  }

  /** When every line is shorter than a window, the pieces do not depend on how the stream was sliced. */
  lemma {:induction false} ChunksDoNotMatter(partial: seq<Byte>, chunks: seq<seq<Byte>>)
    requires NEWLINE !in partial && |partial| < MAX_FRAGMENT && ShortLines(partial + Concat(chunks))
    ensures FeedAll(partial, chunks) == Lines(partial + Concat(chunks))
    decreases |chunks|
  {
    if |chunks| == 0 {
      assert partial + [] == partial;
    } else {
      var tail := Concat(chunks[1..]);
      assert partial + Concat(chunks) == (partial + chunks[0]) + tail;
      LinesAppend(partial + chunks[0], tail);
      ShortAppend(partial + chunks[0], tail);
      ShortFeed(partial, chunks[0]);
      hide Lines, Feed, ShortLines;
      ChunksDoNotMatter(Feed(partial, chunks[0]).partial, chunks[1..]);
    }
  }

  /**
   * The bound is exact: a line written whole with its newline is never cut, so handing over the line
   * first and its newline after gives the same pieces exactly when the line is shorter than a window.
   */
  lemma SliceMattersExactlyWhen(line: seq<Byte>)
    requires NEWLINE !in line
    ensures FeedAll([], [line + [NEWLINE]]) == FeedAll([], [line, [NEWLINE]]) <==> |line| < 65_536
  {
    var whole := line + [NEWLINE];
    FeedKeepsWindows([], line);
    var kept := Feed([], line);
    OneWrite([], whole);
    TwoWrites(line, [NEWLINE]);
    FeedOneLine([], line);
    FeedOneLine(kept.partial, []);
    assert [] + [NEWLINE] == [NEWLINE] && [] + line == line;
    if |line| < MAX_FRAGMENT {
      assert kept == Fed([], line);
      assert line + [] == line && [] + [Piece(line, false)] == [Piece(line, false)];
    } else {
      assert kept.pieces != [];
      assert |kept.pieces + [Piece(kept.partial + [], false)]| > 1;
    }
  }

  lemma FeedOneLine(partial: seq<Byte>, line: seq<Byte>)
    requires |partial| < MAX_FRAGMENT && NEWLINE !in line
    ensures Feed(partial, line + [NEWLINE]) == Fed([Piece(partial + line, false)], [])
  {
    IndexIs(line + [NEWLINE], |line|);
    assert (line + [NEWLINE])[..|line|] == line && (line + [NEWLINE])[|line| + 1..] == [];
    var none: seq<Byte> := [];
    assert none + none == none;
    assert Feed([], none) == Fed([], none);
    assert [Piece(partial + line, false)] + [] == [Piece(partial + line, false)];
  }

  lemma OneWrite(partial: seq<Byte>, p: seq<Byte>)
    requires |partial| < MAX_FRAGMENT
    ensures FeedAll(partial, [p]) == Feed(partial, p)
  {
    FeedKeepsWindows(partial, p);
    assert [p][1..] == [];
    assert Feed(partial, p).pieces + [] == Feed(partial, p).pieces;
  }

  lemma TwoWrites(p: seq<Byte>, q: seq<Byte>)
    ensures |Feed([], p).partial| < MAX_FRAGMENT
    ensures var a := Feed([], p); var b := Feed(a.partial, q); FeedAll([], [p, q]) == Fed(a.pieces + b.pieces, b.partial)
  {
    FeedKeepsWindows([], p);
    OneWrite(Feed([], p).partial, q);
    assert [p, q][1..] == [q];
  }
}
