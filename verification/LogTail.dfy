/** The reader's side of a log: what a finished file shows, its gaps, and polling it while it grows. */
module LogTail {
  import opened Wrappers
  import opened LogLines
  import opened LogSink

  // ----- the finished file -----

  /** The file stays under the quota but for the line that filled the head and the marker. */
  lemma QuotaHolds(b: Books, headLimit: int, limit: int, enc: Line -> seq<Byte>, marker: Option<Encoded>)
    requires Sealed(b, headLimit, limit, enc, marker) && headLimit >= 0 && limit >= 0
    ensures |Bytes(b.file)| <= headLimit + limit
                          + (if b.h > 0 then |b.taken[b.h - 1].bytes| else 0)
                          + (match marker case None => 0 case Some(m) => |m.bytes|)
  {
    BytesSize(b.file);
    hide Bytes;
    match marker
    case None =>
    case Some(m) =>
      var head, last, tail := b.taken[..b.h - 1], b.taken[b.h - 1], b.taken[b.h..][b.k..];
      HeadSize(b.taken, headLimit, b.h);
      hide Size, Raw;
      assert b.taken[..b.h] == head + [last];
      SizeAppend(head, [last]);
      SizeAppend(b.taken[..b.h] + [m], tail);
      SizeAppend(b.taken[..b.h], [m]);
      SizeOne(last);
      SizeOne(m);
  }

  /** What the sink counts is how long the file is. */
  lemma {:induction false} BytesSize(es: seq<Encoded>)
    ensures |Bytes(es)| == Size(es)
    decreases |es|
  {
    if |es| > 0 {
      BytesSize(es[1..]);
      assert es == [es[0]] + es[1..];
      SizeAppend([es[0]], es[1..]);
      SizeOne(es[0]);
    }
  }

  lemma HeadSize(taken: seq<Encoded>, headLimit: int, h: nat)
    requires IsHead(taken, headLimit, h) && h >= 1 && headLimit >= 0
    ensures Size(taken[..h - 1]) <= headLimit
  {
    if h > 1 { assert Size(taken[..h - 1]) < headLimit; }
  }

  /**
   * No byte is unaccounted for: what the job's lines hold is what the head holds, then the bytes the marker
   * counts, then what the kept tail holds.
   */
  lemma NothingVanishes(b: Books, headLimit: int, limit: int, enc: Line -> seq<Byte>, marker: Option<Encoded>)
    requires Sealed(b, headLimit, limit, enc, marker)
    ensures |Raw(b.taken)| == |Raw(b.file)| + match marker case None => 0 case Some(m) => m.line.dropped
    ensures match marker
      case None => Raw(b.taken) == Raw(b.file)
      case Some(m) =>
        exists lost :: |lost| == m.line.dropped && Raw(b.taken) == Raw(b.file[..b.h]) + lost + Raw(b.file[b.h + 1..])
  {
    match marker
    case None =>
    case Some(m) =>
      var head, after := b.taken[..b.h], b.taken[b.h..];
      var lost, kept := after[..b.k], after[b.k..];
      assert b.taken == head + (lost + kept) && b.file == head + [m] + kept;
      assert m.line.text == [] && m.line.dropped == |Raw(lost)|;
      hide *;
      assert b.file[..b.h] == head && b.file[b.h + 1..] == kept;
      RawParts(head, m, lost, kept);
  }

  lemma RawParts(head: seq<Encoded>, m: Encoded, lost: seq<Encoded>, kept: seq<Encoded>)
    requires m.line.text == []
    ensures Raw(head + (lost + kept)) == Raw(head) + Raw(lost) + Raw(kept)
    ensures |Raw(head + [m] + kept)| == |Raw(head)| + |Raw(kept)|
  {
    hide Raw, Size;
    SizeAppend(head, lost + kept);
    SizeAppend(lost, kept);
    SizeAppend(head + [m], kept);
    SizeAppend(head, [m]);
    SizeOne(m);
  }

  /** The ring fits the whole rest of the log exactly when the marker reports no lost line. */
  lemma LinesLostExactlyWhen(b: Books, headLimit: int, limit: int, enc: Line -> seq<Byte>, m: Encoded)
    requires Sealed(b, headLimit, limit, enc, Some(m))
    ensures b.file == b.taken[..b.h] + [m] + b.taken[b.h..] <==> Size(b.taken[b.h..]) <= limit
  {
    var after := b.taken[b.h..];
    assert after[0..] == after;
    assert |after[b.k..]| == |after| - b.k;
    if b.k > 0 {
      assert Size(after[0..]) > limit;
      assert |b.file| < |b.taken[..b.h] + [m] + after|;
    }
  }

  /**
   * The marker is there exactly when some line brought the head to its limit, although the log is called
   * truncated only when another line came after that one: a log that stops at the limit carries a marker
   * that reports nothing lost.
   */
  lemma MarkerExactlyWhen(b: Books, headLimit: int, limit: int, enc: Line -> seq<Byte>, marker: Option<Encoded>)
    requires Sealed(b, headLimit, limit, enc, marker)
    ensures marker.Some? <==> |b.taken| > 0 && Size(b.taken) >= headLimit
    ensures b.truncated <==> |b.taken| > 1 && Size(b.taken[..|b.taken| - 1]) >= headLimit
    ensures marker.Some? && !b.truncated ==> b.file == b.taken + [marker.value] && marker.value.line.dropped == 0
  {
    NothingDropped();
    assert marker.Some? ==> b.k <= |b.taken| - b.h;
    hide Size, Raw, LongestFit;
    var n := |b.taken|;
    assert b.taken[..n] == b.taken;
    match marker
    case None =>
      if n > 1 { assert Size(b.taken[..n - 1]) < headLimit; }
    case Some(m) =>
      PrefixSmaller(b.taken, b.h, n);
      if b.h < n {
        PrefixSmaller(b.taken, b.h, n - 1);
      } else {
        assert b.taken[b.h..] == [];
        assert b.file == b.taken + [m];
        if n > 1 { assert Size(b.taken[..n - 1]) < headLimit; }
      }
  }

  lemma NothingDropped()
    ensures |Raw([])| == 0
  {
  }

  lemma PrefixSmaller(es: seq<Encoded>, j: nat, k: nat)
    requires j <= k <= |es|
    ensures Size(es[..j]) <= Size(es[..k])
  {
    assert es[..k] == es[..j] + es[j..k];
    SizeAppend(es[..j], es[j..k]);
  }

  // ----- the sequence checker -----

  datatype Seen = Nothing | Last(no: int)

  function Gap(seen: Seen, no: int): int {
    match seen
    case Nothing => 0
    case Last(last) => if no <= last then 0 else no - last - 1
  }

  /** The gap is how many numbers lie between the last one and this one; none do when this one comes no later. */
  lemma GapIsBetween(last: int, no: int)
    ensures Gap(Nothing, no) == 0
    ensures no > last ==> last + Gap(Last(last), no) + 1 == no
    ensures no <= last ==> Gap(Last(last), no) == 0
  {
  }

  class SeqCheck {
    var last: int
    var seen: bool

    ghost function State(): Seen
      reads this
    {
      if seen then Last(last) else Nothing
    }

    constructor ()
      ensures State() == Nothing
    {
      last, seen := 0, false;
    }

    method Next(no: int) returns (gap: int, ok: bool)
      modifies this
      ensures State() == Last(no) && gap == Gap(old(State()), no) && (ok <==> gap > 0)
    {
      if !seen {
        last, seen := no, true;
        return 0, false;
      }
      if no <= last {
        last := no;
        return 0, false;
      }
      gap := no - last - 1;
      last := no;
      ok := gap > 0;
    }
  }

  /** The gap reported before each line of a file read in order. */
  function GapAt(file: seq<Encoded>, i: nat): int
    requires i < |file|
  {
    Gap(if i == 0 then Nothing else Last(file[i - 1].line.no), file[i].line.no)
  }

  /** A reader of a whole file, the way the logs command walks one. */
  method Walk(file: seq<Encoded>) returns (gaps: seq<int>)
    ensures |gaps| == |file| && forall i :: 0 <= i < |file| ==> gaps[i] == GapAt(file, i)
  {
    var check := new SeqCheck();
    gaps := [];
    for i := 0 to |file|
      invariant |gaps| == i && forall j :: 0 <= j < i ==> gaps[j] == GapAt(file, j)
      invariant check.State() == if i == 0 then Nothing else Last(file[i - 1].line.no)
      invariant fresh(check)
    {
      var gap, _ := check.Next(file[i].line.no);
      gaps := gaps + [gap];
    }
  }

  /**
   * A finished log shows at most one gap, before its marker, of as many numbers as there were lines after
   * the head. A log without a marker shows none.
   */
  lemma GapOnlyAtTheMarker(b: Books, headLimit: int, limit: int, enc: Line -> seq<Byte>, marker: Option<Encoded>, i: nat)
    requires Sealed(b, headLimit, limit, enc, marker) && i < |b.file|
    ensures GapAt(b.file, i) == if marker.Some? && i == b.h then |b.taken| - b.h else 0
    ensures GapAt(b.file, i) > 0 <==> marker.Some? && i == b.h && b.truncated
  {
    hide Size, Raw, LongestFit;
    match marker
    case None =>
    case Some(m) =>
      assert forall j :: 0 <= j < b.h ==> b.file[j] == b.taken[j];
      assert b.file[b.h] == m;
      if i > b.h {
        KeptIsSuffix(b, headLimit, limit, enc, m, i);
        if i > b.h + 1 { KeptIsSuffix(b, headLimit, limit, enc, m, i - 1); }
      }
  }

  lemma KeptIsSuffix(b: Books, headLimit: int, limit: int, enc: Line -> seq<Byte>, m: Encoded, i: nat)
    requires Sealed(b, headLimit, limit, enc, Some(m)) && b.h < i < |b.file|
    ensures i - 1 + b.k < |b.taken| && b.file[i] == b.taken[i - 1 + b.k] && b.file[i].line.no == i + b.k
  {
    assert b.file[i] == b.taken[b.h..][b.k..][i - b.h - 1];
  }

  // ----- reading a log that is still growing -----

  /** The decoder of one record into whatever it makes of it, the one for a trailing fragment, and what the caller does with each line. */
  datatype Reader<!L> = Reader(decode: seq<Byte> -> Option<L>, fragment: seq<Byte> -> L,
                               blank: seq<Byte> -> bool, take: L -> bool)

  datatype Stop = Drained | Undecodable | Refused

  /** What one read hands over, and how many bytes of the input it is done with. */
  datatype Polled<L> = Polled(given: seq<L>, used: nat, stop: Stop)

  function Poll<L>(r: Reader<L>, s: seq<Byte>): (p: Polled<L>)
    ensures p.used <= |s|
    decreases |s|
  {
    match IndexNewline(s)
    case None => Polled([], 0, Drained)
    case Some(i) =>
      match r.decode(s[..i + 1])
      case None => Polled([], 0, Undecodable)
      case Some(line) =>
        if !r.take(line) then Polled([], 0, Refused)
        else
          var rest := Poll(r, s[i + 1..]);
          Polled([line] + rest.given, i + 1 + rest.used, rest.stop)
  }

  /** The trailing fragment of a drained log whose writer is gone. */
  function Fragment<L>(r: Reader<L>, s: seq<Byte>, allowPartial: bool): seq<L> {
    var p := Poll(r, s);
    var left := s[p.used..];
    if p.stop.Drained? && allowPartial && |left| > 0 && !r.blank(left) && r.take(r.fragment(left))
    then [r.fragment(left)] else []
  }

  /** ReadFrom over the bytes the file has at this moment, from an offset it may not have reached yet. */
  method ReadFrom<L>(r: Reader<L>, content: seq<Byte>, off: nat, allowPartial: bool) returns (given: seq<L>, resume: nat, stop: Stop)
    ensures off > |content| ==> given == [] && resume == off && stop == Drained
    ensures off <= |content| ==> var p := Poll(r, content[off..]);
      && given == p.given + Fragment(r, content[off..], allowPartial)
      && resume == off + p.used
      && (stop.Drained? || p.stop == stop || (allowPartial && p.stop.Drained? && stop.Refused?))
  {
    hide Poll, IndexNewline;
    given, resume := [], off;
    if off > |content| { return given, resume, Drained; }
    ghost var s := content[off..];
    ghost var whole := Poll(r, s);
    assert [] + whole.given == whole.given;
    var chunk := content[off..];
    while true
      invariant off <= resume <= |content| && chunk == s[resume - off..]
      invariant Behind(given, resume - off, Poll(r, chunk), whole)
      decreases |chunk|
    {
      PollStop(r, chunk);
      var i := IndexNewline(chunk);
      if i.None? {
        if allowPartial && |chunk| > 0 && !r.blank(chunk) {
          if !r.take(r.fragment(chunk)) { return given, resume, Refused; }
          given := given + [r.fragment(chunk)];
        }
        return given, resume, Drained;
      }
      var line := r.decode(chunk[..i.value + 1]);
      if line.None? { return given, resume, Undecodable; }
      if !r.take(line.value) { return given, resume, Refused; }
      PollStep(r, chunk, i.value, line.value);
      LinesRegroup(given, line.value, Poll(r, chunk[i.value + 1..]).given);
      given := given + [line.value];
      resume := resume + i.value + 1;
      chunk := chunk[i.value + 1..];
    }
  }

  /** What has been handed over and what is still to come make up the whole read. */
  ghost predicate Behind<L>(given: seq<L>, used: nat, rest: Polled<L>, whole: Polled<L>) {
    given + rest.given == whole.given && used + rest.used == whole.used && rest.stop == whole.stop
  }

  lemma PollStop<L>(r: Reader<L>, s: seq<Byte>)
    ensures match IndexNewline(s)
      case None => Poll(r, s) == Polled([], 0, Drained)
      case Some(i) =>
        match r.decode(s[..i + 1])
        case None => Poll(r, s) == Polled([], 0, Undecodable)
        case Some(line) => !r.take(line) ==> Poll(r, s) == Polled([], 0, Refused)
  {
  }

  /** Reading s, then what is left of the longer file, is reading the longer file. */
  ghost predicate Joined<L>(whole: Polled<L>, a: Polled<L>, b: Polled<L>) {
    whole == Polled(a.given + b.given, a.used + b.used, b.stop)
  }

  lemma JoinedFrom<L>(s: Polled<L>, t: Polled<L>, line: L, n: nat, b: Polled<L>)
    requires Joined(t, s, b)
    ensures Joined(Polled([line] + t.given, n + t.used, t.stop), Polled([line] + s.given, n + s.used, s.stop), b)
  {
    assert [line] + (s.given + b.given) == ([line] + s.given) + b.given;
  }

  /** One more poll after the file grew picks up where the last one stopped: nothing twice, nothing skipped. */
  lemma {:induction false} PollAgain<L>(r: Reader<L>, s: seq<Byte>, t: seq<Byte>)
    requires s <= t
    ensures Joined(Poll(r, t), Poll(r, s), Poll(r, t[Poll(r, s).used..]))
    decreases |s|
  {
    PollStop(r, s);
    PollStop(r, t);
    var found := IndexNewline(s);
    hide Poll, IndexNewline;
    if found.None? {
      NothingYet(r, t);
      return;
    }
    var i := found.value;
    assert t == s + t[|s|..];
    IndexStays(s, t[|s|..]);
    assert t[..i + 1] == s[..i + 1];
    var line := r.decode(s[..i + 1]);
    if line.None? || !r.take(line.value) {
      NothingYet(r, t);
    } else {
      PollStep(r, s, i, line.value);
      PollStep(r, t, i, line.value);
      var a := Poll(r, s[i + 1..]);
      PollAgain(r, s[i + 1..], t[i + 1..]);
      assert t[i + 1 + a.used..] == t[i + 1..][a.used..];
      JoinedFrom(a, Poll(r, t[i + 1..]), line.value, i + 1, Poll(r, t[i + 1..][a.used..]));
    }
  }

  lemma NothingYet<L>(r: Reader<L>, s: seq<Byte>)
    ensures s[0..] == s && [] + Poll(r, s).given == Poll(r, s).given
  {
  }

  lemma LinesRegroup<L>(a: seq<L>, x: L, b: seq<L>)
    ensures a + ([x] + b) == (a + [x]) + b
  {
  }

  lemma PollStep<L>(r: Reader<L>, s: seq<Byte>, i: nat, line: L)
    requires IndexNewline(s) == Some(i) && r.decode(s[..i + 1]) == Some(line) && r.take(line)
    ensures var rest := Poll(r, s[i + 1..]);
      Poll(r, s) == Polled([line] + rest.given, i + 1 + rest.used, rest.stop)
  {
  }

  /** Polls of a file, each at the offset the one before returned. */
  function Follow<L>(r: Reader<L>, snapshots: seq<seq<Byte>>, off: nat): Polled<L> {
    if |snapshots| == 0 then Polled([], off, Drained)
    else
      var before := Follow(r, snapshots[..|snapshots| - 1], off);
      FollowMore(r, before, snapshots[|snapshots| - 1])
  }

  function FollowMore<L>(r: Reader<L>, before: Polled<L>, now: seq<Byte>): Polled<L> {
    if before.used > |now| then before.(stop := Drained)
    else
      var p := Poll(r, now[before.used..]);
      Polled(before.given + p.given, before.used + p.used, p.stop)
  }

  ghost predicate Growing(snapshots: seq<seq<Byte>>) {
    forall i :: 1 <= i < |snapshots| ==> snapshots[i - 1] <= snapshots[i]
  }

  /** One read of what a file holds from an offset on. */
  function OneRead<L>(r: Reader<L>, now: seq<Byte>, off: nat): Polled<L>
    requires off <= |now|
  {
    var p := Poll(r, now[off..]);
    p.(used := off + p.used)
  }

  /**
   * However often an append-only file is polled while it grows, the lines handed over are those one read
   * of the last state hands over, and so is the offset: each complete line once, in order.
   */
  lemma {:induction false} FollowIsOneRead<L>(r: Reader<L>, snapshots: seq<seq<Byte>>, off: nat)
    requires |snapshots| > 0 && Growing(snapshots) && off <= |snapshots[0]|
    ensures off <= |snapshots[|snapshots| - 1]|
    ensures Follow(r, snapshots, off) == OneRead(r, snapshots[|snapshots| - 1], off)
    decreases |snapshots|
  {
    var n := |snapshots|;
    if n == 1 {
      assert snapshots[..0] == [];
      NothingYet(r, snapshots[0][off..]);
    } else {
      var earlier := snapshots[..n - 1];
      assert earlier[n - 2] == snapshots[n - 2];
      FollowIsOneRead(r, earlier, off);
      ReadMore(r, snapshots[n - 2], snapshots[n - 1], off);
    }
  }

  lemma ReadMore<L>(r: Reader<L>, was: seq<Byte>, now: seq<Byte>, off: nat)
    requires was <= now && off <= |was|
    ensures FollowMore(r, OneRead(r, was, off), now) == OneRead(r, now, off)
  {
    hide Poll;
    var p := Poll(r, was[off..]);
    PollAgain(r, was[off..], now[off..]);
    assert now[off..][p.used..] == now[off + p.used..];
  }

  // ----- what a reader of a finished log sees -----

  function Bytes(file: seq<Encoded>): seq<Byte> {
    if |file| == 0 then [] else file[0].bytes + Bytes(file[1..])
  }

  /** The lines of a file as the decoder gives them back. */
  function LinesOf<L>(file: seq<Encoded>, back: Line -> L): (lines: seq<L>)
    ensures |lines| == |file| && forall i :: 0 <= i < |file| ==> lines[i] == back(file[i].line)
  {
    seq(|file|, i requires 0 <= i < |file| => back(file[i].line))
  }

  /** Of every record in the file the decoder gives back what `back` says, and the caller takes it. */
  ghost predicate Recovers<L>(r: Reader<L>, file: seq<Encoded>, back: Line -> L) {
    forall i :: 0 <= i < |file| ==> Recovered(r, file[i], back(file[i].line))
  }

  ghost predicate Recovered<L>(r: Reader<L>, e: Encoded, line: L) {
    |e.bytes| > 0 && IndexNewline(e.bytes) == Some(|e.bytes| - 1) && r.decode(e.bytes) == Some(line) && r.take(line)
  }

  /** Reading the file of a log gives back its lines, and ends where its last whole line ends. */
  lemma {:induction false} TornFileReads<L>(r: Reader<L>, file: seq<Encoded>, torn: seq<Byte>, back: Line -> L)
    requires Recovers(r, file, back) && NEWLINE !in torn
    ensures Poll(r, Bytes(file) + torn) == Polled(LinesOf(file, back), |Bytes(file)|, Drained)
    decreases |file|
  {
    if |file| == 0 {
      assert Bytes(file) + torn == torn;
    } else {
      var e, line, tail := file[0], back(file[0].line), Bytes(file[1..]) + torn;
      assert Bytes(file) + torn == e.bytes + tail;
      assert LinesOf(file, back) == [line] + LinesOf(file[1..], back);
      TornFileReads(r, file[1..], torn, back);
      hide Poll, Bytes, LinesOf;
      LineReadsBack(r, e, line, tail);
    }
  }

  lemma FileReadsBack<L>(r: Reader<L>, file: seq<Encoded>, back: Line -> L)
    requires Recovers(r, file, back)
    ensures Poll(r, Bytes(file)) == Polled(LinesOf(file, back), |Bytes(file)|, Drained)
  {
    TornFileReads(r, file, [], back);
    assert Bytes(file) + [] == Bytes(file);
  }

  /** A last line that was never finished is handed over as a fragment when that is asked for, unless it is blank or refused. */
  lemma FragmentExactly<L>(r: Reader<L>, file: seq<Encoded>, torn: seq<Byte>, allowPartial: bool, back: Line -> L)
    requires Recovers(r, file, back) && NEWLINE !in torn
    ensures Fragment(r, Bytes(file) + torn, allowPartial) ==
      if torn == [] || !allowPartial then [] else if r.blank(torn) then [] else if r.take(r.fragment(torn)) then [r.fragment(torn)] else []
  {
    TornFileReads(r, file, torn, back);
    hide Poll, Bytes;
    assert (Bytes(file) + torn)[|Bytes(file)|..] == torn;
  }

  lemma {:induction false} LineReadsBack<L>(r: Reader<L>, e: Encoded, line: L, tail: seq<Byte>)
    requires Recovered(r, e, line)
    ensures var rest := Poll(r, tail);
      Poll(r, e.bytes + tail) == Polled([line] + rest.given, |e.bytes| + rest.used, rest.stop)
  {
    var s := e.bytes + tail;
    var i: nat := |e.bytes| - 1;
    IndexStays(e.bytes, tail);
    assert s[..i + 1] == e.bytes && s[i + 1..] == tail;
    PollStep(r, s, i, line);
  }

  /** What stands at each place of a finished file: the first h lines, the marker, and the kept suffix. */
  ghost predicate Placed(b: Books, marker: Option<Encoded>) {
    && b.h <= |b.taken| && b.h <= |b.file|
    && (forall i :: 0 <= i < b.h ==> b.file[i] == b.taken[i] && b.file[i].line.no == i + 1)
    && (forall i :: b.h < i < |b.file| ==>
          i - 1 + b.k < |b.taken| && b.file[i] == b.taken[i - 1 + b.k] && b.file[i].line.no == i + b.k)
    && match marker
       case Some(m) =>
         && |b.file| == |b.taken| + 1 - b.k && b.h < |b.file| && b.file[b.h] == m
         && m.line.no == |b.taken| + 1 && m.line.event == "truncated"
       case None => |b.file| == b.h == |b.taken|
  }

  lemma SealedPlaces(b: Books, headLimit: int, limit: int, enc: Line -> seq<Byte>, marker: Option<Encoded>)
    requires Sealed(b, headLimit, limit, enc, marker)
    ensures Placed(b, marker) && forall i :: 0 <= i < |b.file| ==> b.file[i].bytes == enc(b.file[i].line) + [NEWLINE]
  {
    hide LongestFit, Size, Raw;
    SealedLength(b, headLimit, limit, enc, marker);
    assert marker.Some? ==> marker.value.line.event == "truncated" && marker.value.line.no == |b.taken| + 1;
    hide Sealed;
    forall i | 0 <= i < |b.file|
      ensures b.file[i].bytes == enc(b.file[i].line) + [NEWLINE]
      ensures i < b.h ==> b.file[i] == b.taken[i] && b.file[i].line.no == i + 1
      ensures i == b.h ==> marker == Some(b.file[i])
      ensures i > b.h ==> i - 1 + b.k < |b.taken| && b.file[i] == b.taken[i - 1 + b.k] && b.file[i].line.no == i + b.k
    {
      FileLine(b, headLimit, limit, enc, marker, i);
    }
  }

  lemma SealedLength(b: Books, headLimit: int, limit: int, enc: Line -> seq<Byte>, marker: Option<Encoded>)
    requires Sealed(b, headLimit, limit, enc, marker)
    ensures b.h <= |b.taken| && b.h <= |b.file|
    ensures marker.Some? ==> |b.file| == |b.taken| + 1 - b.k && b.h < |b.file| && b.file[b.h] == marker.value
    ensures marker.None? ==> |b.file| == b.h == |b.taken|
  {
    hide Size, Raw;
  }

  /** Every line of the file: from the head, the marker, or the kept tail. */
  lemma FileLine(b: Books, headLimit: int, limit: int, enc: Line -> seq<Byte>, marker: Option<Encoded>, i: nat)
    requires Sealed(b, headLimit, limit, enc, marker) && i < |b.file|
    ensures b.file[i].bytes == enc(b.file[i].line) + [NEWLINE]
    ensures i < b.h ==> i < |b.taken| && b.file[i] == b.taken[i] && b.file[i].line.no == i + 1
    ensures i == b.h ==> marker == Some(b.file[i])
    ensures i > b.h ==> marker.Some? && i - 1 + b.k < |b.taken| && b.file[i] == b.taken[i - 1 + b.k] && b.file[i].line.no == i + b.k
  {
    hide LongestFit, Size, Raw;
    if i > b.h { KeptIsSuffix(b, headLimit, limit, enc, marker.value, i); }
  }
}
