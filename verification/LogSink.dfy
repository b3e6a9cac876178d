/**
 * One attempt's log: the quota sink with its tail ring and error tails, and the per-stream assemblers
 * that feed it. Lines are kept beside their encoded bytes; the encoder is a parameter, of which only
 * the bytes it returns matter.
 */
module LogSink {
  import opened Wrappers
  import opened LogLines

  datatype Stream = Stdout | Stderr | Pulseq

  /** One record of the log; no is its seq number. The marks of the system itself are on the Pulseq stream. */
  datatype Line = Line(ts: int, stream: Stream, no: nat, text: seq<Byte>, event: string, split: bool, dropped: nat)

  datatype Encoded = Encoded(line: Line, bytes: seq<Byte>)

  const TRUNCATED := "truncated"
  const ERROR_TAIL_CAP := 4096
  const DEFAULT_QUOTA := 16777216

  function Size(es: seq<Encoded>): nat {
    if |es| == 0 then 0 else Size(es[..|es| - 1]) + |es[|es| - 1].bytes|
  }

  /** The job's own bytes in these lines, one after the other: what dropped_bytes counts. A mark of the system has none. */
  function Raw(es: seq<Encoded>): seq<Byte> {
    if |es| == 0 then [] else Raw(es[..|es| - 1]) + es[|es| - 1].line.text
  }

  lemma {:induction false} SizeAppend(a: seq<Encoded>, b: seq<Encoded>)
    ensures Size(a + b) == Size(a) + Size(b) && Raw(a + b) == Raw(a) + Raw(b)
  {
    if |b| == 0 {
      assert a + b == a;
    } else {
      assert (a + b)[..|a + b| - 1] == a + b[..|b| - 1];
      SizeAppend(a, b[..|b| - 1]);
    }
  }

  lemma SizeOne(e: Encoded)
    ensures Size([e]) == |e.bytes| && Raw([e]) == e.line.text
  {
    assert [e][..0] == [];
  }

  lemma SizeFrom(es: seq<Encoded>, k: nat)
    requires k < |es|
    ensures Size(es[k..]) == |es[k].bytes| + Size(es[k + 1..])
    ensures |Raw(es[..k + 1])| == |Raw(es[..k])| + |es[k].line.text|
  {
    SizeAppend([es[k]], es[k + 1..]);
    SizeOne(es[k]);
    assert es[k..] == [es[k]] + es[k + 1..];
    assert es[..k + 1][..k] == es[..k];
  }

  // ----- the ring -----

  /** Where the longest suffix that fits the limit starts. */
  ghost predicate LongestFit(es: seq<Encoded>, limit: int, k: nat) {
    && k <= |es| && Size(es[k..]) <= limit
    && forall j :: 0 <= j < k ==> Size(es[j..]) > limit
  }

  class Ring {
    var entries: seq<Encoded>
    var bytes: int
    const limit: int

    ghost predicate Valid()
      reads this
    {
      limit >= 0 && bytes == Size(entries) <= limit
    }

    constructor (limit: int)
      requires limit >= 0
      ensures Valid() && entries == [] && this.limit == limit
    {
      this.limit := limit;
      entries, bytes := [], 0;
    }

    /**
     * push keeps the longest suffix that fits of what it held and the new line, and returns the raw bytes
     * of the lines that went. A line larger than the ring empties it and is itself dropped.
     */
    method Push(e: Encoded) returns (evicted: nat, ghost gone: nat)
      requires Valid()
      modifies this
      ensures Valid()
      ensures LongestFit(old(entries) + [e], limit, gone)
      ensures entries == (old(entries) + [e])[gone..] && evicted == |Raw((old(entries) + [e])[..gone])|
    {
      hide Size, Raw, LongestFit;
      ghost var held := entries;
      ghost var all := held + [e];
      evicted, gone := 0, 0;
      PushStart(held, e);
      while bytes + |e.bytes| > limit && |entries| > 0
        invariant gone <= |held| && entries == held[gone..]
        invariant bytes == Size(entries) && Size(all[gone..]) == bytes + |e.bytes|
        invariant evicted == |Raw(all[..gone])|
        invariant forall j :: 0 <= j < gone ==> Size(all[j..]) > limit
        invariant bytes <= limit
        decreases |entries|
      {
        EvictOne(held, e, gone);
        var oldest := entries[0];
        entries := entries[1..];
        bytes := bytes - |oldest.bytes|;
        evicted := evicted + |oldest.line.text|;
        gone := gone + 1;
      }
      PushEnd(held, e, limit, gone);
      if |e.bytes| > limit {
        evicted := evicted + |e.line.text|;
        gone := gone + 1;
        return;
      }
      entries := entries + [e];
      bytes := bytes + |e.bytes|;
    }
  }

  lemma PushStart(held: seq<Encoded>, e: Encoded)
    ensures held[0..] == held && |Raw((held + [e])[..0])| == 0
    ensures Size((held + [e])[0..]) == Size(held) + |e.bytes|
  {
    SizeAppend(held, [e]);
    SizeOne(e);
    assert (held + [e])[0..] == held + [e];
  }

  lemma EvictOne(held: seq<Encoded>, e: Encoded, gone: nat)
    requires gone < |held|
    ensures var all := held + [e]; var oldest := held[gone];
      && held[gone..][0] == oldest && held[gone..][1..] == held[gone + 1..]
      && Size(held[gone..]) == |oldest.bytes| + Size(held[gone + 1..])
      && Size(all[gone..]) == |oldest.bytes| + Size(all[gone + 1..])
      && |Raw(all[..gone + 1])| == |Raw(all[..gone])| + |oldest.line.text|
  {
    SizeFrom(held, gone);
    SizeFrom(held + [e], gone);
  }

  lemma PushEnd(held: seq<Encoded>, e: Encoded, limit: int, gone: nat)
    requires gone <= |held| && (gone == |held| || Size(held[gone..]) + |e.bytes| <= limit)
    requires forall j :: 0 <= j < gone ==> Size((held + [e])[j..]) > limit
    requires limit >= 0
    ensures var all := held + [e];
      && all[gone..] == held[gone..] + [e] && Size(all[gone..]) == Size(held[gone..]) + |e.bytes|
      && (Size(all[gone..]) <= limit ==> LongestFit(all, limit, gone))
      && (|e.bytes| > limit ==> gone == |held| && LongestFit(all, limit, gone + 1) && all[gone + 1..] == held[gone..]
                                && |Raw(all[..gone + 1])| == |Raw(all[..gone])| + |e.line.text|)
      && (gone == |held| ==> Size(held[gone..]) == 0)
  {
    var all := held + [e];
    assert all[gone..] == held[gone..] + [e];
    SizeAppend(held[gone..], [e]);
    SizeOne(e);
    if gone == |held| { SizeFrom(all, gone); }
  }

  /** Keeping the longest fitting suffix line by line keeps the longest fitting suffix of them all. */
  lemma LongestFitOfAll(es: seq<Encoded>, e: Encoded, limit: int, k: nat, gone: nat)
    requires LongestFit(es, limit, k) && LongestFit(es[k..] + [e], limit, gone)
    ensures LongestFit(es + [e], limit, k + gone)
    ensures (es + [e])[k + gone..] == (es[k..] + [e])[gone..]
    ensures |Raw((es + [e])[..k + gone])| == |Raw(es[..k])| + |Raw((es[k..] + [e])[..gone])|
  {
    var all := es + [e];
    var rest := es[k..] + [e];
    assert all[k..] == rest;
    forall j | 0 <= j <= |rest| ensures all[k + j..] == rest[j..] {}
    forall j | 0 <= j < k + gone ensures Size(all[j..]) > limit {
      if j < k {
        assert all[j..] == es[j..] + [e];
        SizeAppend(es[j..], [e]);
      } else {
        assert all[k + (j - k)..] == rest[j - k..];
      }
    }
    assert all[..k + gone] == es[..k] + rest[..gone];
    SizeAppend(es[..k], rest[..gone]);
  }

  // ----- the error tails -----

  function Newest(said: seq<Byte>, cap: nat): seq<Byte> { if |said| > cap then said[|said| - cap..] else said }

  /** The newest cap bytes of one stream. */
  class TextTail {
    var buf: seq<Byte>
    const cap: nat
    ghost var said: seq<Byte>

    ghost predicate Valid()
      reads this
    {
      cap > 0 && buf == Newest(said, cap)
    }

    constructor (cap: nat)
      requires cap > 0
      ensures Valid() && said == [] && this.cap == cap
    {
      this.cap := cap;
      buf, said := [], [];
    }

    method Add(p: seq<Byte>)
      requires Valid()
      modifies this
      ensures Valid() && said == old(said) + p
    {
      said := said + p;
      buf := buf + p;
      if |buf| > cap { buf := buf[|buf| - cap..]; }
    }
  }

  // ----- the sink -----

  datatype Phase = HeadPhase | TailPhase

  /** The head ends with the first line that brings it to its limit. */
  ghost predicate IsHead(taken: seq<Encoded>, headLimit: int, h: nat) {
    && h <= |taken| && (h < |taken| ==> h >= 1 && Size(taken[..h]) >= headLimit)
    && forall j :: 1 <= j < h ==> Size(taken[..j]) < headLimit
  }

  /** Numbered from one, each line beside its own bytes. */
  ghost predicate Stamped(taken: seq<Encoded>, enc: Line -> seq<Byte>) {
    forall i :: 0 <= i < |taken| ==> taken[i].line.no == i + 1 && taken[i].bytes == enc(taken[i].line) + [NEWLINE]
  }

  /** The job's own pieces among the lines, each with its stream. */
  function Pieces(taken: seq<Encoded>): seq<(Stream, Piece)> {
    if |taken| == 0 then []
    else
      var l := taken[|taken| - 1].line;
      Pieces(taken[..|taken| - 1]) + if l.stream.Pulseq? then [] else [(l.stream, Piece(l.text, l.split))]
  }

  function Tag(stream: Stream, ps: seq<Piece>): seq<(Stream, Piece)> {
    seq(|ps|, i requires 0 <= i < |ps| => (stream, ps[i]))
  }

  lemma PiecesPush(taken: seq<Encoded>, e: Encoded)
    ensures Pieces(taken + [e]) == Pieces(taken) + if e.line.stream.Pulseq? then [] else [(e.line.stream, Piece(e.line.text, e.line.split))]
  {
    assert (taken + [e])[..|taken|] == taken;
  }

  /** What the job said, a newline after every piece: all of it, or its error stream only. */
  function Said(ps: seq<(Stream, Piece)>, errorsOnly: bool): seq<Byte> {
    if |ps| == 0 then []
    else
      var (stream, piece) := ps[|ps| - 1];
      Said(ps[..|ps| - 1], errorsOnly) + if errorsOnly && stream != Stderr then [] else piece.raw + [NEWLINE]
  }

  lemma SaidPush(ps: seq<(Stream, Piece)>, stream: Stream, piece: Piece, errorsOnly: bool)
    ensures Said(ps + [(stream, piece)], errorsOnly)
         == Said(ps, errorsOnly) + if errorsOnly && stream != Stderr then [] else piece.raw + [NEWLINE]
  {
    assert (ps + [(stream, piece)])[..|ps|] == ps;
  }

  /** The sink's accounts beside the lines it was given, where the head ends and where the kept tail starts. */
  datatype Books = Books(
    taken: seq<Encoded>, h: nat, k: nat,
    file: seq<Encoded>, written: int, phase: Phase, entries: seq<Encoded>, dropped: nat, truncated: bool)

  ghost predicate Kept(b: Books, headLimit: int, limit: int) {
    && IsHead(b.taken, headLimit, b.h) && b.file == b.taken[..b.h] && b.written == Size(b.file)
    && match b.phase
       case HeadPhase =>
         && b.h == |b.taken| && (b.h > 0 ==> b.written < headLimit)
         && b.entries == [] && b.dropped == 0 && !b.truncated && b.k == 0
       case TailPhase =>
         && b.h >= 1 && b.written >= headLimit && (b.truncated <==> |b.taken| > b.h)
         && Suffix(b.taken[b.h..], limit, b.k, b.entries, b.dropped)
  }

  /** The ring holds the longest suffix that fits, and dropped is the raw length of the rest. */
  ghost predicate Suffix(after: seq<Encoded>, limit: int, k: nat, entries: seq<Encoded>, dropped: nat) {
    LongestFit(after, limit, k) && entries == after[k..] && dropped == |Raw(after[..k])|
  }

  /** What a finished log holds, given the lines it was handed. */
  ghost predicate Sealed(b: Books, headLimit: int, limit: int, enc: Line -> seq<Byte>, marker: Option<Encoded>) {
    && IsHead(b.taken, headLimit, b.h) && Stamped(b.taken, enc) && (b.truncated <==> |b.taken| > b.h)
    && match marker
       case None => b.h == |b.taken| && (b.h > 0 ==> Size(b.taken) < headLimit) && b.file == b.taken
       case Some(m) =>
         && b.h >= 1 && Size(b.taken[..b.h]) >= headLimit && LongestFit(b.taken[b.h..], limit, b.k)
         && m.line == Line(m.line.ts, Pulseq, |b.taken| + 1, [], TRUNCATED, false, |Raw(b.taken[b.h..][..b.k])|)
         && m.bytes == enc(m.line) + [NEWLINE]
         && b.file == b.taken[..b.h] + [m] + b.taken[b.h..][b.k..]
  }

  /** The unterminated line every writer still holds. */
  ghost function Waiting(assemblers: seq<Assembler>): seq<(Stream, seq<Byte>)>
    reads assemblers
  {
    seq(|assemblers|, i requires 0 <= i < |assemblers| reads assemblers => (assemblers[i].stream, assemblers[i].partial))
  }

  function Remainders(waiting: seq<(Stream, seq<Byte>)>): seq<(Stream, Piece)> {
    if |waiting| == 0 then []
    else
      var (stream, partial) := waiting[|waiting| - 1];
      Remainders(waiting[..|waiting| - 1]) + if partial == [] then [] else [(stream, Piece(partial, true))]
  }

  lemma RemaindersStep(waiting: seq<(Stream, seq<Byte>)>, i: nat)
    ensures Remainders(waiting[..0]) == []
    ensures i < |waiting| ==>
      (Remainders(waiting[..i + 1])
       == Remainders(waiting[..i]) + if waiting[i].1 == [] then [] else [(waiting[i].0, Piece(waiting[i].1, true))])
  {
    if i < |waiting| { assert waiting[..i + 1][..i] == waiting[..i]; }
  }

  function ErrorText(ps: seq<(Stream, Piece)>): seq<Byte> {
    Newest(if Said(ps, true) == [] then Said(ps, false) else Said(ps, true), ERROR_TAIL_CAP)
  }

  lemma TailIs(ps: seq<(Stream, Piece)>)
    ensures var err := Newest(Said(ps, true), ERROR_TAIL_CAP);
      ErrorText(ps) == if |err| == 0 then Newest(Said(ps, false), ERROR_TAIL_CAP) else err
  {
  }

  /** The newest 4096 bytes of what was said to stderr, or of everything when nothing was; a newline ends every piece. */
  lemma ErrorTextIs(ps: seq<(Stream, Piece)>)
    ensures var all := Said(ps, exists i :: 0 <= i < |ps| && ps[i].0 == Stderr);
      |ErrorText(ps)| == (if |all| < 4096 then |all| else 4096) && ErrorText(ps) == all[|all| - |ErrorText(ps)|..]
  {
    SaidAnything(ps);
    hide Said;
  }

  lemma {:induction false} SaidAnything(ps: seq<(Stream, Piece)>)
    ensures Said(ps, true) == [] <==> forall i :: 0 <= i < |ps| ==> ps[i].0 != Stderr
    decreases |ps|
  {
    if |ps| > 0 { SaidAnything(ps[..|ps| - 1]); }
  }

  lemma SaidInOrder(ps: seq<(Stream, Piece)>, a: seq<Byte>, b: seq<Byte>, c: seq<Byte>)
    requires ps == [(Stdout, Piece(a, false)), (Stderr, Piece(b, true)), (Stdout, Piece(c, false))]
    ensures Said(ps, false) == a + [10] + b + [10] + c + [10] && Said(ps, true) == b + [10]
  {
    SaidThree(ps, a, b, c, false);
    SaidThree(ps, a, b, c, true);
    hide Said;
    assert [] + (a + [10]) == a + [10] && [] + [] + (b + [10]) + [] == b + [10];
    assert a + [10] + (b + [10]) + (c + [10]) == a + [10] + b + [10] + c + [10];
  }

  lemma SaidThree(ps: seq<(Stream, Piece)>, a: seq<Byte>, b: seq<Byte>, c: seq<Byte>, errorsOnly: bool)
    requires ps == [(Stdout, Piece(a, false)), (Stderr, Piece(b, true)), (Stdout, Piece(c, false))]
    ensures Said(ps, errorsOnly) == [] + (if errorsOnly then [] else a + [10]) + (b + [10]) + (if errorsOnly then [] else c + [10])
  {
    var none: seq<(Stream, Piece)> := [];
    var one := none + [(Stdout, Piece(a, false))];
    var two := one + [(Stderr, Piece(b, true))];
    assert ps == two + [(Stdout, Piece(c, false))];
    assert Said(none, errorsOnly) == [];
    hide Said;
    SaidPush(none, Stdout, Piece(a, false), errorsOnly);
    SaidPush(one, Stderr, Piece(b, true), errorsOnly);
    SaidPush(two, Stdout, Piece(c, false), errorsOnly);
  }

  lemma SealedCut(b: Books, headLimit: int, limit: int, enc: Line -> seq<Byte>, marker: Option<Encoded>)
    requires Sealed(b, headLimit, limit, enc, marker)
    ensures b.truncated <==> |b.taken| > b.h
  {
  }

  class Sink {
    const enc: Line -> seq<Byte>
    const headLimit: int
    const ring: Ring
    const stderrTail: TextTail
    const combinedTail: TextTail
    var assemblers: seq<Assembler>
    var file: seq<Encoded>
    var no: nat
    var written: int
    var phase: Phase
    var dropped: nat
    var truncated: bool
    /** Every line given to the sink so far, where the head ends, and where the kept tail starts. */
    ghost var taken: seq<Encoded>
    ghost var h: nat
    ghost var k: nat

    ghost function Now(): Books
      reads this, ring
    {
      Books(taken, h, k, file, written, phase, ring.entries, dropped, truncated)
    }

    /** pending lines have been numbered but not written yet. */
    ghost predicate Stands(pending: nat)
      reads this, ring, stderrTail, combinedTail
    {
      && ring.Valid() && stderrTail.Valid() && combinedTail.Valid() && stderrTail != combinedTail
      && no == |taken| + pending && Stamped(taken, enc) && Kept(Now(), headLimit, ring.limit)
    }

    ghost predicate Valid()
      reads this, ring, stderrTail, combinedTail
    {
      && Stands(0) && stderrTail.cap == combinedTail.cap == ERROR_TAIL_CAP
      && combinedTail.said == Said(Pieces(taken), false) && stderrTail.said == Said(Pieces(taken), true)
    }

    /** Every assembler was handed out by Writer, so no two are the same. */
    ghost predicate Handed()
      reads this, assemblers
    {
      && (forall i :: 0 <= i < |assemblers| ==> assemblers[i].sink == this && assemblers[i].Valid())
      && (forall i, j :: 0 <= i < j < |assemblers| ==> assemblers[i] != assemblers[j])
    }

    /** Open: a quarter of the quota for the head, the rest for the ring; no quota means the default one. */
    constructor (enc: Line -> seq<Byte>, asked: int)
      ensures Valid() && taken == [] && assemblers == []
      ensures fresh(ring) && fresh(stderrTail) && fresh(combinedTail)
      ensures this.enc == enc && headLimit + ring.limit == (if asked <= 0 then 16_777_216 else asked)
      ensures headLimit == (headLimit + ring.limit) / 4
    {
      var quota := if asked <= 0 then DEFAULT_QUOTA else asked;
      this.enc := enc;
      assemblers := [];
      headLimit := quota / 4;
      ring := new Ring(quota - quota / 4);
      stderrTail := new TextTail(ERROR_TAIL_CAP);
      combinedTail := new TextTail(ERROR_TAIL_CAP);
      file, no, written, phase, dropped, truncated := [], 0, 0, HeadPhase, 0, false;
      taken, h, k := [], 0, 0;
    }

    method WriteHead(e: Encoded)
      requires ring.Valid() && Kept(Now(), headLimit, ring.limit) && phase.HeadPhase?
      modifies this`taken, this`file, this`written, this`h, this`k, this`phase
      ensures Kept(Now(), headLimit, ring.limit) && taken == old(taken) + [e]
    {
      hide Kept;
      HeadPush(Now(), e, headLimit, ring.limit);
      taken := taken + [e];
      file := file + [e];
      written := written + |e.bytes|;
      h, k := |taken|, 0;
      if written >= headLimit { phase := TailPhase; }
    }

    method WriteTail(e: Encoded)
      requires ring.Valid() && Kept(Now(), headLimit, ring.limit) && phase.TailPhase?
      modifies this`taken, this`truncated, this`dropped, this`k, ring
      ensures ring.Valid() && Kept(Now(), headLimit, ring.limit) && taken == old(taken) + [e]
    {
      hide Kept, LongestFit, Raw, Size;
      ghost var was := Now();
      truncated := true;
      var evicted; ghost var gone;
      evicted, gone := ring.Push(e);
      TailPush(was, e, headLimit, ring.limit, gone);
      taken := taken + [e];
      dropped := dropped + evicted;
      k := k + gone;
    }

    /** write: into the file while the head lasts, into the ring after that. */
    method Write(e: Encoded)
      requires Stands(1) && e.line.no == no && e.bytes == enc(e.line) + [NEWLINE]
      modifies this, ring
      ensures Stands(0) && taken == old(taken) + [e] && no == old(no) && assemblers == old(assemblers)
    {
      hide Kept, Stamped, Ring.Valid;
      StampedPush(taken, e, enc);
      if phase.HeadPhase? { WriteHead(e); } else { WriteTail(e); }
    }

    /** writeLineLocked: number the line, encode it, show it to the error tails, write it. */
    method WriteLine(stream: Stream, raw: seq<Byte>, split: bool)
      requires Valid() && !stream.Pulseq?
      modifies this, ring, stderrTail, combinedTail
      ensures Valid() && Pieces(taken) == Pieces(old(taken)) + [(stream, Piece(raw, split))]
      ensures old(taken) <= taken && |taken| == |old(taken)| + 1 && assemblers == old(assemblers)
    {
      hide Size, Raw, LongestFit, IsHead, Stamped, Pieces, Said, Newest, Kept;
      no := no + 1;
      var ts: int := *;
      var rec := Line(ts, stream, no, raw, "", split, 0);
      var encoded := enc(rec) + [NEWLINE];
      combinedTail.Add(raw + [NEWLINE]);
      if stream.Stderr? { stderrTail.Add(raw + [NEWLINE]); }
      PiecesPush(taken, Encoded(rec, encoded));
      SaidPush(Pieces(taken), stream, Piece(raw, split), false);
      SaidPush(Pieces(taken), stream, Piece(raw, split), true);
      Write(Encoded(rec, encoded));
    }

    /** Emit: the system's own mark, which carries no job bytes. */
    method Emit(event: string)
      requires Valid()
      modifies this, ring
      ensures Valid() && Pieces(taken) == Pieces(old(taken))
      ensures old(taken) <= taken && |taken| == |old(taken)| + 1 && assemblers == old(assemblers)
    {
      hide Size, Raw, LongestFit, IsHead, Stamped, Pieces, Said, Newest, Kept;
      no := no + 1;
      var ts: int := *;
      var rec := Line(ts, Pulseq, no, [], event, false, 0);
      PiecesPush(taken, Encoded(rec, enc(rec) + [NEWLINE]));
      assert Pieces(taken) + [] == Pieces(taken);
      Write(Encoded(rec, enc(rec) + [NEWLINE]));
    }

    /** The writer of one job stream. */
    method Writer(stream: Stream) returns (a: Assembler)
      requires Valid() && Handed() && !stream.Pulseq?
      modifies this`assemblers
      ensures Valid() && Handed() && fresh(a) && a.sink == this && a.stream == stream && a.partial == []
      ensures assemblers == old(assemblers) + [a]
    {
      hide Kept, Stamped, Pieces, Said, Ring.Valid, TextTail.Valid, Newest;
      a := new Assembler(this, stream);
      assemblers := assemblers + [a];
    }

    /** The marker and the surviving tail, once the head limit was reached. */
    method Seal() returns (ghost marker: Option<Encoded>)
      requires Valid()
      modifies this`no, this`file
      ensures Sealed(Now(), headLimit, ring.limit, enc, marker) && combinedTail.Valid() && stderrTail.Valid()
    {
      hide Size, Raw, LongestFit, IsHead, Stamped, Pieces, Said, Newest;
      marker := None;
      assert taken[..|taken|] == taken;
      if phase.TailPhase? {
        no := no + 1;
        var ts: int := *;
        var m := Line(ts, Pulseq, no, [], TRUNCATED, false, dropped);
        marker := Some(Encoded(m, enc(m) + [NEWLINE]));
        file := file + [Encoded(m, enc(m) + [NEWLINE])];
        var i := 0;
        ghost var headed := file;
        while i < |ring.entries|
          invariant 0 <= i <= |ring.entries| && file == headed + ring.entries[..i]
          modifies this`file
        {
          file := file + [ring.entries[i]];
          i := i + 1;
        }
        assert ring.entries[..i] == ring.entries;
      }
    }

    /**
     * Finish: the unterminated remainders in the order of the writers, then the marker and the tail. The
     * text it returns is the newest of what the error stream said, or of everything when it said nothing.
     */
    method Finish() returns (tail: seq<Byte>, size: nat, cut: bool, ghost marker: Option<Encoded>)
      requires Valid() && Handed()
      modifies this, ring, stderrTail, combinedTail, assemblers
      ensures Sealed(Now(), headLimit, ring.limit, enc, marker) && old(taken) <= taken
      ensures assemblers == old(assemblers)
      ensures Pieces(taken) == Pieces(old(taken)) + Remainders(old(Waiting(assemblers)))
      ensures tail == ErrorText(Pieces(taken)) && size == Size(file) && (cut <==> |taken| > h)
    {
      hide Pieces, Size, Kept, Sealed, Stands, Said, ErrorText, Remainders, Newest, IsHead, Stamped, LongestFit, Raw;
      ghost var was := Waiting(assemblers);
      var i := 0;
      RemaindersStep(was, 0);
      assert Pieces(taken) == Pieces(old(taken)) + Remainders(was[..0]);
      while i < |assemblers|
        invariant 0 <= i <= |assemblers| && assemblers == old(assemblers) && Valid() && Handed()
        invariant forall j :: i <= j < |assemblers| ==> assemblers[j].partial == was[j].1
        invariant Pieces(taken) == Pieces(old(taken)) + Remainders(was[..i]) && old(taken) <= taken
      {
        RemaindersStep(was, i);
        assemblers[i].FlushPartial();
        i := i + 1;
      }
      assert was[..i] == was;
      marker := Seal();
      size := MeasureFile();
      TailIs(Pieces(taken));
      tail := if |stderrTail.buf| == 0 then combinedTail.buf else stderrTail.buf;
      cut := truncated;
      SealedCut(Now(), headLimit, ring.limit, enc, marker);
    }

    method MeasureFile() returns (size: nat)
      ensures size == Size(file)
    {
      size := 0;
      for i := 0 to |file|
        invariant size == Size(file[..i])
      {
        assert file[..i + 1][..i] == file[..i];
        size := size + |file[i].bytes|;
      }
      assert file[..|file|] == file;
    }
  }

  lemma StampedPush(taken: seq<Encoded>, e: Encoded, enc: Line -> seq<Byte>)
    requires Stamped(taken, enc) && e.line.no == |taken| + 1 && e.bytes == enc(e.line) + [NEWLINE]
    ensures Stamped(taken + [e], enc)
  {
  }

  lemma HeadGrows(taken: seq<Encoded>, e: Encoded, limit: int)
    requires IsHead(taken, limit, |taken|) && (|taken| > 0 ==> Size(taken) < limit)
    ensures taken[..|taken|] == taken && (taken + [e])[..|taken| + 1] == taken + [e]
    ensures IsHead(taken + [e], limit, |taken| + 1) && Size(taken + [e]) == Size(taken) + |e.bytes|
  {
    hide Size, Raw;
    SizeAppend(taken, [e]);
    SizeOne(e);
    assert taken[..|taken|] == taken;
    assert (taken + [e])[..|taken| + 1] == taken + [e];
    forall j | 1 <= j < |taken| + 1 ensures Size((taken + [e])[..j]) < limit {
      assert (taken + [e])[..j] == taken[..j];
    }
  }

  lemma TailGrows(taken: seq<Encoded>, e: Encoded, limit: int, h: nat)
    requires IsHead(taken, limit, h) && h >= 1 && Size(taken[..h]) >= limit
    ensures IsHead(taken + [e], limit, h) && (taken + [e])[..h] == taken[..h] && (taken + [e])[h..] == taken[h..] + [e]
  {
    assert (taken + [e])[..h] == taken[..h];
    forall j | 1 <= j < h ensures Size((taken + [e])[..j]) < limit {
      assert (taken + [e])[..j] == taken[..j];
    }
  }

  lemma NothingFits(taken: seq<Encoded>, limit: int)
    requires limit >= 0
    ensures taken[|taken|..] == [] && LongestFit(taken[|taken|..], limit, 0)
    ensures |Raw(taken[|taken|..][..0])| == 0 && taken[|taken|..][0..] == []
  {
  }

  lemma HeadPush(b: Books, e: Encoded, headLimit: int, limit: int)
    requires Kept(b, headLimit, limit) && b.phase.HeadPhase? && limit >= 0
    ensures var taken := b.taken + [e]; var written := b.written + |e.bytes|;
      Kept(b.(taken := taken, h := |taken|, k := 0, file := b.file + [e], written := written,
              phase := if written >= headLimit then TailPhase else HeadPhase), headLimit, limit)
  {
    assert b.taken[..|b.taken|] == b.taken;
    HeadGrows(b.taken, e, headLimit);
    NothingFits(b.taken + [e], limit);
  }

  lemma TailPush(b: Books, e: Encoded, headLimit: int, limit: int, gone: nat)
    requires Kept(b, headLimit, limit) && b.phase.TailPhase? && LongestFit(b.entries + [e], limit, gone)
    ensures Kept(b.(taken := b.taken + [e], truncated := true, k := b.k + gone, entries := (b.entries + [e])[gone..],
                    dropped := b.dropped + |Raw((b.entries + [e])[..gone])|), headLimit, limit)
  {
    hide Size, Raw, IsHead, LongestFit, Suffix;
    TailGrows(b.taken, e, headLimit, b.h);
    SuffixPush(b.taken[b.h..], e, limit, b.k, b.entries, b.dropped, gone);
  }

  lemma SuffixPush(after: seq<Encoded>, e: Encoded, limit: int, k: nat, entries: seq<Encoded>, dropped: nat, gone: nat)
    requires Suffix(after, limit, k, entries, dropped) && LongestFit(entries + [e], limit, gone)
    ensures Suffix(after + [e], limit, k + gone, (entries + [e])[gone..], dropped + |Raw((entries + [e])[..gone])|)
  {
    LongestFitOfAll(after, e, limit, k, gone);
  }

  // ----- the assemblers -----

  /** Collects the chunks of one stream into lines. */
  class Assembler {
    const sink: Sink
    const stream: Stream
    var partial: seq<Byte>

    ghost predicate Valid()
      reads this
    {
      |partial| < MAX_FRAGMENT && !stream.Pulseq?
    }

    constructor (sink: Sink, stream: Stream)
      requires !stream.Pulseq?
      ensures Valid() && this.sink == sink && this.stream == stream && partial == []
    {
      this.sink, this.stream := sink, stream;
      partial := [];
    }

    /** Write gives the sink what Feed says, on this stream, and keeps the rest. */
    method Write(p: seq<Byte>)
      requires Valid() && sink.Valid()
      modifies this, sink, sink.ring, sink.stderrTail, sink.combinedTail
      ensures Valid() && sink.Valid() && sink.assemblers == old(sink.assemblers) && old(sink.taken) <= sink.taken
      ensures partial == Feed(old(partial), p).partial
      ensures Pieces(sink.taken) == Pieces(old(sink.taken)) + Tag(stream, Feed(old(partial), p).pieces)
    {
      hide Pieces, Tag, Sink.Valid, Feed, Fill;
      ghost var all := Feed(partial, p);
      ghost var was := Pieces(sink.taken);
      var rest := p;
      var i := IndexNewline(rest);
      while i.Some?
        invariant i == IndexNewline(rest) && Valid() && sink.Valid()
        invariant sink.assemblers == old(sink.assemblers) && old(sink.taken) <= sink.taken
        invariant Feed(partial, rest).partial == all.partial
        invariant Pieces(sink.taken) + Tag(stream, Feed(partial, rest).pieces) == was + Tag(stream, all.pieces)
        decreases |rest|
      {
        FeedStep(partial, rest, stream, Pieces(sink.taken));
        sink.WriteLine(stream, partial + rest[..i.value], false);
        partial := [];
        rest := rest[i.value + 1..];
        i := IndexNewline(rest);
      }
      FeedIsFill(partial, rest);
      while true
        invariant Valid() && sink.Valid()
        invariant sink.assemblers == old(sink.assemblers) && old(sink.taken) <= sink.taken
        invariant Fill(partial, rest).partial == all.partial
        invariant Pieces(sink.taken) + Tag(stream, Fill(partial, rest).pieces) == was + Tag(stream, all.pieces)
        decreases |rest|
      {
        FillStep(partial, rest, stream, Pieces(sink.taken));
        var space := MAX_FRAGMENT - |partial|;
        if space > |rest| { space := |rest|; }
        var filled := partial + rest[..space];
        rest := rest[space..];
        if |filled| < MAX_FRAGMENT {
          partial := filled;
          break;
        }
        sink.WriteLine(stream, filled, true);
        partial := [];
      }
    }

    /** flushPartial: what an unterminated line left behind, marked as split. */
    method FlushPartial()
      requires Valid() && sink.Valid()
      modifies this, sink, sink.ring, sink.stderrTail, sink.combinedTail
      ensures Valid() && sink.Valid() && sink.assemblers == old(sink.assemblers) && old(sink.taken) <= sink.taken
      ensures partial == []
      ensures Pieces(sink.taken)
           == Pieces(old(sink.taken)) + if old(partial) == [] then [] else [(stream, Piece(old(partial), true))]
    {
      hide Pieces, Sink.Valid;
      if |partial| == 0 { return; }
      sink.WriteLine(stream, partial, true);
      partial := [];
    }
  }

  lemma TagCons(stream: Stream, p: Piece, ps: seq<Piece>)
    ensures Tag(stream, [p] + ps) == [(stream, p)] + Tag(stream, ps)
  {
  }

  lemma FeedStep(partial: seq<Byte>, rest: seq<Byte>, stream: Stream, done: seq<(Stream, Piece)>)
    requires |partial| < MAX_FRAGMENT && IndexNewline(rest).Some?
    ensures var i := IndexNewline(rest).value; var tail := Feed([], rest[i + 1..]);
      && Feed(partial, rest).partial == tail.partial
      && done + Tag(stream, Feed(partial, rest).pieces)
      == (done + [(stream, Piece(partial + rest[..i], false))]) + Tag(stream, tail.pieces)
  {
    var i := IndexNewline(rest).value;
    var tail := Feed([], rest[i + 1..]);
    var head := Piece(partial + rest[..i], false);
    assert Feed(partial, rest) == Fed([head] + tail.pieces, tail.partial);
    hide Tag, Feed, IndexNewline;
    TagCons(stream, head, tail.pieces);
    Onto(done, (stream, head), Tag(stream, tail.pieces));
  }

  lemma {:induction false} Onto(done: seq<(Stream, Piece)>, x: (Stream, Piece), more: seq<(Stream, Piece)>)
    ensures done + ([x] + more) == (done + [x]) + more
  {
  }

  lemma FeedIsFill(partial: seq<Byte>, rest: seq<Byte>)
    requires |partial| < MAX_FRAGMENT && IndexNewline(rest).None?
    ensures Feed(partial, rest) == Fill(partial, rest)
  {
  }

  lemma FillStep(partial: seq<Byte>, rest: seq<Byte>, stream: Stream, done: seq<(Stream, Piece)>)
    requires |partial| < MAX_FRAGMENT
    ensures var space := MAX_FRAGMENT - |partial|;
      if space > |rest| then
        && rest[..|rest|] == rest && Fill(partial, rest).partial == partial + rest
        && done + Tag(stream, Fill(partial, rest).pieces) == done
      else
        var tail := Fill([], rest[space..]);
        && Fill(partial, rest).partial == tail.partial
        && done + Tag(stream, Fill(partial, rest).pieces)
        == (done + [(stream, Piece(partial + rest[..space], true))]) + Tag(stream, tail.pieces)
  {
    var space := MAX_FRAGMENT - |partial|;
    if space <= |rest| {
      var tail := Fill([], rest[space..]);
      var head := Piece(partial + rest[..space], true);
      assert Fill(partial, rest) == Fed([head] + tail.pieces, tail.partial);
      hide Tag, Fill;
      TagCons(stream, head, tail.pieces);
      Onto(done, (stream, head), Tag(stream, tail.pieces));
    } else {
      assert rest[..|rest|] == rest && Fill(partial, rest) == Fed([], partial + rest);
      assert done + Tag(stream, []) == done;
    }
  }
}
