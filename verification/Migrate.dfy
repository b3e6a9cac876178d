/** Bringing a database up to date: the migration set, its ledger and the version fence, with many processes at once. */
module Migrate {
  import opened Wrappers

  datatype Migration = Migration(version: int, name: string, checksum: string, sql: string)

  /** A row of schema_migrations, which is kept in version order. */
  datatype Row = Row(version: int, checksum: string)

  function RowOf(m: Migration): Row { Row(m.version, m.checksum) }

  function RowsOf(ms: seq<Migration>): (rows: seq<Row>)
    ensures |rows| == |ms| && forall i :: 0 <= i < |ms| ==> rows[i] == RowOf(ms[i])
  {
    seq(|ms|, i requires 0 <= i < |ms| => RowOf(ms[i]))
  }

  /** Versions from one upwards with no gaps and no repeats. */
  ghost predicate Numbered(all: seq<Migration>) { forall i :: 0 <= i < |all| ==> all[i].version == i + 1 }

  // ----- loading the set -----

  datatype Lost = Twice(version: int) | Missing(version: int)

  /** Inserting where sort.SliceStable would leave it: after its equals. */
  function Place(sorted: seq<Migration>, m: Migration): (r: seq<Migration>)
    ensures multiset(r) == multiset(sorted) + multiset{m}
  {
    if |sorted| == 0 || sorted[|sorted| - 1].version <= m.version then sorted + [m]
    else
      assert sorted == sorted[..|sorted| - 1] + [sorted[|sorted| - 1]];
      Place(sorted[..|sorted| - 1], m) + [sorted[|sorted| - 1]]
  }

  function Sorted(files: seq<Migration>): (r: seq<Migration>)
    ensures multiset(r) == multiset(files)
  {
    if |files| == 0 then []
    else
      assert files == files[..|files| - 1] + [files[|files| - 1]];
      Place(Sorted(files[..|files| - 1]), files[|files| - 1])
  }

  ghost predicate Ascends(ms: seq<Migration>) {
    forall i, j :: 0 <= i < j < |ms| ==> ms[i].version <= ms[j].version
  }

  lemma {:induction false} PlaceAscends(sorted: seq<Migration>, m: Migration)
    requires Ascends(sorted)
    ensures Ascends(Place(sorted, m))
    ensures forall x :: x in Place(sorted, m) <==> x in sorted || x == m
    decreases |sorted|
  {
    if |sorted| > 0 && sorted[|sorted| - 1].version > m.version {
      PlaceAscends(sorted[..|sorted| - 1], m);
      var r := Place(sorted[..|sorted| - 1], m);
      forall i | 0 <= i < |r| ensures r[i].version <= sorted[|sorted| - 1].version { assert r[i] in r; }
      assert sorted == sorted[..|sorted| - 1] + [sorted[|sorted| - 1]];
    }
  }

  lemma {:induction false} SortedAscends(files: seq<Migration>)
    ensures Ascends(Sorted(files))
    decreases |files|
  {
    if |files| > 0 {
      SortedAscends(files[..|files| - 1]);
      PlaceAscends(Sorted(files[..|files| - 1]), files[|files| - 1]);
    }
  }

  /**
   * What loading answers: the files in their order, a number that two of them claim, or the first number that
   * none of them has. A file numbered 0000 is put before all others and found out of step there: whatever
   * else is carried, 0001 is then called missing.
   */
  ghost predicate Loaded(files: seq<Migration>, r: Result<seq<Migration>, Lost>) {
    && ((exists m :: m in files && m.version < 1) ==> r == Err(Missing(1)))
    && match r
       case Ok(all) => Numbered(all) && multiset(all) == multiset(files)
       case Err(Twice(v)) => exists m, n :: m in files && n in files && m.version == n.version == v && multiset{m, n} <= multiset(files)
       case Err(Missing(v)) =>
         && (!exists all :: multiset(all) == multiset(files) && Numbered(all))
         && ((forall m :: m in files ==> m.version >= 1) ==> FirstLacking(files, v))
  }

  ghost predicate FirstLacking(files: seq<Migration>, v: int) {
    && (forall m :: m in files ==> m.version != v)
    && forall u :: 1 <= u < v ==> IsCarried(files, u)
  }

  ghost predicate IsCarried(files: seq<Migration>, version: int) { exists m :: m in files && m.version == version }

  /** loadMigrations: order the files by number, then insist on one of each. */
  method LoadMigrations(files: seq<Migration>) returns (r: Result<seq<Migration>, Lost>)
    ensures Loaded(files, r)
  {
    hide Sorted;
    var all := Sorted(files);
    SortedAscends(files);
    SameMembers(all, files);
    for i := 0 to |all|
      invariant forall j :: 0 <= j < i ==> all[j].version == j + 1
    {
      var m := all[i];
      if m.version == i + 1 { continue; }
      if i > 0 && m.version == all[i - 1].version {
        TwoOfThem(all, i);
        NoneBelowOne(all, files);
        return Err(Twice(m.version));
      }
      NoNumbering(all, files, i);
      OutOfStep(all, files, i);
      return Err(Missing(i + 1));
    }
    NoneBelowOne(all, files);
    r := Ok(all);
  }

  lemma SameMembers(all: seq<Migration>, files: seq<Migration>)
    requires multiset(all) == multiset(files)
    ensures forall m :: m in all <==> m in files
  {
    assert forall m :: m in all <==> m in multiset(all);
    assert forall m :: m in files <==> m in multiset(files);
  }

  lemma NoneBelowOne(all: seq<Migration>, files: seq<Migration>)
    requires Ascends(all) && (forall m :: m in all <==> m in files) && (|all| > 0 ==> all[0].version >= 1)
    ensures forall m :: m in files ==> m.version >= 1
  {
    forall m | m in files ensures m.version >= 1 {
      var j :| 0 <= j < |all| && all[j] == m;
      assert all[0].version <= all[j].version;
    }
  }

  /** The first number out of step: the one expected there is carried by no file, unless something comes before 0001. */
  lemma OutOfStep(all: seq<Migration>, files: seq<Migration>, i: nat)
    requires Ascends(all) && (forall m :: m in all <==> m in files) && i < |all|
    requires (forall j :: 0 <= j < i ==> all[j].version == j + 1) && all[i].version != i + 1
    requires i > 0 ==> all[i].version != all[i - 1].version
    ensures (exists m :: m in files && m.version < 1) ==> i == 0
    ensures (forall m :: m in files ==> m.version >= 1) ==> FirstLacking(files, i + 1)
  {
    if i > 0 { NoneBelowOne(all, files); }
    if forall m :: m in files ==> m.version >= 1 {
      assert all[i] in files;
      if i > 0 { assert all[i - 1].version <= all[i].version; }
      forall m | m in files ensures m.version != i + 1 {
        var j :| 0 <= j < |all| && all[j] == m;
        if j >= i { assert j == i || all[i].version <= all[j].version; }
      }
      forall u | 1 <= u < i + 1 ensures IsCarried(files, u) { assert all[u - 1] in files; }
    }
  }

  lemma TwoOfThem(all: seq<Migration>, i: nat)
    requires 0 < i < |all|
    ensures multiset{all[i - 1], all[i]} <= multiset(all)
    ensures all[i - 1] == all[i] ==> multiset(all)[all[i]] >= 2
  {
    assert all == all[..i - 1] + [all[i - 1], all[i]] + all[i + 1..];
    assert multiset([all[i - 1], all[i]]) == multiset{all[i - 1], all[i]};
  }

  lemma SameFiles(all: seq<Migration>, files: seq<Migration>, m: Migration, n: Migration)
    requires multiset(all) == multiset(files) && m in all && n in all
    ensures m in files && n in files
  {
    assert m in multiset(all) && n in multiset(all);
  }

  /** The first number out of step shows that no order of the files is a numbering. */
  lemma NoNumbering(all: seq<Migration>, files: seq<Migration>, i: nat)
    requires multiset(all) == multiset(files) && Ascends(all) && i < |all| && all[i].version != i + 1
    ensures !exists other :: multiset(other) == multiset(files) && Numbered(other)
  {
    if other :| multiset(other) == multiset(files) && Numbered(other) { SortingNumbers(all, other); }
  }

  lemma OneEach(other: seq<Migration>, m: Migration, n: Migration)
    requires Numbered(other) && m in other && n in other && m.version == n.version
    ensures m == n && multiset(other)[m] == 1 && 1 <= m.version <= |other|
  {
    var i :| 0 <= i < |other| && other[i] == m;
    assert other == other[..i] + [m] + other[i + 1..];
    forall x | x in other[..i] || x in other[i + 1..] ensures x != m {
      if x in other[..i] {
        var a :| 0 <= a < i && other[a] == x;
        assert other[a].version == a + 1;
      } else {
        var a :| 0 <= a < |other[i + 1..]| && other[i + 1..][a] == x;
        assert other[i + 1 + a].version == i + 2 + a;
      }
    }
    assert multiset(other) == multiset(other[..i]) + multiset{m} + multiset(other[i + 1..]);
    assert m !in multiset(other[..i]) && m !in multiset(other[i + 1..]);
  }

  /** Ordering files that are a numbering in some order numbers them. */
  lemma SortingNumbers(all: seq<Migration>, other: seq<Migration>)
    requires multiset(all) == multiset(other) && Ascends(all) && Numbered(other)
    ensures Numbered(all)
  {
    assert |all| == |multiset(all)| == |other|;
    forall i | 0 <= i < |all| ensures 1 <= all[i].version <= |all| {
      SameFiles(all, other, all[i], all[i]);
      OneEach(other, all[i], all[i]);
    }
    forall i | 1 <= i < |all| ensures all[i - 1].version < all[i].version {
      assert all[i - 1].version <= all[i].version;
      if all[i - 1].version == all[i].version {
        SameFiles(all, other, all[i - 1], all[i]);
        TwoOfThem(all, i);
        OneEach(other, all[i - 1], all[i]);
      }
    }
    forall i | 0 <= i < |all| ensures all[i].version == i + 1 {
      Climbing(all, i);
    }
  }

  lemma {:induction false} Climbing(all: seq<Migration>, i: nat)
    requires i < |all| && forall j :: 1 <= j < |all| ==> all[j - 1].version < all[j].version
    requires forall j :: 0 <= j < |all| ==> 1 <= all[j].version <= |all|
    ensures all[i].version == i + 1
  {
    AtLeast(all, i);
    AtMost(all, i);
  }

  lemma {:induction false} AtLeast(all: seq<Migration>, i: nat)
    requires i < |all| && 1 <= all[0].version && forall j :: 1 <= j < |all| ==> all[j - 1].version < all[j].version
    ensures all[i].version >= i + 1
  {
    if i > 0 { AtLeast(all, i - 1); }
  }

  lemma {:induction false} AtMost(all: seq<Migration>, i: nat)
    requires i < |all| && all[|all| - 1].version <= |all| && forall j :: 1 <= j < |all| ==> all[j - 1].version < all[j].version
    ensures all[i].version <= i + 1
    decreases |all| - i
  {
    if i < |all| - 1 {
      AtMost(all, i + 1);
      assert all[i + 1 - 1].version < all[i + 1].version;
    }
  }

  // ----- what is applied and what is not -----

  function Highest(rows: seq<Row>): int {
    if |rows| == 0 then 0
    else
      var before := Highest(rows[..|rows| - 1]);
      if rows[|rows| - 1].version > before then rows[|rows| - 1].version else before
  }

  predicate Holds(rows: seq<Row>, version: int) { exists i :: 0 <= i < |rows| && rows[i].version == version }

  function Pending(all: seq<Migration>, rows: seq<Row>): seq<Migration> {
    if |all| == 0 then []
    else
      Pending(all[..|all| - 1], rows)
      + if Holds(rows, all[|all| - 1].version) then [] else [all[|all| - 1]]
  }

  function MaxVersion(all: seq<Migration>): int { if |all| == 0 then 0 else all[|all| - 1].version }

  datatype Refusal = TooNew | Unknown(version: int) | Edited(version: int) | Below(version: int) | Waited | Failed(version: int)

  function Carried(all: seq<Migration>, version: int): Option<Migration> {
    if |all| == 0 then None
    else if all[|all| - 1].version == version then Some(all[|all| - 1])
    else Carried(all[..|all| - 1], version)
  }

  function CheckRows(all: seq<Migration>, rows: seq<Row>): Option<Refusal> {
    if |rows| == 0 then None
    else
      match Carried(all, rows[0].version)
      case None => Some(Unknown(rows[0].version))
      case Some(m) => if m.checksum != rows[0].checksum then Some(Edited(m.version)) else CheckRows(all, rows[1..])
  }

  function CheckOrder(waiting: seq<Migration>, highest: int): Option<Refusal> {
    if |waiting| == 0 then None
    else if waiting[0].version < highest then Some(Below(waiting[0].version))
    else CheckOrder(waiting[1..], highest)
  }

  function CheckApplied(all: seq<Migration>, rows: seq<Row>): Option<Refusal> {
    match CheckRows(all, rows)
    case Some(r) => Some(r)
    case None => CheckOrder(Pending(all, rows), Highest(rows))
  }

  lemma {:induction false} HighestOf(chain: seq<Migration>, m: nat)
    requires Numbered(chain) && m <= |chain|
    ensures Highest(RowsOf(chain[..m])) == m
    decreases m
  {
    if m > 0 {
      HighestOf(chain, m - 1);
      assert RowsOf(chain[..m])[..m - 1] == RowsOf(chain[..m - 1]);
    }
  }

  lemma HoldsOf(chain: seq<Migration>, m: nat, v: int)
    requires Numbered(chain) && m <= |chain|
    ensures Holds(RowsOf(chain[..m]), v) <==> 1 <= v <= m
  {
    if 1 <= v <= m { assert RowsOf(chain[..m])[v - 1].version == v; }
  }

  lemma PendingMore(all: seq<Migration>, last: Migration, rows: seq<Row>)
    ensures Pending(all + [last], rows) == Pending(all, rows) + if Holds(rows, last.version) then [] else [last]
  {
    assert (all + [last])[..|all|] == all;
  }

  lemma PendingStep(chain: seq<Migration>, k: nat, m: nat)
    requires Numbered(chain) && k < |chain| && m <= |chain|
    requires Pending(chain[..k], RowsOf(chain[..m])) == if m < k then chain[m..k] else []
    ensures Pending(chain[..k + 1], RowsOf(chain[..m])) == if m < k + 1 then chain[m..k + 1] else []
  {
    HoldsOf(chain, m, k + 1);
    assert chain[k].version == k + 1;
    hide Pending, RowsOf, Holds, Numbered;
    PendingMore(chain[..k], chain[k], RowsOf(chain[..m]));
    assert chain[..k + 1] == chain[..k] + [chain[k]];
    if m < k { assert chain[m..k + 1] == chain[m..k] + [chain[k]]; }
  }

  lemma {:induction false} PendingOf(chain: seq<Migration>, k: nat, m: nat)
    requires Numbered(chain) && k <= |chain| && m <= |chain|
    ensures Pending(chain[..k], RowsOf(chain[..m])) == if m < k then chain[m..k] else []
    decreases k
  {
    hide *;
    if k == 0 {
      assert chain[..0] == [];
      NothingPends(RowsOf(chain[..m]));
    } else {
      PendingOf(chain, k - 1, m);
      PendingStep(chain, k - 1, m);
    }
  }

  lemma NothingPends(rows: seq<Row>)
    ensures Pending([], rows) == []
  {
  }

  lemma {:induction false} CarriedOf(chain: seq<Migration>, k: nat, v: int)
    requires Numbered(chain) && k <= |chain|
    ensures Carried(chain[..k], v) == if 1 <= v <= k then Some(chain[v - 1]) else None
    decreases k
  {
    if k > 0 {
      CarriedOf(chain, k - 1, v);
      assert chain[..k][..k - 1] == chain[..k - 1];
    }
  }

  lemma {:induction false} CheckRowsOf(chain: seq<Migration>, k: nat, m: nat, i: nat)
    requires Numbered(chain) && k <= |chain| && i <= m <= |chain|
    ensures CheckRows(chain[..k], RowsOf(chain[..m])[i..]) == if m <= k || i == m then None else Some(Unknown(if i <= k then k + 1 else i + 1))
    decreases m - i
  {
    if i < m {
      CarriedOf(chain, k, i + 1);
      CheckRowsOf(chain, k, m, i + 1);
      var rows := RowsOf(chain[..m]);
      assert rows[i..][1..] == rows[i + 1..] && rows[i..][0] == RowOf(chain[i]);
    }
  }

  // ----- exactly when a ledger is accepted -----

  /** The build does not carry what this row records, or not as the same file. */
  ghost predicate Misfit(all: seq<Migration>, row: Row) {
    match Carried(all, row.version)
    case None => true
    case Some(m) => m.checksum != row.checksum
  }

  ghost function MisfitSaid(all: seq<Migration>, row: Row): Refusal {
    if Carried(all, row.version).None? then Unknown(row.version) else Edited(row.version)
  }

  /** Not run, and numbered below something that has been: nothing is numbered below 0. */
  ghost predicate Late(rows: seq<Row>, m: Migration) {
    !Holds(rows, m.version) && (m.version < 0 || exists i :: 0 <= i < |rows| && rows[i].version > m.version)
  }

  ghost predicate RowsFit(all: seq<Migration>, rows: seq<Row>) { forall i :: 0 <= i < |rows| ==> !Misfit(all, rows[i]) }

  ghost predicate NoHole(all: seq<Migration>, rows: seq<Row>) { forall i :: 0 <= i < |all| ==> !Late(rows, all[i]) }

  /** The refusal is about the first row that does not fit. */
  ghost predicate SaysMisfit(all: seq<Migration>, rows: seq<Row>, r: Refusal) {
    exists i :: 0 <= i < |rows| && RowsFit(all, rows[..i]) && Misfit(all, rows[i]) && r == MisfitSaid(all, rows[i])
  }

  /** The refusal is about the first file that came too late. */
  ghost predicate SaysLate(all: seq<Migration>, rows: seq<Row>, r: Refusal) {
    exists i :: 0 <= i < |all| && NoHole(all[..i], rows) && Late(rows, all[i]) && r == Below(all[i].version)
  }

  lemma {:induction false} CarriedIs(all: seq<Migration>, version: int)
    ensures var m := Carried(all, version); m.Some? ==> m.value.version == version
    decreases |all|
  {
    if |all| > 0 { CarriedIs(all[..|all| - 1], version); }
  }

  lemma {:induction false} CheckRowsExactly(all: seq<Migration>, rows: seq<Row>)
    ensures match CheckRows(all, rows) case None => RowsFit(all, rows) case Some(r) => SaysMisfit(all, rows, r)
    decreases |rows|
  {
    if |rows| > 0 {
      var first, rest := rows[0], rows[1..];
      CarriedIs(all, first.version);
      if Misfit(all, first) {
        assert RowsFit(all, rows[..0]);
      } else {
        CheckRowsExactly(all, rest);
        assert CheckRows(all, rows) == CheckRows(all, rest);
        hide Misfit, MisfitSaid, CheckRows;
        MisfitLater(all, rows);
      }
    }
  }

  lemma MisfitLater(all: seq<Migration>, rows: seq<Row>)
    requires |rows| > 0 && !Misfit(all, rows[0])
    ensures RowsFit(all, rows[1..]) ==> RowsFit(all, rows)
    ensures forall r :: SaysMisfit(all, rows[1..], r) ==> SaysMisfit(all, rows, r)
  {
    hide Misfit, MisfitSaid;
    var rest := rows[1..];
    assert forall i :: 1 <= i < |rows| ==> rows[i] == rest[i - 1];
    forall r | SaysMisfit(all, rest, r) ensures SaysMisfit(all, rows, r) {
      var i :| 0 <= i < |rest| && RowsFit(all, rest[..i]) && Misfit(all, rest[i]) && r == MisfitSaid(all, rest[i]);
      assert rows[..i + 1] == [rows[0]] + rest[..i] && rows[i + 1] == rest[i];
    }
  }

  lemma {:induction false} CheckOrderMore(waiting: seq<Migration>, m: Migration, highest: int)
    ensures CheckOrder(waiting + [m], highest)
         == match CheckOrder(waiting, highest)
            case Some(r) => Some(r)
            case None => if m.version < highest then Some(Below(m.version)) else None
    decreases |waiting|
  {
    if |waiting| > 0 {
      CheckOrderMore(waiting[1..], m, highest);
      assert (waiting + [m])[1..] == waiting[1..] + [m];
    }
  }

  /** highestApplied is the highest version, or 0 for an empty ledger. */
  lemma {:induction false} BelowHighest(rows: seq<Row>, v: int)
    ensures v < Highest(rows) <==> v < 0 || exists i :: 0 <= i < |rows| && rows[i].version > v
    decreases |rows|
  {
    if |rows| > 0 {
      var before := rows[..|rows| - 1];
      BelowHighest(before, v);
      assert forall i :: 0 <= i < |before| ==> before[i] == rows[i];
      if i :| 0 <= i < |before| && before[i].version > v { assert rows[i].version > v; }
    }
  }

  lemma {:induction false} CheckOrderExactly(all: seq<Migration>, rows: seq<Row>)
    ensures match CheckOrder(Pending(all, rows), Highest(rows))
      case None => NoHole(all, rows)
      case Some(r) => SaysLate(all, rows, r)
    decreases |all|
  {
    if |all| > 0 {
      var before, last := all[..|all| - 1], all[|all| - 1];
      CheckOrderExactly(before, rows);
      BelowHighest(rows, last.version);
      PendingMore(before, last, rows);
      CheckOrderMore(Pending(before, rows), last, Highest(rows));
      assert all == before + [last];
      assert Pending(before, rows) + [] == Pending(before, rows);
      hide Pending, CheckOrder, Highest, Holds;
      LateLast(before, last, rows);
    }
  }

  lemma LateLast(before: seq<Migration>, last: Migration, rows: seq<Row>)
    ensures forall r :: SaysLate(before, rows, r) ==> SaysLate(before + [last], rows, r)
    ensures NoHole(before, rows) && !Late(rows, last) ==> NoHole(before + [last], rows)
    ensures NoHole(before, rows) && Late(rows, last) ==> SaysLate(before + [last], rows, Below(last.version))
  {
    hide Late;
    var all := before + [last];
    assert all[..|before|] == before;
    forall r | SaysLate(before, rows, r) ensures SaysLate(all, rows, r) {
      var i :| 0 <= i < |before| && NoHole(before[..i], rows) && Late(rows, before[i]) && r == Below(before[i].version);
      assert all[..i] == before[..i] && all[i] == before[i];
    }
  }

  /**
   * Whatever the ledger and whatever the files: the check passes exactly when every row is carried unchanged
   * and no file that waits is numbered below what has been run. A refusal names the first row that does not
   * fit or, when every row fits, the first file that came too late.
   */
  lemma CheckExactly(all: seq<Migration>, rows: seq<Row>)
    ensures CheckApplied(all, rows).None? <==> RowsFit(all, rows) && NoHole(all, rows)
    ensures match CheckApplied(all, rows)
      case None => true
      case Some(r) => SaysMisfit(all, rows, r) || (RowsFit(all, rows) && SaysLate(all, rows, r))
  {
    CheckRowsExactly(all, rows);
    CheckOrderExactly(all, rows);
    hide Pending, CheckRows, CheckOrder, Highest, Misfit, Late, MisfitSaid;
  }

  lemma NoneLate(chain: seq<Migration>, k: nat, m: nat)
    requires Numbered(chain) && m <= k <= |chain|
    ensures CheckOrder(Pending(chain[..k], RowsOf(chain[..m])), Highest(RowsOf(chain[..m]))) == None
  {
    var rows := RowsOf(chain[..m]);
    CheckOrderExactly(chain[..k], rows);
    forall i | 0 <= i < k ensures !Late(rows, chain[..k][i]) { HoldsOf(chain, m, i + 1); }
  }

  /** Against a ledger that is a prefix of its own set, a build refuses exactly when it is the older one. */
  lemma CheckOf(chain: seq<Migration>, k: nat, m: nat)
    requires Numbered(chain) && k <= |chain| && m <= |chain|
    ensures CheckApplied(chain[..k], RowsOf(chain[..m])) == if m <= k then None else Some(Unknown(k + 1))
  {
    CheckRowsOf(chain, k, m, 0);
    assert RowsOf(chain[..m])[0..] == RowsOf(chain[..m]);
    if m <= k { NoneLate(chain, k, m); }
  }

  // ----- the database -----

  /** ran is every migration whose statements committed, in order. */
  datatype Db = Db(rows: seq<Row>, fence: int, ran: seq<Migration>)

  function InsertRow(rows: seq<Row>, row: Row): seq<Row> {
    if |rows| == 0 || rows[|rows| - 1].version <= row.version then rows + [row]
    else InsertRow(rows[..|rows| - 1], row) + [rows[|rows| - 1]]
  }

  /** applyOne, in either of its two forms: the ledger is read again inside the transaction. */
  function ApplyTx(db: Db, m: Migration): Db {
    if Holds(db.rows, m.version) then db
    else Db(InsertRow(db.rows, RowOf(m)), m.version, db.ran + [m])
  }

  /** The ledger is 1..m, and what ran since the ledger was at `start` is exactly what it gained. */
  ghost predicate Upright(chain: seq<Migration>, start: nat, db: Db) {
    var m := |db.rows|;
    && start <= m <= |chain| && db.rows == RowsOf(chain[..m]) && db.ran == chain[start..m]
    && 0 <= db.fence <= m
  }

  lemma ApplyKeeps(chain: seq<Migration>, start: nat, db: Db, i: nat)
    requires Numbered(chain) && Upright(chain, start, db) && i < |chain| && i <= |db.rows|
    ensures var after := ApplyTx(db, chain[i]);
      && Upright(chain, start, after) && |after.rows| >= i + 1 && db.rows <= after.rows
      && (if i < |db.rows| then after == db else after.fence == |after.rows| == i + 1)
  {
    var m := |db.rows|;
    HoldsOf(chain, m, i + 1);
    if i == m {
      assert chain[..m + 1] == chain[..m] + [chain[m]];
      assert RowsOf(chain[..m + 1]) == RowsOf(chain[..m]) + [RowOf(chain[m])];
      assert chain[start..m + 1] == chain[start..m] + [chain[m]];
    }
  }

  // ----- many processes -----

  datatype Pc =
    | Start
    | Fenced(current: int)
    | Repairing(highest: int)
    | Locking
    | Applying(next: seq<Migration>)
    | Done
    | Refused(why: Refusal)
    | Gone

  /** Lock is the end of the wait for the lock and the second read; who holds the lock decides nothing. */
  datatype Act = ReadFence | ReadLedger | Repair | Lock | Apply | Fail | Crash

  function AfterLedger(all: seq<Migration>, rows: seq<Row>, current: int): Pc {
    match CheckApplied(all, rows)
    case Some(r) => Refused(r)
    case None =>
      if |Pending(all, rows)| > 0 then Locking
      else if current < Highest(rows) then Repairing(Highest(rows))
      else Done
  }

  function AfterLock(all: seq<Migration>, rows: seq<Row>): Pc {
    match CheckApplied(all, rows)
    case Some(r) => Refused(r)
    case None => Advance(Pending(all, rows))
  }

  function Advance(next: seq<Migration>): Pc { if |next| == 0 then Done else Applying(next) }

  /** One step of the process that carries `all`; None when it cannot take it. */
  function Move(all: seq<Migration>, db: Db, pc: Pc, act: Act): Option<(Db, Pc)> {
    match (act, pc)
    case (ReadFence, Start) => Some((db, if db.fence > MaxVersion(all) then Refused(TooNew) else Fenced(db.fence)))
    case (ReadLedger, Fenced(current)) => Some((db, AfterLedger(all, db.rows, current)))
    case (Repair, Repairing(highest)) => Some((db.(fence := highest), Done))
    case (Lock, Locking) => Some((db, AfterLock(all, db.rows)))
    case (Fail, Locking) => Some((db, Refused(Waited)))
    case (Apply, Applying(next)) =>
      if |next| == 0 then None else Some((ApplyTx(db, next[0]), Advance(next[1..])))
    case (Fail, Applying(next)) => if |next| == 0 then None else Some((db, Refused(Failed(next[0].version))))
    case (Crash, _) => Some((db, Gone))
    case _ => None
  }

  datatype World = World(db: Db, pcs: seq<Pc>)

  datatype Event = Event(p: nat, act: Act)

  /** Build p carries the first builds[p] migrations of the set. */
  ghost predicate Builds(chain: seq<Migration>, builds: seq<nat>) {
    Numbered(chain) && forall p :: 0 <= p < |builds| ==> builds[p] <= |chain|
  }

  function Step(chain: seq<Migration>, builds: seq<nat>, w: World, e: Event): Option<World> {
    if e.p >= |w.pcs| || e.p >= |builds| || builds[e.p] > |chain| then None
    else
      match Move(chain[..builds[e.p]], w.db, w.pcs[e.p], e.act)
      case None => None
      case Some((db, pc)) => Some(World(db, w.pcs[e.p := pc]))
  }

  function Run(chain: seq<Migration>, builds: seq<nat>, w: World, events: seq<Event>): Option<World> {
    if |events| == 0 then Some(w)
    else
      match Run(chain, builds, w, events[..|events| - 1])
      case None => None
      case Some(v) => Step(chain, builds, v, events[|events| - 1])
  }

  /** Nobody has started, and the database stands at `start`, with its fence. */
  function Initially(chain: seq<Migration>, builds: seq<nat>, start: nat, fence: int): World
    requires start <= |chain|
  {
    World(Db(RowsOf(chain[..start]), fence, []), seq(|builds|, p => Start))
  }

  ghost predicate PcOk(chain: seq<Migration>, start: nat, k: nat, db: Db, pc: Pc) {
    match pc
    case Fenced(current) => 0 <= current <= |db.rows|
    case Repairing(highest) => highest == k && start <= k <= |db.rows| && k > 0
    case Applying(next) => k <= |chain| && exists i :: start <= i < k && next == chain[i..k] && i <= |db.rows|
    case Done => k <= |db.rows|
    case _ => true
  }

  ghost predicate WorldOk(chain: seq<Migration>, builds: seq<nat>, start: nat, w: World) {
    && Upright(chain, start, w.db) && |w.pcs| == |builds|
    && forall p :: 0 <= p < |builds| ==> PcOk(chain, start, builds[p], w.db, w.pcs[p])
  }

  lemma PcStays(chain: seq<Migration>, start: nat, k: nat, db: Db, after: Db, pc: Pc)
    requires PcOk(chain, start, k, db, pc) && |db.rows| <= |after.rows|
    ensures PcOk(chain, start, k, after, pc)
  {
    if pc.Applying? {
      var i :| start <= i < k && pc.next == chain[i..k] && i <= |db.rows|;
      assert i <= |after.rows|;
    }
  }

  lemma LedgerKeeps(chain: seq<Migration>, start: nat, k: nat, db: Db, current: int)
    requires Numbered(chain) && Upright(chain, start, db) && k <= |chain| && 0 <= current
    ensures PcOk(chain, start, k, db, AfterLedger(chain[..k], db.rows, current))
  {
    var m := |db.rows|;
    assert db.rows == RowsOf(chain[..m]) && start <= m <= |chain|;
    hide CheckApplied, Pending, Highest, Numbered, Upright, RowsOf;
    CheckOf(chain, k, m);
    PendingOf(chain, k, m);
    HighestOf(chain, m);
  }

  lemma LockKeeps(chain: seq<Migration>, start: nat, k: nat, db: Db)
    requires Numbered(chain) && Upright(chain, start, db) && k <= |chain|
    ensures PcOk(chain, start, k, db, AfterLock(chain[..k], db.rows))
  {
    hide CheckApplied, Pending;
    CheckOf(chain, k, |db.rows|);
    PendingOf(chain, k, |db.rows|);
  }

  lemma TakeKeeps(chain: seq<Migration>, start: nat, k: nat, db: Db, next: seq<Migration>)
    requires Numbered(chain) && Upright(chain, start, db) && PcOk(chain, start, k, db, Applying(next)) && |next| > 0
    ensures var after := ApplyTx(db, next[0]);
      Upright(chain, start, after) && db.rows <= after.rows && PcOk(chain, start, k, after, Advance(next[1..]))
  {
    hide ApplyTx;
    var i :| start <= i < k && next == chain[i..k] && i <= |db.rows|;
    ApplyKeeps(chain, start, db, i);
    assert next[0] == chain[i] && next[1..] == chain[i + 1..k];
  }

  /** One step of one process, and what it leaves to the others. */
  lemma MoveKeeps(chain: seq<Migration>, start: nat, k: nat, db: Db, pc: Pc, act: Act)
    requires Numbered(chain) && Upright(chain, start, db) && k <= |chain| && PcOk(chain, start, k, db, pc)
    ensures match Move(chain[..k], db, pc, act)
      case None => true
      case Some((after, at)) => Upright(chain, start, after) && db.rows <= after.rows && PcOk(chain, start, k, after, at)
  {
    hide AfterLedger, AfterLock, ApplyTx, MaxVersion, Advance;
    match (act, pc)
    case (ReadLedger, Fenced(current)) => LedgerKeeps(chain, start, k, db, current);
    case (Lock, Locking) => LockKeeps(chain, start, k, db);
    case (Apply, Applying(next)) => TakeKeeps(chain, start, k, db, next);
    case _ =>
  }

  lemma StepKeeps(chain: seq<Migration>, builds: seq<nat>, start: nat, w: World, e: Event)
    requires Builds(chain, builds) && WorldOk(chain, builds, start, w)
    ensures match Step(chain, builds, w, e)
      case None => true
      case Some(v) => WorldOk(chain, builds, start, v) && w.db.rows <= v.db.rows
  {
    match Step(chain, builds, w, e)
    case None =>
    case Some(v) =>
      MoveKeeps(chain, start, builds[e.p], w.db, w.pcs[e.p], e.act);
      hide Move, PcOk, Upright;
      forall p | 0 <= p < |builds| ensures PcOk(chain, start, builds[p], v.db, v.pcs[p]) {
        if p != e.p { PcStays(chain, start, builds[p], w.db, v.db, w.pcs[p]); }
      }
  }

  /**
   * However many processes of however many builds start, crash and interleave, and whatever the lock does:
   * the ledger is 1..m, and what ran is each migration above the start once, in order.
   */
  lemma {:induction false} LedgerStands(chain: seq<Migration>, builds: seq<nat>, start: nat, fence: int, events: seq<Event>)
    requires Builds(chain, builds) && start <= |chain| && 0 <= fence <= start
    ensures match Run(chain, builds, Initially(chain, builds, start, fence), events)
      case None => true
      case Some(w) => WorldOk(chain, builds, start, w)
    decreases |events|
  {
    var w := Initially(chain, builds, start, fence);
    if |events| == 0 {
      assert RowsOf(chain[..start]) == w.db.rows;
      assert chain[start..start] == [];
    } else {
      LedgerStands(chain, builds, start, fence, events[..|events| - 1]);
      match Run(chain, builds, w, events[..|events| - 1]) {
        case None =>
        case Some(v) => StepKeeps(chain, builds, start, v, events[|events| - 1]);
      }
    }
  }

  /** A process that ends well leaves its whole set applied. */
  lemma DoneMeansApplied(chain: seq<Migration>, builds: seq<nat>, start: nat, w: World, p: nat, i: nat)
    requires Builds(chain, builds) && WorldOk(chain, builds, start, w)
    requires p < |builds| && w.pcs[p] == Done && i < builds[p]
    ensures i < |w.db.rows| && w.db.rows[i] == RowOf(chain[i])
    ensures i >= start ==> i - start < |w.db.ran| && w.db.ran[i - start] == chain[i]
  {
    assert PcOk(chain, start, builds[p], w.db, w.pcs[p]);
  }

  // ----- the fence -----

  /** No build that has something to apply is older than another. */
  ghost predicate OneBuild(builds: seq<nat>, start: nat) {
    !exists p, q :: 0 <= p < |builds| && 0 <= q < |builds| && start < builds[p] < builds[q]
  }

  ghost predicate FenceOk(builds: seq<nat>, start: nat, w: World) {
    && |w.pcs| == |builds| && w.db.fence == |w.db.rows|
    && (|w.db.rows| > start ==> exists p :: 0 <= p < |builds| && |w.db.rows| <= builds[p])
    && forall p :: 0 <= p < |builds| ==>
      (w.pcs[p].Fenced? ==> start <= w.pcs[p].current) && (w.pcs[p].Repairing? ==> builds[p] > start)
  }

  lemma FenceMove(chain: seq<Migration>, start: nat, k: nat, db: Db, pc: Pc, act: Act)
    requires Numbered(chain) && Upright(chain, start, db) && k <= |chain| && PcOk(chain, start, k, db, pc)
    requires db.fence == |db.rows| && (pc.Fenced? ==> start <= pc.current) && (pc.Repairing? ==> |db.rows| == k)
    ensures match Move(chain[..k], db, pc, act)
      case None => true
      case Some((after, at)) =>
        && after.fence == |after.rows| && (|after.rows| <= k || after.rows == db.rows)
        && (at.Fenced? ==> start <= at.current) && (at.Repairing? ==> k > start)
  {
    hide CheckApplied, Pending, Highest, Holds, InsertRow, ApplyTx, MaxVersion;
    var m := |db.rows|;
    match (act, pc)
    case (ReadLedger, Fenced(_)) => CheckOf(chain, k, m); PendingOf(chain, k, m); HighestOf(chain, m);
    case (Lock, Locking) => CheckOf(chain, k, m); PendingOf(chain, k, m);
    case (Apply, Applying(next)) =>
      var i :| start <= i < k && next == chain[i..k] && i <= m;
      ApplyKeeps(chain, start, db, i);
      assert next[0] == chain[i];
    case _ =>
  }

  lemma FenceStep(chain: seq<Migration>, builds: seq<nat>, start: nat, w: World, e: Event)
    requires Builds(chain, builds) && WorldOk(chain, builds, start, w) && FenceOk(builds, start, w) && OneBuild(builds, start)
    ensures match Step(chain, builds, w, e) case None => true case Some(v) => FenceOk(builds, start, v)
  {
    hide Move;
    match Step(chain, builds, w, e)
    case None =>
    case Some(v) =>
      var k := builds[e.p];
      assert PcOk(chain, start, k, w.db, w.pcs[e.p]);
      if w.pcs[e.p].Repairing? {
        var p :| 0 <= p < |builds| && |w.db.rows| <= builds[p];
        assert !(start < builds[e.p] < builds[p]);
      }
      FenceMove(chain, start, k, w.db, w.pcs[e.p], e.act);
      MoveKeeps(chain, start, k, w.db, w.pcs[e.p], e.act);
      hide PcOk, Upright, OneBuild;
  }

  lemma {:induction false} FenceStands(chain: seq<Migration>, builds: seq<nat>, start: nat, events: seq<Event>)
    requires Builds(chain, builds) && start <= |chain| && OneBuild(builds, start)
    ensures match Run(chain, builds, Initially(chain, builds, start, start), events)
      case None => true
      case Some(w) => FenceOk(builds, start, w)
    decreases |events|
  {
    if |events| > 0 {
      FenceStands(chain, builds, start, events[..|events| - 1]);
      LedgerStands(chain, builds, start, start, events[..|events| - 1]);
      match Run(chain, builds, Initially(chain, builds, start, start), events[..|events| - 1]) {
        case None =>
        case Some(v) => FenceStep(chain, builds, start, v, events[|events| - 1]);
      }
    }
  }

  lemma RunMore(chain: seq<Migration>, builds: seq<nat>, w: World, events: seq<Event>, e: Event)
    ensures Run(chain, builds, w, events + [e]) == match Run(chain, builds, w, events)
      case None => None
      case Some(v) => Step(chain, builds, v, e)
  {
    assert (events + [e])[..|events|] == events;
  }

  /** Build q has applied everything up to `upto` while p, which read the fence at the start, stood still. */
  ghost predicate Stale(chain: seq<Migration>, builds: seq<nat>, start: nat, p: nat, q: nat, upto: nat, w: World) {
    && |w.pcs| == |builds| && p < |builds| && q < |builds| && p != q && upto <= builds[q] <= |chain|
    && w.db.rows == RowsOf(chain[..upto]) && w.db.fence == upto
    && w.pcs[p] == Fenced(start) && w.pcs[q] == Applying(chain[upto..builds[q]])
  }

  lemma {:induction false} StaleRun(chain: seq<Migration>, builds: seq<nat>, start: nat, p: nat, q: nat, upto: nat)
    returns (events: seq<Event>)
    requires Builds(chain, builds) && p < |builds| && q < |builds| && start < builds[p] < builds[q] && start <= upto <= builds[p]
    ensures match Run(chain, builds, Initially(chain, builds, start, start), events)
      case None => false
      case Some(w) => Stale(chain, builds, start, p, q, upto, w)
    decreases upto
  {
    hide Run, RowsOf;
    if upto == start {
      events := StaleStart(chain, builds, start, p, q);
    } else {
      var es := StaleRun(chain, builds, start, p, q, upto - 1);
      var w := Run(chain, builds, Initially(chain, builds, start, start), es).value;
      LedgerStands(chain, builds, start, start, es);
      RunMore(chain, builds, Initially(chain, builds, start, start), es, Event(q, Apply));
      ApplyKeeps(chain, start, w.db, upto - 1);
      var next := chain[upto - 1..builds[q]];
      assert next[0] == chain[upto - 1] && next[1..] == chain[upto..builds[q]];
      events := es + [Event(q, Apply)];
    }
  }

  /** Two processes read the fence, and the second goes on to hold the lock with its whole set to apply. */
  lemma FirstSteps(chain: seq<Migration>, builds: seq<nat>, start: nat, p: nat, q: nat)
    returns (a: World, b: World, c: World, w: World)
    requires Builds(chain, builds) && p < |builds| && q < |builds| && start < builds[p] < builds[q]
    ensures Step(chain, builds, Initially(chain, builds, start, start), Event(p, ReadFence)) == Some(a)
    ensures Step(chain, builds, a, Event(q, ReadFence)) == Some(b)
    ensures Step(chain, builds, b, Event(q, ReadLedger)) == Some(c)
    ensures Step(chain, builds, c, Event(q, Lock)) == Some(w)
    ensures Stale(chain, builds, start, p, q, start, w)
  {
    var w0 := Initially(chain, builds, start, start);
    FirstMoves(chain, builds[p], start);
    FirstMoves(chain, builds[q], start);
    hide Move, RowsOf, Numbered;
    StepIs(chain, builds, w0, Event(p, ReadFence), w0.db, Fenced(start));
    a := World(w0.db, w0.pcs[p := Fenced(start)]);
    StepIs(chain, builds, a, Event(q, ReadFence), w0.db, Fenced(start));
    b := World(w0.db, a.pcs[q := Fenced(start)]);
    StepIs(chain, builds, b, Event(q, ReadLedger), w0.db, Locking);
    c := World(w0.db, b.pcs[q := Locking]);
    StepIs(chain, builds, c, Event(q, Lock), w0.db, Applying(chain[start..builds[q]]));
    w := World(w0.db, c.pcs[q := Applying(chain[start..builds[q]])]);
  }

  lemma StepIs(chain: seq<Migration>, builds: seq<nat>, w: World, e: Event, db: Db, pc: Pc)
    requires e.p < |w.pcs| && e.p < |builds| && builds[e.p] <= |chain|
    requires Move(chain[..builds[e.p]], w.db, w.pcs[e.p], e.act) == Some((db, pc))
    ensures Step(chain, builds, w, e) == Some(World(db, w.pcs[e.p := pc]))
  {
    hide Move;
  }

  /** The first moves of a build that carries more than the database holds. */
  lemma FirstMoves(chain: seq<Migration>, k: nat, start: nat)
    requires Numbered(chain) && start < k <= |chain|
    ensures var db := Db(RowsOf(chain[..start]), start, []); var all := chain[..k];
      && Move(all, db, Start, ReadFence) == Some((db, Fenced(start)))
      && Move(all, db, Fenced(start), ReadLedger) == Some((db, Locking))
      && Move(all, db, Locking, Lock) == Some((db, Applying(chain[start..k])))
  {
    CheckOf(chain, k, start);
    PendingOf(chain, k, start);
    assert MaxVersion(chain[..k]) == k;
    hide CheckApplied, Pending, MaxVersion, RowsOf, Numbered, Highest, ApplyTx;
  }

  lemma StaleStart(chain: seq<Migration>, builds: seq<nat>, start: nat, p: nat, q: nat) returns (events: seq<Event>)
    requires Builds(chain, builds) && p < |builds| && q < |builds| && start < builds[p] < builds[q]
    ensures match Run(chain, builds, Initially(chain, builds, start, start), events)
      case None => false
      case Some(w) => Stale(chain, builds, start, p, q, start, w)
  {
    hide Run, Step, Stale, Initially;
    var w0 := Initially(chain, builds, start, start);
    var a, b, c, w := FirstSteps(chain, builds, start, p, q);
    RunNothing(chain, builds, w0);
    RunMore(chain, builds, w0, [], Event(p, ReadFence));
    var es := [] + [Event(p, ReadFence)];
    RunMore(chain, builds, w0, es, Event(q, ReadFence));
    RunMore(chain, builds, w0, es + [Event(q, ReadFence)], Event(q, ReadLedger));
    RunMore(chain, builds, w0, es + [Event(q, ReadFence)] + [Event(q, ReadLedger)], Event(q, Lock));
    events := es + [Event(q, ReadFence)] + [Event(q, ReadLedger)] + [Event(q, Lock)];
  }

  lemma RunNothing(chain: seq<Migration>, builds: seq<nat>, w: World)
    ensures Run(chain, builds, w, []) == Some(w)
  {
  }

  /** A build that finds the ledger at its own height and the fence below it goes on to mend the fence. */
  lemma SeesItself(chain: seq<Migration>, k: nat, current: nat)
    requires Numbered(chain) && k <= |chain| && current < k
    ensures AfterLedger(chain[..k], RowsOf(chain[..k]), current) == Repairing(k)
  {
    CheckOf(chain, k, k);
    PendingOf(chain, k, k);
    HighestOf(chain, k);
    hide CheckApplied, Pending, Highest, RowsOf, Numbered;
  }

  /** p finds the ledger at its own height, q moves it on, and p repairs what is no longer broken. */
  lemma Overtaken(chain: seq<Migration>, builds: seq<nat>, start: nat, p: nat, q: nat, w: World) returns (v: World, u: World)
    requires Builds(chain, builds) && p < |builds| && q < |builds| && start < builds[p] < builds[q]
    requires WorldOk(chain, builds, start, w) && Stale(chain, builds, start, p, q, builds[p], w)
    ensures Step(chain, builds, w, Event(p, ReadLedger)) == Some(v)
    ensures Step(chain, builds, v, Event(q, Apply)) == Some(u)
    ensures match Step(chain, builds, u, Event(p, Repair)) case None => false case Some(end) => end.db.fence < |end.db.rows|
  {
    var k, n := builds[p], builds[q];
    SeesItself(chain, k, start);
    ApplyKeeps(chain, start, w.db, k);
    var next := chain[k..n];
    assert next[0] == chain[k];
    hide AfterLedger, AfterLock, RowsOf, ApplyTx, MaxVersion, Upright, PcOk, Numbered;
    v := Step(chain, builds, w, Event(p, ReadLedger)).value;
    assert v.pcs[q] == Applying(next) && v.pcs[p] == Repairing(k);
    u := Step(chain, builds, v, Event(q, Apply)).value;
  }

  /** An older build that caught the ledger at its own height puts the fence back to it after a newer one moved on. */
  lemma FenceFalls(chain: seq<Migration>, builds: seq<nat>, start: nat, p: nat, q: nat) returns (events: seq<Event>)
    requires Builds(chain, builds) && p < |builds| && q < |builds| && start < builds[p] < builds[q]
    ensures match Run(chain, builds, Initially(chain, builds, start, start), events)
      case None => false
      case Some(w) => w.db.fence < |w.db.rows|
  {
    var w0 := Initially(chain, builds, start, start);
    var es := StaleRun(chain, builds, start, p, q, builds[p]);
    LedgerStands(chain, builds, start, start, es);
    var w := Run(chain, builds, w0, es).value;
    hide Run, Step, WorldOk, Stale;
    var v, u := Overtaken(chain, builds, start, p, q, w);
    RunMore(chain, builds, w0, es, Event(p, ReadLedger));
    RunMore(chain, builds, w0, es + [Event(p, ReadLedger)], Event(q, Apply));
    RunMore(chain, builds, w0, es + [Event(p, ReadLedger)] + [Event(q, Apply)], Event(p, Repair));
    events := es + [Event(p, ReadLedger)] + [Event(q, Apply)] + [Event(p, Repair)];
  }

  ghost predicate FenceFollows(chain: seq<Migration>, builds: seq<nat>, start: nat)
    requires start <= |chain|
  {
    forall events ::
      match Run(chain, builds, Initially(chain, builds, start, start), events)
      case None => true
      case Some(w) => w.db.fence == |w.db.rows|
  }

  /**
   * The fence equals the height of the ledger in every run exactly when no two builds with something to
   * apply differ; from a fresh database, when all builds that carry anything carry the same set.
   */
  lemma FenceExactlyWhen(chain: seq<Migration>, builds: seq<nat>, start: nat)
    requires Builds(chain, builds) && start <= |chain|
    ensures FenceFollows(chain, builds, start) <==> OneBuild(builds, start)
  {
    if OneBuild(builds, start) {
      forall events
        ensures match Run(chain, builds, Initially(chain, builds, start, start), events)
          case None => true
          case Some(w) => w.db.fence == |w.db.rows|
      {
        FenceStands(chain, builds, start, events);
      }
    } else {
      var p, q :| 0 <= p < |builds| && 0 <= q < |builds| && start < builds[p] < builds[q];
      var events := FenceFalls(chain, builds, start, p, q);
    }
  }

  // ----- one process, with the others at work between its statements -----

  class Database {
    /** What the newest build carries; every other build carries a prefix of it. */
    const everything: seq<Migration>
    var rows: seq<Row>
    var fence: int
    ghost const start: nat
    ghost var ran: seq<Migration>
    /** What this process itself put into the ledger. */
    ghost var mine: seq<Migration>

    ghost function Now(): Db
      reads this
    {
      Db(rows, fence, ran)
    }

    ghost predicate Valid()
      reads this
    {
      Numbered(everything) && Upright(everything, start, Now())
    }

    /** Any number of other processes apply and repair; this is all LedgerStands lets them do. */
    method Others()
      requires Valid()
      modifies this`rows, this`fence, this`ran
      ensures Valid() && old(rows) <= rows
    {
      hide Upright, ApplyTx, Holds, InsertRow;
      var n: nat := *;
      while n > 0
        invariant Valid() && old(rows) <= rows
      {
        var height: int := *;
        if 0 <= height < |everything| && height <= |rows| {
          ApplyKeeps(everything, start, Now(), height);
          ghost var after := ApplyTx(Now(), everything[height]);
          if !Holds(rows, everything[height].version) {
            AppliedFresh(Now(), everything[height]);
            rows := InsertRow(rows, RowOf(everything[height]));
            fence := everything[height].version;
            ran := ran + [everything[height]];
          } else {
            AppliedAlready(Now(), everything[height]);
          }
          assert Now() == after;
        } else if 0 <= height <= |rows| {
          FenceAnywhere(everything, start, Now(), height);
          fence := height;
        }
        n := n - 1;
      }
    }

    /** applyOne: false when its statements fail, and then nothing is kept. */
    method Apply(m: Migration) returns (ok: bool)
      modifies this`rows, this`fence, this`ran, this`mine
      ensures Now() == if ok then ApplyTx(old(Now()), m) else old(Now())
      ensures !ok ==> !Holds(old(rows), m.version)
      ensures mine == if ok && !Holds(old(rows), m.version) then old(mine) + [m] else old(mine)
    {
      if Holds(rows, m.version) { return true; }
      var fails: bool := *;
      if fails { return false; }
      rows := InsertRow(rows, RowOf(m));
      fence := m.version;
      ran := ran + [m];
      mine := mine + [m];
      ok := true;
    }

    /**
     * migrateFS: when it succeeds the whole set is applied. A refusal, as opposed to a migration that
     * fails, leaves nothing of this process in the database, and only an older build is refused for what
     * the database holds.
     */
    method Migrate(all: seq<Migration>) returns (r: Result<(), Refusal>)
      requires Valid() && all <= everything
      modifies this
      ensures Valid() && old(rows) <= rows
      ensures match r
        case Ok(_) => RowsOf(all) <= rows
        case Err(Failed(v)) => 1 <= v <= |all|
        case Err(TooNew) => mine == old(mine) && |all| < |rows|
        case Err(Unknown(v)) => mine == old(mine) && v == |all| + 1 <= |rows|
        case Err(Waited) => mine == old(mine) && |old(rows)| < |all|
        case Err(_) => false
      ensures |all| < |old(rows)| ==> r.Err?
      ensures |all| <= |old(rows)| ==> mine == old(mine)
    {
      hide CheckApplied, Pending, Highest, Holds, InsertRow, Upright, ApplyTx, RowsOf, MaxVersion;
      var k := |all|;
      assert all == everything[..k];
      Facts(everything, start, Now(), k);
      var current := fence;
      if current > MaxVersion(all) { return Err(TooNew); }
      Others();
      Facts(everything, start, Now(), k);
      var refusal := CheckApplied(all, rows);
      if refusal.Some? { return Err(refusal.value); }
      if |Pending(all, rows)| == 0 {
        var highest := Highest(rows);
        if current < highest {
          Others();
          Facts(everything, start, Now(), k);
          FenceAnywhere(everything, start, Now(), highest);
          fence := highest;
        }
        return Ok(());
      }
      Others();
      var gaveUp: bool := *;
      if gaveUp { return Err(Waited); }
      r := Catch(all);
    }

    /** The second look at the ledger, under the lock, and the migrations it still lacks. */
    method Catch(all: seq<Migration>) returns (r: Result<(), Refusal>)
      requires Valid() && all <= everything
      modifies this
      ensures Valid() && old(rows) <= rows
      ensures match r
        case Ok(_) => RowsOf(all) <= rows
        case Err(Failed(v)) => 1 <= v <= |all|
        case Err(Unknown(v)) => mine == old(mine) && v == |all| + 1 <= |rows|
        case Err(_) => false
      ensures |all| < |old(rows)| ==> r.Err?
      ensures |all| <= |old(rows)| ==> mine == old(mine)
    {
      hide CheckApplied, Pending, Highest, Holds, InsertRow, Upright, ApplyTx, RowsOf, MaxVersion, Numbered;
      var k := |all|;
      assert all == everything[..k];
      Facts(everything, start, Now(), k);
      var refusal := CheckApplied(all, rows);
      if refusal.Some? { return Err(refusal.value); }
      ghost var m := |rows|;
      var waiting := Pending(all, rows);
      for i := 0 to |waiting|
        invariant Valid() && old(rows) <= rows && m + i <= |rows| && (i == 0 ==> mine == old(mine))
      {
        Others();
        assert m + i < k;
        ApplyKeeps(everything, start, Now(), m + i);
        assert waiting[i] == everything[m + i];
        NumberOf(everything, m + i);
        var ok := Apply(waiting[i]);
        if !ok { return Err(Failed(waiting[i].version)); }
      }
      Facts(everything, start, Now(), k);
      r := Ok(());
    }
  }

  lemma AppliedFresh(db: Db, m: Migration)
    requires !Holds(db.rows, m.version)
    ensures ApplyTx(db, m) == Db(InsertRow(db.rows, RowOf(m)), m.version, db.ran + [m])
  {
  }

  lemma AppliedAlready(db: Db, m: Migration)
    requires Holds(db.rows, m.version)
    ensures ApplyTx(db, m) == db
  {
  }

  lemma FenceAnywhere(chain: seq<Migration>, start: nat, db: Db, fence: int)
    requires Upright(chain, start, db) && 0 <= fence <= |db.rows|
    ensures Upright(chain, start, db.(fence := fence))
  {
  }

  lemma NumberOf(chain: seq<Migration>, i: nat)
    requires Numbered(chain) && i < |chain|
    ensures chain[i].version == i + 1
  {
  }

  /** What one look at an upright database tells a build of height k. */
  lemma Facts(chain: seq<Migration>, start: nat, db: Db, k: nat)
    requires Numbered(chain) && Upright(chain, start, db) && k <= |chain|
    ensures var m := |db.rows|; var all := chain[..k];
      && m <= |chain| && CheckApplied(all, db.rows) == (if m <= k then None else Some(Unknown(k + 1)))
      && Pending(all, db.rows) == (if m < k then chain[m..k] else []) && Highest(db.rows) == m
      && (k <= m ==> RowsOf(all) <= db.rows) && MaxVersion(all) == k && 0 <= db.fence <= m
  {
    CheckOf(chain, k, |db.rows|);
    PendingOf(chain, k, |db.rows|);
    HighestOf(chain, |db.rows|);
  }
}
