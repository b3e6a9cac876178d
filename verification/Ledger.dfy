/** The versions of jobs: what applying specs writes, and what a job's history then is. */
module Ledger {
  import opened Wrappers

  datatype Input = Input(job: string, description: string, source: string, maxConcurrent: int, hash: string, json: string)

  datatype Version = Version(id: string, job: string, number: int, hash: string, json: string, source: string, createdAt: int)

  datatype JobRow = JobRow(
    description: string, paused: bool, maxConcurrent: int, source: string, createdAt: int, updatedAt: int, current: Option<string>)

  /** The tables jobs and job_versions; versions in the order they were inserted. */
  datatype Catalog = Catalog(jobs: map<string, JobRow>, versions: seq<Version>)

  datatype Refusal = BadConcurrency | IdTaken

  function Highest(versions: seq<Version>, job: string): int {
    if |versions| == 0 then 0
    else
      var before := Highest(versions[..|versions| - 1], job);
      var last := versions[|versions| - 1];
      if last.job == job && last.number > before then last.number else before
  }

  /** The row of this job and hash; the schema allows one. */
  function Find(versions: seq<Version>, job: string, hash: string): (v: Option<Version>)
    ensures v.Some? ==> v.value in versions && v.value.job == job && v.value.hash == hash
    ensures v.None? ==> forall w :: w in versions ==> !(w.job == job && w.hash == hash)
  {
    if |versions| == 0 then None
    else if versions[0].job == job && versions[0].hash == hash then Some(versions[0])
    else Find(versions[1..], job, hash)
  }

  predicate Used(versions: seq<Version>, id: string) { exists i :: 0 <= i < |versions| && versions[i].id == id }

  datatype Written = Written(catalog: Catalog, version: Version, created: bool)

  function Limit(n: int): int { if n == 0 then 1 else n }

  /** The jobs table after the upsert of one spec: a new row, or the old one with what the file says. */
  function UpsertJob(c: Catalog, at: int, spec: Input): JobRow {
    if spec.job in c.jobs then
      c.jobs[spec.job].(description := spec.description, maxConcurrent := Limit(spec.maxConcurrent), source := spec.source, updatedAt := at)
    else JobRow(spec.description, false, Limit(spec.maxConcurrent), spec.source, at, at, None)
  }

  /** writeJobVersion: the insert first, and the conflict decides. */
  function WriteTx(c: Catalog, id: string, at: int, spec: Input): Result<Written, Refusal> {
    if Limit(spec.maxConcurrent) <= 0 then Err(BadConcurrency)
    else
      var row := UpsertJob(c, at, spec);
      match Find(c.versions, spec.job, spec.hash)
      case Some(v) => Ok(Written(Catalog(c.jobs[spec.job := row.(current := Some(v.id))], c.versions), v, false))
      case None =>
        if Used(c.versions, id) then Err(IdTaken)
        else
          var v := Version(id, spec.job, Highest(c.versions, spec.job) + 1, spec.hash, spec.json, spec.source, at);
          Ok(Written(Catalog(c.jobs[spec.job := row.(current := Some(id))], c.versions + [v]), v, true))
  }

  datatype Applied = Applied(job: string, id: string, number: int, created: bool)

  /** A batch inside one transaction: the catalog it ends with, or the first refusal. */
  function ApplyTx(c: Catalog, ids: seq<string>, at: int, batch: seq<Input>): Result<(Catalog, seq<Applied>), Refusal>
    requires |ids| == |batch|
  {
    if |batch| == 0 then Ok((c, []))
    else
      var n := |batch| - 1;
      match ApplyTx(c, ids[..n], at, batch[..n])
      case Err(e) => Err(e)
      case Ok((before, results)) =>
        match WriteTx(before, ids[n], at, batch[n])
        case Err(e) => Err(e)
        case Ok(w) => Ok((w.catalog, results + [Applied(batch[n].job, w.version.id, w.version.number, w.created)]))
  }

  // ----- what every apply keeps -----

  /** The versions of one job in the order they were made. */
  function Of(versions: seq<Version>, job: string): seq<Version> {
    if |versions| == 0 then []
    else
      var last := versions[|versions| - 1];
      Of(versions[..|versions| - 1], job) + if last.job == job then [last] else []
  }

  function Hashes(versions: seq<Version>, job: string): seq<string> {
    var vs := Of(versions, job);
    seq(|vs|, i requires 0 <= i < |vs| => vs[i].hash)
  }

  ghost predicate Numbered(vs: seq<Version>) { forall i :: 0 <= i < |vs| ==> vs[i].number == i + 1 }

  ghost predicate OneEach(hs: seq<string>) { forall i, j :: 0 <= i < j < |hs| ==> hs[i] != hs[j] }

  ghost predicate IdsDiffer(versions: seq<Version>) { forall i, j :: 0 <= i < j < |versions| ==> versions[i].id != versions[j].id }

  /** The version a job points at. */
  ghost predicate Points(c: Catalog, job: string, hash: string) {
    && job in c.jobs && c.jobs[job].current.Some?
    && exists v :: v in c.versions && v.id == c.jobs[job].current.value && v.job == job && v.hash == hash
  }

  ghost predicate Sound(c: Catalog) {
    && IdsDiffer(c.versions)
    && (forall job :: Numbered(Of(c.versions, job)) && OneEach(Hashes(c.versions, job)))
    && (forall job :: job in c.jobs ==> exists hash :: Points(c, job, hash))
    && (forall v :: v in c.versions ==> v.job in c.jobs)
  }

  lemma {:induction false} OfMore(versions: seq<Version>, v: Version, job: string)
    ensures Of(versions + [v], job) == Of(versions, job) + if v.job == job then [v] else []
    ensures Hashes(versions + [v], job) == Hashes(versions, job) + if v.job == job then [v.hash] else []
  {
    assert (versions + [v])[..|versions|] == versions;
  }

  lemma {:induction false} OfAll(versions: seq<Version>, job: string, v: Version)
    ensures v in Of(versions, job) <==> v in versions && v.job == job
    decreases |versions|
  {
    if |versions| > 0 {
      assert versions == versions[..|versions| - 1] + [versions[|versions| - 1]];
      OfAll(versions[..|versions| - 1], job, v);
    }
  }

  lemma {:induction false} HighestIsCount(versions: seq<Version>, job: string)
    requires Numbered(Of(versions, job))
    ensures Highest(versions, job) == |Of(versions, job)|
    decreases |versions|
  {
    if |versions| > 0 {
      var before, last := versions[..|versions| - 1], versions[|versions| - 1];
      assert versions == before + [last];
      OfMore(before, last, job);
      assert Numbered(Of(before, job)) by {
        forall i | 0 <= i < |Of(before, job)| ensures Of(before, job)[i].number == i + 1 {
          assert Of(versions, job)[i] == Of(before, job)[i];
        }
      }
      HighestIsCount(before, job);
      if last.job == job { assert Of(versions, job)[|Of(before, job)|] == last; }
    }
  }

  lemma {:induction false} VersionMore(versions: seq<Version>, v: Version, job: string, spec: Input)
    requires Numbered(Of(versions, job)) && OneEach(Hashes(versions, job)) && v.job == spec.job && v.hash == spec.hash
    requires v.job == job ==> v.number == |Of(versions, job)| + 1 && v.hash !in Hashes(versions, job)
    ensures Numbered(Of(versions + [v], job)) && OneEach(Hashes(versions + [v], job))
    ensures Grown(versions, versions + [v], job, spec, true)
  {
    OfMore(versions, v, job);
    hide Of, Hashes;
  }

  lemma {:induction false} HashThere(versions: seq<Version>, job: string, hash: string)
    ensures hash in Hashes(versions, job) <==> Find(versions, job, hash).Some?
  {
    var vs := Of(versions, job);
    match Find(versions, job, hash)
    case Some(v) =>
      OfAll(versions, job, v);
      var i :| 0 <= i < |vs| && vs[i] == v;
      assert Hashes(versions, job)[i] == hash;
    case None =>
      if hash in Hashes(versions, job) {
        var i :| 0 <= i < |vs| && Hashes(versions, job)[i] == hash;
        OfAll(versions, job, vs[i]);
      }
  }

  /** The hashes of a job after a spec that made a version, or found one. */
  ghost predicate Grown(a: seq<Version>, b: seq<Version>, job: string, spec: Input, created: bool) {
    Hashes(b, job) == Hashes(a, job) + if job == spec.job && created then [spec.hash] else []
  }

  /** What one spec leaves: the old rows, the numbering, and a job that points at its hash. */
  ghost predicate Wrote(c: Catalog, d: Catalog, spec: Input, created: bool) {
    && c.versions <= d.versions && IdsDiffer(d.versions)
    && (forall job :: Numbered(Of(d.versions, job)) && OneEach(Hashes(d.versions, job)))
    && (created <==> spec.hash !in Hashes(c.versions, spec.job))
    && (forall job :: Grown(c.versions, d.versions, job, spec, created))
    && Points(d, spec.job, spec.hash) && (forall v :: v in d.versions ==> v.job in d.jobs)
    && d.jobs.Keys == c.jobs.Keys + {spec.job}
    && (forall job :: job != spec.job && job in c.jobs ==> d.jobs[job] == c.jobs[job])
  }

  lemma {:induction false} WriteKeeps(c: Catalog, id: string, at: int, spec: Input)
    requires Sound(c)
    ensures match WriteTx(c, id, at, spec) case Err(_) => true case Ok(w) => Wrote(c, w.catalog, spec, w.created)
  {
    WriteHere(c, id, at, spec);
    WriteNumbers(c, id, at, spec);
    hide Points, Grown, Numbered, OneEach, Of, Hashes, Highest, Find;
  }

  lemma {:induction false} WriteNumbers(c: Catalog, id: string, at: int, spec: Input)
    requires Sound(c)
    ensures match WriteTx(c, id, at, spec)
      case Err(_) => true
      case Ok(w) =>
        && IdsDiffer(w.catalog.versions)
        && (forall job :: Numbered(Of(w.catalog.versions, job)) && OneEach(Hashes(w.catalog.versions, job)))
        && (w.created <==> spec.hash !in Hashes(c.versions, spec.job))
        && (forall job :: Grown(c.versions, w.catalog.versions, job, spec, w.created))
  {
    HashThere(c.versions, spec.job, spec.hash);
    HighestIsCount(c.versions, spec.job);
    hide Points, Highest, Find;
    match WriteTx(c, id, at, spec)
    case Err(_) =>
    case Ok(w) =>
      if w.created {
        forall job ensures Numbered(Of(w.catalog.versions, job)) && OneEach(Hashes(w.catalog.versions, job))
          && Grown(c.versions, w.catalog.versions, job, spec, true)
        {
          VersionMore(c.versions, w.version, job, spec);
        }
      }
  }

  lemma {:induction false} PointsStay(c: Catalog, d: Catalog, job: string, hash: string)
    requires Points(c, job, hash) && c.versions <= d.versions && job in d.jobs && d.jobs[job].current == c.jobs[job].current
    ensures Points(d, job, hash)
  {
    var v :| v in c.versions && v.id == c.jobs[job].current.value && v.job == job && v.hash == hash;
    var i :| 0 <= i < |c.versions| && c.versions[i] == v;
    assert d.versions[i] == v;
  }

  lemma {:induction false} WroteIsSound(c: Catalog, d: Catalog, spec: Input, created: bool)
    requires Sound(c) && Wrote(c, d, spec, created)
    ensures Sound(d)
  {
    hide Numbered, OneEach, IdsDiffer, Of, Hashes, Grown, Points;
    forall job | job in d.jobs ensures exists hash :: Points(d, job, hash) {
      if job != spec.job {
        var hash :| Points(c, job, hash);
        PointsStay(c, d, job, hash);
      }
    }
  }

  lemma {:induction false} WriteHere(c: Catalog, id: string, at: int, spec: Input)
    requires Sound(c)
    ensures match WriteTx(c, id, at, spec)
      case Err(_) => true
      case Ok(w) =>
        && Points(w.catalog, spec.job, spec.hash)
        && forall v :: v in w.catalog.versions ==> v.job in w.catalog.jobs
  {
    hide Numbered, OneEach, IdsDiffer, Of, Hashes, Highest;
    match WriteTx(c, id, at, spec)
    case Err(_) =>
    case Ok(w) =>
      var d := w.catalog;
      if w.created {
        assert d.versions[|c.versions|] == w.version;
        assert forall v :: v in d.versions <==> v in c.versions || v == w.version;
      }
      assert w.version in d.versions;
  }

  // ----- the history of a job -----

  /** Each hash where it was first seen. */
  function FirstSeen(hs: seq<string>): seq<string> {
    if |hs| == 0 then []
    else
      var before := FirstSeen(hs[..|hs| - 1]);
      if hs[|hs| - 1] in before then before else before + [hs[|hs| - 1]]
  }

  /** The hashes a sequence of specs gives one job. */
  function Given(specs: seq<Input>, job: string): seq<string> {
    if |specs| == 0 then []
    else
      var last := specs[|specs| - 1];
      Given(specs[..|specs| - 1], job) + if last.job == job then [last.hash] else []
  }

  lemma {:induction false} GivenMore(specs: seq<Input>, spec: Input, job: string)
    ensures Given(specs + [spec], job) == Given(specs, job) + if spec.job == job then [spec.hash] else []
    ensures var was := FirstSeen(Given(specs, job));
      spec.job == job ==> FirstSeen(Given(specs + [spec], job)) == if spec.hash in was then was else was + [spec.hash]
  {
    assert (specs + [spec])[..|specs|] == specs;
    if spec.job == job { assert (Given(specs, job) + [spec.hash])[..|Given(specs, job)|] == Given(specs, job); }
  }

  /** The catalog tells of each job the hashes it was given, once each, and points it at the last. */
  ghost predicate Tells(c: Catalog, specs: seq<Input>) {
    && Sound(c)
    && (forall job :: Hashes(c.versions, job) == FirstSeen(Given(specs, job)))
    && (forall job :: Given(specs, job) != [] ==> Points(c, job, Given(specs, job)[|Given(specs, job)| - 1]))
  }

  lemma {:induction false} WriteTells(c: Catalog, specs: seq<Input>, id: string, at: int, spec: Input)
    requires Tells(c, specs)
    ensures match WriteTx(c, id, at, spec) case Err(_) => true case Ok(w) => Tells(w.catalog, specs + [spec])
  {
    WriteKeeps(c, id, at, spec);
    hide WriteTx, Wrote, Tells;
    match WriteTx(c, id, at, spec)
    case Err(_) =>
    case Ok(w) => WroteTells(c, w.catalog, specs, spec, w.created);
  }

  lemma {:induction false} WroteTells(c: Catalog, d: Catalog, specs: seq<Input>, spec: Input, created: bool)
    requires Tells(c, specs) && Wrote(c, d, spec, created)
    ensures Tells(d, specs + [spec])
  {
    WroteIsSound(c, d, spec, created);
    hide Sound, Points, FirstSeen, Given, Grown, Numbered, OneEach, Of, Hashes, IdsDiffer;
    forall job ensures Hashes(d.versions, job) == FirstSeen(Given(specs + [spec], job)) {
      TellsHashes(c, d, specs, spec, created, job);
    }
    forall job | Given(specs + [spec], job) != []
      ensures Points(d, job, Given(specs + [spec], job)[|Given(specs + [spec], job)| - 1])
    {
      TellsPoints(c, d, specs, spec, job);
    }
  }

  lemma {:induction false} TellsHashes(c: Catalog, d: Catalog, specs: seq<Input>, spec: Input, created: bool, job: string)
    requires Hashes(c.versions, job) == FirstSeen(Given(specs, job))
    requires Grown(c.versions, d.versions, job, spec, created)
    requires created <==> spec.hash !in Hashes(c.versions, spec.job)
    ensures Hashes(d.versions, job) == FirstSeen(Given(specs + [spec], job))
  {
    GivenMore(specs, spec, job);
    hide Hashes, FirstSeen, Given;
    assert FirstSeen(Given(specs, job)) + [] == FirstSeen(Given(specs, job));
    assert Given(specs, job) + [] == Given(specs, job);
  }

  lemma {:induction false} TellsPoints(c: Catalog, d: Catalog, specs: seq<Input>, spec: Input, job: string)
    requires Points(d, spec.job, spec.hash) && c.versions <= d.versions && Given(specs + [spec], job) != []
    requires job != spec.job && Given(specs, job) != [] ==> Points(c, job, Given(specs, job)[|Given(specs, job)| - 1])
    requires job != spec.job ==> (job in d.jobs <==> job in c.jobs) && (job in c.jobs ==> d.jobs[job] == c.jobs[job])
    ensures Points(d, job, Given(specs + [spec], job)[|Given(specs + [spec], job)| - 1])
  {
    GivenMore(specs, spec, job);
    if job != spec.job {
      assert Given(specs + [spec], job) == Given(specs, job);
      var hash := Given(specs, job)[|Given(specs, job)| - 1];
      PointsStay(c, d, job, hash);
    }
  }

  lemma {:induction false} ApplyTells(c: Catalog, specs: seq<Input>, ids: seq<string>, at: int, batch: seq<Input>)
    requires Tells(c, specs) && |ids| == |batch|
    ensures match ApplyTx(c, ids, at, batch)
      case Err(_) => true
      case Ok((after, results)) => Tells(after, specs + batch) && c.versions <= after.versions && |results| == |batch|
    decreases |batch|
  {
    hide Tells, WriteTx;
    var n := |batch| - 1;
    if |batch| == 0 {
      assert specs + batch == specs;
    } else {
      ApplyTells(c, specs, ids[..n], at, batch[..n]);
      match ApplyTx(c, ids[..n], at, batch[..n]) {
        case Err(_) =>
        case Ok((before, _)) =>
          WriteTells(before, specs + batch[..n], ids[n], at, batch[n]);
          assert specs + batch[..n] + [batch[n]] == specs + batch;
          RowsStay(before, specs + batch[..n], ids[n], at, batch[n]);
      }
    }
  }

  lemma {:induction false} RowsStay(c: Catalog, specs: seq<Input>, id: string, at: int, spec: Input)
    requires Tells(c, specs)
    ensures match WriteTx(c, id, at, spec) case Err(_) => true case Ok(w) => c.versions <= w.catalog.versions
  {
  }

  datatype Batch = Batch(ids: seq<string>, at: int, specs: seq<Input>)

  /** Batches one after the other; one that is refused leaves everything as it was. */
  function History(batches: seq<Batch>): (Catalog, seq<Input>)
    requires forall i :: 0 <= i < |batches| ==> |batches[i].ids| == |batches[i].specs|
  {
    if |batches| == 0 then (Catalog(map[], []), [])
    else
      var (c, done) := History(batches[..|batches| - 1]);
      var b := batches[|batches| - 1];
      match ApplyTx(c, b.ids, b.at, b.specs)
      case Err(_) => (c, done)
      case Ok((after, _)) => (after, done + b.specs)
  }

  /**
   * Whatever was applied, the versions of a job are numbered from one, one for each hash it was ever given
   * and in the order they first came, and the job points at the last one given.
   */
  lemma {:induction false} HistoryTells(batches: seq<Batch>)
    requires forall i :: 0 <= i < |batches| ==> |batches[i].ids| == |batches[i].specs|
    ensures var (c, done) := History(batches); Tells(c, done)
    decreases |batches|
  {
    if |batches| > 0 {
      var before := batches[..|batches| - 1];
      HistoryTells(before);
      var (c, done) := History(before);
      var b := batches[|batches| - 1];
      hide Tells;
      ApplyTells(c, done, b.ids, b.at, b.specs);
    }
  }

  /** A version row, once written, is in the table for good and as it was. */
  lemma {:induction false} RowsAreKept(batches: seq<Batch>, n: nat)
    requires n <= |batches| && forall i :: 0 <= i < |batches| ==> |batches[i].ids| == |batches[i].specs|
    ensures History(batches[..n]).0.versions <= History(batches).0.versions
    decreases |batches|
  {
    if n == |batches| {
      assert batches[..n] == batches;
    } else {
      var before := batches[..|batches| - 1];
      RowsAreKept(before, n);
      assert before[..n] == batches[..n];
      HistoryTells(before);
      var (c, done) := History(before);
      var b := batches[|batches| - 1];
      hide Tells;
      ApplyTells(c, done, b.ids, b.at, b.specs);
    }
  }

  // ----- what one spec writes, field by field -----

  /**
   * One spec is refused exactly when its limit is negative, or when it needs a new version and the id is
   * taken. A new version is appended and holds what was given, the frozen document included; a known hash
   * appends nothing and answers with the row there is.
   */
  lemma {:induction false} WriteExactly(c: Catalog, id: string, at: int, spec: Input)
    requires Sound(c)
    ensures var known := exists v :: v in c.versions && v.job == spec.job && v.hash == spec.hash;
      match WriteTx(c, id, at, spec)
      case Err(BadConcurrency) => spec.maxConcurrent < 0
      case Err(IdTaken) => spec.maxConcurrent >= 0 && !known && exists v :: v in c.versions && v.id == id
      case Ok(w) =>
        && spec.maxConcurrent >= 0 && (w.created <==> !known)
        && (if known then w.catalog.versions == c.versions && w.version in c.versions
            else w.catalog.versions == c.versions + [w.version] && Holds(w.version, id, at, spec)
                 && w.version.number == 1 + |Of(c.versions, spec.job)|)
        && w.version.job == spec.job && w.version.hash == spec.hash
  {
    HighestIsCount(c.versions, spec.job);
    hide Highest, Of, Numbered, OneEach, Hashes, Points, UpsertJob;
  }

  /** The row of a version, column by column. */
  ghost predicate Holds(v: Version, id: string, at: int, spec: Input) {
    && v.id == id && v.createdAt == at
    && v.job == spec.job && v.hash == spec.hash && v.json == spec.json && v.source == spec.source
  }

  /** The row of the job after it: what the spec says of it, and never whether it is paused. */
  lemma {:induction false} UpsertExactly(c: Catalog, id: string, at: int, spec: Input)
    requires WriteTx(c, id, at, spec).Ok?
    ensures var w := WriteTx(c, id, at, spec).value; var job := spec.job;
      && w.catalog.jobs.Keys == c.jobs.Keys + {job}
      && (forall other :: other in c.jobs && other != job ==> w.catalog.jobs[other] == c.jobs[other])
      && var row := w.catalog.jobs[job];
         && row.description == spec.description && row.source == spec.source
         && row.maxConcurrent == (if spec.maxConcurrent == 0 then 1 else spec.maxConcurrent)
         && row.updatedAt == at && row.current == Some(w.version.id)
         && row.paused == (job in c.jobs && c.jobs[job].paused)
         && row.createdAt == (if job in c.jobs then c.jobs[job].createdAt else at)
  {
  }

  /** A version holds what the first spec of its job and hash gave, and none before that one had both. */
  ghost predicate FromFirst(v: Version, specs: seq<Input>) {
    exists i :: 0 <= i < |specs| && Gives(specs[i], v) && Unseen(specs[..i], v.job, v.hash)
  }

  ghost predicate Gives(spec: Input, v: Version) {
    spec.job == v.job && spec.hash == v.hash && spec.json == v.json && spec.source == v.source
  }

  ghost predicate Unseen(specs: seq<Input>, job: string, hash: string) {
    forall k :: 0 <= k < |specs| ==> specs[k].job != job || specs[k].hash != hash
  }

  ghost predicate AllFromFirst(c: Catalog, specs: seq<Input>) { forall v :: v in c.versions ==> FromFirst(v, specs) }

  lemma {:induction false} FirstSeenHas(hs: seq<string>, hash: string)
    ensures hash in FirstSeen(hs) <==> hash in hs
    decreases |hs|
  {
    if |hs| > 0 {
      assert hs == hs[..|hs| - 1] + [hs[|hs| - 1]];
      FirstSeenHas(hs[..|hs| - 1], hash);
    }
  }

  lemma {:induction false} GivenHas(specs: seq<Input>, job: string, hash: string)
    ensures hash !in Given(specs, job) <==> Unseen(specs, job, hash)
    decreases |specs|
  {
    if |specs| > 0 {
      var before := specs[..|specs| - 1];
      GivenHas(before, job, hash);
      assert forall k :: 0 <= k < |before| ==> before[k] == specs[k];
    }
  }

  lemma {:induction false} StillFirst(v: Version, specs: seq<Input>, more: Input)
    requires FromFirst(v, specs)
    ensures FromFirst(v, specs + [more])
  {
    var i :| 0 <= i < |specs| && Gives(specs[i], v) && Unseen(specs[..i], v.job, v.hash);
    assert (specs + [more])[i] == specs[i] && (specs + [more])[..i] == specs[..i];
  }

  lemma {:induction false} WriteFromFirst(c: Catalog, specs: seq<Input>, id: string, at: int, spec: Input)
    requires Tells(c, specs) && AllFromFirst(c, specs) && WriteTx(c, id, at, spec).Ok?
    ensures AllFromFirst(WriteTx(c, id, at, spec).value.catalog, specs + [spec])
  {
    WriteExactly(c, id, at, spec);
    WriteNumbers(c, id, at, spec);
    var w := WriteTx(c, id, at, spec).value;
    FirstSeenHas(Given(specs, spec.job), spec.hash);
    GivenHas(specs, spec.job, spec.hash);
    hide WriteTx, Of, Hashes, FirstSeen, Given, FromFirst, Unseen, Points, Grown;
    forall v | v in w.catalog.versions ensures FromFirst(v, specs + [spec]) {
      if v in c.versions { StillFirst(v, specs, spec); } else { NowFirst(v, specs, spec); }
    }
  }

  lemma {:induction false} NowFirst(v: Version, specs: seq<Input>, spec: Input)
    requires Gives(spec, v) && Unseen(specs, v.job, v.hash)
    ensures FromFirst(v, specs + [spec])
  {
    assert (specs + [spec])[|specs|] == spec && (specs + [spec])[..|specs|] == specs;
  }

  lemma {:induction false} ApplyFromFirst(c: Catalog, specs: seq<Input>, ids: seq<string>, at: int, batch: seq<Input>)
    requires |ids| == |batch| && Tells(c, specs) && AllFromFirst(c, specs) && ApplyTx(c, ids, at, batch).Ok?
    ensures AllFromFirst(ApplyTx(c, ids, at, batch).value.0, specs + batch)
    decreases |batch|
  {
    hide Tells, WriteTx, AllFromFirst;
    if |batch| == 0 {
      assert specs + batch == specs;
    } else {
      var n := |batch| - 1;
      ApplyTells(c, specs, ids[..n], at, batch[..n]);
      ApplyFromFirst(c, specs, ids[..n], at, batch[..n]);
      var before := ApplyTx(c, ids[..n], at, batch[..n]).value.0;
      WriteFromFirst(before, specs + batch[..n], ids[n], at, batch[n]);
      assert specs + batch[..n] + [batch[n]] == specs + batch;
    }
  }

  /** Whatever was applied, the document a version freezes is the one its job and hash were first given with. */
  lemma {:induction false} HistoryFreezes(batches: seq<Batch>)
    requires forall i :: 0 <= i < |batches| ==> |batches[i].ids| == |batches[i].specs|
    ensures var (c, done) := History(batches); AllFromFirst(c, done)
    decreases |batches|
  {
    if |batches| > 0 {
      var before := batches[..|batches| - 1];
      HistoryFreezes(before);
      HistoryTells(before);
      var (c, done) := History(before);
      var b := batches[|batches| - 1];
      hide Tells, AllFromFirst;
      if ApplyTx(c, b.ids, b.at, b.specs).Ok? { ApplyFromFirst(c, done, b.ids, b.at, b.specs); }
    }
  }

  /** What a batch answers for one of its specs: the version row that carries it now. */
  ghost predicate Answers(d: Catalog, r: Applied, spec: Input) {
    r.job == spec.job && exists v :: v in d.versions && v.id == r.id && v.number == r.number && v.job == spec.job && v.hash == spec.hash
  }

  lemma {:induction false} StillAnswers(c: Catalog, d: Catalog, r: Applied, spec: Input)
    requires Answers(c, r, spec) && c.versions <= d.versions
    ensures Answers(d, r, spec)
  {
    var v :| v in c.versions && v.id == r.id && v.number == r.number && v.job == spec.job && v.hash == spec.hash;
    var i :| 0 <= i < |c.versions| && c.versions[i] == v;
    assert d.versions[i] == v;
  }

  lemma {:induction false} ApplyAnswers(c: Catalog, ids: seq<string>, at: int, batch: seq<Input>)
    requires |ids| == |batch| && ApplyTx(c, ids, at, batch).Ok?
    ensures var (d, results) := ApplyTx(c, ids, at, batch).value;
      |results| == |batch| && forall i :: 0 <= i < |batch| ==> Answers(d, results[i], batch[i])
    decreases |batch|
  {
    hide WriteTx, Answers;
    if |batch| > 0 {
      var n := |batch| - 1;
      ApplyAnswers(c, ids[..n], at, batch[..n]);
      var (before, results) := ApplyTx(c, ids[..n], at, batch[..n]).value;
      var w := WriteTx(before, ids[n], at, batch[n]).value;
      WriteRow(before, ids[n], at, batch[n]);
      forall i | 0 <= i < n ensures Answers(w.catalog, results[i], batch[i]) {
        assert batch[..n][i] == batch[i];
        StillAnswers(before, w.catalog, results[i], batch[i]);
      }
      assert Answers(w.catalog, Applied(batch[n].job, w.version.id, w.version.number, w.created), batch[n]) by {
        AnswersNow(w.catalog, w.version, batch[n], w.created);
      }
    }
  }

  lemma {:induction false} AnswersNow(d: Catalog, v: Version, spec: Input, created: bool)
    requires Find(d.versions, spec.job, spec.hash) == Some(v)
    ensures Answers(d, Applied(spec.job, v.id, v.number, created), spec)
  {
  }

  // ----- applying the same again -----

  /** The last spec of a batch for one job. */
  function LastFor(batch: seq<Input>, job: string): Option<Input> {
    if |batch| == 0 then None
    else if batch[|batch| - 1].job == job then Some(batch[|batch| - 1])
    else LastFor(batch[..|batch| - 1], job)
  }

  lemma {:induction false} FindStays(a: seq<Version>, b: seq<Version>, job: string, hash: string)
    requires a <= b && Find(a, job, hash).Some?
    ensures Find(b, job, hash) == Find(a, job, hash)
    decreases |a|
  {
    if !(a[0].job == job && a[0].hash == hash) { FindStays(a[1..], b[1..], job, hash); }
  }

  lemma {:induction false} FindLast(a: seq<Version>, v: Version)
    requires Find(a, v.job, v.hash).None?
    ensures Find(a + [v], v.job, v.hash) == Some(v)
    decreases |a|
  {
    if |a| > 0 {
      assert (a + [v])[1..] == a[1..] + [v];
      FindLast(a[1..], v);
    }
  }

  /** What a job's row says after a batch: what its last spec said, and whose version it is. */
  ghost predicate RowTells(c: Catalog, d: Catalog, at: int, batch: seq<Input>, job: string) {
    match LastFor(batch, job)
    case None => (job in d.jobs <==> job in c.jobs) && (job in c.jobs ==> d.jobs[job] == c.jobs[job])
    case Some(spec) =>
      && job in d.jobs && Find(d.versions, job, spec.hash).Some? && Limit(spec.maxConcurrent) > 0
      && d.jobs[job] == JobRow(
           spec.description, if job in c.jobs then c.jobs[job].paused else false, Limit(spec.maxConcurrent), spec.source,
           if job in c.jobs then c.jobs[job].createdAt else at, at, Some(Find(d.versions, job, spec.hash).value.id))
  }

  lemma {:induction false} WriteRow(c: Catalog, id: string, at: int, spec: Input)
    ensures match WriteTx(c, id, at, spec)
      case Err(_) => true
      case Ok(w) =>
        var d := w.catalog;
        && c.versions <= d.versions && Limit(spec.maxConcurrent) > 0 && Find(d.versions, spec.job, spec.hash) == Some(w.version)
        && d.jobs == c.jobs[spec.job := UpsertJob(c, at, spec).(current := Some(w.version.id))]
  {
    hide Used, Highest, UpsertJob, Limit;
    match WriteTx(c, id, at, spec)
    case Err(_) =>
    case Ok(w) => if w.created { FindLast(c.versions, w.version); }
  }

  ghost predicate AllFound(versions: seq<Version>, batch: seq<Input>) {
    forall i :: 0 <= i < |batch| ==> Find(versions, batch[i].job, batch[i].hash).Some? && Limit(batch[i].maxConcurrent) > 0
  }

  lemma {:induction false} RowMore(c: Catalog, before: Catalog, d: Catalog, at: int, batch: seq<Input>, spec: Input, v: Version, job: string)
    requires RowTells(c, before, at, batch, job)
    requires before.versions <= d.versions && Limit(spec.maxConcurrent) > 0 && Find(d.versions, spec.job, spec.hash) == Some(v)
    requires d.jobs == before.jobs[spec.job := UpsertJob(before, at, spec).(current := Some(v.id))]
    ensures RowTells(c, d, at, batch + [spec], job)
  {
    assert (batch + [spec])[..|batch|] == batch;
    match LastFor(batch, job)
    case Some(last) => FindStays(before.versions, d.versions, job, last.hash);
    case None =>
  }

  lemma {:induction false} ApplyRows(c: Catalog, ids: seq<string>, at: int, batch: seq<Input>)
    requires |ids| == |batch|
    ensures match ApplyTx(c, ids, at, batch)
      case Err(_) => true
      case Ok((d, _)) =>
        c.versions <= d.versions && AllFound(d.versions, batch) && forall job :: RowTells(c, d, at, batch, job)
    decreases |batch|
  {
    var n := |batch| - 1;
    if |batch| > 0 {
      ApplyRows(c, ids[..n], at, batch[..n]);
      match ApplyTx(c, ids[..n], at, batch[..n]) {
        case Err(_) =>
        case Ok((before, _)) =>
          WriteRow(before, ids[n], at, batch[n]);
          assert batch == batch[..n] + [batch[n]];
          hide WriteTx, RowTells, UpsertJob, Find, Limit;
          match WriteTx(before, ids[n], at, batch[n]) {
            case Err(_) =>
            case Ok(w) =>
              forall job ensures RowTells(c, w.catalog, at, batch, job) {
                RowMore(c, before, w.catalog, at, batch[..n], batch[n], w.version, job);
              }
              StillFound(before.versions, w.catalog.versions, batch[..n]);
              OneMoreFound(w.catalog.versions, batch[..n], batch[n]);
          }
      }
    }
  }

  lemma {:induction false} StillFound(a: seq<Version>, b: seq<Version>, batch: seq<Input>)
    requires AllFound(a, batch) && a <= b
    ensures AllFound(b, batch)
  {
    forall i | 0 <= i < |batch| ensures Find(b, batch[i].job, batch[i].hash).Some? { FindStays(a, b, batch[i].job, batch[i].hash); }
  }

  lemma {:induction false} OneMoreFound(versions: seq<Version>, batch: seq<Input>, spec: Input)
    requires AllFound(versions, batch) && Find(versions, spec.job, spec.hash).Some? && Limit(spec.maxConcurrent) > 0
    ensures AllFound(versions, batch + [spec])
  {
  }

  /** A batch whose specs are all there already makes no version and is not refused. */
  lemma {:induction false} ApplyFound(c: Catalog, ids: seq<string>, at: int, batch: seq<Input>)
    requires |ids| == |batch| && AllFound(c.versions, batch)
    ensures match ApplyTx(c, ids, at, batch)
      case Err(_) => false
      case Ok((d, results)) => d.versions == c.versions && |results| == |batch| && forall i :: 0 <= i < |results| ==> !results[i].created
    decreases |batch|
  {
    var n := |batch| - 1;
    if |batch| > 0 {
      assert AllFound(c.versions, batch[..n]);
      ApplyFound(c, ids[..n], at, batch[..n]);
      assert Find(c.versions, batch[n].job, batch[n].hash).Some? && Limit(batch[n].maxConcurrent) > 0;
      hide Find, UpsertJob, Limit, AllFound, Used, Highest;
    }
  }

  /** All but the time of the last load. */
  ghost predicate SameButTime(a: Catalog, b: Catalog) {
    && a.versions == b.versions && a.jobs.Keys == b.jobs.Keys
    && forall job :: job in a.jobs ==> b.jobs[job] == a.jobs[job].(updatedAt := b.jobs[job].updatedAt)
  }

  /** After a first load, a second of the same batch makes nothing and changes at most the times. */
  ghost predicate Repeats(first: Result<(Catalog, seq<Applied>), Refusal>, at: int, batch: seq<Input>, ids': seq<string>, at': int)
    requires |ids'| == |batch|
  {
    match first
    case Err(_) => true
    case Ok((d, _)) =>
      match ApplyTx(d, ids', at', batch)
      case Err(_) => false
      case Ok((e, results)) =>
        && (forall i :: 0 <= i < |results| ==> !results[i].created)
        && SameButTime(d, e) && (e == d <==> at == at' || batch == [])
  }

  /**
   * Applying a batch a second time makes nothing and is never refused. It does not leave the database byte
   * for byte the same, as it is said to: every job of the batch takes the time of the second load, so the
   * tables are the same exactly when no time has passed or the batch is empty.
   */
  lemma {:induction false} ApplyAgain(c: Catalog, ids: seq<string>, at: int, batch: seq<Input>, ids': seq<string>, at': int)
    requires |ids| == |ids'| == |batch|
    ensures Repeats(ApplyTx(c, ids, at, batch), at, batch, ids', at')
  {
    hide ApplyTx, RowTells, AllFound, SameButTime;
    ApplyRows(c, ids, at, batch);
    match ApplyTx(c, ids, at, batch)
    case Err(_) =>
    case Ok((d, _)) =>
      ApplyFound(d, ids', at', batch);
      ApplyRows(d, ids', at', batch);
      match ApplyTx(d, ids', at', batch) {
        case Ok((e, _)) => Alike(c, d, e, at, at', batch);
      }
  }

  lemma {:induction false} Alike(c: Catalog, d: Catalog, e: Catalog, at: int, at': int, batch: seq<Input>)
    requires d.versions == e.versions
    requires (forall job :: RowTells(c, d, at, batch, job)) && forall job :: RowTells(d, e, at', batch, job)
    ensures SameButTime(d, e) && (e == d <==> at == at' || batch == [])
  {
    hide RowTells, LastFor;
    forall job ensures job in e.jobs <==> job in d.jobs { RowAgain(c, d, e, at, at', batch, job); }
    forall job | job in d.jobs
      ensures e.jobs[job] == d.jobs[job].(updatedAt := e.jobs[job].updatedAt) && (at == at' || batch == [] ==> e.jobs[job] == d.jobs[job])
    {
      RowAgain(c, d, e, at, at', batch, job);
      if |batch| == 0 { NoLast(batch, job); }
    }
    if |batch| > 0 {
      LastIsLast(batch);
      RowAgain(c, d, e, at, at', batch, batch[|batch| - 1].job);
    }
  }

  lemma {:induction false} LastIsLast(batch: seq<Input>)
    requires |batch| > 0
    ensures LastFor(batch, batch[|batch| - 1].job) == Some(batch[|batch| - 1])
  {
  }

  lemma {:induction false} NoLast(batch: seq<Input>, job: string)
    requires |batch| == 0
    ensures LastFor(batch, job) == None
  {
  }

  lemma {:induction false} RowAgain(c: Catalog, d: Catalog, e: Catalog, at: int, at': int, batch: seq<Input>, job: string)
    requires RowTells(c, d, at, batch, job) && RowTells(d, e, at', batch, job) && d.versions == e.versions
    ensures job in e.jobs <==> job in d.jobs
    ensures job in d.jobs ==> e.jobs[job] == d.jobs[job].(updatedAt := e.jobs[job].updatedAt)
    ensures LastFor(batch, job).None? && job in d.jobs ==> e.jobs[job] == d.jobs[job]
    ensures LastFor(batch, job).Some? ==> job in d.jobs && d.jobs[job].updatedAt == at && e.jobs[job].updatedAt == at'
  {
    hide LastFor, Find, Limit;
  }

  // ----- the store's two methods -----

  class Shelf {
    var jobs: map<string, JobRow>
    var versions: seq<Version>

    ghost function Now(): Catalog
      reads this
    {
      Catalog(jobs, versions)
    }

    /** writeJobVersion, inside a transaction of the caller's: nothing is written when it refuses. */
    method WriteJobVersion(id: string, at: int, spec: Input) returns (r: Result<(Version, bool), Refusal>)
      modifies this
      ensures match WriteTx(old(Now()), id, at, spec)
        case Err(e) => r == Err(e) && Now() == old(Now())
        case Ok(w) => r == Ok((w.version, w.created)) && Now() == w.catalog
    {
      var limit := spec.maxConcurrent;
      if limit == 0 { limit := 1; }
      if limit <= 0 { return Err(BadConcurrency); }
      var row := UpsertJob(Catalog(jobs, versions), at, spec);
      var found := Find(versions, spec.job, spec.hash);
      var made := found.None?;
      if made {
        if Used(versions, id) { return Err(IdTaken); }
        var number := Highest(versions, spec.job) + 1;
        found := Some(Version(id, spec.job, number, spec.hash, spec.json, spec.source, at));
        versions := versions + [found.value];
      }
      jobs := jobs[spec.job := row.(current := Some(found.value.id))];
      r := Ok((found.value, made));
    }

    /** ApplyJobs: the whole batch or none of it. */
    method ApplyJobs(ids: seq<string>, at: int, batch: seq<Input>) returns (r: Result<seq<Applied>, Refusal>)
      requires |ids| == |batch|
      modifies this
      ensures match ApplyTx(old(Now()), ids, at, batch)
        case Err(e) => r == Err(e) && Now() == old(Now())
        case Ok((after, results)) => r == Ok(results) && Now() == after
    {
      hide WriteTx;
      var begunJobs, begunVersions := jobs, versions;
      var results: seq<Applied> := [];
      assert ids[..|ids|] == ids && batch[..|batch|] == batch;
      for i := 0 to |batch|
        invariant ApplyTx(old(Now()), ids[..i], at, batch[..i]) == Ok((Now(), results))
        invariant begunJobs == old(jobs) && begunVersions == old(versions)
      {
        assert ids[..i + 1][..i] == ids[..i] && batch[..i + 1][..i] == batch[..i];
        var w := WriteJobVersion(ids[i], at, batch[i]);
        match w {
          case Err(e) =>
            jobs, versions := begunJobs, begunVersions;
            RefusedLater(old(Now()), ids, at, batch, i + 1, e);
            return Err(e);
          case Ok((v, made)) =>
            results := results + [Applied(batch[i].job, v.id, v.number, made)];
        }
      }
      r := Ok(results);
    }
  }

  /** A refusal anywhere in a batch is the batch's. */
  lemma {:induction false} RefusedLater(c: Catalog, ids: seq<string>, at: int, batch: seq<Input>, n: nat, e: Refusal)
    requires |ids| == |batch| && n <= |batch| && ApplyTx(c, ids[..n], at, batch[..n]) == Err(e)
    ensures ApplyTx(c, ids, at, batch) == Err(e)
    decreases |batch|
  {
    if n == |batch| {
      assert ids[..n] == ids && batch[..n] == batch;
    } else {
      var m := |batch| - 1;
      assert ids[..m][..n] == ids[..n] && batch[..m][..n] == batch[..n];
      RefusedLater(c, ids[..m], at, batch[..m], n, e);
    }
  }
}
