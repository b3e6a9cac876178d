/** A job as its canonical document, and the job a run reads back from one. */
module JobDoc {
  import opened Wrappers
  import opened Text
  import opened Backoff
  import opened Duration
  import opened Json

  datatype Retry = Retry(max: int, backoff: string, initial: int, maxDelay: int, jitter: string)

  datatype Step = Step(
    name: string, run: seq<string>, shell: bool, workdir: string, timeout: int, retry: Option<Retry>, needs: seq<string>)

  datatype Schedule = Schedule(name: string, cron: string, timezone: string)

  datatype Sensor = Sensor(name: string, kind: string, interval: int)

  datatype Job = Job(
    name: string, description: string, env: map<string, string>, envFile: string, inheritEnv: seq<string>,
    workdir: string, timeout: int, maxConcurrent: int, steps: seq<Step>, schedules: seq<Schedule>, sensors: seq<Sensor>)

  const SCHEMA := "paceq.job.v1"

  // ----- the keys of a document -----

  datatype Key =
    | SchemaKey | Name | Description | EnvFile | Workdir | TimeoutMs | MaxConcurrent | Env | InheritEnv | Steps | Schedules
    | Sensors | Run | Shell | RetryKey | Needs | Max | BackoffKey | InitialMs | MaxDelayMs | JitterKey | Cron | Timezone
    | Type | IntervalMs

  function NameOf(k: Key): string {
    match k
    case SchemaKey => "schema" case Name => "name" case Description => "description" case EnvFile => "env_file"
    case Workdir => "workdir" case TimeoutMs => "timeout_ms" case MaxConcurrent => "max_concurrent" case Env => "env"
    case InheritEnv => "inherit_env" case Steps => "steps" case Schedules => "schedules" case Sensors => "sensors"
    case Run => "run" case Shell => "shell" case RetryKey => "retry" case Needs => "needs" case Max => "max"
    case BackoffKey => "backoff" case InitialMs => "initial_ms" case MaxDelayMs => "max_delay_ms"
    case JitterKey => "jitter" case Cron => "cron" case Timezone => "timezone" case Type => "type"
    case IntervalMs => "interval_ms"
  }

  /** A text for each key that no other key has: its length, and one letter where lengths agree. */
  lemma {:induction false} NamesDiffer(a: Key, b: Key)
    requires a != b
    ensures NameOf(a) != NameOf(b)
  {
    var s, t := NameOf(a), NameOf(b);
    if |s| == |t| {
      assert s[0] != t[0] || s[|s| - 1] != t[|t| - 1];
    }
  }

  function At(m: map<string, Value>, k: Key): Option<Value> {
    if NameOf(k) in m then Some(m[NameOf(k)]) else None
  }

  // ----- writing -----

  datatype Entry = Entry(key: Key, value: Value)

  function Members(es: seq<Entry>): (ms: seq<Member>)
    ensures |ms| == |es| && forall i :: 0 <= i < |es| ==> ms[i] == Member(NameOf(es[i].key), es[i].value)
  {
    seq(|es|, i requires 0 <= i < |es| => Member(NameOf(es[i].key), es[i].value))
  }

  function When(present: bool, key: Key, value: Value): seq<Entry> { if present then [Entry(key, value)] else [] }

  /** Milliseconds, towards zero. */
  function Millis(d: int): int { Quotient(d, NANOS) }

  function Texts(values: seq<string>): Value {
    Array(seq(|values|, i requires 0 <= i < |values| => Words(values[i])))
  }

  /** The entries of a map in some order; the encoder sorts them. */
  ghost function Listed(m: map<string, string>, keys: set<string>): seq<Member>
    requires keys <= m.Keys
    decreases keys
  {
    if keys == {} then []
    else
      var k :| k in keys;
      Listed(m, keys - {k}) + [Member(k, Words(m[k]))]
  }

  ghost function TextMap(m: map<string, string>): Value { Object(Listed(m, m.Keys)) }

  function RetryEntries(r: Retry): seq<Entry> {
    [Entry(Max, Number(r.max)), Entry(BackoffKey, Words(r.backoff)), Entry(InitialMs, Number(Millis(r.initial))),
     Entry(MaxDelayMs, Number(Millis(r.maxDelay))), Entry(JitterKey, Words(r.jitter))]
  }

  function RetryDoc(r: Retry): Value { Object(Members(RetryEntries(r))) }

  function StepBase(s: Step): seq<Entry> {
    [Entry(Name, Words(s.name)), Entry(Run, Texts(s.run)), Entry(Shell, Flag(s.shell))]
  }

  function StepEntries(s: Step): seq<Entry> {
    StepBase(s)
    + When(s.workdir != "", Workdir, Words(s.workdir))
    + When(s.timeout > 0, TimeoutMs, Number(Millis(s.timeout)))
    + When(s.retry.Some?, RetryKey, match s.retry case Some(r) => RetryDoc(r) case None => Flag(false))
    + When(|s.needs| > 0, Needs, Texts(Sort(s.needs)))
  }

  function StepDoc(s: Step): Value { Object(Members(StepEntries(s))) }

  function ScheduleDoc(s: Schedule): Value {
    Object(Members([Entry(Name, Words(s.name)), Entry(Cron, Words(s.cron)), Entry(Timezone, Words(s.timezone))]))
  }

  function SensorDoc(s: Sensor): Value {
    Object(Members([Entry(Name, Words(s.name)), Entry(Type, Words(s.kind)), Entry(IntervalMs, Number(Millis(s.interval)))]))
  }

  function Docs<T>(items: seq<T>, doc: T -> Value): Value {
    Array(seq(|items|, i requires 0 <= i < |items| => doc(items[i])))
  }

  ghost function JobBase(j: Job): seq<Entry> {
    [Entry(SchemaKey, Words(SCHEMA)), Entry(Name, Words(j.name)), Entry(TimeoutMs, Number(Millis(j.timeout))),
     Entry(MaxConcurrent, Number(j.maxConcurrent)), Entry(Steps, Docs(j.steps, StepDoc))]
  }

  ghost function JobTextEntries(j: Job): seq<Entry> {
    JobBase(j)
    + When(j.description != "", Description, Words(j.description))
    + When(j.envFile != "", EnvFile, Words(j.envFile))
    + When(j.workdir != "", Workdir, Words(j.workdir))
  }

  ghost function JobEntries(j: Job): seq<Entry> {
    JobTextEntries(j)
    + When(j.env != map[], Env, TextMap(j.env))
    + When(|j.inheritEnv| > 0, InheritEnv, Texts(Sort(j.inheritEnv)))
    + When(|j.schedules| > 0, Schedules, Docs(j.schedules, ScheduleDoc))
    + When(|j.sensors| > 0, Sensors, Docs(j.sensors, SensorDoc))
  }

  ghost function JobDoc(j: Job): Value { Object(Members(JobEntries(j))) }

  /** Canonical. */
  ghost function Canonical(j: Job): string { Encode(JobDoc(j)) }

  // ----- reading -----

  /** An object as the decoder keeps it: of two members with one key, the later. */
  function AsMap(ms: seq<Member>): map<string, Value> {
    if |ms| == 0 then map[] else AsMap(ms[..|ms| - 1])[ms[|ms| - 1].key := ms[|ms| - 1].value]
  }

  predicate Known(m: map<string, Value>, keys: set<Key>) { forall s :: s in m ==> exists k :: k in keys && NameOf(k) == s }

  function ToText(v: Option<Value>): Option<string> {
    match v case None => Some("") case Some(Words(s)) => Some(s) case _ => None
  }

  function ToFlag(v: Option<Value>): Option<bool> {
    match v case None => Some(false) case Some(Flag(b)) => Some(b) case _ => None
  }

  /** wholeNumber: Sscanf stops at the point or the exponent and reports nothing. */
  function ToInt(v: Option<Value>): Option<int> {
    match v
    case None => Some(0)
    case Some(Number(n)) => if IsInt64(n) then Some(n) else None
    case Some(Cut(n)) => if IsInt64(n) then Some(n) else None
    case _ => None
  }

  /** A duration from its milliseconds, as int64 multiplies them. */
  function ToDuration(v: Option<Value>): Option<int> {
    match ToInt(v) case None => None case Some(n) => Some(Wrap(n * NANOS))
  }

  function ToTexts(v: Option<Value>): Option<seq<string>> {
    match v
    case None => Some([])
    case Some(Array(items)) =>
      if forall i :: 0 <= i < |items| ==> items[i].Words?
      then Some(seq(|items|, i requires 0 <= i < |items| => items[i].text)) else None
    case _ => None
  }

  function ToTextMap(v: Option<Value>): Option<map<string, string>> {
    match v
    case None => Some(map[])
    case Some(Object(ms)) =>
      var m := AsMap(ms);
      if forall k :: k in m ==> m[k].Words? then Some(map k | k in m :: m[k].text) else None
    case _ => None
  }

  const RETRY_KEYS := {Max, BackoffKey, InitialMs, MaxDelayMs, JitterKey}
  const STEP_KEYS := {Name, Run, Shell, Workdir, TimeoutMs, RetryKey, Needs}
  const SCHEDULE_KEYS := {Name, Cron, Timezone}
  const SENSOR_KEYS := {Name, Type, IntervalMs}
  const JOB_KEYS := {SchemaKey, Name, Description, EnvFile, Workdir, TimeoutMs, MaxConcurrent, Env, InheritEnv, Steps, Schedules, Sensors}

  function RetryOf(m: map<string, Value>): Option<Retry> {
    if !Known(m, RETRY_KEYS) then None
    else
      match (ToInt(At(m, Max)), ToText(At(m, BackoffKey)), ToDuration(At(m, InitialMs)), ToDuration(At(m, MaxDelayMs)), ToText(At(m, JitterKey)))
      case (Some(max), Some(backoff), Some(initial), Some(maxDelay), Some(jitter)) =>
        Some(Retry(max, backoff, initial, maxDelay, jitter))
      case _ => None
  }

  function ToRetry(v: Option<Value>): Option<Option<Retry>> {
    match v
    case None => Some(None)
    case Some(Object(ms)) => (match RetryOf(AsMap(ms)) case None => None case r => Some(r))
    case _ => None
  }

  function StepOf(m: map<string, Value>): Option<Step> {
    if !Known(m, STEP_KEYS) then None
    else
      match (ToText(At(m, Name)), ToTexts(At(m, Run)), ToFlag(At(m, Shell)), ToText(At(m, Workdir)),
             ToDuration(At(m, TimeoutMs)), ToRetry(At(m, RetryKey)), ToTexts(At(m, Needs)))
      case (Some(name), Some(run), Some(shell), Some(workdir), Some(timeout), Some(retry), Some(needs)) =>
        Some(Step(name, run, shell, workdir, timeout, retry, needs))
      case _ => None
  }

  function ToStep(v: Value): Option<Step> { match v case Object(ms) => StepOf(AsMap(ms)) case _ => None }

  function ScheduleOf(m: map<string, Value>): Option<Schedule> {
    if !Known(m, SCHEDULE_KEYS) then None
    else
      match (ToText(At(m, Name)), ToText(At(m, Cron)), ToText(At(m, Timezone)))
      case (Some(name), Some(cron), Some(timezone)) => Some(Schedule(name, cron, timezone))
      case _ => None
  }

  function ToSchedule(v: Value): Option<Schedule> { match v case Object(ms) => ScheduleOf(AsMap(ms)) case _ => None }

  function SensorOf(m: map<string, Value>): Option<Sensor> {
    if !Known(m, SENSOR_KEYS) then None
    else
      match (ToText(At(m, Name)), ToText(At(m, Type)), ToDuration(At(m, IntervalMs)))
      case (Some(name), Some(kind), Some(interval)) => Some(Sensor(name, kind, interval))
      case _ => None
  }

  function ToSensor(v: Value): Option<Sensor> { match v case Object(ms) => SensorOf(AsMap(ms)) case _ => None }

  /** Every item of an array, or none of them. */
  function ToItems<T>(v: Option<Value>, read: Value -> Option<T>): Option<seq<T>> {
    match v
    case None => Some([])
    case Some(Array(items)) =>
      if forall i :: 0 <= i < |items| ==> read(items[i]).Some?
      then Some(seq(|items|, i requires 0 <= i < |items| && read(items[i]).Some? => read(items[i]).value)) else None
    case _ => None
  }

  datatype Refusal = Unreadable | NotAnObject | Malformed | NoSchema | NoName

  function JobOf(m: map<string, Value>): Option<Job> {
    if !Known(m, JOB_KEYS) || (At(m, SchemaKey).Some? && At(m, SchemaKey) != Some(Words(SCHEMA))) then None
    else
      match (ToText(At(m, Name)), ToText(At(m, Description)), ToTextMap(At(m, Env)), ToText(At(m, EnvFile)), ToTexts(At(m, InheritEnv)), ToText(At(m, Workdir)))
      case (Some(name), Some(description), Some(env), Some(envFile), Some(inheritEnv), Some(workdir)) =>
        (match (ToDuration(At(m, TimeoutMs)), ToInt(At(m, MaxConcurrent)), ToItems(At(m, Steps), ToStep), ToItems(At(m, Schedules), ToSchedule), ToItems(At(m, Sensors), ToSensor))
         case (Some(timeout), Some(maxConcurrent), Some(steps), Some(schedules), Some(sensors)) =>
           Some(Job(name, description, env, envFile, inheritEnv, workdir, timeout, maxConcurrent, steps, schedules, sensors))
         case _ => None)
      case _ => None
  }

  /** What FromIR makes of a value. */
  function FromValue(v: Value): Result<Job, Refusal> {
    match v
    case Object(ms) =>
      var m := AsMap(ms);
      (match JobOf(m)
       case None => Err(Malformed)
       case Some(j) => if At(m, SchemaKey).None? then Err(NoSchema) else if At(m, Name).None? then Err(NoName) else Ok(j))
    case _ => Err(NotAnObject)
  }

  /** FromIR. */
  function FromIR(text: string): Result<Job, Refusal> {
    match Decode(text)
    case None => Err(Unreadable)
    case Some(v) => FromValue(v)
  }

  // ----- the normal form -----

  function Whole(d: int): int { Millis(d) * NANOS }

  function NormalRetry(r: Retry): Retry { r.(initial := Whole(r.initial), maxDelay := Whole(r.maxDelay)) }

  function NormalStep(s: Step): Step {
    s.(timeout := if s.timeout > 0 then Whole(s.timeout) else 0, needs := Sort(s.needs),
       retry := match s.retry case None => None case Some(r) => Some(NormalRetry(r)))
  }

  function NormalSensor(s: Sensor): Sensor { s.(interval := Whole(s.interval)) }

  function Each<S, T>(items: seq<S>, f: S -> T): (r: seq<T>)
    ensures |r| == |items| && forall i :: 0 <= i < |items| ==> r[i] == f(items[i])
  {
    seq(|items|, i requires 0 <= i < |items| => f(items[i]))
  }

  /** Sets sorted, durations in whole milliseconds, a step ceiling that is not positive as none. */
  function Normal(j: Job): Job {
    j.(inheritEnv := Sort(j.inheritEnv), timeout := Whole(j.timeout), steps := Each(j.steps, NormalStep),
       sensors := Each(j.sensors, NormalSensor))
  }

  ghost predicate RetryIs64(r: Retry) { IsInt64(r.max) && IsInt64(r.initial) && IsInt64(r.maxDelay) }

  ghost predicate StepIs64(s: Step) { IsInt64(s.timeout) && match s.retry case None => true case Some(r) => RetryIs64(r) }

  /** Every number is one an int64 holds. */
  ghost predicate Is64(j: Job) {
    && IsInt64(j.timeout) && IsInt64(j.maxConcurrent)
    && (forall i :: 0 <= i < |j.steps| ==> StepIs64(j.steps[i]))
    && (forall i :: 0 <= i < |j.sensors| ==> IsInt64(j.sensors[i].interval))
  }

  // ----- what sorting and normalising leave of an object -----

  lemma {:induction false} AsMapMore(ms: seq<Member>, m: Member)
    ensures AsMap(ms + [m]) == AsMap(ms)[m.key := m.value]
  {
    assert (ms + [m])[..|ms|] == ms;
  }

  lemma {:induction false} AsMapPlaced(s: seq<Member>, m: Member)
    requires KeysOrdered(s)
    ensures AsMap(PlaceMember(s, m)) == AsMap(s)[m.key := m.value]
    decreases |s|
  {
    if |s| == 0 || AtMost(s[|s| - 1].key, m.key) {
      AsMapMore(s, m);
    } else {
      var before, last := s[..|s| - 1], s[|s| - 1];
      assert s == before + [last];
      AtMostOrders(last.key, m.key, m.key);
      assert last.key != m.key;
      hide AsMap, AtMost;
      AsMapPlaced(before, m);
      AsMapMore(before, last);
      AsMapMore(PlaceMember(before, m), last);
      Swapped(AsMap(before), m, last);
    }
  }

  lemma {:induction false} Swapped(x: map<string, Value>, a: Member, b: Member)
    requires a.key != b.key
    ensures x[a.key := a.value][b.key := b.value] == x[b.key := b.value][a.key := a.value]
  {
  }

  lemma {:induction false} AsMapSorted(ms: seq<Member>)
    ensures AsMap(SortMembers(ms)) == AsMap(ms)
    decreases |ms|
  {
    if |ms| > 0 {
      AsMapSorted(ms[..|ms| - 1]);
      AsMapPlaced(SortMembers(ms[..|ms| - 1]), ms[|ms| - 1]);
    }
  }

  function NormAll(m: map<string, Value>): map<string, Value> { map k | k in m :: Norm(m[k]) }

  lemma {:induction false} AsMapNorm(ms: seq<Member>)
    ensures AsMap(NormMembers(ms)) == NormAll(AsMap(ms))
    decreases |ms|
  {
    if |ms| > 0 {
      var before, last := ms[..|ms| - 1], ms[|ms| - 1];
      assert NormMembers(ms)[..|ms| - 1] == NormMembers(before);
      AsMapNorm(before);
      hide Norm, NormMembers;
      NormOneMore(AsMap(before), last);
    }
  }

  lemma {:induction false} NormOneMore(x: map<string, Value>, m: Member)
    ensures NormAll(x[m.key := m.value]) == NormAll(x)[m.key := Norm(m.value)]
  {
    hide Norm;
  }

  function NormSome(v: Option<Value>): Option<Value> { match v case None => None case Some(x) => Some(Norm(x)) }

  /** The value an entry list gives a key. */
  function Find(es: seq<Entry>, k: Key): Option<Value> {
    if |es| == 0 then None
    else if es[|es| - 1].key == k then Some(es[|es| - 1].value)
    else Find(es[..|es| - 1], k)
  }

  lemma {:induction false} FindWhen(es: seq<Entry>, present: bool, key: Key, value: Value, k: Key)
    ensures Find(es + When(present, key, value), k) == if present && k == key then Some(value) else Find(es, k)
  {
    if present {
      assert (es + [Entry(key, value)])[..|es|] == es;
    } else {
      assert es + [] == es;
    }
  }

  lemma {:induction false} AtMembers(es: seq<Entry>, k: Key)
    ensures At(AsMap(Members(es)), k) == Find(es, k)
    decreases |es|
  {
    if |es| > 0 {
      var before, last := es[..|es| - 1], es[|es| - 1];
      assert Members(es)[..|es| - 1] == Members(before);
      AtMembers(before, k);
      if last.key != k { NamesDiffer(last.key, k); }
    }
  }

  /** Looking a key up in the document that was read back. */
  lemma {:induction false} AtRead(es: seq<Entry>, k: Key)
    ensures At(AsMap(SortMembers(NormMembers(Members(es)))), k) == NormSome(Find(es, k))
  {
    AsMapSorted(NormMembers(Members(es)));
    AsMapNorm(Members(es));
    AtMembers(es, k);
    hide NameOf, Norm;
  }

  /** Only keys of this set are used. */
  ghost predicate Uses(es: seq<Entry>, keys: set<Key>) { forall i :: 0 <= i < |es| ==> es[i].key in keys }

  lemma {:induction false} KeysOfMap(ms: seq<Member>, s: string)
    ensures s in AsMap(ms) <==> exists i :: 0 <= i < |ms| && ms[i].key == s
    decreases |ms|
  {
    if |ms| > 0 {
      KeysOfMap(ms[..|ms| - 1], s);
      assert forall i :: 0 <= i < |ms| - 1 ==> ms[..|ms| - 1][i] == ms[i];
      if s in AsMap(ms[..|ms| - 1]) {
        var i :| 0 <= i < |ms| - 1 && ms[..|ms| - 1][i].key == s;
        assert ms[i].key == s;
      }
    }
  }

  lemma {:induction false} ReadIsKnown(es: seq<Entry>, keys: set<Key>)
    requires Uses(es, keys)
    ensures Known(AsMap(SortMembers(NormMembers(Members(es)))), keys)
  {
    AsMapSorted(NormMembers(Members(es)));
    AsMapNorm(Members(es));
    var m := AsMap(Members(es));
    hide NameOf;
    forall s | s in m ensures exists k :: k in keys && NameOf(k) == s {
      KeysOfMap(Members(es), s);
      var i :| 0 <= i < |es| && Members(es)[i].key == s;
      assert es[i].key in keys && NameOf(es[i].key) == s;
    }
  }

  // ----- reading back what was written -----

  lemma {:induction false} FindIs(es: seq<Entry>, i: nat, k: Key)
    requires i < |es| && es[i].key == k && forall j :: i < j < |es| ==> es[j].key != k
    ensures Find(es, k) == Some(es[i].value)
    decreases |es|
  {
    if i < |es| - 1 { FindIs(es[..|es| - 1], i, k); }
  }

  lemma {:induction false} FindNone(es: seq<Entry>, k: Key)
    requires forall j :: 0 <= j < |es| ==> es[j].key != k
    ensures Find(es, k) == None
    decreases |es|
  {
    if |es| > 0 { FindNone(es[..|es| - 1], k); }
  }

  /** What a part that may be left out adds. */
  lemma FindWhens(es: seq<Entry>, present: bool, key: Key, value: Value)
    ensures forall k :: Find(es + When(present, key, value), k) == if present && k == key then Some(value) else Find(es, k)
  {
    forall k ensures Find(es + When(present, key, value), k) == if present && k == key then Some(value) else Find(es, k) {
      FindWhen(es, present, key, value, k);
    }
  }

  lemma UsesWhen(es: seq<Entry>, present: bool, key: Key, value: Value, keys: set<Key>)
    requires Uses(es, keys) && key in keys
    ensures Uses(es + When(present, key, value), keys)
  {
  }

  /** Milliseconds of an int64 duration multiply back without wrapping. */
  lemma DurationBack(d: int)
    requires IsInt64(d)
    ensures IsInt64(Millis(d)) && ToDuration(Some(Number(Millis(d)))) == Some(Whole(d))
    ensures Whole(Whole(d)) == Whole(d) && Millis(Whole(d)) == Millis(d) && IsInt64(Whole(d))
  {
    var q := Millis(d);
    if d >= 0 {
      assert q == d / NANOS && 0 <= q * NANOS <= d;
    } else {
      assert -q == (-d) / NANOS && 0 <= -q * NANOS <= -d;
    }
  }

  lemma TextsBack(values: seq<string>)
    ensures ToTexts(Some(Norm(Texts(values)))) == Some(values)
  {
    var v := Texts(values);
    assert forall i :: 0 <= i < |values| ==> Norm(v.items[i]) == Words(values[i]);
    var w := Norm(v);
    assert w.Array? && |w.items| == |values|;
    assert forall i :: 0 <= i < |values| ==> w.items[i] == Words(values[i]);
    var r := ToTexts(Some(w));
    assert r.Some? && |r.value| == |values| && forall i :: 0 <= i < |values| ==> r.value[i] == values[i];
    assert r.value == values;
  }

  lemma ItemsBack<T>(items: seq<T>, doc: T -> Value, read: Value -> Option<T>, normal: T -> T)
    requires forall i :: 0 <= i < |items| ==> read(Norm(doc(items[i]))) == Some(normal(items[i]))
    ensures ToItems(Some(Norm(Docs(items, doc))), read) == Some(Each(items, normal))
  {
    var w := Norm(Docs(items, doc));
    assert w.Array? && |w.items| == |items|;
    hide Norm;
    assert forall i :: 0 <= i < |items| ==> w.items[i] == Norm(doc(items[i]));
    var r := ToItems(Some(w), read);
    assert r.Some? && |r.value| == |items| && forall i :: 0 <= i < |items| ==> r.value[i] == normal(items[i]);
    assert r.value == Each(items, normal);
  }

  lemma {:induction false} ListedBack(m: map<string, string>, keys: set<string>)
    requires keys <= m.Keys
    ensures AsMap(Listed(m, keys)) == map k | k in keys :: Words(m[k])
    decreases keys
  {
    if keys != {} {
      var ms := Listed(m, keys);
      var last := ms[|ms| - 1];
      assert ms[..|ms| - 1] == Listed(m, keys - {last.key});
      ListedBack(m, keys - {last.key});
    }
  }

  lemma TextMapBack(m: map<string, string>)
    ensures ToTextMap(Some(Norm(TextMap(m)))) == Some(m)
  {
    hide AsMap, Listed, Norm;
    NormLeaves();
    var ms := Listed(m, m.Keys);
    ListedBack(m, m.Keys);
    AsMapSorted(NormMembers(ms));
    AsMapNorm(ms);
    NormObject(ms);
    var sorted := SortMembers(NormMembers(ms));
    assert forall k :: k in m ==> k in AsMap(sorted) && AsMap(sorted)[k] == Words(m[k]);
    assert AsMap(sorted).Keys == m.Keys;
    hide NormAll, NormMembers, SortMembers;
    WordsMap(m, sorted);
  }

  lemma WordsMap(m: map<string, string>, ms: seq<Member>)
    requires AsMap(ms).Keys == m.Keys && forall k :: k in m ==> AsMap(ms)[k] == Words(m[k])
    ensures ToTextMap(Some(Object(ms))) == Some(m)
  {
    hide AsMap;
    var back := ToTextMap(Some(Object(ms)));
    assert back.Some? && back.value.Keys == m.Keys && forall k :: k in m ==> back.value[k] == m[k];
    assert back.value == m;
  }

  lemma NormObject(ms: seq<Member>)
    ensures Norm(Object(ms)) == Object(SortMembers(NormMembers(ms)))
  {
  }

  lemma NormLeaves()
    ensures forall s :: Norm(Words(s)) == Words(s)
    ensures forall n :: Norm(Number(n)) == Number(n)
    ensures forall b :: Norm(Flag(b)) == Flag(b)
  {
  }

  ghost predicate ReadsAs(m: map<string, Value>, es: seq<Entry>, keys: set<Key>) {
    Known(m, keys) && forall k :: At(m, k) == NormSome(Find(es, k))
  }

  lemma DocReads(es: seq<Entry>, keys: set<Key>)
    requires Uses(es, keys)
    ensures var v := Norm(Object(Members(es))); v.Object? && ReadsAs(AsMap(v.members), es, keys)
  {
    hide NameOf, At, AsMap, Members, SortMembers, NormMembers, Find, Known, Uses;
    NormObject(Members(es));
    ReadIsKnown(es, keys);
    forall k ensures At(AsMap(SortMembers(NormMembers(Members(es)))), k) == NormSome(Find(es, k)) { AtRead(es, k); }
  }

  lemma RetryBack(r: Retry)
    requires RetryIs64(r)
    ensures ToRetry(Some(Norm(RetryDoc(r)))) == Some(Some(NormalRetry(r)))
  {
    hide At, AsMap, Norm, Members, ToText, ToInt, ToDuration, RetryIs64, Whole, RetryEntries;
    RetryUses(r);
    DocReads(RetryEntries(r), RETRY_KEYS);
    RetryReads(r, AsMap(Norm(RetryDoc(r)).members));
    hide Known;
  }

  lemma RetryUses(r: Retry)
    ensures Uses(RetryEntries(r), RETRY_KEYS)
  {
  }

  lemma RetryReads(r: Retry, m: map<string, Value>)
    requires RetryIs64(r) && ReadsAs(m, RetryEntries(r), RETRY_KEYS)
    ensures ToInt(At(m, Max)) == Some(r.max) && ToText(At(m, BackoffKey)) == Some(r.backoff)
    ensures ToDuration(At(m, InitialMs)) == Some(Whole(r.initial)) && ToDuration(At(m, MaxDelayMs)) == Some(Whole(r.maxDelay))
    ensures ToText(At(m, JitterKey)) == Some(r.jitter)
  {
    hide Known, At, Find, Millis, Whole, ToDuration, Norm;
    NormLeaves();
    var es := RetryEntries(r);
    FindIs(es, 0, Max);
    FindIs(es, 1, BackoffKey);
    FindIs(es, 2, InitialMs);
    FindIs(es, 3, MaxDelayMs);
    FindIs(es, 4, JitterKey);
    DurationBack(r.initial);
    DurationBack(r.maxDelay);
  }

  lemma ScheduleBack(s: Schedule)
    ensures ToSchedule(Norm(ScheduleDoc(s))) == Some(s)
  {
    var es := [Entry(Name, Words(s.name)), Entry(Cron, Words(s.cron)), Entry(Timezone, Words(s.timezone))];
    hide Known, At, AsMap, Find, Norm, Members;
    NormLeaves();
    DocReads(es, SCHEDULE_KEYS);
    FindIs(es, 0, Name);
    FindIs(es, 1, Cron);
    FindIs(es, 2, Timezone);
  }

  lemma SensorBack(s: Sensor)
    requires IsInt64(s.interval)
    ensures ToSensor(Norm(SensorDoc(s))) == Some(NormalSensor(s))
  {
    var es := [Entry(Name, Words(s.name)), Entry(Type, Words(s.kind)), Entry(IntervalMs, Number(Millis(s.interval)))];
    hide Known, At, AsMap, Find, Millis, Whole, ToDuration, Norm, Members;
    NormLeaves();
    DocReads(es, SENSOR_KEYS);
    FindIs(es, 0, Name);
    FindIs(es, 1, Type);
    FindIs(es, 2, IntervalMs);
    DurationBack(s.interval);
  }

  /** Every key of a step's document. */
  lemma StepFinds(s: Step)
    ensures var es := StepEntries(s);
      && Uses(es, STEP_KEYS)
      && Find(es, Name) == Some(Words(s.name)) && Find(es, Run) == Some(Texts(s.run)) && Find(es, Shell) == Some(Flag(s.shell))
      && Find(es, Workdir) == (if s.workdir != "" then Some(Words(s.workdir)) else None)
      && Find(es, TimeoutMs) == (if s.timeout > 0 then Some(Number(Millis(s.timeout))) else None)
      && Find(es, RetryKey) == (match s.retry case Some(r) => Some(RetryDoc(r)) case None => None)
      && Find(es, Needs) == (if |s.needs| > 0 then Some(Texts(Sort(s.needs))) else None)
  {
    hide Find, Texts, RetryDoc, Millis, Sort, Uses;
    var e0 := StepBase(s);
    StepBaseFinds(s);
    var retry := match s.retry case Some(r) => RetryDoc(r) case None => Flag(false);
    var e1 := e0 + When(s.workdir != "", Workdir, Words(s.workdir));
    var e2 := e1 + When(s.timeout > 0, TimeoutMs, Number(Millis(s.timeout)));
    var e3 := e2 + When(s.retry.Some?, RetryKey, retry);
    assert StepEntries(s) == e3 + When(|s.needs| > 0, Needs, Texts(Sort(s.needs)));
    hide When, StepBase, StepEntries;
    FindWhens(e0, s.workdir != "", Workdir, Words(s.workdir));
    FindWhens(e1, s.timeout > 0, TimeoutMs, Number(Millis(s.timeout)));
    FindWhens(e2, s.retry.Some?, RetryKey, retry);
    FindWhens(e3, |s.needs| > 0, Needs, Texts(Sort(s.needs)));
    UsesWhen(e0, s.workdir != "", Workdir, Words(s.workdir), STEP_KEYS);
    UsesWhen(e1, s.timeout > 0, TimeoutMs, Number(Millis(s.timeout)), STEP_KEYS);
    UsesWhen(e2, s.retry.Some?, RetryKey, retry, STEP_KEYS);
    UsesWhen(e3, |s.needs| > 0, Needs, Texts(Sort(s.needs)), STEP_KEYS);
  }

  lemma StepBaseFinds(s: Step)
    ensures var es := StepBase(s);
      && Uses(es, STEP_KEYS)
      && Find(es, Name) == Some(Words(s.name)) && Find(es, Run) == Some(Texts(s.run)) && Find(es, Shell) == Some(Flag(s.shell))
      && Find(es, Workdir) == None && Find(es, TimeoutMs) == None && Find(es, RetryKey) == None && Find(es, Needs) == None
  {
    hide Find, Texts;
    var es := StepBase(s);
    FindIs(es, 0, Name);
    FindIs(es, 1, Run);
    FindIs(es, 2, Shell);
    FindNone(es, Workdir);
    FindNone(es, TimeoutMs);
    FindNone(es, RetryKey);
    FindNone(es, Needs);
  }

  lemma NothingRead()
    ensures ToTexts(None) == Some([]) && ToDuration(None) == Some(0) && ToRetry(None) == Some(None) && ToText(None) == Some("")
    ensures ToTextMap(None) == Some(map[]) && Sort([]) == []
    ensures ToItems<Schedule>(None, ToSchedule) == Some([]) && ToItems<Sensor>(None, ToSensor) == Some([])
  {
  }

  lemma TextsAt(values: seq<string>, v: Option<Value>)
    requires v == NormSome(if |values| > 0 then Some(Texts(values)) else None)
    ensures ToTexts(v) == Some(values)
  {
    TextsBack(values);
    if |values| == 0 { assert ToTexts(v) == Some([]); }
  }

  lemma TextAt(text: string, v: Option<Value>)
    requires v == NormSome(if text != "" then Some(Words(text)) else None)
    ensures ToText(v) == Some(text)
  {
  }

  lemma SortedLength(values: seq<string>)
    ensures |Sort(values)| == |values|
  {
    assert |multiset(Sort(values))| == |multiset(values)|;
  }

  lemma StepReads(s: Step, m: map<string, Value>)
    requires StepIs64(s) && ReadsAs(m, StepEntries(s), STEP_KEYS)
    ensures ToText(At(m, Name)) == Some(s.name) && ToTexts(At(m, Run)) == Some(s.run) && ToFlag(At(m, Shell)) == Some(s.shell)
    ensures ToText(At(m, Workdir)) == Some(s.workdir)
    ensures ToTexts(At(m, Needs)) == Some(Sort(s.needs))
  {
    hide Known, At, Find, Texts, ToTexts, RetryDoc, StepEntries, Norm, Uses, Millis, StepIs64;
    NormLeaves();
    StepFinds(s);
    assert At(m, Name) == Some(Words(s.name)) && At(m, Shell) == Some(Flag(s.shell));
    TextsBack(s.run);
    TextAt(s.workdir, At(m, Workdir));
    SortedLength(s.needs);
    TextsAt(Sort(s.needs), At(m, Needs));
  }

  lemma StepReadsMore(s: Step, m: map<string, Value>)
    requires StepIs64(s) && ReadsAs(m, StepEntries(s), STEP_KEYS)
    ensures ToDuration(At(m, TimeoutMs)) == Some(NormalStep(s).timeout)
    ensures ToRetry(At(m, RetryKey)) == Some(NormalStep(s).retry)
  {
    hide Known, At, Find, Texts, RetryDoc, ToRetry, StepEntries, Norm, Uses, Millis, Whole, ToDuration, Sort, NormalRetry;
    NothingRead();
    NormLeaves();
    StepFinds(s);
    DurationBack(s.timeout);
    match s.retry
    case Some(r) => RetryBack(r);
    case None =>
  }

  lemma StepBack(s: Step)
    requires StepIs64(s)
    ensures ToStep(Norm(StepDoc(s))) == Some(NormalStep(s))
  {
    hide At, AsMap, ToText, ToTexts, ToFlag, ToDuration, ToRetry, StepEntries, Norm, Members, StepIs64;
    StepFinds(s);
    DocReads(StepEntries(s), STEP_KEYS);
    var m := AsMap(Norm(StepDoc(s)).members);
    StepReads(s, m);
    StepReadsMore(s, m);
    hide Known;
  }

  lemma JobBaseFinds(j: Job)
    ensures var es := JobBase(j);
      && Uses(es, JOB_KEYS)
      && Find(es, SchemaKey) == Some(Words(SCHEMA)) && Find(es, Name) == Some(Words(j.name))
      && Find(es, TimeoutMs) == Some(Number(Millis(j.timeout))) && Find(es, MaxConcurrent) == Some(Number(j.maxConcurrent))
      && Find(es, Steps) == Some(Docs(j.steps, StepDoc))
      && Find(es, Description) == None && Find(es, EnvFile) == None && Find(es, Workdir) == None && Find(es, Env) == None
      && Find(es, InheritEnv) == None && Find(es, Schedules) == None && Find(es, Sensors) == None
  {
    hide Find, Docs, Millis;
    var es := JobBase(j);
    FindIs(es, 0, SchemaKey);
    FindIs(es, 1, Name);
    FindIs(es, 2, TimeoutMs);
    FindIs(es, 3, MaxConcurrent);
    FindIs(es, 4, Steps);
    JobBaseLacks(j);
  }

  lemma JobBaseLacks(j: Job)
    ensures var es := JobBase(j);
      && Find(es, Description) == None && Find(es, EnvFile) == None && Find(es, Workdir) == None && Find(es, Env) == None
      && Find(es, InheritEnv) == None && Find(es, Schedules) == None && Find(es, Sensors) == None
  {
    hide Find, Docs, Millis;
    var es := JobBase(j);
    FindNone(es, Description);
    FindNone(es, EnvFile);
    FindNone(es, Workdir);
    FindNone(es, Env);
    FindNone(es, InheritEnv);
    FindNone(es, Schedules);
    FindNone(es, Sensors);
  }

  ghost predicate JobFound(j: Job, es: seq<Entry>) {
    && Uses(es, JOB_KEYS)
    && Find(es, SchemaKey) == Some(Words(SCHEMA)) && Find(es, Name) == Some(Words(j.name))
    && Find(es, TimeoutMs) == Some(Number(Millis(j.timeout))) && Find(es, MaxConcurrent) == Some(Number(j.maxConcurrent))
    && Find(es, Steps) == Some(Docs(j.steps, StepDoc))
    && Find(es, Description) == (if j.description != "" then Some(Words(j.description)) else None)
    && Find(es, EnvFile) == (if j.envFile != "" then Some(Words(j.envFile)) else None)
    && Find(es, Workdir) == (if j.workdir != "" then Some(Words(j.workdir)) else None)
    && Find(es, Env) == (if j.env != map[] then Some(TextMap(j.env)) else None)
    && Find(es, InheritEnv) == (if |j.inheritEnv| > 0 then Some(Texts(Sort(j.inheritEnv))) else None)
    && Find(es, Schedules) == (if |j.schedules| > 0 then Some(Docs(j.schedules, ScheduleDoc)) else None)
    && Find(es, Sensors) == (if |j.sensors| > 0 then Some(Docs(j.sensors, SensorDoc)) else None)
  }

  lemma JobTextFinds(j: Job)
    ensures var es := JobTextEntries(j);
      && Uses(es, JOB_KEYS)
      && Find(es, SchemaKey) == Some(Words(SCHEMA)) && Find(es, Name) == Some(Words(j.name))
      && Find(es, TimeoutMs) == Some(Number(Millis(j.timeout))) && Find(es, MaxConcurrent) == Some(Number(j.maxConcurrent))
      && Find(es, Steps) == Some(Docs(j.steps, StepDoc))
      && Find(es, Description) == (if j.description != "" then Some(Words(j.description)) else None)
      && Find(es, EnvFile) == (if j.envFile != "" then Some(Words(j.envFile)) else None)
      && Find(es, Workdir) == (if j.workdir != "" then Some(Words(j.workdir)) else None)
      && Find(es, Env) == None && Find(es, InheritEnv) == None && Find(es, Schedules) == None && Find(es, Sensors) == None
  {
    hide Find, Docs, Millis, Uses, When, JobBase;
    var e0 := JobBase(j);
    JobBaseFinds(j);
    var e1 := e0 + When(j.description != "", Description, Words(j.description));
    var e2 := e1 + When(j.envFile != "", EnvFile, Words(j.envFile));
    assert JobTextEntries(j) == e2 + When(j.workdir != "", Workdir, Words(j.workdir));
    hide JobTextEntries;
    FindWhens(e0, j.description != "", Description, Words(j.description));
    FindWhens(e1, j.envFile != "", EnvFile, Words(j.envFile));
    FindWhens(e2, j.workdir != "", Workdir, Words(j.workdir));
    UsesWhen(e0, j.description != "", Description, Words(j.description), JOB_KEYS);
    UsesWhen(e1, j.envFile != "", EnvFile, Words(j.envFile), JOB_KEYS);
    UsesWhen(e2, j.workdir != "", Workdir, Words(j.workdir), JOB_KEYS);
  }

  /** Every key of a job's document. */
  lemma JobFinds(j: Job)
    ensures JobFound(j, JobEntries(j))
  {
    hide Find, Docs, Texts, TextMap, Millis, Sort, Uses, When, JobTextEntries;
    var e3 := JobTextEntries(j);
    JobTextFinds(j);
    var e4 := e3 + When(j.env != map[], Env, TextMap(j.env));
    var e5 := e4 + When(|j.inheritEnv| > 0, InheritEnv, Texts(Sort(j.inheritEnv)));
    var e6 := e5 + When(|j.schedules| > 0, Schedules, Docs(j.schedules, ScheduleDoc));
    assert JobEntries(j) == e6 + When(|j.sensors| > 0, Sensors, Docs(j.sensors, SensorDoc));
    hide JobEntries;
    FindWhens(e3, j.env != map[], Env, TextMap(j.env));
    FindWhens(e4, |j.inheritEnv| > 0, InheritEnv, Texts(Sort(j.inheritEnv)));
    FindWhens(e5, |j.schedules| > 0, Schedules, Docs(j.schedules, ScheduleDoc));
    FindWhens(e6, |j.sensors| > 0, Sensors, Docs(j.sensors, SensorDoc));
    UsesWhen(e3, j.env != map[], Env, TextMap(j.env), JOB_KEYS);
    UsesWhen(e4, |j.inheritEnv| > 0, InheritEnv, Texts(Sort(j.inheritEnv)), JOB_KEYS);
    UsesWhen(e5, |j.schedules| > 0, Schedules, Docs(j.schedules, ScheduleDoc), JOB_KEYS);
    UsesWhen(e6, |j.sensors| > 0, Sensors, Docs(j.sensors, SensorDoc), JOB_KEYS);
  }

  lemma ListsBack(j: Job)
    requires Is64(j)
    ensures ToItems(Some(Norm(Docs(j.steps, StepDoc))), ToStep) == Some(Each(j.steps, NormalStep))
    ensures ToItems(Some(Norm(Docs(j.schedules, ScheduleDoc))), ToSchedule) == Some(j.schedules)
    ensures ToItems(Some(Norm(Docs(j.sensors, SensorDoc))), ToSensor) == Some(Each(j.sensors, NormalSensor))
  {
    hide Norm, ToStep, ToSchedule, ToSensor, StepDoc, ScheduleDoc, SensorDoc, NormalStep, NormalSensor, ToItems, Docs;
    forall i | 0 <= i < |j.steps| ensures ToStep(Norm(StepDoc(j.steps[i]))) == Some(NormalStep(j.steps[i])) { StepBack(j.steps[i]); }
    ItemsBack(j.steps, StepDoc, ToStep, NormalStep);
    forall i | 0 <= i < |j.schedules| ensures ToSchedule(Norm(ScheduleDoc(j.schedules[i]))) == Some(j.schedules[i]) { ScheduleBack(j.schedules[i]); }
    ItemsBack(j.schedules, ScheduleDoc, ToSchedule, s => s);
    assert Each(j.schedules, s => s) == j.schedules;
    forall i | 0 <= i < |j.sensors| ensures ToSensor(Norm(SensorDoc(j.sensors[i]))) == Some(NormalSensor(j.sensors[i])) { SensorBack(j.sensors[i]); }
    ItemsBack(j.sensors, SensorDoc, ToSensor, NormalSensor);
  }

  lemma JobTexts(j: Job, m: map<string, Value>)
    requires ReadsAs(m, JobEntries(j), JOB_KEYS)
    ensures At(m, SchemaKey) == Some(Words(SCHEMA)) && At(m, Name).Some? && Known(m, JOB_KEYS)
    ensures ToText(At(m, Name)) == Some(j.name) && ToText(At(m, Description)) == Some(j.description)
    ensures ToText(At(m, EnvFile)) == Some(j.envFile) && ToText(At(m, Workdir)) == Some(j.workdir)
    ensures ToTexts(At(m, InheritEnv)) == Some(Sort(j.inheritEnv))
    ensures ToTextMap(At(m, Env)) == Some(j.env)
  {
    hide Known, At, Find, Texts, ToTexts, TextMap, ToTextMap, Docs, JobEntries, Norm, Uses, Millis;
    NormLeaves();
    NothingRead();
    JobFinds(j);
    assert At(m, SchemaKey) == Some(Words(SCHEMA)) && At(m, Name) == Some(Words(j.name));
    TextAt(j.description, At(m, Description));
    TextAt(j.envFile, At(m, EnvFile));
    TextAt(j.workdir, At(m, Workdir));
    SortedLength(j.inheritEnv);
    TextsAt(Sort(j.inheritEnv), At(m, InheritEnv));
    TextMapBack(j.env);
  }

  lemma JobLists(j: Job, m: map<string, Value>)
    requires Is64(j) && ReadsAs(m, JobEntries(j), JOB_KEYS)
    ensures ToDuration(At(m, TimeoutMs)) == Some(Whole(j.timeout)) && ToInt(At(m, MaxConcurrent)) == Some(j.maxConcurrent)
    ensures ToItems(At(m, Steps), ToStep) == Some(Each(j.steps, NormalStep))
    ensures ToItems(At(m, Schedules), ToSchedule) == Some(j.schedules)
    ensures ToItems(At(m, Sensors), ToSensor) == Some(Each(j.sensors, NormalSensor))
  {
    hide Known, At, Find, Millis, Whole, ToDuration, Texts, TextMap, Docs, ToItems, JobEntries, Norm, Uses, Each, Sort,
         ToStep, ToSchedule, ToSensor, StepDoc, ScheduleDoc, SensorDoc, NormalStep, NormalSensor, StepIs64;
    NormLeaves();
    NothingRead();
    JobFinds(j);
    DurationBack(j.timeout);
    ListsBack(j);
    assert At(m, MaxConcurrent) == Some(Number(j.maxConcurrent));
  }

  lemma JobReads(j: Job, m: map<string, Value>)
    requires Is64(j) && ReadsAs(m, JobEntries(j), JOB_KEYS)
    ensures JobOf(m) == Some(Normal(j)) && At(m, SchemaKey).Some? && At(m, Name).Some?
  {
    hide At, Known, ToText, ToTexts, ToTextMap, ToDuration, ToInt, ToItems, JobEntries, Is64, ReadsAs, NormalStep, NormalSensor, Each, Sort, Whole;
    JobTexts(j, m);
    JobLists(j, m);
  }

  /**
   * The document of a job reads back as the job's normal form, whatever order its environment was ranged
   * over in: a run is made from exactly what was hashed.
   */
  lemma ReadsBackNormal(j: Job)
    requires Is64(j)
    ensures FromIR(Canonical(j)) == Ok(Normal(j))
  {
    hide Norm, Encode, Decode, JobDoc, Normal, FromValue, Is64;
    DecodesBack(JobDoc(j));
    DocIsRead(j);
  }

  lemma DocIsRead(j: Job)
    requires Is64(j)
    ensures FromValue(Norm(JobDoc(j))) == Ok(Normal(j))
  {
    hide Norm, AsMap, JobOf, JobEntries, Normal, Members, At, Uses, Is64, Known, ReadsAs;
    JobFinds(j);
    DocReads(JobEntries(j), JOB_KEYS);
    JobReads(j, AsMap(Norm(JobDoc(j)).members));
  }

  /** Bytes after the document are not refused: FromIR decodes one value and stops there. */
  lemma TrailingBytesIgnored(j: Job, tail: string)
    requires Is64(j)
    ensures FromIR(Canonical(j) + tail) == Ok(Normal(j))
  {
    hide FromIR, JobDoc, Decode, Norm, Encode, Normal;
    ReadsBackNormal(j);
    DocIsObject(j);
    TailIsIgnored(JobDoc(j), tail);
    DecodesBack(JobDoc(j));
    SameValueSameJob(Canonical(j), Canonical(j) + tail);
  }

  lemma DocIsObject(j: Job)
    ensures JobDoc(j).Object?
  {
    hide JobEntries, Members;
  }

  lemma SameValueSameJob(s: string, t: string)
    requires Decode(s) == Decode(t)
    ensures FromIR(s) == FromIR(t)
  {
    hide Decode, JobOf, At, AsMap;
  }

  // ----- one document for one normal form -----

  lemma SameMillis(a: int, b: int)
    requires Whole(a) == Whole(b)
    ensures Millis(a) == Millis(b)
  {
    hide Millis;
  }

  lemma SameRetryDoc(a: Retry, b: Retry)
    requires NormalRetry(a) == NormalRetry(b)
    ensures RetryDoc(a) == RetryDoc(b)
  {
    hide Millis, Whole;
    SameMillis(a.initial, b.initial);
    SameMillis(a.maxDelay, b.maxDelay);
  }

  lemma SameStepDoc(a: Step, b: Step)
    requires NormalStep(a) == NormalStep(b) && (a.timeout > 0 <==> b.timeout > 0)
    ensures StepDoc(a) == StepDoc(b)
  {
    hide Millis, Whole, NormalRetry, RetryDoc, Sort, Texts, Members;
    SortedLength(a.needs);
    SortedLength(b.needs);
    if a.timeout > 0 { SameMillis(a.timeout, b.timeout); }
    match (a.retry, b.retry)
    case (Some(r), Some(q)) => SameRetryDoc(r, q);
    case _ =>
  }

  lemma SameSensorDoc(a: Sensor, b: Sensor)
    requires NormalSensor(a) == NormalSensor(b)
    ensures SensorDoc(a) == SensorDoc(b)
  {
    hide Millis, Whole;
    SameMillis(a.interval, b.interval);
  }

  lemma SameDocs<T>(a: seq<T>, b: seq<T>, doc: T -> Value)
    requires |a| == |b| && forall i :: 0 <= i < |a| ==> doc(a[i]) == doc(b[i])
    ensures Docs(a, doc) == Docs(b, doc)
  {
    assert forall i :: 0 <= i < |a| ==> Docs(a, doc).items[i] == Docs(b, doc).items[i];
  }

  /** The same steps say they have a ceiling of their own. */
  ghost predicate SameCeilings(a: Job, b: Job) {
    |a.steps| == |b.steps| && forall i :: 0 <= i < |a.steps| ==> (a.steps[i].timeout > 0 <==> b.steps[i].timeout > 0)
  }

  lemma SameLists(a: Job, b: Job)
    requires Normal(a) == Normal(b) && SameCeilings(a, b)
    ensures Docs(a.steps, StepDoc) == Docs(b.steps, StepDoc) && Docs(a.sensors, SensorDoc) == Docs(b.sensors, SensorDoc)
  {
    hide NormalStep, NormalSensor, StepDoc, SensorDoc, Docs, Whole, Sort;
    var ns, nt := Each(a.steps, NormalStep), Each(a.sensors, NormalSensor);
    assert Each(b.steps, NormalStep) == ns && Each(b.sensors, NormalSensor) == nt;
    forall i | 0 <= i < |a.steps| ensures StepDoc(a.steps[i]) == StepDoc(b.steps[i]) {
      assert ns[i] == NormalStep(a.steps[i]) == NormalStep(b.steps[i]);
      SameStepDoc(a.steps[i], b.steps[i]);
    }
    SameDocs(a.steps, b.steps, StepDoc);
    forall i | 0 <= i < |a.sensors| ensures SensorDoc(a.sensors[i]) == SensorDoc(b.sensors[i]) {
      assert nt[i] == NormalSensor(a.sensors[i]) == NormalSensor(b.sensors[i]);
      SameSensorDoc(a.sensors[i], b.sensors[i]);
    }
    SameDocs(a.sensors, b.sensors, SensorDoc);
  }

  lemma SameJobSameBytes(a: Job, b: Job)
    requires Normal(a) == Normal(b) && SameCeilings(a, b)
    ensures Canonical(a) == Canonical(b)
  {
    SameLists(a, b);
    SortedLength(a.inheritEnv);
    SortedLength(b.inheritEnv);
    hide Millis, Docs, Texts, TextMap, Members, Encode, Sort, SameCeilings, NormalStep, NormalSensor;
    assert |a.sensors| == |Each(a.sensors, NormalSensor)| == |Each(b.sensors, NormalSensor)| == |b.sensors|;
    SameMillis(a.timeout, b.timeout);
  }

  /** One document, one job: jobs with the same bytes agree on everything a run can see. */
  lemma SameBytesSameJob(a: Job, b: Job)
    requires Is64(a) && Is64(b) && Canonical(a) == Canonical(b)
    ensures Normal(a) == Normal(b)
  {
    ReadsBackNormal(a);
    ReadsBackNormal(b);
    hide Canonical, Normal, FromIR;
  }

  lemma CeilingShows(a: Step, b: Step)
    requires Norm(StepDoc(a)) == Norm(StepDoc(b))
    ensures a.timeout > 0 <==> b.timeout > 0
  {
    hide Norm, AsMap, At, Find, StepEntries, Members, Known, Texts, Millis;
    StepFinds(a);
    StepFinds(b);
    DocReads(StepEntries(a), STEP_KEYS);
    DocReads(StepEntries(b), STEP_KEYS);
    var m := AsMap(Norm(StepDoc(a)).members);
    assert At(m, TimeoutMs).Some? <==> a.timeout > 0;
    assert At(m, TimeoutMs).Some? <==> b.timeout > 0;
  }

  lemma StepsShow(a: Job, b: Job)
    requires Norm(JobDoc(a)) == Norm(JobDoc(b))
    ensures Norm(Docs(a.steps, StepDoc)) == Norm(Docs(b.steps, StepDoc))
  {
    hide Norm, AsMap, At, Find, JobEntries, Members, Known, Texts, Millis, Docs, TextMap;
    JobFinds(a);
    JobFinds(b);
    DocReads(JobEntries(a), JOB_KEYS);
    DocReads(JobEntries(b), JOB_KEYS);
    var m := AsMap(Norm(JobDoc(a)).members);
    assert At(m, Steps) == Some(Norm(Docs(a.steps, StepDoc)));
    assert At(m, Steps) == Some(Norm(Docs(b.steps, StepDoc)));
  }

  lemma SameBytesSameCeilings(a: Job, b: Job)
    requires Canonical(a) == Canonical(b)
    ensures SameCeilings(a, b)
  {
    EncodesInjectively(JobDoc(a), JobDoc(b));
    hide JobDoc, Encode, StepDoc;
    StepsShow(a, b);
    var x, y := Norm(Docs(a.steps, StepDoc)), Norm(Docs(b.steps, StepDoc));
    assert |x.items| == |a.steps| && |y.items| == |b.steps|;
    forall i | 0 <= i < |a.steps| ensures a.steps[i].timeout > 0 <==> b.steps[i].timeout > 0 {
      assert x.items[i] == Norm(StepDoc(a.steps[i])) && y.items[i] == Norm(StepDoc(b.steps[i]));
      CeilingShows(a.steps[i], b.steps[i]);
    }
  }

  /**
   * The bytes of two jobs, and so their hashes, agree exactly when their normal forms do and the same steps
   * have a ceiling: one below a millisecond is written as zero, and none is not written at all.
   */
  lemma SameBytesExactly(a: Job, b: Job)
    requires Is64(a) && Is64(b)
    ensures Canonical(a) == Canonical(b) <==> Normal(a) == Normal(b) && SameCeilings(a, b)
  {
    hide Canonical, Normal, SameCeilings, Is64;
    if Canonical(a) == Canonical(b) {
      SameBytesSameJob(a, b);
      SameBytesSameCeilings(a, b);
    }
    if Normal(a) == Normal(b) && SameCeilings(a, b) { SameJobSameBytes(a, b); }
  }

  const BARE_STEP := Step("a", ["/bin/true"], false, "", 0, None, [])
  const BARE_JOB := Job("j", "", map[], "", [], "", NANOS, 1, [BARE_STEP], [], [])

  /**
   * Two jobs with one normal form and different bytes: one step has a ceiling of a nanosecond, the other none.
   * No job file can ask for that ceiling, because a duration finer than a millisecond is not read.
   */
  lemma TinyCeilingShows() returns (a: Job, b: Job)
    ensures Is64(a) && Is64(b) && Normal(a) == Normal(b) && Canonical(a) != Canonical(b)
  {
    a, b := BARE_JOB, BARE_JOB.(steps := [BARE_STEP.(timeout := 1)]);
    TinyIsNone(BARE_STEP);
    hide Sort, Canonical, NormalStep, Whole;
    assert Each(a.steps, NormalStep) == [NormalStep(BARE_STEP)];
    assert Each(b.steps, NormalStep) == [NormalStep(BARE_STEP.(timeout := 1))];
    assert !SameCeilings(a, b) by { assert a.steps[0].timeout == 0 && b.steps[0].timeout == 1; }
    hide Normal;
    SameBytesExactly(a, b);
  }

  lemma TinyIsNone(s: Step)
    requires s.timeout == 0
    ensures NormalStep(s.(timeout := 1)) == NormalStep(s)
  {
    assert Whole(1) == 0;
  }

  /** Where no step asks for less than a millisecond, the normal form alone decides. */
  lemma SameBytesWholeCeilings(a: Job, b: Job)
    requires Is64(a) && Is64(b)
    requires forall i :: 0 <= i < |a.steps| ==> !(0 < a.steps[i].timeout < NANOS)
    requires forall i :: 0 <= i < |b.steps| ==> !(0 < b.steps[i].timeout < NANOS)
    ensures Canonical(a) == Canonical(b) <==> Normal(a) == Normal(b)
  {
    SameBytesExactly(a, b);
    if Normal(a) == Normal(b) {
      var ns := Each(a.steps, NormalStep);
      assert Each(b.steps, NormalStep) == ns;
      hide NormalStep, Canonical, Is64;
      forall i | 0 <= i < |a.steps| ensures a.steps[i].timeout > 0 <==> b.steps[i].timeout > 0 {
        assert ns[i] == NormalStep(a.steps[i]) == NormalStep(b.steps[i]);
        CeilingStays(a.steps[i]);
        CeilingStays(b.steps[i]);
      }
    }
  }

  lemma CeilingStays(s: Step)
    requires !(0 < s.timeout < NANOS)
    ensures NormalStep(s).timeout > 0 <==> s.timeout > 0
  {
  }
}
