/**
 * The documents of a job key by key, with the keys as they are spelled: what is written under each of them
 * and when a key is left out, and exactly which object reads as which record.
 */
module JobKeys {
  import opened Wrappers
  import opened Text
  import opened Backoff
  import opened Json
  import opened JobDoc
  import G = JsonGrammar

  // ----- what an object says under a key -----

  ghost predicate TextUnder(m: map<string, Value>, key: string, s: string) {
    if key in m then m[key] == Words(s) else s == ""
  }

  ghost predicate FlagUnder(m: map<string, Value>, key: string, b: bool) {
    if key in m then m[key] == Flag(b) else !b
  }

  /** A whole number, or one cut to it, that an int64 holds. */
  ghost predicate IntUnder(m: map<string, Value>, key: string, n: int) {
    if key in m then (m[key] == Number(n) || m[key] == Cut(n)) && -0x8000_0000_0000_0000 <= n < 0x8000_0000_0000_0000
    else n == 0
  }

  /** Milliseconds, as many nanoseconds of a duration, wrapped like an int64. */
  ghost predicate MillisUnder(m: map<string, Value>, key: string, d: int) {
    exists ms :: IntUnder(m, key, ms) && d == Wrap(ms * 1_000_000)
  }

  ghost predicate TextsUnder(m: map<string, Value>, key: string, texts: seq<string>) {
    if key in m then m[key].Array? && ListOf(m[key].items, texts) else texts == []
  }

  ghost predicate ListOf(items: seq<Value>, texts: seq<string>) {
    |items| == |texts| && forall i :: 0 <= i < |items| ==> items[i] == Words(texts[i])
  }

  ghost predicate TextMapUnder(m: map<string, Value>, key: string, texts: map<string, string>) {
    if key in m then m[key].Object? && EntriesOf(AsMap(m[key].members), texts) else texts == map[]
  }

  ghost predicate EntriesOf(m: map<string, Value>, texts: map<string, string>) {
    m.Keys == texts.Keys && forall k :: k in m ==> m[k] == Words(texts[k])
  }

  /** Of several members with one key the last is the one that counts. */
  lemma {:induction false} LastCounts(ms: seq<Member>, i: nat)
    requires i < |ms| && forall j :: i < j < |ms| ==> ms[j].key != ms[i].key
    ensures ms[i].key in AsMap(ms) && AsMap(ms)[ms[i].key] == ms[i].value
    ensures forall k :: k in AsMap(ms) ==> exists j :: 0 <= j < |ms| && ms[j].key == k
    decreases |ms|
  {
    if i < |ms| - 1 { LastCounts(ms[..|ms| - 1], i); }
    forall k | k in AsMap(ms) ensures exists j :: 0 <= j < |ms| && ms[j].key == k { KeysOfMap(ms, k); }
  }

  lemma LeafReads(m: map<string, Value>, k: Key)
    ensures forall s :: ToText(At(m, k)) == Some(s) <==> TextUnder(m, NameOf(k), s)
    ensures forall b :: ToFlag(At(m, k)) == Some(b) <==> FlagUnder(m, NameOf(k), b)
    ensures forall n :: ToInt(At(m, k)) == Some(n) <==> IntUnder(m, NameOf(k), n)
    ensures forall d :: ToDuration(At(m, k)) == Some(d) <==> MillisUnder(m, NameOf(k), d)
  {
    hide NameOf, Wrap;
    var v := ToInt(At(m, k));
    if v.Some? { assert IntUnder(m, NameOf(k), v.value); }
    forall d ensures ToDuration(At(m, k)) == Some(d) <==> MillisUnder(m, NameOf(k), d) {
      if MillisUnder(m, NameOf(k), d) {
        var ms :| IntUnder(m, NameOf(k), ms) && d == Wrap(ms * 1_000_000);
        assert v == Some(ms);
      }
    }
  }

  lemma TextsRead(m: map<string, Value>, k: Key, texts: seq<string>)
    ensures ToTexts(At(m, k)) == Some(texts) <==> TextsUnder(m, NameOf(k), texts)
  {
    hide NameOf;
    if NameOf(k) in m && m[NameOf(k)].Array? {
      var items, r := m[NameOf(k)].items, ToTexts(At(m, k));
      if ListOf(items, texts) { assert r.Some? && r.value == texts; }
    }
  }

  lemma TextMapReads(m: map<string, Value>, k: Key, texts: map<string, string>)
    ensures ToTextMap(At(m, k)) == Some(texts) <==> TextMapUnder(m, NameOf(k), texts)
  {
    hide NameOf, AsMap;
    if NameOf(k) in m && m[NameOf(k)].Object? {
      var o, r := AsMap(m[NameOf(k)].members), ToTextMap(At(m, k));
      if EntriesOf(o, texts) { assert r.Some? && r.value == texts; }
    }
  }

  // ----- which object reads as which record -----

  ghost predicate IsRetry(m: map<string, Value>, r: Retry) {
    && m.Keys <= {"max", "backoff", "initial_ms", "max_delay_ms", "jitter"}
    && IntUnder(m, "max", r.max) && TextUnder(m, "backoff", r.backoff) && MillisUnder(m, "initial_ms", r.initial)
    && MillisUnder(m, "max_delay_ms", r.maxDelay) && TextUnder(m, "jitter", r.jitter)
  }

  ghost predicate IsSchedule(m: map<string, Value>, s: Schedule) {
    && m.Keys <= {"name", "cron", "timezone"}
    && TextUnder(m, "name", s.name) && TextUnder(m, "cron", s.cron) && TextUnder(m, "timezone", s.timezone)
  }

  ghost predicate IsSensor(m: map<string, Value>, s: Sensor) {
    && m.Keys <= {"name", "type", "interval_ms"}
    && TextUnder(m, "name", s.name) && TextUnder(m, "type", s.kind) && MillisUnder(m, "interval_ms", s.interval)
  }

  ghost predicate IsStep(m: map<string, Value>, s: Step) {
    && m.Keys <= {"name", "run", "shell", "workdir", "timeout_ms", "retry", "needs"}
    && TextUnder(m, "name", s.name) && TextsUnder(m, "run", s.run) && FlagUnder(m, "shell", s.shell)
    && TextUnder(m, "workdir", s.workdir) && MillisUnder(m, "timeout_ms", s.timeout) && TextsUnder(m, "needs", s.needs)
    && (if "retry" in m then m["retry"].Object? && s.retry.Some? && IsRetry(AsMap(m["retry"].members), s.retry.value)
        else s.retry.None?)
  }

  ghost predicate StepsUnder(m: map<string, Value>, steps: seq<Step>) {
    if "steps" in m
    then m["steps"].Array? && |m["steps"].items| == |steps|
         && forall i :: 0 <= i < |steps| ==> m["steps"].items[i].Object? && IsStep(AsMap(m["steps"].items[i].members), steps[i])
    else steps == []
  }

  ghost predicate SchedulesUnder(m: map<string, Value>, schedules: seq<Schedule>) {
    if "schedules" in m
    then m["schedules"].Array? && |m["schedules"].items| == |schedules|
         && forall i :: 0 <= i < |schedules| ==>
              m["schedules"].items[i].Object? && IsSchedule(AsMap(m["schedules"].items[i].members), schedules[i])
    else schedules == []
  }

  ghost predicate SensorsUnder(m: map<string, Value>, sensors: seq<Sensor>) {
    if "sensors" in m
    then m["sensors"].Array? && |m["sensors"].items| == |sensors|
         && forall i :: 0 <= i < |sensors| ==>
              m["sensors"].items[i].Object? && IsSensor(AsMap(m["sensors"].items[i].members), sensors[i])
    else sensors == []
  }

  ghost predicate IsJob(m: map<string, Value>, j: Job) {
    && m.Keys <= {"schema", "name", "description", "env_file", "workdir", "timeout_ms", "max_concurrent", "env", "inherit_env",
                  "steps", "schedules", "sensors"}
    && "schema" in m && m["schema"] == Words("paceq.job.v1") && "name" in m && m["name"] == Words(j.name)
    && TextUnder(m, "description", j.description) && TextUnder(m, "env_file", j.envFile) && TextUnder(m, "workdir", j.workdir)
    && MillisUnder(m, "timeout_ms", j.timeout) && IntUnder(m, "max_concurrent", j.maxConcurrent)
    && TextMapUnder(m, "env", j.env) && TextsUnder(m, "inherit_env", j.inheritEnv)
    && StepsUnder(m, j.steps) && SchedulesUnder(m, j.schedules) && SensorsUnder(m, j.sensors)
  }

  lemma RetryLeaves(m: map<string, Value>)
    ensures forall n :: ToInt(At(m, Max)) == Some(n) <==> IntUnder(m, "max", n)
    ensures forall s :: ToText(At(m, BackoffKey)) == Some(s) <==> TextUnder(m, "backoff", s)
    ensures forall d :: ToDuration(At(m, InitialMs)) == Some(d) <==> MillisUnder(m, "initial_ms", d)
    ensures forall d :: ToDuration(At(m, MaxDelayMs)) == Some(d) <==> MillisUnder(m, "max_delay_ms", d)
    ensures forall s :: ToText(At(m, JitterKey)) == Some(s) <==> TextUnder(m, "jitter", s)
  {
    assert NameOf(Max) == "max" && NameOf(BackoffKey) == "backoff" && NameOf(InitialMs) == "initial_ms" && NameOf(MaxDelayMs) == "max_delay_ms" && NameOf(JitterKey) == "jitter";
    hide NameOf, ToText, TextUnder, ToFlag, FlagUnder, ToInt, IntUnder, ToDuration, MillisUnder, At;
    LeafReads(m, Max);
    LeafReads(m, BackoffKey);
    LeafReads(m, InitialMs);
    LeafReads(m, MaxDelayMs);
    LeafReads(m, JitterKey);
  }

  lemma ScheduleLeaves(m: map<string, Value>)
    ensures forall s :: ToText(At(m, Name)) == Some(s) <==> TextUnder(m, "name", s)
    ensures forall s :: ToText(At(m, Cron)) == Some(s) <==> TextUnder(m, "cron", s)
    ensures forall s :: ToText(At(m, Timezone)) == Some(s) <==> TextUnder(m, "timezone", s)
  {
    assert NameOf(Name) == "name" && NameOf(Cron) == "cron" && NameOf(Timezone) == "timezone";
    hide NameOf, ToText, TextUnder, ToFlag, FlagUnder, ToInt, IntUnder, ToDuration, MillisUnder, At;
    LeafReads(m, Name);
    LeafReads(m, Cron);
    LeafReads(m, Timezone);
  }

  lemma SensorLeaves(m: map<string, Value>)
    ensures forall s :: ToText(At(m, Name)) == Some(s) <==> TextUnder(m, "name", s)
    ensures forall s :: ToText(At(m, Type)) == Some(s) <==> TextUnder(m, "type", s)
    ensures forall d :: ToDuration(At(m, IntervalMs)) == Some(d) <==> MillisUnder(m, "interval_ms", d)
  {
    assert NameOf(Name) == "name" && NameOf(Type) == "type" && NameOf(IntervalMs) == "interval_ms";
    hide NameOf, ToText, TextUnder, ToFlag, FlagUnder, ToInt, IntUnder, ToDuration, MillisUnder, At;
    LeafReads(m, Name);
    LeafReads(m, Type);
    LeafReads(m, IntervalMs);
  }

  lemma StepLeaves(m: map<string, Value>)
    ensures forall s :: ToText(At(m, Name)) == Some(s) <==> TextUnder(m, "name", s)
    ensures forall b :: ToFlag(At(m, Shell)) == Some(b) <==> FlagUnder(m, "shell", b)
    ensures forall s :: ToText(At(m, Workdir)) == Some(s) <==> TextUnder(m, "workdir", s)
    ensures forall d :: ToDuration(At(m, TimeoutMs)) == Some(d) <==> MillisUnder(m, "timeout_ms", d)
  {
    assert NameOf(Name) == "name" && NameOf(Shell) == "shell" && NameOf(Workdir) == "workdir" && NameOf(TimeoutMs) == "timeout_ms";
    hide NameOf, ToText, TextUnder, ToFlag, FlagUnder, ToInt, IntUnder, ToDuration, MillisUnder, At;
    LeafReads(m, Name);
    LeafReads(m, Shell);
    LeafReads(m, Workdir);
    LeafReads(m, TimeoutMs);
  }

  lemma JobLeaves(m: map<string, Value>)
    ensures forall s :: ToText(At(m, Name)) == Some(s) <==> TextUnder(m, "name", s)
    ensures forall s :: ToText(At(m, Description)) == Some(s) <==> TextUnder(m, "description", s)
    ensures forall s :: ToText(At(m, EnvFile)) == Some(s) <==> TextUnder(m, "env_file", s)
    ensures forall s :: ToText(At(m, Workdir)) == Some(s) <==> TextUnder(m, "workdir", s)
    ensures forall d :: ToDuration(At(m, TimeoutMs)) == Some(d) <==> MillisUnder(m, "timeout_ms", d)
    ensures forall n :: ToInt(At(m, MaxConcurrent)) == Some(n) <==> IntUnder(m, "max_concurrent", n)
  {
    assert NameOf(Name) == "name" && NameOf(Description) == "description" && NameOf(EnvFile) == "env_file" && NameOf(Workdir) == "workdir" && NameOf(TimeoutMs) == "timeout_ms" && NameOf(MaxConcurrent) == "max_concurrent";
    hide NameOf, ToText, TextUnder, ToFlag, FlagUnder, ToInt, IntUnder, ToDuration, MillisUnder, At;
    LeafReads(m, Name);
    LeafReads(m, Description);
    LeafReads(m, EnvFile);
    LeafReads(m, Workdir);
    LeafReads(m, TimeoutMs);
    LeafReads(m, MaxConcurrent);
  }

  lemma StepLists(m: map<string, Value>, s: Step)
    ensures ToTexts(At(m, Run)) == Some(s.run) <==> TextsUnder(m, "run", s.run)
    ensures ToTexts(At(m, Needs)) == Some(s.needs) <==> TextsUnder(m, "needs", s.needs)
  {
    assert NameOf(Run) == "run" && NameOf(Needs) == "needs";
    hide NameOf;
    TextsRead(m, Run, s.run);
    TextsRead(m, Needs, s.needs);
  }

  lemma RetryExactly(m: map<string, Value>, r: Retry)
    ensures RetryOf(m) == Some(r) <==> IsRetry(m, r)
  {
    RetryLeaves(m);
    RetryKeys(m);
    hide At, ToText, ToInt, ToDuration, TextUnder, IntUnder, MillisUnder, Known;
  }

  lemma RetryKeys(m: map<string, Value>)
    ensures Known(m, RETRY_KEYS) <==> m.Keys <= {"max", "backoff", "initial_ms", "max_delay_ms", "jitter"}
  {
    assert forall k :: k in RETRY_KEYS ==> NameOf(k) in {"max", "backoff", "initial_ms", "max_delay_ms", "jitter"};
    assert NameOf(Max) == "max" && NameOf(BackoffKey) == "backoff" && NameOf(InitialMs) == "initial_ms"
      && NameOf(MaxDelayMs) == "max_delay_ms" && NameOf(JitterKey) == "jitter";
    hide NameOf;
  }

  lemma ScheduleExactly(v: Value, s: Schedule)
    ensures ToSchedule(v) == Some(s) <==> v.Object? && IsSchedule(AsMap(v.members), s)
  {
    if v.Object? {
      var m := AsMap(v.members);
      ScheduleLeaves(m);
      ScheduleKeys(m);
      hide At, ToText, TextUnder, Known, AsMap;
    }
  }

  lemma ScheduleKeys(m: map<string, Value>)
    ensures Known(m, SCHEDULE_KEYS) <==> m.Keys <= {"name", "cron", "timezone"}
  {
    assert forall k :: k in SCHEDULE_KEYS ==> NameOf(k) in {"name", "cron", "timezone"};
    assert NameOf(Name) == "name" && NameOf(Cron) == "cron" && NameOf(Timezone) == "timezone";
    hide NameOf;
  }

  lemma SensorExactly(v: Value, s: Sensor)
    ensures ToSensor(v) == Some(s) <==> v.Object? && IsSensor(AsMap(v.members), s)
  {
    if v.Object? {
      var m := AsMap(v.members);
      SensorLeaves(m);
      SensorKeys(m);
      hide At, ToText, TextUnder, ToDuration, MillisUnder, Known, AsMap;
    }
  }

  lemma SensorKeys(m: map<string, Value>)
    ensures Known(m, SENSOR_KEYS) <==> m.Keys <= {"name", "type", "interval_ms"}
  {
    assert forall k :: k in SENSOR_KEYS ==> NameOf(k) in {"name", "type", "interval_ms"};
    assert NameOf(Name) == "name" && NameOf(Type) == "type" && NameOf(IntervalMs) == "interval_ms";
    hide NameOf;
  }

  lemma StepExactly(v: Value, s: Step)
    ensures ToStep(v) == Some(s) <==> v.Object? && IsStep(AsMap(v.members), s)
  {
    if v.Object? {
      var m := AsMap(v.members);
      StepLeaves(m);
      StepLists(m, s);
      RetryRead(m, s.retry);
      StepKeys(m);
      hide At, ToText, TextUnder, ToFlag, FlagUnder, ToDuration, MillisUnder, ToTexts, TextsUnder, ToRetry, IsRetry, Known, AsMap;
    }
  }

  lemma RetryRead(m: map<string, Value>, r: Option<Retry>)
    ensures ToRetry(At(m, RetryKey)) == Some(r) <==>
      if "retry" in m then m["retry"].Object? && r.Some? && IsRetry(AsMap(m["retry"].members), r.value) else r.None?
  {
    assert NameOf(RetryKey) == "retry";
    if "retry" in m && m["retry"].Object? {
      var o := AsMap(m["retry"].members);
      if r.Some? { RetryExactly(o, r.value); }
      hide RetryOf, IsRetry, AsMap;
    }
  }

  lemma StepKeys(m: map<string, Value>)
    ensures Known(m, STEP_KEYS) <==> m.Keys <= {"name", "run", "shell", "workdir", "timeout_ms", "retry", "needs"}
  {
    assert forall k :: k in STEP_KEYS ==> NameOf(k) in {"name", "run", "shell", "workdir", "timeout_ms", "retry", "needs"};
    assert NameOf(Name) == "name" && NameOf(Run) == "run" && NameOf(Shell) == "shell" && NameOf(Workdir) == "workdir"
      && NameOf(TimeoutMs) == "timeout_ms" && NameOf(RetryKey) == "retry" && NameOf(Needs) == "needs";
    hide NameOf;
  }

  lemma ItemsRead<T(!new)>(items: seq<Value>, read: Value -> Option<T>, list: seq<T>)
    ensures ToItems(Some(Array(items)), read) == Some(list) <==>
      |items| == |list| && forall i :: 0 <= i < |items| ==> read(items[i]) == Some(list[i])
  {
    if |items| == |list| && forall i :: 0 <= i < |items| ==> read(items[i]) == Some(list[i]) {
      var r := ToItems(Some(Array(items)), read);
      assert r.Some? && r.value == list;
    }
  }

  lemma StepsRead(m: map<string, Value>, list: seq<Step>)
    ensures ToItems(At(m, Steps), ToStep) == Some(list) <==> StepsUnder(m, list)
  {
    assert NameOf(Steps) == "steps";
    if "steps" in m && m["steps"].Array? {
      ItemsRead(m["steps"].items, ToStep, list);
      forall i | 0 <= i < |list| && i < |m["steps"].items| { StepExactly(m["steps"].items[i], list[i]); }
      hide ToStep, IsStep, AsMap, ToItems;
    }
  }

  lemma SchedulesRead(m: map<string, Value>, list: seq<Schedule>)
    ensures ToItems(At(m, Schedules), ToSchedule) == Some(list) <==> SchedulesUnder(m, list)
  {
    assert NameOf(Schedules) == "schedules";
    if "schedules" in m && m["schedules"].Array? {
      ItemsRead(m["schedules"].items, ToSchedule, list);
      forall i | 0 <= i < |list| && i < |m["schedules"].items| { ScheduleExactly(m["schedules"].items[i], list[i]); }
      hide ToSchedule, IsSchedule, AsMap, ToItems;
    }
  }

  lemma SensorsRead(m: map<string, Value>, list: seq<Sensor>)
    ensures ToItems(At(m, Sensors), ToSensor) == Some(list) <==> SensorsUnder(m, list)
  {
    assert NameOf(Sensors) == "sensors";
    if "sensors" in m && m["sensors"].Array? {
      ItemsRead(m["sensors"].items, ToSensor, list);
      forall i | 0 <= i < |list| && i < |m["sensors"].items| { SensorExactly(m["sensors"].items[i], list[i]); }
      hide ToSensor, IsSensor, AsMap, ToItems;
    }
  }

  lemma JobNames()
    ensures NameOf(SchemaKey) == "schema" && NameOf(Name) == "name" && NameOf(Description) == "description"
    ensures NameOf(EnvFile) == "env_file" && NameOf(Workdir) == "workdir" && NameOf(TimeoutMs) == "timeout_ms"
    ensures NameOf(MaxConcurrent) == "max_concurrent" && NameOf(Env) == "env" && NameOf(InheritEnv) == "inherit_env"
    ensures NameOf(Steps) == "steps" && NameOf(Schedules) == "schedules" && NameOf(Sensors) == "sensors"
  {
  }

  lemma JobKeysAre(m: map<string, Value>)
    ensures Known(m, JOB_KEYS) <==>
      m.Keys <= {"schema", "name", "description", "env_file", "workdir", "timeout_ms", "max_concurrent", "env", "inherit_env",
                 "steps", "schedules", "sensors"}
  {
    JobNames();
    hide NameOf;
    assert forall k :: k in JOB_KEYS ==>
      NameOf(k) in {"schema", "name", "description", "env_file", "workdir", "timeout_ms", "max_concurrent", "env", "inherit_env",
                    "steps", "schedules", "sensors"};
  }

  lemma JobOfIs(m: map<string, Value>, j: Job)
    ensures JobOf(m) == Some(j) <==>
      && Known(m, JOB_KEYS) && (At(m, SchemaKey).None? || At(m, SchemaKey) == Some(Words(SCHEMA)))
      && ToText(At(m, Name)) == Some(j.name) && ToText(At(m, Description)) == Some(j.description)
      && ToTextMap(At(m, Env)) == Some(j.env) && ToText(At(m, EnvFile)) == Some(j.envFile)
      && ToTexts(At(m, InheritEnv)) == Some(j.inheritEnv) && ToText(At(m, Workdir)) == Some(j.workdir)
      && ToDuration(At(m, TimeoutMs)) == Some(j.timeout) && ToInt(At(m, MaxConcurrent)) == Some(j.maxConcurrent)
      && ToItems(At(m, Steps), ToStep) == Some(j.steps) && ToItems(At(m, Schedules), ToSchedule) == Some(j.schedules)
      && ToItems(At(m, Sensors), ToSensor) == Some(j.sensors)
  {
    hide NameOf, At, ToText, ToInt, ToDuration, ToTexts, ToTextMap, ToItems, Known;
  }

  /** FromIR accepts a value as a job exactly when its members, key by key, say that job. */
  lemma JobExactly(v: Value, j: Job)
    ensures FromValue(v) == Ok(j) <==> v.Object? && IsJob(AsMap(v.members), j)
  {
    if v.Object? {
      var m := AsMap(v.members);
      hide NameOf, At, ToText, TextUnder, ToInt, IntUnder, ToDuration, MillisUnder, ToTexts, TextsUnder, ToTextMap, TextMapUnder,
           ToItems, StepsUnder, SchedulesUnder, SensorsUnder, Known, AsMap, JobOf;
      JobOfIs(m, j);
      JobLeaves(m);
      JobLists(m, j);
      StepsRead(m, j.steps);
      SchedulesRead(m, j.schedules);
      SensorsRead(m, j.sensors);
      JobKeysAre(m);
      MustHave(m);
    }
  }

  /**
   * FromIR accepts a text as a job exactly when it is white space, a spelling of an object whose members say that
   * job, and whatever follows.
   */
  lemma DocumentExactly(text: string, j: Job)
    ensures FromIR(text) == Ok(j) <==>
      exists v: Value, gap, sp, rest :: v.Object? && G.Documents(text, v, gap, sp, rest) && IsJob(AsMap(v.members), j)
  {
    hide FromValue, Decode, G.Documents, IsJob, AsMap;
    if FromIR(text) == Ok(j) {
      var v := Decode(text).value;
      JobExactly(v, j);
      G.DecodesExactly(text, v);
      var gap, sp, rest :| G.Documents(text, v, gap, sp, rest);
    }
    if v: Value, gap, sp, rest :| v.Object? && G.Documents(text, v, gap, sp, rest) && IsJob(AsMap(v.members), j) {
      G.DecodesExactly(text, v);
      JobExactly(v, j);
    }
  }

  /** What a refusal says: no object, or no schema, or a schema and no name; a complete document is refused for its members. */
  lemma RefusalsTell(v: Value)
    ensures FromValue(v) == Err(NotAnObject) <==> !v.Object?
    ensures v.Object? && FromValue(v) == Err(NoSchema) ==> "schema" !in AsMap(v.members)
    ensures v.Object? && FromValue(v) == Err(NoName) ==> "schema" in AsMap(v.members) && "name" !in AsMap(v.members)
    ensures v.Object? && "schema" in AsMap(v.members) && "name" in AsMap(v.members) && FromValue(v).Err? ==> FromValue(v) == Err(Malformed)
    ensures v.Object? && "schema" in AsMap(v.members) && AsMap(v.members)["schema"] != Words("paceq.job.v1") ==> FromValue(v) == Err(Malformed)
  {
    if v.Object? {
      MustHave(AsMap(v.members));
      hide AsMap, ToText, ToInt, ToDuration, ToTexts, ToTextMap, ToItems, Known, NameOf;
    }
  }

  lemma JobLists(m: map<string, Value>, j: Job)
    ensures ToTextMap(At(m, Env)) == Some(j.env) <==> TextMapUnder(m, "env", j.env)
    ensures ToTexts(At(m, InheritEnv)) == Some(j.inheritEnv) <==> TextsUnder(m, "inherit_env", j.inheritEnv)
  {
    assert NameOf(Env) == "env" && NameOf(InheritEnv) == "inherit_env";
    hide NameOf;
    TextMapReads(m, Env, j.env);
    TextsRead(m, InheritEnv, j.inheritEnv);
  }

  lemma MustHave(m: map<string, Value>)
    ensures At(m, SchemaKey).Some? && At(m, SchemaKey) == Some(Words(SCHEMA)) <==> "schema" in m && m["schema"] == Words("paceq.job.v1")
    ensures At(m, SchemaKey).None? <==> "schema" !in m
    ensures At(m, Name).None? <==> "name" !in m
    ensures forall s :: At(m, Name).Some? ==> (TextUnder(m, "name", s) <==> m["name"] == Words(s))
  {
    JobNames();
  }

  // ----- what is written under which key -----

  /** Towards zero, to the millisecond. */
  ghost predicate InMillis(n: int, d: int) {
    if d >= 0 then n * 1_000_000 <= d < (n + 1) * 1_000_000 else (n - 1) * 1_000_000 < d <= n * 1_000_000
  }

  ghost predicate NumberUnder(m: map<string, Value>, key: string, n: int) { key in m && m[key] == Number(n) }

  ghost predicate WholeMillis(m: map<string, Value>, key: string, d: int) {
    key in m && m[key].Number? && InMillis(m[key].n, d)
  }

  /** Written when there is something to say, left out when not. */
  ghost predicate TextIf(m: map<string, Value>, key: string, s: string) {
    if s != "" then key in m && m[key] == Words(s) else key !in m
  }

  /** A set of names, sorted; left out when empty. */
  ghost predicate NamesIf(m: map<string, Value>, key: string, names: seq<string>) {
    if |names| > 0 then key in m && m[key].Array? && ListOf(m[key].items, Sort(names)) else key !in m
  }

  ghost predicate WritesRetry(m: map<string, Value>, r: Retry) {
    && m.Keys == {"max", "backoff", "initial_ms", "max_delay_ms", "jitter"}
    && NumberUnder(m, "max", r.max) && m["backoff"] == Words(r.backoff) && WholeMillis(m, "initial_ms", r.initial)
    && WholeMillis(m, "max_delay_ms", r.maxDelay) && m["jitter"] == Words(r.jitter)
  }

  ghost predicate WritesSchedule(m: map<string, Value>, s: Schedule) {
    && m.Keys == {"name", "cron", "timezone"}
    && m["name"] == Words(s.name) && m["cron"] == Words(s.cron) && m["timezone"] == Words(s.timezone)
  }

  ghost predicate WritesSensor(m: map<string, Value>, s: Sensor) {
    && m.Keys == {"name", "type", "interval_ms"}
    && m["name"] == Words(s.name) && m["type"] == Words(s.kind) && WholeMillis(m, "interval_ms", s.interval)
  }

  ghost predicate WritesStep(m: map<string, Value>, s: Step) {
    && m.Keys <= {"name", "run", "shell", "workdir", "timeout_ms", "retry", "needs"} && {"name", "run", "shell"} <= m.Keys
    && m["name"] == Words(s.name) && m["run"].Array? && ListOf(m["run"].items, s.run) && m["shell"] == Flag(s.shell)
    && TextIf(m, "workdir", s.workdir) && NamesIf(m, "needs", s.needs)
    && (if s.timeout > 0 then WholeMillis(m, "timeout_ms", s.timeout) else "timeout_ms" !in m)
    && (if s.retry.Some? then "retry" in m && m["retry"].Object? && WritesRetry(AsMap(m["retry"].members), s.retry.value)
        else "retry" !in m)
  }

  ghost predicate WritesSteps(items: seq<Value>, steps: seq<Step>) {
    |items| == |steps| && forall i :: 0 <= i < |steps| ==> items[i].Object? && WritesStep(AsMap(items[i].members), steps[i])
  }

  ghost predicate ScheduleItems(items: seq<Value>, schedules: seq<Schedule>) {
    |items| == |schedules| && forall i :: 0 <= i < |schedules| ==> items[i].Object? && WritesSchedule(AsMap(items[i].members), schedules[i])
  }

  ghost predicate SensorItems(items: seq<Value>, sensors: seq<Sensor>) {
    |items| == |sensors| && forall i :: 0 <= i < |sensors| ==> items[i].Object? && WritesSensor(AsMap(items[i].members), sensors[i])
  }

  ghost predicate WritesSchedules(m: map<string, Value>, schedules: seq<Schedule>) {
    if |schedules| == 0 then "schedules" !in m
    else "schedules" in m && m["schedules"].Array? && ScheduleItems(m["schedules"].items, schedules)
  }

  ghost predicate WritesSensors(m: map<string, Value>, sensors: seq<Sensor>) {
    if |sensors| == 0 then "sensors" !in m
    else "sensors" in m && m["sensors"].Array? && SensorItems(m["sensors"].items, sensors)
  }

  ghost predicate WritesJob(m: map<string, Value>, j: Job) {
    && m.Keys <= {"schema", "name", "description", "env_file", "workdir", "timeout_ms", "max_concurrent", "env", "inherit_env",
                  "steps", "schedules", "sensors"}
    && {"schema", "name", "timeout_ms", "max_concurrent", "steps"} <= m.Keys
    && m["schema"] == Words("paceq.job.v1") && m["name"] == Words(j.name) && WholeMillis(m, "timeout_ms", j.timeout)
    && NumberUnder(m, "max_concurrent", j.maxConcurrent) && m["steps"].Array? && WritesSteps(m["steps"].items, j.steps)
    && TextIf(m, "description", j.description) && TextIf(m, "env_file", j.envFile) && TextIf(m, "workdir", j.workdir)
    && (if j.env != map[] then "env" in m && m["env"].Object? && EntriesOf(AsMap(m["env"].members), j.env) else "env" !in m)
    && NamesIf(m, "inherit_env", j.inheritEnv) && WritesSchedules(m, j.schedules) && WritesSensors(m, j.sensors)
  }

  lemma MillisWritten(d: int)
    ensures InMillis(Millis(d), d)
  {
  }

  /** The members of an entry list, looked up by key. */
  lemma Looks(es: seq<Entry>)
    ensures var m := AsMap(Members(es)); forall k :: At(m, k) == Find(es, k)
  {
    forall k ensures At(AsMap(Members(es)), k) == Find(es, k) { AtMembers(es, k); }
  }

  lemma KeysUsed(es: seq<Entry>, keys: set<Key>, names: set<string>)
    requires Uses(es, keys) && forall k :: k in keys ==> NameOf(k) in names
    ensures AsMap(Members(es)).Keys <= names
  {
    hide NameOf;
    forall s | s in AsMap(Members(es)) ensures s in names {
      KeysOfMap(Members(es), s);
      var i :| 0 <= i < |es| && Members(es)[i].key == s;
      assert es[i].key in keys;
    }
  }

  lemma RetryFinds(r: Retry)
    ensures var m := AsMap(RetryDoc(r).members);
      && At(m, Max) == Some(Number(r.max)) && At(m, BackoffKey) == Some(Words(r.backoff)) && At(m, JitterKey) == Some(Words(r.jitter))
      && At(m, InitialMs) == Some(Number(Millis(r.initial))) && At(m, MaxDelayMs) == Some(Number(Millis(r.maxDelay)))
      && m.Keys <= {"max", "backoff", "initial_ms", "max_delay_ms", "jitter"}
  {
    var es := RetryEntries(r);
    hide NameOf, AsMap, Find, Millis, Members, At;
    Looks(es);
    FindIs(es, 0, Max);
    FindIs(es, 1, BackoffKey);
    FindIs(es, 2, InitialMs);
    FindIs(es, 3, MaxDelayMs);
    FindIs(es, 4, JitterKey);
    RetryUses(r);
    RetryNames();
    KeysUsed(es, RETRY_KEYS, {"max", "backoff", "initial_ms", "max_delay_ms", "jitter"});
  }

  lemma RetryNames()
    ensures NameOf(Max) == "max" && NameOf(BackoffKey) == "backoff" && NameOf(InitialMs) == "initial_ms"
    ensures NameOf(MaxDelayMs) == "max_delay_ms" && NameOf(JitterKey) == "jitter"
    ensures forall k :: k in RETRY_KEYS ==> NameOf(k) in {"max", "backoff", "initial_ms", "max_delay_ms", "jitter"}
  {
  }

  lemma RetryWritten(r: Retry)
    ensures WritesRetry(AsMap(RetryDoc(r).members), r)
  {
    RetryFinds(r);
    RetryNames();
    MillisWritten(r.initial);
    MillisWritten(r.maxDelay);
    hide NameOf, AsMap, RetryDoc, Millis, InMillis;
  }

  lemma ScheduleWritten(s: Schedule)
    ensures ScheduleDoc(s).Object? && WritesSchedule(AsMap(ScheduleDoc(s).members), s)
  {
    var es := [Entry(Name, Words(s.name)), Entry(Cron, Words(s.cron)), Entry(Timezone, Words(s.timezone))];
    assert NameOf(Name) == "name" && NameOf(Cron) == "cron" && NameOf(Timezone) == "timezone";
    hide NameOf, AsMap, Find, Members;
    Looks(es);
    FindIs(es, 0, Name);
    FindIs(es, 1, Cron);
    FindIs(es, 2, Timezone);
    assert Uses(es, SCHEDULE_KEYS);
    KeysUsed(es, SCHEDULE_KEYS, {"name", "cron", "timezone"});
  }

  lemma SensorWritten(s: Sensor)
    ensures SensorDoc(s).Object? && WritesSensor(AsMap(SensorDoc(s).members), s)
  {
    var es := [Entry(Name, Words(s.name)), Entry(Type, Words(s.kind)), Entry(IntervalMs, Number(Millis(s.interval)))];
    assert NameOf(Name) == "name" && NameOf(Type) == "type" && NameOf(IntervalMs) == "interval_ms";
    MillisWritten(s.interval);
    hide NameOf, AsMap, Find, Members, Millis, InMillis;
    Looks(es);
    FindIs(es, 0, Name);
    FindIs(es, 1, Type);
    FindIs(es, 2, IntervalMs);
    assert Uses(es, SENSOR_KEYS);
    KeysUsed(es, SENSOR_KEYS, {"name", "type", "interval_ms"});
  }

  lemma StepNames()
    ensures NameOf(Name) == "name" && NameOf(Run) == "run" && NameOf(Shell) == "shell" && NameOf(Workdir) == "workdir"
    ensures NameOf(TimeoutMs) == "timeout_ms" && NameOf(RetryKey) == "retry" && NameOf(Needs) == "needs"
    ensures forall k :: k in STEP_KEYS ==> NameOf(k) in {"name", "run", "shell", "workdir", "timeout_ms", "retry", "needs"}
  {
  }

  lemma TextsWritten(texts: seq<string>)
    ensures Texts(texts).Array? && ListOf(Texts(texts).items, texts)
  {
  }

  /** What an object says under a literal key. */
  ghost predicate Under(m: map<string, Value>, name: string, v: Option<Value>) {
    if v.Some? then name in m && m[name] == v.value else name !in m
  }

  lemma LookedUp(es: seq<Entry>, k: Key, name: string)
    requires NameOf(k) == name
    ensures Under(AsMap(Members(es)), name, Find(es, k))
  {
    AtMembers(es, k);
    hide NameOf, AsMap, Members, Find;
  }

  function TextWhen(s: string): Option<Value> { if s != "" then Some(Words(s)) else None }

  function NamesWhen(names: seq<string>): Option<Value> { if |names| > 0 then Some(Texts(Sort(names))) else None }

  ghost predicate StepSays(m: map<string, Value>, s: Step) {
    && Under(m, "name", Some(Words(s.name))) && Under(m, "run", Some(Texts(s.run))) && Under(m, "shell", Some(Flag(s.shell)))
    && Under(m, "workdir", TextWhen(s.workdir)) && Under(m, "needs", NamesWhen(s.needs))
    && Under(m, "timeout_ms", if s.timeout > 0 then Some(Number(Millis(s.timeout))) else None)
    && Under(m, "retry", match s.retry case Some(r) => Some(RetryDoc(r)) case None => None)
    && m.Keys <= {"name", "run", "shell", "workdir", "timeout_ms", "retry", "needs"}
  }

  lemma StepLooks(s: Step)
    ensures StepSays(AsMap(Members(StepEntries(s))), s)
  {
    var es := StepEntries(s);
    StepFinds(s);
    StepNames();
    hide NameOf, AsMap, Find, Members, Millis, StepEntries, Texts, Sort, Uses, Under, RetryDoc;
    KeysUsed(es, STEP_KEYS, {"name", "run", "shell", "workdir", "timeout_ms", "retry", "needs"});
    LookedUp(es, Name, "name");
    LookedUp(es, Run, "run");
    LookedUp(es, Shell, "shell");
    LookedUp(es, Workdir, "workdir");
    LookedUp(es, TimeoutMs, "timeout_ms");
    LookedUp(es, RetryKey, "retry");
    LookedUp(es, Needs, "needs");
  }

  /** The document of a step, key by key. */
  lemma StepWritten(s: Step)
    ensures StepDoc(s).Object? && WritesStep(AsMap(StepDoc(s).members), s)
  {
    StepLooks(s);
    MillisWritten(s.timeout);
    TextsWritten(s.run);
    TextsWritten(Sort(s.needs));
    if s.retry.Some? { RetryWritten(s.retry.value); }
    hide AsMap, Members, Millis, InMillis, StepEntries, Texts, ListOf, Sort, WritesRetry;
  }

  lemma DocsWritten<T>(items: seq<T>, doc: T -> Value)
    ensures Docs(items, doc).Array? && |Docs(items, doc).items| == |items|
    ensures forall i :: 0 <= i < |items| ==> Docs(items, doc).items[i] == doc(items[i])
  {
  }

  lemma StepsWritten(steps: seq<Step>)
    ensures Docs(steps, StepDoc).Array? && WritesSteps(Docs(steps, StepDoc).items, steps)
  {
    DocsWritten(steps, StepDoc);
    forall i | 0 <= i < |steps| { StepWritten(steps[i]); }
    hide StepDoc, WritesStep, AsMap, Docs;
  }

  lemma SchedulesWritten(schedules: seq<Schedule>)
    ensures Docs(schedules, ScheduleDoc).Array? && ScheduleItems(Docs(schedules, ScheduleDoc).items, schedules)
  {
    DocsWritten(schedules, ScheduleDoc);
    forall i | 0 <= i < |schedules| { ScheduleWritten(schedules[i]); }
    hide ScheduleDoc, WritesSchedule, AsMap, Docs;
  }

  lemma SensorsWritten(sensors: seq<Sensor>)
    ensures Docs(sensors, SensorDoc).Array? && SensorItems(Docs(sensors, SensorDoc).items, sensors)
  {
    DocsWritten(sensors, SensorDoc);
    forall i | 0 <= i < |sensors| { SensorWritten(sensors[i]); }
    hide SensorDoc, WritesSensor, AsMap, Docs;
  }

  lemma EnvWritten(env: map<string, string>)
    ensures TextMap(env).Object? && EntriesOf(AsMap(TextMap(env).members), env)
  {
    hide AsMap, Listed;
    ListedBack(env, env.Keys);
  }

  lemma JobKeyNames()
    ensures forall k :: k in JOB_KEYS ==>
      NameOf(k) in {"schema", "name", "description", "env_file", "workdir", "timeout_ms", "max_concurrent", "env", "inherit_env",
                    "steps", "schedules", "sensors"}
  {
    JobNames();
    hide NameOf;
  }

  ghost predicate JobSays(m: map<string, Value>, j: Job) {
    && Under(m, "schema", Some(Words("paceq.job.v1"))) && Under(m, "name", Some(Words(j.name)))
    && Under(m, "timeout_ms", Some(Number(Millis(j.timeout)))) && Under(m, "max_concurrent", Some(Number(j.maxConcurrent)))
    && Under(m, "steps", Some(Docs(j.steps, StepDoc))) && Under(m, "description", TextWhen(j.description))
    && Under(m, "env_file", TextWhen(j.envFile)) && Under(m, "workdir", TextWhen(j.workdir))
    && Under(m, "env", if j.env != map[] then Some(TextMap(j.env)) else None) && Under(m, "inherit_env", NamesWhen(j.inheritEnv))
    && Under(m, "schedules", if |j.schedules| > 0 then Some(Docs(j.schedules, ScheduleDoc)) else None)
    && Under(m, "sensors", if |j.sensors| > 0 then Some(Docs(j.sensors, SensorDoc)) else None)
    && m.Keys <= {"schema", "name", "description", "env_file", "workdir", "timeout_ms", "max_concurrent", "env", "inherit_env",
                  "steps", "schedules", "sensors"}
  }

  lemma JobLooks(j: Job, es: seq<Entry>)
    requires JobFound(j, es)
    ensures JobSays(AsMap(Members(es)), j)
  {
    JobNames();
    JobKeyNames();
    hide NameOf, AsMap, Find, Members, Millis, Texts, Sort, TextMap, Docs, Uses, Under;
    KeysUsed(es, JOB_KEYS, {"schema", "name", "description", "env_file", "workdir", "timeout_ms", "max_concurrent", "env", "inherit_env",
                            "steps", "schedules", "sensors"});
    LookedUp(es, SchemaKey, "schema");
    LookedUp(es, Name, "name");
    LookedUp(es, TimeoutMs, "timeout_ms");
    LookedUp(es, MaxConcurrent, "max_concurrent");
    LookedUp(es, Steps, "steps");
    LookedUp(es, Description, "description");
    LookedUp(es, EnvFile, "env_file");
    LookedUp(es, Workdir, "workdir");
    LookedUp(es, Env, "env");
    LookedUp(es, InheritEnv, "inherit_env");
    LookedUp(es, Schedules, "schedules");
    LookedUp(es, Sensors, "sensors");
  }

  lemma JobSaid(m: map<string, Value>, j: Job)
    requires JobSays(m, j)
    ensures WritesJob(m, j)
  {
    MillisWritten(j.timeout);
    TextsWritten(Sort(j.inheritEnv));
    StepsWritten(j.steps);
    SchedulesWritten(j.schedules);
    SensorsWritten(j.sensors);
    EnvWritten(j.env);
    hide AsMap, Millis, InMillis, Texts, ListOf, Sort, TextMap, Docs, WritesSteps, ScheduleItems, SensorItems, EntriesOf;
  }

  /** The document of a job, key by key. */
  lemma JobWritten(j: Job)
    ensures JobDoc.JobDoc(j).Object? && WritesJob(AsMap(JobDoc.JobDoc(j).members), j)
  {
    hide JobEntries, JobFound, WritesJob, AsMap, Members, JobSays;
    JobFinds(j);
    JobLooks(j, JobEntries(j));
    JobSaid(AsMap(Members(JobEntries(j))), j);
  }
}
