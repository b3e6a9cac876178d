/**
 * The two walks that meet the language's maps: building the document ranges over the environment in any
 * order, and reading one visits the members of every object in any order.
 */
module JobWalk {
  import opened Wrappers
  import opened Text
  import opened Json
  import opened JobDoc

  // ----- reading: every member once, in any order -----

  ghost predicate Enumerates(order: seq<string>, keys: set<string>) {
    (forall s :: s in order <==> s in keys) && forall i, j :: 0 <= i < j < |order| ==> order[i] != order[j]
  }

  ghost function Fold<S>(members: map<string, Value>, order: seq<string>, start: S, visit: (S, string, Value) -> Option<S>): Option<S>
    requires forall s :: s in order ==> s in members
  {
    if |order| == 0 then Some(start)
    else
      match Fold(members, order[..|order| - 1], start, visit)
      case None => None
      case Some(s) => visit(s, order[|order| - 1], members[order[|order| - 1]])
  }

  lemma {:induction false} FoldMore<S>(members: map<string, Value>, order: seq<string>, key: string, start: S, visit: (S, string, Value) -> Option<S>)
    requires (forall s :: s in order ==> s in members) && key in members
    ensures forall s :: s in order + [key] ==> s in members
    ensures Fold(members, order + [key], start, visit)
         == match Fold(members, order, start, visit) case None => None case Some(s) => visit(s, key, members[key])
  {
    assert (order + [key])[..|order|] == order;
  }

  ghost function AnyOrder(keys: set<string>): (order: seq<string>)
    ensures Enumerates(order, keys)
  {
    if keys == {} then []
    else
      var k :| k in keys;
      AnyOrder(keys - {k}) + [k]
  }

  lemma {:induction false} FoldFails<S>(members: map<string, Value>, order: seq<string>, more: seq<string>, start: S, visit: (S, string, Value) -> Option<S>)
    requires forall s :: s in order + more ==> s in members
    requires (forall s :: s in order ==> s in members) && Fold(members, order, start, visit).None?
    ensures Fold(members, order + more, start, visit).None?
    decreases |more|
  {
    if |more| == 0 {
      assert order + more == order;
    } else {
      var before, key := more[..|more| - 1], more[|more| - 1];
      assert order + more == (order + before) + [key];
      assert forall s :: s in order + before ==> s in order + more;
      FoldFails(members, order, before, start, visit);
      FoldMore(members, order + before, key, start, visit);
    }
  }

  lemma FoldNothing<S>(members: map<string, Value>, start: S, visit: (S, string, Value) -> Option<S>)
    ensures Fold(members, [], start, visit) == Some(start)
  {
  }

  lemma BothEnumerate(order: seq<string>, rest: seq<string>, keys: set<string>, left: set<string>)
    requires left <= keys && Enumerates(order, keys - left) && Enumerates(rest, left)
    ensures Enumerates(order + rest, keys)
  {
    var all := order + rest;
    forall i, j | 0 <= i < j < |all| ensures all[i] != all[j] {
      if i < |order| <= j { assert all[i] in order && all[j] in rest; }
    }
  }

  /** eachMember: the visitor sees every member once; the first refusal ends the walk. */
  method EachMember<S(!new)>(members: map<string, Value>, start: S, visit: (S, string, Value) -> Option<S>)
    returns (r: Option<S>, ghost order: seq<string>)
    ensures Enumerates(order, members.Keys) && r == Fold(members, order, start, visit)
  {
    hide Fold;
    var left := members.Keys;
    var s := start;
    order := [];
    FoldNothing(members, start, visit);
    while left != {}
      invariant left <= members.Keys && Enumerates(order, members.Keys - left)
      invariant Fold(members, order, start, visit) == Some(s)
    {
      var key :| key in left;
      left := left - {key};
      FoldMore(members, order, key, start, visit);
      order := order + [key];
      var next := visit(s, key, members[key]);
      if next.None? {
        ghost var rest := AnyOrder(left);
        assert forall q :: q in order + rest ==> q in members;
        FoldFails(members, order, rest, start, visit);
        BothEnumerate(order, rest, members.Keys, left);
        return None, order + rest;
      }
      s := next.value;
    }
    r := Some(s);
  }

  ghost function Restricted(members: map<string, Value>, order: seq<string>): map<string, Value> {
    map s | s in members && s in order :: members[s]
  }

  /** One more member moves what was read the way the visitor does. */
  ghost predicate Stepwise<S(!new)>(members: map<string, Value>, start: S, visit: (S, string, Value) -> Option<S>, whole: map<string, Value> -> Option<S>) {
    && whole(map[]) == Some(start)
    && forall part: map<string, Value>, key :: key in members && key !in part ==>
      whole(part[key := members[key]]) == match whole(part) case None => None case Some(s) => visit(s, key, members[key])
  }

  /** A stepwise reading is what the walk comes to in every order. */
  lemma {:induction false} EveryOrder<S(!new)>(
    members: map<string, Value>, order: seq<string>, start: S, visit: (S, string, Value) -> Option<S>, whole: map<string, Value> -> Option<S>)
    requires Stepwise(members, start, visit, whole)
    requires (forall s :: s in order ==> s in members) && forall i, j :: 0 <= i < j < |order| ==> order[i] != order[j]
    ensures Fold(members, order, start, visit) == whole(Restricted(members, order))
    decreases |order|
  {
    hide Stepwise, Fold, Restricted;
    if |order| == 0 {
      NothingRestricted(members, order);
      FoldNothing(members, start, visit);
      StartsWhole(members, start, visit, whole);
    } else {
      var before, key := order[..|order| - 1], order[|order| - 1];
      assert order == before + [key];
      FoldMore(members, before, key, start, visit);
      EveryOrder(members, before, start, visit, whole);
      RestrictedMore(members, before, key);
      StepsWhole(members, start, visit, whole, Restricted(members, before), key);
    }
  }

  lemma NothingRestricted(members: map<string, Value>, order: seq<string>)
    requires |order| == 0
    ensures Restricted(members, order) == map[]
  {
  }

  lemma RestrictedMore(members: map<string, Value>, before: seq<string>, key: string)
    requires key in members && key !in before
    ensures key !in Restricted(members, before)
    ensures Restricted(members, before + [key]) == Restricted(members, before)[key := members[key]]
  {
  }

  lemma StartsWhole<S(!new)>(members: map<string, Value>, start: S, visit: (S, string, Value) -> Option<S>, whole: map<string, Value> -> Option<S>)
    requires Stepwise(members, start, visit, whole)
    ensures whole(map[]) == Some(start)
  {
  }

  lemma StepsWhole<S(!new)>(
    members: map<string, Value>, start: S, visit: (S, string, Value) -> Option<S>, whole: map<string, Value> -> Option<S>,
    part: map<string, Value>, key: string)
    requires Stepwise(members, start, visit, whole) && key in members && key !in part
    ensures whole(part[key := members[key]]) == match whole(part) case None => None case Some(s) => visit(s, key, members[key])
  {
  }

  lemma WalkIs<S(!new)>(
    members: map<string, Value>, order: seq<string>, start: S, visit: (S, string, Value) -> Option<S>, whole: map<string, Value> -> Option<S>)
    requires Stepwise(members, start, visit, whole) && Enumerates(order, members.Keys)
    ensures Fold(members, order, start, visit) == whole(members)
  {
    EveryOrder(members, order, start, visit, whole);
    assert Restricted(members, order) == members;
  }

  // ----- the visitors -----

  const KEYS := [
    SchemaKey, Name, Description, EnvFile, Workdir, TimeoutMs, MaxConcurrent, Env, InheritEnv, Steps, Schedules, Sensors, Run,
    Shell, RetryKey, Needs, Max, BackoffKey, InitialMs, MaxDelayMs, JitterKey, Cron, Timezone, Type, IntervalMs]

  function Named(keys: seq<Key>, key: string): (r: Option<Key>)
    ensures r.Some? ==> r.value in keys && NameOf(r.value) == key
    ensures r.None? ==> forall k :: k in keys ==> NameOf(k) != key
  {
    if |keys| == 0 then None else if NameOf(keys[0]) == key then Some(keys[0]) else Named(keys[1..], key)
  }

  /** The switch over the keys of an object. */
  function KeyOf(key: string): Option<Key> { Named(KEYS, key) }

  lemma EveryKey(k: Key)
    ensures k in KEYS
  {
  }

  lemma KeyOfName(k: Key, key: string)
    ensures KeyOf(key) == Some(k) <==> NameOf(k) == key
  {
    EveryKey(k);
    hide NameOf, Named;
    match KeyOf(key)
    case Some(q) => if q != k { NamesDiffer(q, k); }
    case None =>
  }

  function Set<T, S>(x: Option<T>, into: T -> S): Option<S> {
    match x case None => None case Some(v) => Some(into(v))
  }

  function VisitRetry(r: Retry, key: string, v: Value): Option<Retry> {
    match KeyOf(key)
    case Some(Max) => Set(ToInt(Some(v)), n => r.(max := n))
    case Some(BackoffKey) => Set(ToText(Some(v)), s => r.(backoff := s))
    case Some(InitialMs) => Set(ToDuration(Some(v)), d => r.(initial := d))
    case Some(MaxDelayMs) => Set(ToDuration(Some(v)), d => r.(maxDelay := d))
    case Some(JitterKey) => Set(ToText(Some(v)), s => r.(jitter := s))
    case _ => None
  }

  function VisitStep(s: Step, key: string, v: Value): Option<Step> {
    match KeyOf(key)
    case Some(Name) => Set(ToText(Some(v)), t => s.(name := t))
    case Some(Run) => Set(ToTexts(Some(v)), t => s.(run := t))
    case Some(Shell) => Set(ToFlag(Some(v)), b => s.(shell := b))
    case Some(Workdir) => Set(ToText(Some(v)), t => s.(workdir := t))
    case Some(TimeoutMs) => Set(ToDuration(Some(v)), d => s.(timeout := d))
    case Some(RetryKey) => Set(ToRetry(Some(v)), r => s.(retry := r))
    case Some(Needs) => Set(ToTexts(Some(v)), t => s.(needs := t))
    case _ => None
  }

  function VisitJob(j: Job, key: string, v: Value): Option<Job> {
    match KeyOf(key)
    case Some(SchemaKey) => if v == Words(SCHEMA) then Some(j) else None
    case Some(Name) => Set(ToText(Some(v)), t => j.(name := t))
    case Some(Description) => Set(ToText(Some(v)), t => j.(description := t))
    case Some(EnvFile) => Set(ToText(Some(v)), t => j.(envFile := t))
    case Some(Workdir) => Set(ToText(Some(v)), t => j.(workdir := t))
    case Some(TimeoutMs) => Set(ToDuration(Some(v)), d => j.(timeout := d))
    case Some(MaxConcurrent) => Set(ToInt(Some(v)), n => j.(maxConcurrent := n))
    case Some(Env) => Set(ToTextMap(Some(v)), e => j.(env := e))
    case Some(InheritEnv) => Set(ToTexts(Some(v)), t => j.(inheritEnv := t))
    case Some(Steps) => Set(ToItems(Some(v), ToStep), t => j.(steps := t))
    case Some(Schedules) => Set(ToItems(Some(v), ToSchedule), t => j.(schedules := t))
    case Some(Sensors) => Set(ToItems(Some(v), ToSensor), t => j.(sensors := t))
    case _ => None
  }

  const NO_RETRY := Retry(0, "", 0, 0, "")
  const NO_STEP := Step("", [], false, "", 0, None, [])
  const NO_JOB := Job("", "", map[], "", [], "", 0, 0, [], [], [])

  /** What one more member changes: its own key, and no other. */
  ghost predicate Moves(part: map<string, Value>, more: map<string, Value>, key: string, v: Value) {
    && (forall k :: KeyOf(key) == Some(k) ==> At(part, k) == None && At(more, k) == Some(v))
    && (forall k :: KeyOf(key) != Some(k) ==> At(more, k) == At(part, k))
  }

  lemma OneMoves(part: map<string, Value>, key: string, v: Value)
    requires key !in part
    ensures Moves(part, part[key := v], key, v)
  {
    hide NameOf, KeyOf;
    var more := part[key := v];
    forall k ensures KeyOf(key) == Some(k) ==> At(part, k) == None && At(more, k) == Some(v) { KeyOfName(k, key); }
    forall k ensures KeyOf(key) != Some(k) ==> At(more, k) == At(part, k) { KeyOfName(k, key); }
  }

  lemma KnownMore(part: map<string, Value>, key: string, v: Value, keys: set<Key>)
    requires key !in part
    ensures Known(part[key := v], keys) <==> Known(part, keys) && match KeyOf(key) case Some(k) => k in keys case None => false
  {
    hide NameOf, KeyOf;
    var more := part[key := v];
    if Known(more, keys) {
      assert key in more;
      var k :| k in keys && NameOf(k) == key;
      KeyOfName(k, key);
      forall s | s in part ensures exists k :: k in keys && NameOf(k) == s { assert s in more; }
    }
    match KeyOf(key)
    case Some(k) => KeyOfName(k, key);
    case None =>
  }

  lemma RetryMoves(part: map<string, Value>, key: string, v: Value)
    requires key !in part
    ensures RetryOf(part[key := v]) == match RetryOf(part) case None => None case Some(r) => VisitRetry(r, key, v)
  {
    hide NameOf, KeyOf, At, Known, ToInt, ToText, ToDuration;
    OneMoves(part, key, v);
    KnownMore(part, key, v, RETRY_KEYS);
    assert ToInt(None) == Some(0) && ToText(None) == Some("") && ToDuration(None) == Some(0) by { Absent(); }
  }

  lemma Absent()
    ensures ToInt(None) == Some(0) && ToText(None) == Some("") && ToDuration(None) == Some(0) && ToFlag(None) == Some(false)
    ensures ToTexts(None) == Some([]) && ToTextMap(None) == Some(map[]) && ToRetry(None) == Some(None)
    ensures ToItems<Step>(None, ToStep) == Some([]) && ToItems<Schedule>(None, ToSchedule) == Some([])
    ensures ToItems<Sensor>(None, ToSensor) == Some([])
  {
  }

  lemma StepMoves(part: map<string, Value>, key: string, v: Value)
    requires key !in part
    ensures StepOf(part[key := v]) == match StepOf(part) case None => None case Some(s) => VisitStep(s, key, v)
  {
    hide NameOf, KeyOf, At, Known, ToText, ToDuration, ToTexts, ToFlag, ToRetry;
    OneMoves(part, key, v);
    KnownMore(part, key, v, STEP_KEYS);
    Absent();
  }

  lemma JobMoves(part: map<string, Value>, key: string, v: Value)
    requires key !in part
    ensures JobOf(part[key := v]) == match JobOf(part) case None => None case Some(j) => VisitJob(j, key, v)
  {
    hide NameOf, KeyOf, At, Known, ToInt, ToText, ToDuration, ToTexts, ToTextMap, ToItems;
    OneMoves(part, key, v);
    KnownMore(part, key, v, JOB_KEYS);
    Absent();
  }

  /** A retry block, whatever order its members come in. */
  lemma RetryInEveryOrder(members: map<string, Value>, order: seq<string>)
    requires Enumerates(order, members.Keys)
    ensures Fold(members, order, NO_RETRY, VisitRetry) == RetryOf(members)
  {
    Absent();
    assert RetryOf(map[]) == Some(NO_RETRY);
    hide VisitRetry, RetryOf;
    forall part: map<string, Value>, key | key in members && key !in part
      ensures RetryOf(part[key := members[key]])
           == match RetryOf(part) case None => None case Some(r) => VisitRetry(r, key, members[key])
    {
      RetryMoves(part, key, members[key]);
    }
    WalkIs(members, order, NO_RETRY, VisitRetry, RetryOf);
  }

  lemma StepInEveryOrder(members: map<string, Value>, order: seq<string>)
    requires Enumerates(order, members.Keys)
    ensures Fold(members, order, NO_STEP, VisitStep) == StepOf(members)
  {
    Absent();
    assert StepOf(map[]) == Some(NO_STEP);
    hide VisitStep, StepOf;
    forall part: map<string, Value>, key | key in members && key !in part
      ensures StepOf(part[key := members[key]])
           == match StepOf(part) case None => None case Some(s) => VisitStep(s, key, members[key])
    {
      StepMoves(part, key, members[key]);
    }
    WalkIs(members, order, NO_STEP, VisitStep, StepOf);
  }

  lemma JobInEveryOrder(members: map<string, Value>, order: seq<string>)
    requires Enumerates(order, members.Keys)
    ensures Fold(members, order, NO_JOB, VisitJob) == JobOf(members)
  {
    Absent();
    assert JobOf(map[]) == Some(NO_JOB);
    hide VisitJob, JobOf;
    forall part: map<string, Value>, key | key in members && key !in part
      ensures JobOf(part[key := members[key]])
           == match JobOf(part) case None => None case Some(j) => VisitJob(j, key, members[key])
    {
      JobMoves(part, key, members[key]);
    }
    WalkIs(members, order, NO_JOB, VisitJob, JobOf);
  }

  /** FromIR over the walk: the same answer whatever order the members are visited in. */
  method ReadDocument(text: string) returns (r: Result<Job, Refusal>)
    ensures r == FromIR(text)
  {
    hide Decode, JobOf, VisitJob, At, AsMap, Fold;
    var root := Decode(text);
    if root.None? { return Err(Unreadable); }
    if !root.value.Object? { return Err(NotAnObject); }
    var members := AsMap(root.value.members);
    var j; ghost var order;
    j, order := EachMember(members, NO_JOB, VisitJob);
    JobInEveryOrder(members, order);
    if j.None? { return Err(Malformed); }
    if At(members, SchemaKey).None? { return Err(NoSchema); }
    if At(members, Name).None? { return Err(NoName); }
    r := Ok(j.value);
  }

  // ----- building: the environment in any order -----

  /** The members say exactly what the map says of these keys. */
  ghost predicate Lists(ms: seq<Member>, m: map<string, string>, keys: set<string>) {
    && keys <= m.Keys && Distinct(ms)
    && (forall i :: 0 <= i < |ms| ==> ms[i].key in keys && ms[i].value == Words(m[ms[i].key]))
    && (forall k :: k in keys ==> Member(k, Words(m[k])) in ms)
  }

  lemma {:induction false} ListedLists(m: map<string, string>, keys: set<string>)
    requires keys <= m.Keys
    ensures Lists(Listed(m, keys), m, keys)
    decreases keys
  {
    if keys != {} {
      var ms := Listed(m, keys);
      var last := ms[|ms| - 1];
      var before := ms[..|ms| - 1];
      assert before == Listed(m, keys - {last.key}) && last == Member(last.key, Words(m[last.key])) && last.key in keys;
      ListedLists(m, keys - {last.key});
      hide Listed, Lists;
      assert ms == before + [last];
      ListsMore(before, m, keys - {last.key}, last.key);
      assert (keys - {last.key}) + {last.key} == keys;
    }
  }

  lemma SameListing(a: seq<Member>, b: seq<Member>, m: map<string, string>, keys: set<string>)
    requires Lists(a, m, keys) && Lists(b, m, keys)
    ensures multiset(a) == multiset(b)
  {
    forall x ensures multiset(a)[x] == multiset(b)[x] {
      OnceEach(a, x);
      OnceEach(b, x);
      InBoth(a, b, m, keys, x);
      InBoth(b, a, m, keys, x);
    }
  }

  lemma InBoth(a: seq<Member>, b: seq<Member>, m: map<string, string>, keys: set<string>, x: Member)
    requires Lists(a, m, keys) && Lists(b, m, keys)
    ensures x in multiset(a) ==> x in multiset(b)
  {
    if x in multiset(a) {
      var i :| 0 <= i < |a| && a[i] == x;
      assert x == Member(x.key, Words(m[x.key]));
      assert x in b;
    }
  }

  /** canonicalStringMap: the members in whatever order the range hands them over. */
  method StringMap(m: map<string, string>) returns (v: Value)
    ensures v.Object? && Norm(v) == Norm(TextMap(m))
  {
    var left := m.Keys;
    var ms: seq<Member> := [];
    while left != {}
      invariant left <= m.Keys && Lists(ms, m, m.Keys - left)
    {
      var key :| key in left;
      ListsMore(ms, m, m.Keys - left, key);
      left := left - {key};
      ms := ms + [Member(key, Words(m[key]))];
      assert m.Keys - left == (m.Keys - (left + {key})) + {key};
    }
    assert m.Keys - left == m.Keys;
    ListedLists(m, m.Keys);
    SameListing(ms, Listed(m, m.Keys), m, m.Keys);
    AnyListing(ms, Listed(m, m.Keys));
    v := Object(ms);
  }

  lemma ListsMore(ms: seq<Member>, m: map<string, string>, keys: set<string>, key: string)
    requires Lists(ms, m, keys) && key in m && key !in keys
    ensures Lists(ms + [Member(key, Words(m[key]))], m, keys + {key})
  {
    var all := ms + [Member(key, Words(m[key]))];
    forall k | k in keys + {key} ensures Member(k, Words(m[k])) in all {
      if k == key { assert all[|ms|] == Member(k, Words(m[k])); } else { assert Member(k, Words(m[k])) in ms; }
    }
  }

  /** Listings of the same members normalise to the same object. */
  lemma AnyListing(a: seq<Member>, b: seq<Member>)
    requires multiset(a) == multiset(b) && Distinct(a)
    ensures Norm(Object(a)) == Norm(Object(b))
  {
    OrderDoesNotMatter(a, b);
    EncodesInjectively(Object(a), Object(b));
  }

  method DocsOf<T>(items: seq<T>, doc: T -> Value) returns (v: Value)
    ensures v == Docs(items, doc)
  {
    var out: seq<Value> := [];
    for i := 0 to |items|
      invariant |out| == i && forall k :: 0 <= k < i ==> out[k] == doc(items[k])
    {
      out := out + [doc(items[i])];
    }
    v := Array(out);
    assert out == Docs(items, doc).items;
  }

  /** Canonical, with the buffer it writes into. */
  method CanonicalText(j: Job) returns (text: string)
    ensures text == Canonical(j)
  {
    hide Encode, Norm, Docs, Texts, TextMap, NameOf, Sort;
    var steps := DocsOf(j.steps, StepDoc);
    var entries := [
      Entry(SchemaKey, Words(SCHEMA)), Entry(Name, Words(j.name)), Entry(TimeoutMs, Number(Millis(j.timeout))),
      Entry(MaxConcurrent, Number(j.maxConcurrent)), Entry(Steps, steps)];
    entries := entries + When(j.description != "", Description, Words(j.description));
    entries := entries + When(j.envFile != "", EnvFile, Words(j.envFile));
    entries := entries + When(j.workdir != "", Workdir, Words(j.workdir));
    assert entries == JobTextEntries(j);
    ghost var spec := entries + When(j.env != map[], Env, TextMap(j.env));
    if j.env != map[] {
      var env := StringMap(j.env);
      AlikeLast(entries, Env, env, TextMap(j.env));
      entries := entries + [Entry(Env, env)];
    } else {
      assert entries + [] == entries;
      AlikeSelf(entries);
    }
    var schedules := DocsOf(j.schedules, ScheduleDoc);
    var sensors := DocsOf(j.sensors, SensorDoc);
    var a := When(|j.inheritEnv| > 0, InheritEnv, Texts(Sort(j.inheritEnv)));
    var b := When(|j.schedules| > 0, Schedules, schedules);
    var c := When(|j.sensors| > 0, Sensors, sensors);
    AlikeMore(entries, spec, a);
    AlikeMore(entries + a, spec + a, b);
    AlikeMore(entries + a + b, spec + a + b, c);
    assert spec + a + b + c == JobEntries(j);
    entries := entries + a + b + c;
    hide JobEntries, When, Alike;
    AlikeDoc(entries, JobEntries(j));
    var buffer := new Buffer();
    buffer.EncodeValue(Object(Members(entries)));
    text := buffer.text;
  }

  /** The same keys with values that normalise alike. */
  ghost predicate Alike(a: seq<Entry>, b: seq<Entry>) {
    |a| == |b| && forall i :: 0 <= i < |a| ==> a[i].key == b[i].key && Norm(a[i].value) == Norm(b[i].value)
  }

  lemma AlikeSelf(a: seq<Entry>)
    ensures Alike(a, a)
  {
  }

  lemma AlikeLast(es: seq<Entry>, k: Key, v: Value, w: Value)
    requires Norm(v) == Norm(w)
    ensures Alike(es + [Entry(k, v)], es + [Entry(k, w)])
  {
    hide Norm;
  }

  lemma AlikeMore(a: seq<Entry>, b: seq<Entry>, more: seq<Entry>)
    requires Alike(a, b)
    ensures Alike(a + more, b + more)
  {
    hide Norm;
  }

  lemma AlikeDoc(a: seq<Entry>, b: seq<Entry>)
    requires Alike(a, b)
    ensures "" + Encode(Object(Members(a))) == Encode(Object(Members(b)))
  {
    hide Write;
    assert NormMembers(Members(a)) == NormMembers(Members(b));
  }
}
