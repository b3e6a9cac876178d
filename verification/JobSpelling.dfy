/**
 * What FromIR does not look at: the white space of a document, and whatever its numbers go on with after
 * their whole part.
 */
module JobSpelling {
  import opened Wrappers
  import opened Numerals
  import opened Backoff
  import opened Json
  import opened JobDoc

  /** A value with every number cut to its whole part. */
  function Blunt(v: Value): Value
    decreases v, 0
  {
    match v
    case Cut(n) => Number(n)
    case Array(items) => Array(BluntItems(items))
    case Object(members) => Object(BluntMembers(members))
    case _ => v
  }

  function BluntItems(items: seq<Value>): (r: seq<Value>)
    ensures |r| == |items| && forall i :: 0 <= i < |items| ==> r[i] == Blunt(items[i])
    decreases items, 1
  {
    if |items| == 0 then [] else [Blunt(items[0])] + BluntItems(items[1..])
  }

  function BluntMember(m: Member): Member
    decreases m, 1
  {
    Member(m.key, Blunt(m.value))
  }

  function BluntMembers(ms: seq<Member>): (r: seq<Member>)
    ensures |r| == |ms| && forall i :: 0 <= i < |ms| ==> r[i] == BluntMember(ms[i])
    decreases ms, 2
  {
    if |ms| == 0 then [] else [BluntMember(ms[0])] + BluntMembers(ms[1..])
  }

  function BluntAll(m: map<string, Value>): map<string, Value> { map k | k in m :: Blunt(m[k]) }

  function BluntSome(v: Option<Value>): Option<Value> { match v case None => None case Some(x) => Some(Blunt(x)) }

  lemma {:induction false} AsMapBlunt(ms: seq<Member>)
    ensures AsMap(BluntMembers(ms)) == BluntAll(AsMap(ms))
    decreases |ms|
  {
    if |ms| > 0 {
      var before, last := ms[..|ms| - 1], ms[|ms| - 1];
      assert BluntMembers(ms)[..|ms| - 1] == BluntMembers(before);
      AsMapBlunt(before);
      hide Blunt, BluntMembers;
      BluntOneMore(AsMap(before), last);
    }
  }

  lemma BluntOneMore(x: map<string, Value>, m: Member)
    ensures BluntAll(x[m.key := m.value]) == BluntAll(x)[m.key := Blunt(m.value)]
  {
    hide Blunt;
  }

  lemma AtBlunt(m: map<string, Value>, k: Key)
    ensures At(BluntAll(m), k) == BluntSome(At(m, k))
  {
    hide NameOf, Blunt;
  }

  lemma KnownBlunt(m: map<string, Value>, keys: set<Key>)
    ensures Known(BluntAll(m), keys) <==> Known(m, keys)
  {
    hide NameOf, Blunt;
    assert BluntAll(m).Keys == m.Keys;
  }

  // ----- no reader tells the difference -----

  lemma LeavesBlunt(v: Option<Value>)
    ensures ToText(BluntSome(v)) == ToText(v) && ToFlag(BluntSome(v)) == ToFlag(v)
    ensures ToInt(BluntSome(v)) == ToInt(v) && ToDuration(BluntSome(v)) == ToDuration(v)
  {
  }

  lemma TextsBlunt(v: Option<Value>)
    ensures ToTexts(BluntSome(v)) == ToTexts(v)
  {
    match v
    case Some(Array(items)) =>
      WordsBlunt(items);
      hide BluntItems;
      if forall i :: 0 <= i < |items| ==> items[i].Words? {
        assert BluntItems(items) == items;
      } else {
        var i :| 0 <= i < |items| && !items[i].Words?;
        assert !BluntItems(items)[i].Words?;
      }
    case _ =>
  }

  lemma WordsBlunt(items: seq<Value>)
    ensures forall i :: 0 <= i < |items| ==> BluntItems(items)[i].Words? == items[i].Words?
    ensures forall i :: 0 <= i < |items| && items[i].Words? ==> BluntItems(items)[i] == items[i]
  {
  }

  lemma TextMapBlunt(v: Option<Value>)
    ensures ToTextMap(BluntSome(v)) == ToTextMap(v)
  {
    match v
    case Some(Object(ms)) =>
      var m := AsMap(ms);
      AsMapBlunt(ms);
      assert Blunt(v.value) == Object(BluntMembers(ms));
      AllWordsBlunt(m);
      hide AsMap, BluntMembers, Blunt, BluntAll;
      if forall k :: k in m ==> m[k].Words? {
        assert BluntAll(m) == m;
      } else {
        var k :| k in m && !m[k].Words?;
        assert k in BluntAll(m) && !BluntAll(m)[k].Words?;
      }
    case _ =>
  }

  lemma AllWordsBlunt(m: map<string, Value>)
    ensures (forall k :: k in m ==> m[k].Words?) ==> BluntAll(m) == m
    ensures forall k :: k in m ==> k in BluntAll(m) && BluntAll(m)[k].Words? == m[k].Words?
  {
  }

  lemma ItemsBlunt<T>(v: Option<Value>, read: Value -> Option<T>)
    requires forall x :: read(Blunt(x)) == read(x)
    ensures ToItems(BluntSome(v), read) == ToItems(v, read)
  {
    match v
    case Some(Array(items)) =>
      var blunt := BluntItems(items);
      assert BluntSome(v) == Some(Array(blunt)) && |blunt| == |items|;
      assert forall i :: 0 <= i < |items| ==> read(blunt[i]) == read(items[i]);
      hide BluntItems, BluntSome, Blunt;
      SameItems(blunt, items, read);
    case _ =>
  }

  lemma SameItems<T>(a: seq<Value>, b: seq<Value>, read: Value -> Option<T>)
    requires |a| == |b| && forall i :: 0 <= i < |a| ==> read(a[i]) == read(b[i])
    ensures ToItems(Some(Array(a)), read) == ToItems(Some(Array(b)), read)
  {
    if forall i :: 0 <= i < |b| ==> read(b[i]).Some? {
      var r, t := ToItems(Some(Array(a)), read).value, ToItems(Some(Array(b)), read).value;
      assert |r| == |t| && forall i :: 0 <= i < |r| ==> r[i] == read(a[i]).value == t[i];
      assert r == t;
    } else {
      var i :| 0 <= i < |b| && read(b[i]).None?;
      assert read(a[i]).None?;
    }
  }

  lemma RetryBlunt(v: Option<Value>)
    ensures ToRetry(BluntSome(v)) == ToRetry(v)
  {
    match v
    case Some(Object(ms)) =>
      var m := AsMap(ms);
      AsMapBlunt(ms);
      hide AsMap, BluntMembers, ToText, ToInt, ToDuration, Known, At, BluntAll, BluntSome;
      KnownBlunt(m, RETRY_KEYS);
      forall k ensures At(BluntAll(m), k) == BluntSome(At(m, k)) { AtBlunt(m, k); }
      forall x ensures ToText(BluntSome(x)) == ToText(x) && ToInt(BluntSome(x)) == ToInt(x) && ToDuration(BluntSome(x)) == ToDuration(x) {
        LeavesBlunt(x);
      }
    case _ =>
  }

  lemma ReadersBlunt(m: map<string, Value>, k: Key)
    ensures var v, w := At(m, k), At(BluntAll(m), k);
      && ToText(w) == ToText(v) && ToFlag(w) == ToFlag(v) && ToInt(w) == ToInt(v) && ToDuration(w) == ToDuration(v)
      && ToTexts(w) == ToTexts(v) && ToTextMap(w) == ToTextMap(v) && ToRetry(w) == ToRetry(v)
      && (w.Some? <==> v.Some?)
  {
    hide ToText, ToFlag, ToInt, ToDuration, ToTexts, ToTextMap, ToRetry, At, BluntAll;
    AtBlunt(m, k);
    LeavesBlunt(At(m, k));
    TextsBlunt(At(m, k));
    TextMapBlunt(At(m, k));
    RetryBlunt(At(m, k));
  }

  /** No reader of a member tells the two objects apart. */
  ghost predicate Alike(m: map<string, Value>, w: map<string, Value>, k: Key) {
    && ToText(At(w, k)) == ToText(At(m, k)) && ToFlag(At(w, k)) == ToFlag(At(m, k)) && ToInt(At(w, k)) == ToInt(At(m, k))
    && ToDuration(At(w, k)) == ToDuration(At(m, k)) && ToTexts(At(w, k)) == ToTexts(At(m, k))
    && ToTextMap(At(w, k)) == ToTextMap(At(m, k)) && ToRetry(At(w, k)) == ToRetry(At(m, k))
  }

  lemma ObjectBlunt(ms: seq<Member>)
    ensures Blunt(Object(ms)) == Object(BluntMembers(ms)) && AsMap(BluntMembers(ms)) == BluntAll(AsMap(ms))
    ensures forall keys :: Known(BluntAll(AsMap(ms)), keys) <==> Known(AsMap(ms), keys)
    ensures forall k :: Alike(AsMap(ms), BluntAll(AsMap(ms)), k)
  {
    AsMapBlunt(ms);
    var m := AsMap(ms);
    forall keys ensures Known(BluntAll(m), keys) <==> Known(m, keys) { KnownBlunt(m, keys); }
    forall k ensures Alike(m, BluntAll(m), k) { ReadersBlunt(m, k); }
  }

  lemma StepBlunt(v: Value)
    ensures ToStep(Blunt(v)) == ToStep(v)
  {
    match v
    case Object(ms) =>
      ObjectBlunt(ms);
      hide AsMap, BluntMembers, BluntAll, Known, At, ToText, ToFlag, ToInt, ToDuration, ToTexts, ToTextMap, ToRetry;
      var m, w := AsMap(ms), BluntAll(AsMap(ms));
      assert Alike(m, w, Name) && Alike(m, w, Run) && Alike(m, w, Shell) && Alike(m, w, Workdir) && Alike(m, w, TimeoutMs)
        && Alike(m, w, RetryKey) && Alike(m, w, Needs);
    case _ =>
  }

  lemma ScheduleBlunt(v: Value)
    ensures ToSchedule(Blunt(v)) == ToSchedule(v)
  {
    match v
    case Object(ms) =>
      ObjectBlunt(ms);
      hide AsMap, BluntMembers, BluntAll, Known, At, ToText, ToFlag, ToInt, ToDuration, ToTexts, ToTextMap, ToRetry;
      var m, w := AsMap(ms), BluntAll(AsMap(ms));
      assert Alike(m, w, Name) && Alike(m, w, Cron) && Alike(m, w, Timezone);
    case _ =>
  }

  lemma SensorBlunt(v: Value)
    ensures ToSensor(Blunt(v)) == ToSensor(v)
  {
    match v
    case Object(ms) =>
      ObjectBlunt(ms);
      hide AsMap, BluntMembers, BluntAll, Known, At, ToText, ToFlag, ToInt, ToDuration, ToTexts, ToTextMap, ToRetry;
      var m, w := AsMap(ms), BluntAll(AsMap(ms));
      assert Alike(m, w, Name) && Alike(m, w, Type) && Alike(m, w, IntervalMs);
    case _ =>
  }

  lemma JobBlunt(m: map<string, Value>, w: map<string, Value>)
    requires w == BluntAll(m) && (Known(w, JOB_KEYS) <==> Known(m, JOB_KEYS)) && forall k :: Alike(m, w, k)
    ensures JobOf(w) == JobOf(m) && At(w, SchemaKey).Some? == At(m, SchemaKey).Some? && At(w, Name).Some? == At(m, Name).Some?
  {
    SchemaBlunt(m);
    assert At(w, Name).Some? == At(m, Name).Some? by { AtBlunt(m, Name); }
    ListsBlunt(m, Steps);
    ListsBlunt(m, Schedules);
    ListsBlunt(m, Sensors);
    hide NameOf, Blunt, BluntAll, BluntSome, Known, At, ToText, ToFlag, ToInt, ToDuration, ToTexts, ToTextMap, ToRetry, ToItems, ToStep, ToSchedule, ToSensor;
    assert Alike(m, w, Name) && Alike(m, w, Description) && Alike(m, w, Env) && Alike(m, w, EnvFile) && Alike(m, w, InheritEnv)
      && Alike(m, w, Workdir) && Alike(m, w, TimeoutMs) && Alike(m, w, MaxConcurrent);
  }

  lemma SchemaBlunt(m: map<string, Value>)
    ensures var v, w := At(m, SchemaKey), At(BluntAll(m), SchemaKey);
      (w.Some? <==> v.Some?) && (w == Some(Words(SCHEMA)) <==> v == Some(Words(SCHEMA)))
  {
    AtBlunt(m, SchemaKey);
    hide At;
  }

  lemma ListsBlunt(m: map<string, Value>, k: Key)
    ensures ToItems(At(BluntAll(m), k), ToStep) == ToItems(At(m, k), ToStep)
    ensures ToItems(At(BluntAll(m), k), ToSchedule) == ToItems(At(m, k), ToSchedule)
    ensures ToItems(At(BluntAll(m), k), ToSensor) == ToItems(At(m, k), ToSensor)
  {
    AtBlunt(m, k);
    forall x ensures ToStep(Blunt(x)) == ToStep(x) { StepBlunt(x); }
    forall x ensures ToSchedule(Blunt(x)) == ToSchedule(x) { ScheduleBlunt(x); }
    forall x ensures ToSensor(Blunt(x)) == ToSensor(x) { SensorBlunt(x); }
    hide At, BluntAll, ToItems, ToStep, ToSchedule, ToSensor, Blunt;
    ItemsBlunt(At(m, k), ToStep);
    ItemsBlunt(At(m, k), ToSchedule);
    ItemsBlunt(At(m, k), ToSensor);
  }

  lemma ValueBlunt(v: Value)
    ensures FromValue(Blunt(v)) == FromValue(v)
  {
    match v
    case Object(ms) =>
      ObjectBlunt(ms);
      hide AsMap, BluntMembers, BluntAll, Known, At, JobOf, Alike;
      JobBlunt(AsMap(ms), BluntAll(AsMap(ms)));
    case _ =>
  }

  /**
   * Which literals are cut short: every one with a fraction or an exponent, and it is then read as the whole
   * number before it. Only a whole part that no int64 holds is refused.
   */
  lemma WholeNumberExactly(n: int, after: string)
    requires after == "" || !Digit(after[0])
    ensures var r := ReadValue(FormatInt(n) + after);
      && (r.Some? <==> TailSize(after).Some?)
      && (r.Some? ==> (r.value.value.Cut? <==> TailSize(after).value > 0) && r.value.rest == after[TailSize(after).value..])
      && (r.Some? ==> ToInt(Some(r.value.value)) == if IsInt64(n) then Some(n) else None)
  {
    hide FormatInt, ReadNumber, TailSize, ReadValue;
    NumberStarts(n);
    assert (FormatInt(n) + after)[0] == FormatInt(n)[0];
    AsNumber(FormatInt(n) + after);
    NumberThen(n, after);
  }

  /**
   * Two documents that agree once every number is cut to its whole part are read alike: a fraction or an
   * exponent is neither honoured nor refused.
   */
  lemma FractionsAreCut(s: string, t: string)
    requires Decode(s).Some? && Decode(t).Some? && Blunt(Decode(s).value) == Blunt(Decode(t).value)
    ensures FromIR(s) == FromIR(t)
  {
    ValueBlunt(Decode(s).value);
    ValueBlunt(Decode(t).value);
    hide Decode, Blunt, AsMap, JobOf, At;
  }

  /**
   * Every way of spelling the canonical document of a job reads back as the same job: any white space
   * between the tokens, and any number followed by a fraction.
   */
  lemma AnySpellingReadsBack(j: Job, v: Value, gap: string)
    requires Is64(j) && Blank(gap) && Blunt(v) == Blunt(Norm(JobDoc.JobDoc(j)))
    ensures FromIR(gap + Spread(v, gap)) == Ok(Normal(j))
  {
    hide Norm, JobDoc.JobDoc, FromIR, Normal, Is64, Blunt, Spread, ReadValue, Skip, Encode;
    SpreadDecodes(v, gap);
    DecodesBack(JobDoc.JobDoc(j));
    ReadsBackNormal(j);
    FractionsAreCut(gap + Spread(v, gap), Canonical(j));
  }

  lemma SpreadDecodes(v: Value, gap: string)
    requires Blank(gap)
    ensures Decode(gap + Spread(v, gap)) == Some(v)
  {
    SpreadStarts(v, gap);
    hide Spread, ReadValue, Skip;
    SkipsBlank(gap, Spread(v, gap));
    SpacesDoNotMatter(v, gap, "");
    assert Spread(v, gap) + "" == Spread(v, gap);
  }
}
