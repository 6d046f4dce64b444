/**
 * Properties of the builder that relate several calls: how many
 * dimensions and metrics one record takes, what a flush emits after the
 * mutators, and that the emitted envelope can be read back.
 */
module MetricProperties {
  import opened Wrappers
  import opened Values
  import opened Errors
  import opened Output
  import opened Builder

  // ---------------------------------------------------------------------
  // Capacity

  /** Steps applied in turn, stopping at the first that fails. */
  function Run<S, X, E>(s: S, xs: seq<X>, step: (S, X) -> Result<S, E>): Result<S, E>
    decreases |xs|
  {
    if xs == [] then Success(s)
    else
      match step(s, xs[0])
      case Failure(e) => Failure(e)
      case Success(t) => Run(t, xs[1..], step)
  }

  function MapSeq<X, L>(xs: seq<X>, f: X -> L): (r: seq<L>)
    ensures |r| == |xs| && forall i :: 0 <= i < |xs| ==> r[i] == f(xs[i])
  {
    seq(|xs|, i requires 0 <= i < |xs| => f(xs[i]))
  }

  /** A step on valid input that appends one entry while the list is at most `max` long, and fails otherwise. */
  ghost predicate BoundedAppend<S(!new), X(!new), L, E>(
    step: (S, X) -> Result<S, E>, valid: X -> bool,
    list: S -> seq<L>, entry: X -> L, max: nat, err: E)
  {
    forall t, x {:trigger step(t, x)} :: valid(x) ==>
      && (step(t, x).Success? <==> |list(t)| <= max)
      && (step(t, x).Success? ==> list(step(t, x).value) == list(t) + [entry(x)])
      && (step(t, x).Failure? ==> step(t, x).error == err)
  }

  /**
   * Running such a step over valid inputs succeeds exactly when the list
   * ends with at most `max + 1` entries, appends one entry per input, and
   * otherwise fails with the step's error.
   */
  lemma {:induction false} RunCapacity<S(!new), X(!new), L, E>(
    s: S, xs: seq<X>, step: (S, X) -> Result<S, E>, valid: X -> bool,
    list: S -> seq<L>, entry: X -> L, max: nat, err: E)
    requires BoundedAppend(step, valid, list, entry, max, err)
    requires forall i :: 0 <= i < |xs| ==> valid(xs[i])
    ensures Run(s, xs, step).Success? <==> |xs| == 0 || |list(s)| + |xs| <= max + 1
    ensures Run(s, xs, step).Success? ==> list(Run(s, xs, step).value) == list(s) + MapSeq(xs, entry)
    ensures Run(s, xs, step).Failure? ==> Run(s, xs, step).error == err
    decreases |xs|
  {
    if xs != [] {
      var x, rest := xs[0], xs[1..];
      assert valid(x);
      var r := step(s, x);
      assert r.Success? <==> |list(s)| <= max;
      if r.Success? {
        var t := r.value;
        assert list(t) == list(s) + [entry(x)];
        forall i | 0 <= i < |rest| ensures valid(rest[i]) {
          assert rest[i] == xs[i + 1];
        }
        RunCapacity(t, rest, step, valid, list, entry, max, err);
        assert Run(s, xs, step) == Run(t, rest, step);
        if Run(t, rest, step).Success? {
          MapSeqCons(xs, entry);
          AppendAssociative(list(s), [entry(x)], MapSeq(rest, entry));
        }
      } else {
        assert r.error == err;
        assert Run(s, xs, step) == Failure(r.error);
      }
    }
  }

  lemma MapSeqCons<X, L>(xs: seq<X>, f: X -> L)
    requires xs != []
    ensures MapSeq(xs, f) == [f(xs[0])] + MapSeq(xs[1..], f)
  {
  }

  lemma AppendAssociative<L>(a: seq<L>, b: seq<L>, c: seq<L>)
    ensures (a + b) + c == a + (b + c)
  {
  }

  /** Successive `putDimension(key, value)` calls, stopping at the first that throws. */
  function PutDimensions(s: Snapshot, pairs: seq<(string, string)>): Result<Snapshot, PutError> {
    Run(s, pairs, (t: Snapshot, p: (string, string)) => PutDimension(t, p.0, p.1))
  }

  /** A pair `putDimension` accepts on every record with room: the key `_aws` is left out, since it throws. */
  predicate ValidDimension(pair: (string, string)) {
    ValidKey(pair.0) && pair.0 != EnvelopeKey && IsAscii(pair.1) && 1 <= |pair.1| <= MaxDimensionValueLength
  }

  function FirstOfPairs(pairs: seq<(string, string)>): (keys: seq<string>)
    ensures |keys| == |pairs| && forall i :: 0 <= i < |pairs| ==> keys[i] == pairs[i].0
  {
    seq(|pairs|, i requires 0 <= i < |pairs| => pairs[i].0)
  }

  /**
   * With valid keys and values, a run of `putDimension` calls succeeds
   * exactly while the dimension list has at most 30 entries before each
   * push, i.e. until it holds 31; it then throws the capacity error.
   */
  lemma DimensionCapacity(s: Snapshot, pairs: seq<(string, string)>)
    requires forall i :: 0 <= i < |pairs| ==> ValidDimension(pairs[i])
    ensures PutDimensions(s, pairs).Success?
            <==> |pairs| == 0 || |s.metric.aws.dimensions| + |pairs| <= MaxDimensions + 1
    ensures PutDimensions(s, pairs).Success? ==>
              PutDimensions(s, pairs).value.metric.aws.dimensions == s.metric.aws.dimensions + FirstOfPairs(pairs)
    ensures PutDimensions(s, pairs).Failure? ==>
              PutDimensions(s, pairs).error == Rejected(CannotAddMoreItemsToArrayError(MaxDimensions))
  {
    var step := (t: Snapshot, p: (string, string)) => PutDimension(t, p.0, p.1);
    var list := (t: Snapshot) => t.metric.aws.dimensions;
    var entry := (p: (string, string)) => p.0;
    var err := Rejected(CannotAddMoreItemsToArrayError(MaxDimensions));
    forall t, p | ValidDimension(p)
      ensures && (step(t, p).Success? <==> |list(t)| <= MaxDimensions)
              && (step(t, p).Success? ==> list(step(t, p).value) == list(t) + [entry(p)])
              && (step(t, p).Failure? ==> step(t, p).error == err)
    {
      assert step(t, p) == PutDimension(t, p.0, p.1);
    }
    RunCapacity(s, pairs, step, ValidDimension, list, entry, MaxDimensions, err);
    assert MapSeq(pairs, entry) == FirstOfPairs(pairs);
  }

  /**
   * A new record's dimension list holds "service" already, so exactly 30
   * user dimensions are accepted and the 31st throws.
   */
  lemma ThirtyDimensionsPerRecord(s: Snapshot, pairs: seq<(string, string)>)
    requires s.metric.aws.dimensions == ["service"]
    requires |pairs| == MaxDimensions + 1
    requires forall i :: 0 <= i < |pairs| ==> ValidDimension(pairs[i])
    ensures PutDimensions(s, pairs[..MaxDimensions]).Success?
    ensures PutDimension(PutDimensions(s, pairs[..MaxDimensions]).value, pairs[MaxDimensions].0, pairs[MaxDimensions].1)
            == Failure(Rejected(CannotAddMoreItemsToArrayError(MaxDimensions)))
  {
    var first := pairs[..MaxDimensions];
    DimensionCapacity(s, first);
    assert ValidDimension(pairs[MaxDimensions]);
    assert |PutDimensions(s, first).value.metric.aws.dimensions| == MaxDimensions + 1;
  }

  /** Successive `putMetric(key, value, unit)` calls, stopping at the first that throws. */
  function PutMetrics(s: Snapshot, calls: seq<(string, Value, string)>): Result<Snapshot, PutError> {
    Run(s, calls, (t: Snapshot, c: (string, Value, string)) => PutMetric(t, c.0, c.1, c.2))
  }

  function DefinitionsOf(calls: seq<(string, Value, string)>): (d: seq<MetricDefinition>)
    ensures |d| == |calls|
    ensures forall i :: 0 <= i < |calls| ==> d[i] == MetricDefinition(calls[i].0, UnitOrDefault(calls[i].2))
  {
    seq(|calls|, i requires 0 <= i < |calls| => MetricDefinition(calls[i].0, UnitOrDefault(calls[i].2)))
  }

  /** A call `putMetric` accepts on every record with room: the key `_aws` is left out, since it throws. */
  predicate ValidMetricKey(call: (string, Value, string)) {
    ValidKey(call.0) && call.0 != EnvelopeKey
  }

  /**
   * With valid keys (values are never checked), a run of `putMetric` calls
   * succeeds while the metric list has at most 100 entries before each
   * push, i.e. until it holds 101; it then throws the capacity error.
   */
  lemma MetricCapacity(s: Snapshot, calls: seq<(string, Value, string)>)
    requires forall i :: 0 <= i < |calls| ==> ValidMetricKey(calls[i])
    ensures PutMetrics(s, calls).Success?
            <==> |calls| == 0 || |s.metric.aws.metrics| + |calls| <= MaxMetrics + 1
    ensures PutMetrics(s, calls).Success? ==>
              PutMetrics(s, calls).value.metric.aws.metrics == s.metric.aws.metrics + DefinitionsOf(calls)
    ensures PutMetrics(s, calls).Failure? ==>
              PutMetrics(s, calls).error == Rejected(CannotAddMoreItemsToArrayError(MaxMetrics))
  {
    var step := (t: Snapshot, c: (string, Value, string)) => PutMetric(t, c.0, c.1, c.2);
    var list := (t: Snapshot) => t.metric.aws.metrics;
    var entry := (c: (string, Value, string)) => MetricDefinition(c.0, UnitOrDefault(c.2));
    var err := Rejected(CannotAddMoreItemsToArrayError(MaxMetrics));
    forall t, c | ValidMetricKey(c)
      ensures && (step(t, c).Success? <==> |list(t)| <= MaxMetrics)
              && (step(t, c).Success? ==> list(step(t, c).value) == list(t) + [entry(c)])
              && (step(t, c).Failure? ==> step(t, c).error == err)
    {
      assert step(t, c) == PutMetric(t, c.0, c.1, c.2);
    }
    RunCapacity(s, calls, step, ValidMetricKey, list, entry, MaxMetrics, err);
    assert MapSeq(calls, entry) == DefinitionsOf(calls);
  }

  /**
   * A new record's metric list is empty, so 101 metrics are accepted and
   * the 102nd throws, although the error says no more than 100 are allowed.
   */
  lemma HundredAndOneMetricsPerRecord(s: Snapshot, calls: seq<(string, Value, string)>)
    requires s.metric.aws.metrics == []
    requires |calls| == MaxMetrics + 2
    requires forall i :: 0 <= i < |calls| ==> ValidMetricKey(calls[i])
    ensures PutMetrics(s, calls[..MaxMetrics + 1]).Success?
    ensures PutMetric(PutMetrics(s, calls[..MaxMetrics + 1]).value,
                      calls[MaxMetrics + 1].0, calls[MaxMetrics + 1].1, calls[MaxMetrics + 1].2)
            == Failure(Rejected(CannotAddMoreItemsToArrayError(MaxMetrics)))
  {
    var first := calls[..MaxMetrics + 1];
    MetricCapacity(s, first);
    assert ValidMetricKey(calls[MaxMetrics + 1]);
    assert |PutMetrics(s, first).value.metric.aws.metrics| == MaxMetrics + 1;
  }

  // ---------------------------------------------------------------------
  // Flush

  /** A truthy field of the merged object is a field of the flushed record, unless its key is `__proto__`. */
  lemma InFlush(
    s: Snapshot, metadata: map<string, string>, id: string, nowMs: nat, isoTime: string, k: string, v: Value)
    requires k != ProtoKey && k in MergedRecord(s, metadata, id, nowMs, isoTime)
    requires MergedRecord(s, metadata, id, nowMs, isoTime)[k] == v && Truthy(v)
    ensures (k, v) in FlushOutput(s, metadata, id, nowMs, isoTime)
  {
    FlushOutputFields(s, metadata, id, nowMs, isoTime);
  }

  /** A falsy field of the merged object has no field in the flushed record. */
  lemma NotInFlush(
    s: Snapshot, metadata: map<string, string>, id: string, nowMs: nat, isoTime: string, k: string)
    requires k in MergedRecord(s, metadata, id, nowMs, isoTime)
    requires !Truthy(MergedRecord(s, metadata, id, nowMs, isoTime)[k])
    ensures forall v :: (k, v) !in FlushOutput(s, metadata, id, nowMs, isoTime)
  {
    FlushOutputFields(s, metadata, id, nowMs, isoTime);
  }

  /**
   * A property set with a truthy value appears, with that value, in the
   * next flush; a property named `__proto__` never does.
   */
  lemma PropertyReachesFlush(
    s: Snapshot, key: string, value: Value,
    metadata: map<string, string>, id: string, nowMs: nat, isoTime: string)
    requires SetProperty(s, key, value).Success? && Truthy(value)
    ensures key != ProtoKey ==> (key, value) in FlushOutput(SetProperty(s, key, value).value, metadata, id, nowMs, isoTime)
    ensures key == ProtoKey ==> forall v :: (key, v) !in FlushOutput(SetProperty(s, key, value).value, metadata, id, nowMs, isoTime)
  {
    var t := SetProperty(s, key, value).value;
    if key != ProtoKey {
      assert RecordMap(t.metric)[key] == value;
      assert MergedRecord(t, metadata, id, nowMs, isoTime)[key] == value;
      InFlush(t, metadata, id, nowMs, isoTime, key, value);
    } else {
      FlushOutputFields(t, metadata, id, nowMs, isoTime);
    }
  }

  /**
   * `putDimension('_aws', value)` that passes its checks throws a
   * TypeError after writing the value over the envelope: no dimension is
   * declared, and the next flush carries the string as its `_aws` field.
   */
  lemma EnvelopeKeyDimensionThrows(
    s: Snapshot, value: string, metadata: map<string, string>, id: string, nowMs: nat, isoTime: string)
    requires DimensionAccepted(s, EnvelopeKey, value)
    ensures PutDimension(s, EnvelopeKey, value).Failure?
    ensures PutDimension(s, EnvelopeKey, value).error.EnvelopeTypeError?
    ensures AfterPut(s, PutDimension(s, EnvelopeKey, value)).metric.aws == s.metric.aws
    ensures (EnvelopeKey, Str(value)) in FlushOutput(AfterPut(s, PutDimension(s, EnvelopeKey, value)), metadata, id, nowMs, isoTime)
  {
    var t := AfterPut(s, PutDimension(s, EnvelopeKey, value));
    assert t.metric.properties[EnvelopeKey] == Str(value);
    assert RecordMap(t.metric)[EnvelopeKey] == Str(value);
    assert MergedRecord(t, metadata, id, nowMs, isoTime)[EnvelopeKey] == Str(value);
    InFlush(t, metadata, id, nowMs, isoTime, EnvelopeKey, Str(value));
  }

  /** A metric whose value is 0 is declared but its field is dropped from the flushed record. */
  lemma ZeroMetricDropped(
    s: Snapshot, key: string, unit: string,
    metadata: map<string, string>, id: string, nowMs: nat, isoTime: string)
    requires PutMetric(s, key, Num(0.0), unit).Success?
    ensures forall v :: (key, v) !in FlushOutput(PutMetric(s, key, Num(0.0), unit).value, metadata, id, nowMs, isoTime)
  {
    var t := PutMetric(s, key, Num(0.0), unit).value;
    if key != ProtoKey {
      assert t.metric.properties[key] == Num(0.0);
      assert RecordMap(t.metric)[key] == Num(0.0);
      assert MergedRecord(t, metadata, id, nowMs, isoTime)[key] == Num(0.0);
      NotInFlush(t, metadata, id, nowMs, isoTime, key);
    } else {
      FlushOutputFields(t, metadata, id, nowMs, isoTime);
    }
  }

  /**
   * An explicitly set correlation id is what the flushed record carries,
   * whatever the metadata helper derived, unless the configuration or the
   * record itself has a field of that name.
   */
  lemma CorrelationIdOverridesHelper(
    s: Snapshot, correlationId: string,
    metadata: map<string, string>, id: string, nowMs: nat, isoTime: string)
    requires correlationId != ""
    requires "correlationId" !in s.metadataConfig && "correlationId" !in s.metric.properties
    ensures ("correlationId", Str(correlationId))
            in FlushOutput(SetCorrelationId(s, correlationId), metadata, id, nowMs, isoTime)
  {
    var t := SetCorrelationId(s, correlationId);
    var dynamic := CreateDynamicMetadata(metadata, correlationId, id, nowMs, isoTime);
    var record := RecordMap(t.metric);
    assert dynamic["correlationId"] == Str(correlationId);
    assert "correlationId" !in record;
    assert Merge(dynamic, t.metadataConfig, record)["correlationId"] == Str(correlationId);
    InFlush(t, metadata, id, nowMs, isoTime, "correlationId", Str(correlationId));
  }

  /** Without a stored correlation id the helper's non-empty one is emitted. */
  lemma HelperCorrelationIdOtherwise(
    s: Snapshot, metadata: map<string, string>, id: string, nowMs: nat, isoTime: string)
    requires s.correlationId == ""
    requires "correlationId" in metadata && metadata["correlationId"] != ""
    requires "correlationId" !in s.metadataConfig && "correlationId" !in s.metric.properties
    ensures ("correlationId", Str(metadata["correlationId"])) in FlushOutput(s, metadata, id, nowMs, isoTime)
  {
    var dynamic := CreateDynamicMetadata(metadata, s.correlationId, id, nowMs, isoTime);
    var record := RecordMap(s.metric);
    assert dynamic["correlationId"] == Str(metadata["correlationId"]);
    assert "correlationId" !in record;
    assert Merge(dynamic, s.metadataConfig, record)["correlationId"] == Str(metadata["correlationId"]);
    InFlush(s, metadata, id, nowMs, isoTime, "correlationId", Str(metadata["correlationId"]));
  }

  /** `NamesSet` holds at module load and every operation keeps it, whether it succeeds or throws. */
  lemma NamesStaySet(
    s: Snapshot, input: StartInput, env: map<string, string>, now: nat, namespace: string, id: string,
    key: string, value: Value, dimension: string, unit: string)
    requires NamesSet(s)
    ensures NamesSet(Unstarted)
    ensures NamesSet(After(s, Start(s, input, env, now)))
    ensures s.started ==> NamesSet(Reset(s, now))
    ensures NamesSet(SetCorrelationId(s, id))
    ensures NamesSet(After(s, SetNamespace(s, namespace)))
    ensures NamesSet(After(s, SetProperty(s, key, value)))
    ensures NamesSet(AfterPut(s, PutDimension(s, key, dimension)))
    ensures NamesSet(AfterPut(s, PutMetric(s, key, value, unit)))
  {
    PutKeepsNames(s, PutDimension(s, key, dimension));
    PutKeepsNames(s, PutMetric(s, key, value, unit));
  }

  /** A put whose every outcome changes only the record keeps `started` and both names. */
  lemma PutKeepsNames(s: Snapshot, r: Result<Snapshot, PutError>)
    requires r.Success? ==> r.value.(metric := s.metric) == s
    requires r.Failure? && r.error.EnvelopeTypeError? ==> r.error.written.(metric := s.metric) == s
    ensures AfterPut(s, r).started == s.started
    ensures AfterPut(s, r).namespace == s.namespace && AfterPut(s, r).serviceName == s.serviceName
  {
  }

  /**
   * After a flush (or a reset) the next record starts over: the envelope
   * it emits declares only the "service" dimension and no metric, under
   * the current namespace, and its `service` field is the service name.
   */
  lemma FlushStartsOver(
    s: Snapshot, resetNow: nat,
    metadata: map<string, string>, id: string, nowMs: nat, isoTime: string)
    requires s.started && NamesSet(s)
    ensures var out := FlushOutput(Reset(s, resetNow), metadata, id, nowMs, isoTime);
            && ("_aws", EnvelopeValue(Envelope(resetNow, s.namespace, ["service"], []))) in out
            && ("service", Str(s.serviceName)) in out
  {
    var t := Reset(s, resetNow);
    var envelope := EnvelopeValue(Envelope(resetNow, s.namespace, ["service"], []));
    var record := RecordMap(t.metric);
    assert record["_aws"] == envelope && record["service"] == Str(s.serviceName);
    assert MergedRecord(t, metadata, id, nowMs, isoTime)["_aws"] == envelope;
    InFlush(t, metadata, id, nowMs, isoTime, "_aws", envelope);
    assert MergedRecord(t, metadata, id, nowMs, isoTime)["service"] == Str(s.serviceName);
    InFlush(t, metadata, id, nowMs, isoTime, "service", Str(s.serviceName));
  }

  /**
   * `setNamespace` does not touch the current record's envelope; the new
   * namespace reaches a record only after the next reset.
   */
  lemma NamespaceReachesRecordAfterReset(s: Snapshot, namespace: string, now: nat)
    requires s.started && SetNamespace(s, namespace).Success?
    ensures SetNamespace(s, namespace).value.metric == s.metric
    ensures Reset(SetNamespace(s, namespace).value, now).metric.aws.namespace == namespace
  {
  }

  /**
   * The getters report the names the last successful `start` resolved,
   * and `getNamespace` reports a namespace set afterwards.
   */
  lemma GettersReportStartedNames(s: Snapshot, input: StartInput, env: map<string, string>, now: nat, namespace: string)
    requires Start(s, input, env, now).Success?
    ensures GetNamespace(Start(s, input, env, now).value) == ResolveName(input.namespace, env, NamespaceVariable) != ""
    ensures GetServiceName(Start(s, input, env, now).value) == ResolveName(input.serviceName, env, ServiceNameVariable) != ""
    ensures SetNamespace(Start(s, input, env, now).value, namespace).Success? ==>
              GetNamespace(SetNamespace(Start(s, input, env, now).value, namespace).value) == namespace
  {
  }

  // ---------------------------------------------------------------------
  // Reading the emitted envelope back

  function DecodeStrings(items: seq<Value>): Option<seq<string>> {
    if items == [] then Some([])
    else if !items[0].Str? then None
    else
      match DecodeStrings(items[1..])
      case None => None
      case Some(rest) => Some([items[0].s] + rest)
  }

  function DecodeDefinition(v: Value): Option<MetricDefinition> {
    if v.Obj? && v.fields.Keys == {"Name", "Unit"} && v.fields["Name"].Str? && v.fields["Unit"].Str?
    then Some(MetricDefinition(v.fields["Name"].s, v.fields["Unit"].s))
    else None
  }

  function DecodeDefinitions(items: seq<Value>): Option<seq<MetricDefinition>> {
    if items == [] then Some([])
    else
      match (DecodeDefinition(items[0]), DecodeDefinitions(items[1..]))
      case (Some(d), Some(rest)) => Some([d] + rest)
      case _ => None
  }

  /** Reads an `_aws` value back into an envelope, or None when it does not have the shape. */
  function DecodeEnvelope(v: Value): Option<Envelope> {
    if !(v.Obj? && "Timestamp" in v.fields && "CloudWatchMetrics" in v.fields) then None
    else
      var stamp, list := v.fields["Timestamp"], v.fields["CloudWatchMetrics"];
      if !(stamp.Num? && stamp.x >= 0.0 && stamp.x == stamp.x.Floor as real) then None
      else if !(list.Arr? && |list.items| == 1 && list.items[0].Obj?) then None
      else
        var cw := list.items[0].fields;
        if !("Namespace" in cw && "Dimensions" in cw && "Metrics" in cw) then None
        else if !(cw["Namespace"].Str? && cw["Dimensions"].Arr? && |cw["Dimensions"].items| == 1) then None
        else if !(cw["Dimensions"].items[0].Arr? && cw["Metrics"].Arr?) then None
        else
          match (DecodeStrings(cw["Dimensions"].items[0].items), DecodeDefinitions(cw["Metrics"].items))
          case (Some(dimensions), Some(metrics)) =>
            Some(Envelope(stamp.x.Floor as nat, cw["Namespace"].s, dimensions, metrics))
          case _ => None
  }

  lemma {:induction false} StringsRoundTrip(s: seq<string>)
    ensures DecodeStrings(StringsValue(s).items) == Some(s)
  {
    if s != [] {
      StringsRoundTrip(s[1..]);
      assert StringsValue(s).items[1..] == StringsValue(s[1..]).items;
      assert s == [s[0]] + s[1..];
    }
  }

  lemma {:induction false} DefinitionsRoundTrip(d: seq<MetricDefinition>)
    ensures DecodeDefinitions(DefinitionsValue(d).items) == Some(d)
  {
    if d != [] {
      DefinitionsRoundTrip(d[1..]);
      assert DefinitionsValue(d).items[1..] == DefinitionsValue(d[1..]).items;
      assert DecodeDefinition(MetricDefinitionValue(d[0])) == Some(d[0]);
      assert d == [d[0]] + d[1..];
    }
  }

  /**
   * The `_aws` value a flush emits carries the record's timestamp,
   * namespace, dimension list and metric definitions exactly.
   */
  lemma EnvelopeRoundTrip(e: Envelope)
    ensures DecodeEnvelope(EnvelopeValue(e)) == Some(e)
  {
    StringsRoundTrip(e.dimensions);
    DefinitionsRoundTrip(e.metrics);
  }

  lemma EnvelopeInFlush(s: Snapshot, metadata: map<string, string>, id: string, nowMs: nat, isoTime: string)
    requires "_aws" !in s.metric.properties
    ensures ("_aws", EnvelopeValue(s.metric.aws)) in FlushOutput(s, metadata, id, nowMs, isoTime)
  {
    assert MergedRecord(s, metadata, id, nowMs, isoTime)["_aws"] == EnvelopeValue(s.metric.aws);
    InFlush(s, metadata, id, nowMs, isoTime, "_aws", EnvelopeValue(s.metric.aws));
  }

  /**
   * Unless a property named `_aws` replaced it, a flush emits an `_aws`
   * field from which the record's envelope (timestamp, namespace, the
   * declared dimensions and metric definitions) reads back exactly.
   */
  lemma FlushDeclaresEnvelope(
    s: Snapshot, metadata: map<string, string>, id: string, nowMs: nat, isoTime: string)
    requires "_aws" !in s.metric.properties
    ensures exists v :: ("_aws", v) in FlushOutput(s, metadata, id, nowMs, isoTime) && DecodeEnvelope(v) == Some(s.metric.aws)
  {
    var v := EnvelopeValue(s.metric.aws);
    EnvelopeInFlush(s, metadata, id, nowMs, isoTime);
    EnvelopeRoundTrip(s.metric.aws);
    assert ("_aws", v) in FlushOutput(s, metadata, id, nowMs, isoTime) && DecodeEnvelope(v) == Some(s.metric.aws);
  }
}
