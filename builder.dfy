/**
 * The builder's state and operations as values: a `Snapshot` is the
 * content of all of `MikroMetric`'s static fields, and each operation is a
 * function from the snapshot before the call to the snapshot after it, or
 * to the error it throws. A check that throws leaves the state unchanged;
 * only the TypeError of `putDimension` and `putMetric` with the key
 * `_aws` comes after a write (`PutError`). The class in
 * module Metrics is proved to follow these functions.
 *
 * What the program takes from its surroundings is passed in: the
 * environment variables, the clock (`Date.now()` in milliseconds and its
 * ISO-8601 rendering), the random id and the fields the metadata helper
 * derives from the event and context.
 */
module Builder {
  import opened Wrappers
  import opened Values
  import opened Errors
  import opened Output
  import Decimal

  const NamespaceVariable := "MIKROMETRIC_NAMESPACE"
  const ServiceNameVariable := "MIKROMETRIC_SERVICE_NAME"
  const MaxDimensions: nat := 30
  const MaxMetrics: nat := 100
  const MaxKeyLength: nat := 255
  const MaxNamespaceLength: nat := 255
  const MaxDimensionValueLength: nat := 1024
  const DefaultUnit := "None"

  /** One entry of `CloudWatchMetrics[0].Metrics`. */
  datatype MetricDefinition = MetricDefinition(name: string, unit: string)

  /**
   * The `_aws` envelope. It always has exactly one CloudWatchMetrics entry
   * with exactly one dimension set, so those are flattened here:
   * `dimensions` is `CloudWatchMetrics[0].Dimensions[0]` and `metrics` is
   * `CloudWatchMetrics[0].Metrics`.
   */
  datatype Envelope = Envelope(
    timestamp: nat,
    namespace: string,
    dimensions: seq<string>,
    metrics: seq<MetricDefinition>)

  /** The live record (`MikroMetric.metric`): its fields other than `_aws`, and the envelope. */
  datatype MetricLog = MetricLog(properties: map<string, Value>, aws: Envelope)

  /**
   * The argument of `start`. An omitted string is "", an omitted event or
   * context is Undefined: the program only ever tests them with `||`, for
   * which the two are alike. An omitted metadata configuration is None.
   */
  datatype StartInput = StartInput(
    namespace: string,
    serviceName: string,
    event: Value,
    context: Value,
    correlationId: string,
    metadataConfig: Option<map<string, Value>>)

  /** All static fields of the class; `started` says whether the instance exists. */
  datatype Snapshot = Snapshot(
    started: bool,
    namespace: string,
    serviceName: string,
    event: Value,
    context: Value,
    correlationId: string,
    metadataConfig: map<string, Value>,
    metric: MetricLog)

  /**
   * The static fields before the first `start`. The record is undefined
   * then and is never read before `start` creates it; an empty one stands
   * in for it.
   */
  const Unstarted: Snapshot :=
    Snapshot(false, "", "", Undefined, Undefined, "", map[], MetricLog(map[], Envelope(0, "", [], [])))

  /**
   * What holds of the static fields at every point: once the instance
   * exists, both names are non-empty. `start` creates it only with
   * non-empty names, `setNamespace` accepts only lengths 1..255, and
   * nothing else writes the names.
   */
  ghost predicate NamesSet(s: Snapshot) {
    s.started ==> s.namespace != "" && s.serviceName != ""
  }

  function OutcomeOf(r: Result<Snapshot, MikroMetricError>): (o: Outcome<MikroMetricError>)
    ensures o.Pass? <==> r.Success?
    ensures o.Fail? ==> o.error == r.error
  {
    if r.Success? then Pass else Fail(r.error)
  }

  /** The state after an operation: its new snapshot, or the old one when it threw. */
  function After(s: Snapshot, r: Result<Snapshot, MikroMetricError>): Snapshot {
    if r.Success? then r.value else s
  }

  /** The key under which the record holds its envelope. */
  const EnvelopeKey := "_aws"

  /**
   * How `putDimension` and `putMetric` throw. `Rejected` carries the
   * error of a failed check, thrown before anything is written.
   * `EnvelopeTypeError` is the TypeError of a call with the key `_aws`:
   * `setProperty` has replaced the envelope with the new value, and
   * reading the envelope back (`metric._aws.CloudWatchMetrics[0]`) then
   * fails on it; `written` is the state after that write.
   */
  datatype PutError = Rejected(error: MikroMetricError) | EnvelopeTypeError(written: Snapshot)

  /** The state after a put: its new snapshot, what it wrote before a TypeError, or the old one. */
  function AfterPut(s: Snapshot, r: Result<Snapshot, PutError>): Snapshot {
    if r.Success? then r.value else if r.error.EnvelopeTypeError? then r.error.written else s
  }

  /** What a call throws: one of the program's errors, or a TypeError raised by the runtime. */
  datatype Thrown = Raised(error: MikroMetricError) | TypeError

  function PutOutcome(r: Result<Snapshot, PutError>): (o: Outcome<Thrown>)
    ensures o.Pass? <==> r.Success?
    ensures o.Fail? ==> (o.error == TypeError <==> r.error.EnvelopeTypeError?)
    ensures o.Fail? && r.error.Rejected? ==> o.error == Raised(r.error.error)
  {
    if r.Success? then Pass
    else if r.error.Rejected? then Fail(Raised(r.error.error))
    else Fail(TypeError)
  }

  // ---------------------------------------------------------------------
  // Validators

  /**
   * Every character is at most 127. A Dafny `char` is a Unicode scalar
   * value, not a UTF-16 code unit, but a string passes this test exactly
   * when its code units would, so only ASCII strings get past it.
   */
  predicate IsAscii(s: string) {
    forall i :: 0 <= i < |s| ==> s[i] as int <= 127
  }

  /**
   * `hasNonAsciiCharacters`: throws when some character code is above 127.
   * The source iterates code points and tests the first code unit of each,
   * which is above 127 exactly when the code point is. A lone surrogate,
   * which a Dafny string cannot hold, would fail the source's test too.
   */
  function HasNonAsciiCharacters(s: string): (r: Outcome<MikroMetricError>)
    ensures r.Pass? <==> IsAscii(s)
    ensures r.Fail? ==> r.error == HasNonAsciiCharactersError
  {
    if s == [] then Pass
    else if s[0] as int > 127 then
      assert !(s[0] as int <= 127);
      Fail(HasNonAsciiCharactersError)
    else
      var rest := HasNonAsciiCharacters(s[1..]);
      assert IsAscii(s) <==> IsAscii(s[1..]) by {
        assert forall i :: 0 < i < |s| ==> s[i] == s[1..][i - 1];
      }
      rest
  }

  /** `isLengthWithinBounds`: the length must lie in 1..maximumLength, both ends included. */
  function IsLengthWithinBounds(value: string, maximumLength: nat): (r: Outcome<MikroMetricError>)
    ensures r.Pass? <==> 1 <= |value| <= maximumLength
    ensures r.Fail? ==> r.error == LengthNotWithinBoundsError(maximumLength)
  {
    if |value| == 0 || |value| > maximumLength then Fail(LengthNotWithinBoundsError(maximumLength))
    else Pass
  }

  /**
   * `canAddMoreItemsToArray`: throws only when the array is already LONGER
   * than the maximum, so an array of exactly `maximumLength` items still
   * accepts one more.
   */
  function CanAddMoreItemsToArray<T>(items: seq<T>, maximumLength: nat): (r: Outcome<MikroMetricError>)
    ensures r.Pass? <==> |items| <= maximumLength
    ensures r.Fail? ==> r.error == CannotAddMoreItemsToArrayError(maximumLength)
  {
    if |items| > maximumLength then Fail(CannotAddMoreItemsToArrayError(maximumLength)) else Pass
  }

  /** A key `setProperty`, `putDimension` and `putMetric` accept. */
  predicate ValidKey(key: string) {
    IsAscii(key) && 1 <= |key| <= MaxKeyLength
  }

  // ---------------------------------------------------------------------
  // Construction, start and reset

  /** `createBaseMetricObject`: the record a new instance starts from. */
  function BaseMetric(namespace: string, serviceName: string, now: nat): (m: MetricLog)
    ensures m.properties.Keys == {"service"} && m.properties["service"] == Str(serviceName)
    ensures m.aws.namespace == namespace && m.aws.timestamp == now
    ensures m.aws.dimensions == ["service"] && m.aws.metrics == []
  {
    MetricLog(map["service" := Str(serviceName)], Envelope(now, namespace, ["service"], []))
  }

  /** The private constructor: what `new MikroMetric(...)` writes into the static fields. */
  function Construct(s: Snapshot, namespace: string, serviceName: string, event: Value, context: Value, now: nat)
    : (r: Snapshot)
    ensures r.started == s.started
    ensures r.namespace == namespace && r.serviceName == serviceName
    ensures r.event == OrElseValue(event, EmptyObject) && r.context == OrElseValue(context, EmptyObject)
    ensures r.metadataConfig == map[] && r.correlationId == ""
    ensures r.metric == BaseMetric(namespace, serviceName, now)
  {
    Snapshot(s.started, namespace, serviceName, OrElseValue(event, EmptyObject), OrElseValue(context, EmptyObject),
             "", map[], BaseMetric(namespace, serviceName, now))
  }

  function EnvValue(env: map<string, string>, variable: string): string {
    if variable in env then env[variable] else ""
  }

  /** `input?.x || process.env.VARIABLE || ''`. */
  function ResolveName(given: string, env: map<string, string>, variable: string): (r: string)
    ensures given != "" ==> r == given
    ensures given == "" && variable in env ==> r == env[variable]
    ensures r == "" <==> given == "" && (variable !in env || env[variable] == "")
  {
    OrElse(OrElse(given, EnvValue(env, variable)), "")
  }

  /**
   * `start`: resolve the two names, throw when either is empty (on every
   * call, before anything is written), create the instance if there is
   * none, and overwrite the names, event, context, metadata configuration
   * and correlation id. An existing record is kept as it is.
   */
  function Start(s: Snapshot, input: StartInput, env: map<string, string>, now: nat)
    : (r: Result<Snapshot, MikroMetricError>)
    ensures var namespace := ResolveName(input.namespace, env, NamespaceVariable);
            var serviceName := ResolveName(input.serviceName, env, ServiceNameVariable);
            && (r.Failure? <==> namespace == "" || serviceName == "")
            && (r.Failure? ==> r.error == MissingRequiredStartParamsError)
            && (r.Success? ==>
                  && r.value.started
                  && r.value.namespace == namespace
                  && r.value.serviceName == serviceName
                  && r.value.event == OrElseValue(input.event, s.event)
                  && r.value.context == OrElseValue(input.context, s.context)
                  && r.value.metadataConfig
                     == (if input.metadataConfig.Some? then input.metadataConfig.value else s.metadataConfig)
                  && r.value.correlationId == OrElse(input.correlationId, s.correlationId)
                  && r.value.metric == (if s.started then s.metric else BaseMetric(namespace, serviceName, now)))
  {
    var namespace := ResolveName(input.namespace, env, NamespaceVariable);
    var serviceName := ResolveName(input.serviceName, env, ServiceNameVariable);
    if namespace == "" || serviceName == "" then
      Failure(MissingRequiredStartParamsError)
    else
      var event := OrElseValue(input.event, s.event);
      var context := OrElseValue(input.context, s.context);
      var metadataConfig := if input.metadataConfig.Some? then input.metadataConfig.value else s.metadataConfig;
      var correlationId := OrElse(OrElse(input.correlationId, s.correlationId), "");
      var created := if s.started then s else Construct(s, namespace, serviceName, event, context, now);
      Success(created.(
        started := true,
        metadataConfig := metadataConfig,
        namespace := namespace,
        serviceName := serviceName,
        event := event,
        context := context,
        correlationId := correlationId))
  }

  /** The snapshot a successful `start` produces, written out field by field. */
  lemma StartSuccess(s: Snapshot, input: StartInput, env: map<string, string>, now: nat, namespace: string, serviceName: string)
    requires namespace == ResolveName(input.namespace, env, NamespaceVariable) && namespace != ""
    requires serviceName == ResolveName(input.serviceName, env, ServiceNameVariable) && serviceName != ""
    ensures Start(s, input, env, now) == Success(Snapshot(
      true, namespace, serviceName,
      OrElseValue(input.event, s.event), OrElseValue(input.context, s.context),
      OrElse(input.correlationId, s.correlationId),
      if input.metadataConfig.Some? then input.metadataConfig.value else s.metadataConfig,
      if s.started then s.metric else BaseMetric(namespace, serviceName, now)))
  {
  }

  /**
   * `reset`: a new instance from the current names only. The record
   * starts over and the event, context, metadata configuration and
   * correlation id are cleared.
   */
  function Reset(s: Snapshot, now: nat): (r: Snapshot)
    requires s.started
    ensures r.started && r.namespace == s.namespace && r.serviceName == s.serviceName
    ensures r.event == EmptyObject && r.context == EmptyObject
    ensures r.metadataConfig == map[] && r.correlationId == ""
    ensures r.metric.properties == map["service" := Str(s.serviceName)]
    ensures r.metric.aws == Envelope(now, s.namespace, ["service"], [])
  {
    Construct(s, s.namespace, s.serviceName, Undefined, Undefined, now)
  }

  // ---------------------------------------------------------------------
  // Mutators

  /** `setCorrelationId`: stored as given, without validation. */
  function SetCorrelationId(s: Snapshot, correlationId: string): (r: Snapshot)
    ensures r.correlationId == correlationId
    ensures r.(correlationId := s.correlationId) == s
  {
    s.(correlationId := correlationId)
  }

  /**
   * `setNamespace`: ASCII, then length 1..255, then the `namespace` field
   * alone changes. The current record's envelope keeps its namespace.
   */
  function SetNamespace(s: Snapshot, namespace: string): (r: Result<Snapshot, MikroMetricError>)
    ensures !IsAscii(namespace) ==> r == Failure(HasNonAsciiCharactersError)
    ensures IsAscii(namespace) && !(1 <= |namespace| <= MaxNamespaceLength)
            ==> r == Failure(LengthNotWithinBoundsError(MaxNamespaceLength))
    ensures r.Success? <==> IsAscii(namespace) && 1 <= |namespace| <= MaxNamespaceLength
    ensures r.Success? ==> r.value.namespace == namespace && r.value.(namespace := s.namespace) == s
  {
    var ascii := HasNonAsciiCharacters(namespace);
    if ascii.Fail? then Failure(ascii.error)
    else
      var bounds := IsLengthWithinBounds(namespace, MaxNamespaceLength);
      if bounds.Fail? then Failure(bounds.error)
      else Success(s.(namespace := namespace))
  }

  /**
   * `setProperty`: a valid key gets the value; nothing else changes. As
   * for any assignment to a plain object, the key `__proto__` passes the
   * checks but creates no field.
   */
  function SetProperty(s: Snapshot, key: string, value: Value): (r: Result<Snapshot, MikroMetricError>)
    ensures !IsAscii(key) ==> r == Failure(HasNonAsciiCharactersError)
    ensures IsAscii(key) && !(1 <= |key| <= MaxKeyLength) ==> r == Failure(LengthNotWithinBoundsError(MaxKeyLength))
    ensures r.Success? <==> ValidKey(key)
    ensures r.Success? ==>
              && r.value.metric.properties
                 == (if key == ProtoKey then s.metric.properties else s.metric.properties[key := value])
              && r.value.(metric := s.metric) == s
              && r.value.metric.aws == s.metric.aws
  {
    var ascii := HasNonAsciiCharacters(key);
    if ascii.Fail? then Failure(ascii.error)
    else
      var bounds := IsLengthWithinBounds(key, MaxKeyLength);
      if bounds.Fail? then Failure(bounds.error)
      else Success(s.(metric := s.metric.(properties := AssignField(s.metric.properties, key, value))))
  }

  /** What `putDimension` accepts: valid ASCII key and value and a dimension list not over 30. */
  predicate DimensionAccepted(s: Snapshot, key: string, value: string) {
    && IsAscii(key) && IsAscii(value)
    && 1 <= |key| <= MaxKeyLength && 1 <= |value| <= MaxDimensionValueLength
    && |s.metric.aws.dimensions| <= MaxDimensions
  }

  /**
   * `putDimension`: checks key ASCII, value ASCII, key length, value
   * length and the dimension count, in that order, the first failing one
   * deciding the error; then sets the property and appends the key to the
   * dimension list. With the key `_aws` the property write replaces the
   * envelope, and the append then throws a TypeError.
   */
  function PutDimension(s: Snapshot, key: string, value: string): (r: Result<Snapshot, PutError>)
    ensures !IsAscii(key) || !IsAscii(value) ==> r == Failure(Rejected(HasNonAsciiCharactersError))
    ensures IsAscii(key) && IsAscii(value) && !(1 <= |key| <= MaxKeyLength)
            ==> r == Failure(Rejected(LengthNotWithinBoundsError(MaxKeyLength)))
    ensures IsAscii(key) && IsAscii(value) && 1 <= |key| <= MaxKeyLength
            && !(1 <= |value| <= MaxDimensionValueLength)
            ==> r == Failure(Rejected(LengthNotWithinBoundsError(MaxDimensionValueLength)))
    ensures IsAscii(key) && IsAscii(value) && 1 <= |key| <= MaxKeyLength
            && 1 <= |value| <= MaxDimensionValueLength && |s.metric.aws.dimensions| > MaxDimensions
            ==> r == Failure(Rejected(CannotAddMoreItemsToArrayError(MaxDimensions)))
    ensures r.Success? <==> DimensionAccepted(s, key, value) && key != EnvelopeKey
    ensures (r.Failure? && r.error.EnvelopeTypeError?) <==> DimensionAccepted(s, key, value) && key == EnvelopeKey
    ensures r.Success? ==>
              && r.value.metric.properties
                 == (if key == ProtoKey then s.metric.properties else s.metric.properties[key := Str(value)])
              && r.value.metric.aws.dimensions == s.metric.aws.dimensions + [key]
              && r.value.metric.aws.(dimensions := s.metric.aws.dimensions) == s.metric.aws
              && r.value.(metric := s.metric) == s
    ensures r.Failure? && r.error.EnvelopeTypeError? ==>
              && r.error.written.metric.properties == s.metric.properties[EnvelopeKey := Str(value)]
              && r.error.written.metric.aws == s.metric.aws
              && r.error.written.(metric := s.metric) == s
  {
    var keyAscii := HasNonAsciiCharacters(key);
    var valueAscii := HasNonAsciiCharacters(value);
    var keyBounds := IsLengthWithinBounds(key, MaxKeyLength);
    var valueBounds := IsLengthWithinBounds(value, MaxDimensionValueLength);
    var capacity := CanAddMoreItemsToArray(s.metric.aws.dimensions, MaxDimensions);
    if keyAscii.Fail? then Failure(Rejected(keyAscii.error))
    else if valueAscii.Fail? then Failure(Rejected(valueAscii.error))
    else if keyBounds.Fail? then Failure(Rejected(keyBounds.error))
    else if valueBounds.Fail? then Failure(Rejected(valueBounds.error))
    else if capacity.Fail? then Failure(Rejected(capacity.error))
    else
      var t := SetProperty(s, key, Str(value)).value;
      if key == EnvelopeKey then Failure(EnvelopeTypeError(t))
      else Success(t.(metric := t.metric.(aws := t.metric.aws.(dimensions := t.metric.aws.dimensions + [key]))))
  }

  /** `unit || 'None'`. */
  function UnitOrDefault(unit: string): (r: string)
    ensures r != ""
    ensures unit != "" ==> r == unit
    ensures unit == "" ==> r == DefaultUnit
  {
    OrElse(unit, DefaultUnit)
  }

  /** What `putMetric` accepts: a valid key and a metric list not over 100. The value is not checked. */
  predicate MetricAccepted(s: Snapshot, key: string) {
    ValidKey(key) && |s.metric.aws.metrics| <= MaxMetrics
  }

  /**
   * `putMetric`: checks key ASCII, key length and the metric count, in
   * that order; then sets the property (the value is not validated) and
   * appends the definition, with unit "None" when none is given ("").
   * With the key `_aws` the append throws a TypeError after the write.
   */
  function PutMetric(s: Snapshot, key: string, value: Value, unit: string): (r: Result<Snapshot, PutError>)
    ensures !IsAscii(key) ==> r == Failure(Rejected(HasNonAsciiCharactersError))
    ensures IsAscii(key) && !(1 <= |key| <= MaxKeyLength) ==> r == Failure(Rejected(LengthNotWithinBoundsError(MaxKeyLength)))
    ensures ValidKey(key) && |s.metric.aws.metrics| > MaxMetrics
            ==> r == Failure(Rejected(CannotAddMoreItemsToArrayError(MaxMetrics)))
    ensures r.Success? <==> MetricAccepted(s, key) && key != EnvelopeKey
    ensures (r.Failure? && r.error.EnvelopeTypeError?) <==> MetricAccepted(s, key) && key == EnvelopeKey
    ensures r.Success? ==>
              && r.value.metric.properties
                 == (if key == ProtoKey then s.metric.properties else s.metric.properties[key := value])
              && r.value.metric.aws.metrics
                 == s.metric.aws.metrics + [MetricDefinition(key, if unit == "" then DefaultUnit else unit)]
              && r.value.metric.aws.(metrics := s.metric.aws.metrics) == s.metric.aws
              && r.value.(metric := s.metric) == s
    ensures r.Failure? && r.error.EnvelopeTypeError? ==>
              && r.error.written.metric.properties == s.metric.properties[EnvelopeKey := value]
              && r.error.written.metric.aws == s.metric.aws
              && r.error.written.(metric := s.metric) == s
  {
    var keyAscii := HasNonAsciiCharacters(key);
    var keyBounds := IsLengthWithinBounds(key, MaxKeyLength);
    var capacity := CanAddMoreItemsToArray(s.metric.aws.metrics, MaxMetrics);
    if keyAscii.Fail? then Failure(Rejected(keyAscii.error))
    else if keyBounds.Fail? then Failure(Rejected(keyBounds.error))
    else if capacity.Fail? then Failure(Rejected(capacity.error))
    else
      var t := SetProperty(s, key, value).value;
      var definition := MetricDefinition(key, UnitOrDefault(unit));
      if key == EnvelopeKey then Failure(EnvelopeTypeError(t))
      else Success(t.(metric := t.metric.(aws := t.metric.aws.(metrics := t.metric.aws.metrics + [definition]))))
  }

  function GetNamespace(s: Snapshot): string {
    s.namespace
  }

  function GetServiceName(s: Snapshot): string {
    s.serviceName
  }

  // ---------------------------------------------------------------------
  // Flush

  function MetricDefinitionValue(d: MetricDefinition): Value {
    Obj(map["Name" := Str(d.name), "Unit" := Str(d.unit)])
  }

  function StringsValue(s: seq<string>): (v: Value)
    ensures v.Arr? && |v.items| == |s|
    ensures forall i :: 0 <= i < |s| ==> v.items[i] == Str(s[i])
  {
    Arr(seq(|s|, i requires 0 <= i < |s| => Str(s[i])))
  }

  function DefinitionsValue(s: seq<MetricDefinition>): (v: Value)
    ensures v.Arr? && |v.items| == |s|
    ensures forall i :: 0 <= i < |s| ==> v.items[i] == MetricDefinitionValue(s[i])
  {
    Arr(seq(|s|, i requires 0 <= i < |s| => MetricDefinitionValue(s[i])))
  }

  /** The `_aws` object as it appears in the emitted record. */
  function EnvelopeValue(e: Envelope): (r: Value)
    ensures r.Obj? && r.fields.Keys == {"Timestamp", "CloudWatchMetrics"}
    ensures r.fields["Timestamp"] == Num(e.timestamp as real)
    ensures var c := r.fields["CloudWatchMetrics"];
              c.Arr? && |c.items| == 1 && c.items[0].Obj?
              && c.items[0].fields.Keys == {"Namespace", "Dimensions", "Metrics"}
              && c.items[0].fields["Namespace"] == Str(e.namespace)
              && c.items[0].fields["Dimensions"] == Arr([StringsValue(e.dimensions)])
              && c.items[0].fields["Metrics"] == DefinitionsValue(e.metrics)
  {
    Obj(map[
      "Timestamp" := Num(e.timestamp as real),
      "CloudWatchMetrics" := Arr([Obj(map[
        "Namespace" := Str(e.namespace),
        "Dimensions" := Arr([StringsValue(e.dimensions)]),
        "Metrics" := DefinitionsValue(e.metrics)])])])
  }

  /**
   * The record as a JavaScript object: its properties and its `_aws`
   * envelope. A property named `_aws` replaces the envelope, as the
   * assignment `metric['_aws'] = value` does in the source.
   */
  function RecordMap(m: MetricLog): (r: map<string, Value>)
    ensures r.Keys == m.properties.Keys + {"_aws"}
    ensures forall k :: k in m.properties ==> r[k] == m.properties[k]
    ensures "_aws" !in m.properties ==> r["_aws"] == EnvelopeValue(m.aws)
  {
    map["_aws" := EnvelopeValue(m.aws)] + m.properties
  }

  /**
   * `createDynamicMetadata`: the helper's fields, overlaid with the
   * correlation id (the stored one when it is non-empty, else the
   * helper's, else undefined), a fresh id and the time as ISO text and as
   * epoch milliseconds in decimal.
   */
  function CreateDynamicMetadata(
    metadata: map<string, string>, correlationId: string, id: string, nowMs: nat, isoTime: string)
    : (r: map<string, Value>)
    ensures r.Keys == metadata.Keys + {"correlationId", "id", "timestamp", "timestampEpoch"}
    ensures r["correlationId"]
         == if correlationId != "" then Str(correlationId)
            else if "correlationId" in metadata then Str(metadata["correlationId"])
            else Undefined
    ensures r["id"] == Str(id) && r["timestamp"] == Str(isoTime)
    ensures r["timestampEpoch"] == Str(Decimal.NatToString(nowMs))
    ensures forall k :: k in metadata && k !in {"correlationId", "id", "timestamp", "timestampEpoch"}
              ==> r[k] == Str(metadata[k])
  {
    var fromHelper := map k | k in metadata :: Str(metadata[k]);
    var helperCorrelationId := if "correlationId" in metadata then Str(metadata["correlationId"]) else Undefined;
    fromHelper[
      "correlationId" := if correlationId != "" then Str(correlationId) else helperCorrelationId][
      "id" := Str(id)][
      "timestamp" := Str(isoTime)][
      "timestampEpoch" := Str(Decimal.NatToString(nowMs))]
  }

  /** The merged object `{...dynamic, ...metadataConfig, ...metric}` of a flush. */
  function MergedRecord(s: Snapshot, metadata: map<string, string>, id: string, nowMs: nat, isoTime: string)
    : map<string, Value>
  {
    Merge(CreateDynamicMetadata(metadata, s.correlationId, id, nowMs, isoTime), s.metadataConfig, RecordMap(s.metric))
  }

  /** The merged object has the helper's keys, the four added ones, the configuration's, the record's and `_aws`. */
  lemma MergedRecordKeys(s: Snapshot, metadata: map<string, string>, id: string, nowMs: nat, isoTime: string)
    ensures MergedRecord(s, metadata, id, nowMs, isoTime).Keys
         == metadata.Keys + {"correlationId", "id", "timestamp", "timestampEpoch"}
            + s.metadataConfig.Keys + s.metric.properties.Keys + {"_aws"}
  {
    var dynamic := CreateDynamicMetadata(metadata, s.correlationId, id, nowMs, isoTime);
    assert dynamic.Keys == metadata.Keys + {"correlationId", "id", "timestamp", "timestampEpoch"};
    assert RecordMap(s.metric).Keys == s.metric.properties.Keys + {"_aws"};
  }

  /**
   * In the merged object the record wins over the configuration, and the
   * configuration over the dynamic metadata.
   */
  lemma MergedRecordValues(s: Snapshot, metadata: map<string, string>, id: string, nowMs: nat, isoTime: string)
    ensures forall k :: k in s.metric.properties ==> MergedRecord(s, metadata, id, nowMs, isoTime)[k] == s.metric.properties[k]
    ensures "_aws" !in s.metric.properties ==> MergedRecord(s, metadata, id, nowMs, isoTime)["_aws"] == EnvelopeValue(s.metric.aws)
    ensures forall k :: k in s.metadataConfig && k !in s.metric.properties && k != "_aws"
              ==> MergedRecord(s, metadata, id, nowMs, isoTime)[k] == s.metadataConfig[k]
  {
    var record := RecordMap(s.metric);
    assert forall k :: k in s.metadataConfig && k !in s.metric.properties && k != "_aws" ==> k !in record;
  }

  /**
   * `createMetricObject`: the record `flush` emits and returns, the truthy
   * fields of the merged object in ascending key order. A `__proto__`
   * entry of the merged object (from the helper or the configuration) is
   * lost when `sortOutput` assigns it. The deep copy through JSON text is
   * taken as the identity.
   */
  ghost function FlushOutput(s: Snapshot, metadata: map<string, string>, id: string, nowMs: nat, isoTime: string)
    : Entries
  {
    Emitted(MergedRecord(s, metadata, id, nowMs, isoTime))
  }

  /**
   * The flushed record is sorted by key, and holds a field exactly when
   * the merged object has it with a truthy value and the key is not
   * `__proto__`.
   */
  lemma FlushOutputFields(s: Snapshot, metadata: map<string, string>, id: string, nowMs: nat, isoTime: string)
    ensures SortedByKey(FlushOutput(s, metadata, id, nowMs, isoTime))
    ensures forall k, v :: (k, v) in FlushOutput(s, metadata, id, nowMs, isoTime) <==>
              var m := MergedRecord(s, metadata, id, nowMs, isoTime); k != ProtoKey && k in m && m[k] == v && Truthy(v)
  {
    EmittedFields(MergedRecord(s, metadata, id, nowMs, isoTime));
  }
}
