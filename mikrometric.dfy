/**
 * The `MikroMetric` class itself. All of its state lives in static
 * fields shared by the whole process; one object of this class stands for
 * that state, and `started` records whether the singleton instance has
 * been created (only `start` hands it out, so every instance operation
 * requires it). Each method is proved to move the state as the matching
 * function of module Builder says.
 */
module Metrics {
  import opened Wrappers
  import opened Values
  import opened Errors
  import opened Output
  import opened Builder

  class MikroMetric {
    var started: bool
    var namespace: string
    var serviceName: string
    var event: Value
    var context: Value
    var correlationId: string
    var metadataConfig: map<string, Value>
    // The live record `metric`: its fields other than `_aws` ...
    var properties: map<string, Value>
    // ... and its envelope `_aws`.
    var timestamp: nat
    var recordNamespace: string
    var dimensions: seq<string>
    var metrics: seq<MetricDefinition>

    ghost function State(): Snapshot
      reads this
    {
      Snapshot(started, namespace, serviceName, event, context, correlationId, metadataConfig,
               MetricLog(properties, Envelope(timestamp, recordNamespace, dimensions, metrics)))
    }

    /** The static fields as the module is loaded: no instance yet. */
    constructor ()
      ensures State() == Unstarted
    {
      started := false;
      namespace, serviceName, correlationId := "", "", "";
      event, context := Undefined, Undefined;
      metadataConfig := map[];
      properties := map[];
      timestamp, recordNamespace, dimensions, metrics := 0, "", [], [];
    }

    /** The private constructor `new MikroMetric(namespace, serviceName, event, context)`. */
    method Create(namespace: string, serviceName: string, event: Value, context: Value, now: nat)
      modifies this
      ensures started == old(started)
      ensures this.namespace == namespace && this.serviceName == serviceName
      ensures this.event == OrElseValue(event, EmptyObject) && this.context == OrElseValue(context, EmptyObject)
      ensures metadataConfig == map[] && correlationId == ""
      ensures properties == map["service" := Str(serviceName)] && timestamp == now
      ensures recordNamespace == namespace && dimensions == ["service"] && metrics == []
    {
      this.namespace := namespace;
      this.serviceName := serviceName;
      this.event := OrElseValue(event, EmptyObject);
      this.context := OrElseValue(context, EmptyObject);
      this.metadataConfig := map[];
      this.correlationId := "";
      CreateBaseMetricObject(now);
    }

    /** `createBaseMetricObject`, stored as the live record. */
    method CreateBaseMetricObject(now: nat)
      modifies this
      ensures started == old(started) && namespace == old(namespace) && serviceName == old(serviceName)
      ensures event == old(event) && context == old(context)
      ensures correlationId == old(correlationId) && metadataConfig == old(metadataConfig)
      ensures properties == map["service" := Str(serviceName)] && timestamp == now
      ensures recordNamespace == namespace && dimensions == ["service"] && metrics == []
    {
      properties := map["service" := Str(serviceName)];
      timestamp := now;
      recordNamespace := namespace;
      dimensions := ["service"];
      metrics := [];
    }

    method Start(input: StartInput, env: map<string, string>, now: nat) returns (r: Outcome<MikroMetricError>)
      modifies this
      ensures r == OutcomeOf(Builder.Start(old(State()), input, env, now))
      ensures State() == After(old(State()), Builder.Start(old(State()), input, env, now))
      ensures r.Fail? ==> State() == old(State())
    {
      var ns := OrElse(OrElse(input.namespace, EnvValue(env, NamespaceVariable)), "");
      var sn := OrElse(OrElse(input.serviceName, EnvValue(env, ServiceNameVariable)), "");
      if ns == "" || sn == "" {
        return Fail(MissingRequiredStartParamsError);
      }
      var ev := OrElseValue(input.event, event);
      var ctx := OrElseValue(input.context, context);
      var config := if input.metadataConfig.Some? then input.metadataConfig.value else metadataConfig;
      var id := OrElse(OrElse(input.correlationId, correlationId), "");
      ghost var before := State();
      Install(ns, sn, ev, ctx, config, id, now);
      StartSuccess(before, input, env, now, ns, sn);
      r := Pass;
    }

    /** The second half of `start`: create the instance if need be, then overwrite the inputs. */
    method Install(ns: string, sn: string, ev: Value, ctx: Value, config: map<string, Value>, id: string, now: nat)
      modifies this
      ensures started && namespace == ns && serviceName == sn
      ensures event == ev && context == ctx && correlationId == id && metadataConfig == config
      ensures old(started) ==>
                && properties == old(properties) && timestamp == old(timestamp)
                && recordNamespace == old(recordNamespace) && dimensions == old(dimensions) && metrics == old(metrics)
      ensures !old(started) ==>
                && properties == map["service" := Str(sn)] && timestamp == now
                && recordNamespace == ns && dimensions == ["service"] && metrics == []
    {
      if !started {
        Create(ns, sn, ev, ctx, now);
        started := true;
      }
      metadataConfig, namespace, serviceName := config, ns, sn;
      event, context, correlationId := ev, ctx, id;
    }

    method Reset(now: nat)
      requires started
      modifies this
      ensures State() == Builder.Reset(old(State()), now)
    {
      Create(namespace, serviceName, Undefined, Undefined, now);
    }

    method SetCorrelationId(id: string)
      requires started
      modifies this
      ensures State() == Builder.SetCorrelationId(old(State()), id)
    {
      correlationId := id;
    }

    method SetNamespace(ns: string) returns (r: Outcome<MikroMetricError>)
      requires started
      modifies this
      ensures r == OutcomeOf(Builder.SetNamespace(old(State()), ns))
      ensures State() == After(old(State()), Builder.SetNamespace(old(State()), ns))
      ensures r.Fail? ==> State() == old(State())
    {
      r := HasNonAsciiCharacters(ns);
      if r.Fail? { return; }
      r := IsLengthWithinBounds(ns, MaxNamespaceLength);
      if r.Fail? { return; }
      namespace := ns;
    }

    function GetNamespace(): (r: string)
      requires started
      reads this
      ensures r == Builder.GetNamespace(State())
    {
      namespace
    }

    function GetServiceName(): (r: string)
      requires started
      reads this
      ensures r == Builder.GetServiceName(State())
    {
      serviceName
    }

    method PutDimension(key: string, value: string) returns (r: Outcome<Thrown>)
      requires started
      modifies this
      ensures r == PutOutcome(Builder.PutDimension(old(State()), key, value))
      ensures State() == AfterPut(old(State()), Builder.PutDimension(old(State()), key, value))
      ensures r.Fail? && r.error.Raised? ==> State() == old(State())
    {
      ghost var expected := Builder.PutDimension(State(), key, value);
      var check := HasNonAsciiCharacters(key);
      if check.Fail? { return Fail(Raised(check.error)); }
      check := HasNonAsciiCharacters(value);
      if check.Fail? { return Fail(Raised(check.error)); }
      check := IsLengthWithinBounds(key, MaxKeyLength);
      if check.Fail? { return Fail(Raised(check.error)); }
      check := IsLengthWithinBounds(value, MaxDimensionValueLength);
      if check.Fail? { return Fail(Raised(check.error)); }
      check := CanAddMoreItemsToArray(dimensions, MaxDimensions);
      if check.Fail? { return Fail(Raised(check.error)); }
      check := SetProperty(key, Str(value));
      if key == EnvelopeKey {
        // `metric._aws` is now the string just written, and the push
        // through `metric._aws.CloudWatchMetrics[0]` fails on it.
        assert expected.error.written == State();
        return Fail(TypeError);
      }
      dimensions := dimensions + [key];
      assert expected.value == State();
      r := Pass;
    }

    method PutMetric(key: string, value: Value, unit: string) returns (r: Outcome<Thrown>)
      requires started
      modifies this
      ensures r == PutOutcome(Builder.PutMetric(old(State()), key, value, unit))
      ensures State() == AfterPut(old(State()), Builder.PutMetric(old(State()), key, value, unit))
      ensures r.Fail? && r.error.Raised? ==> State() == old(State())
    {
      ghost var expected := Builder.PutMetric(State(), key, value, unit);
      var check := HasNonAsciiCharacters(key);
      if check.Fail? { return Fail(Raised(check.error)); }
      check := IsLengthWithinBounds(key, MaxKeyLength);
      if check.Fail? { return Fail(Raised(check.error)); }
      check := CanAddMoreItemsToArray(metrics, MaxMetrics);
      if check.Fail? { return Fail(Raised(check.error)); }
      check := SetProperty(key, value);
      if key == EnvelopeKey {
        // As in `PutDimension`: the envelope has just been replaced by the value.
        assert expected.error.written == State();
        return Fail(TypeError);
      }
      metrics := metrics + [MetricDefinition(key, UnitOrDefault(unit))];
      assert expected.value == State();
      r := Pass;
    }

    method SetProperty(key: string, value: Value) returns (r: Outcome<MikroMetricError>)
      requires started
      modifies this
      ensures r == OutcomeOf(Builder.SetProperty(old(State()), key, value))
      ensures State() == After(old(State()), Builder.SetProperty(old(State()), key, value))
      ensures r.Fail? ==> State() == old(State())
    {
      r := HasNonAsciiCharacters(key);
      if r.Fail? { return; }
      r := IsLengthWithinBounds(key, MaxKeyLength);
      if r.Fail? { return; }
      if key != ProtoKey {
        properties := properties[key := value];
      }
    }

    /**
     * `flush`: build the record, emit it (writing the line to standard
     * output is not modelled), reset, and return the record.
     * `getMetadata` is the metadata helper, applied to the stored event and
     * context; `id`, `nowMs` and `isoTime` are the random id and the clock
     * read for the record, `resetNow` the clock read by the reset.
     */
    method Flush(getMetadata: (Value, Value) -> map<string, string>, id: string, nowMs: nat, isoTime: string,
                 resetNow: nat)
      returns (log: Entries)
      requires started
      modifies this
      ensures log == FlushOutput(old(State()), getMetadata(old(event), old(context)), id, nowMs, isoTime)
      ensures State() == Builder.Reset(old(State()), resetNow)
    {
      log := CreateMetricObject(getMetadata, id, nowMs, isoTime);
      Reset(resetNow);
    }

    /** `createMetricObject`: merge, sort, filter. */
    method CreateMetricObject(getMetadata: (Value, Value) -> map<string, string>, id: string, nowMs: nat,
                              isoTime: string)
      returns (log: Entries)
      ensures log == FlushOutput(State(), getMetadata(event, context), id, nowMs, isoTime)
    {
      var metadata := getMetadata(event, context);
      var dynamic := CreateDynamicMetadata(metadata, correlationId, id, nowMs, isoTime);
      var record := MetricLog(properties, Envelope(timestamp, recordNamespace, dimensions, metrics));
      var merged := Merge(dynamic, metadataConfig, RecordMap(record));
      assert merged == MergedRecord(State(), metadata, id, nowMs, isoTime);
      var completeMetric := SortOutput(merged);
      log := FilterMetadata(completeMetric);
    }
  }
}
