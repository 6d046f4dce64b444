# MikroMetric in Dafny

MikroMetric is a small library for AWS Lambda functions. It builds log
records in the CloudWatch Embedded Metric Format (EMF), one record at a time.

- `start` resolves a namespace and a service name. It uses the input first, then the
  environment variables `MIKROMETRIC_NAMESPACE` and `MIKROMETRIC_SERVICE_NAME`. It throws
  when either name is still empty.
- It creates the single shared instance on the first call. Every call overwrites the
  stored event, context, metadata configuration and correlation id.
- `putDimension`, `putMetric` and `setProperty` validate their arguments and add to the
  live record:
  - a key is ASCII and 1..255 characters;
  - a dimension value is ASCII and 1..1024 characters;
  - the dimension list and the metric list each have a capacity check.
- `setNamespace` changes the namespace for later records.
- `flush` merges three sources into the record: the dynamic metadata, the static metadata
  configuration, and the record itself, each later one winning on a key collision.
  - It sorts the fields by key and drops the falsy ones.
  - It writes the result as a JSON line and returns it.
  - Then it resets to a fresh record.

The model works in two layers.

- **Module `Builder`** describes each operation as a function on a value `Snapshot`.
  A `Snapshot` holds all the static fields of the class. An operation that can throw
  returns `Result`, a `Failure` carrying the error the source throws. When a check
  throws, the state is unchanged, because every check comes before any write. The one
  exception is `putDimension` or `putMetric` with the key `_aws`. That call writes the
  value and then throws a TypeError, and its `Failure` (`Builder.PutError`) carries the
  state it leaves behind.
- **Class `Metrics.MikroMetric`** holds the same fields and updates them in place. Each
  public method is proved to move `State()` exactly as its `Builder` function says. The
  private helpers `Create`, `CreateBaseMetricObject` and `Install` state their writes
  field by field.
  - The `started` field records whether the singleton instance exists. Only `start` hands
    the instance out, so the instance methods require it.
  - `Flush` and `CreateMetricObject` do the sorting and filtering with the loops of
    `Output.SortOutput` and `Output.FilterMetadata`. Both loops are proved against the
    specification functions `Output.SortEntries` and `Output.KeepTruthy`.

Other modules:

- **`Errors`**: the four error classes, with their `name` and `message` texts.
- **`Values`**: JavaScript values. It covers truthiness and `||` on strings and values.
  A string argument that is absent (`undefined`) is modelled as `""`; both are falsy, so
  the source treats them the same.
- **`Decimal`**: the decimal text of a natural number. This is `${n}` in template
  literals.
- **`KeyOrder`**: the default JavaScript string order that `sort` uses.
- **`MetricProperties`**: properties of sequences of calls.

### What the model shows

- The capacity check throws only when the list is already longer than its limit.
  - A new record's dimension list already holds `service`, so exactly 30 user dimensions
    are accepted and the 31st throws (`MetricProperties.ThirtyDimensionsPerRecord`).
  - 101 metrics are accepted and the 102nd throws, although the error message says no more
    than 100 are allowed (`MetricProperties.HundredAndOneMetricsPerRecord`).
  - The error raised for dimensions also says "metrics"
    (`Errors.DimensionCapacityMessage`).
- The code drops metric values of `0` from the flushed record (`filterMetadata` keeps only
  truthy values) (`MetricProperties.ZeroMetricDropped`), while the metric stays declared
  in `_aws` (`Builder.PutMetric` appends its definition, and
  `MetricProperties.FlushDeclaresEnvelope` shows the flushed `_aws` declares the record's
  metrics). The model follows
  src/domain/entities/MikroMetric.ts:284. The bundled build differs: its filter at
  dist/chunk-O6AJTEBD.js:228 also keeps a value equal to `0`.
- `reset` clears the correlation id (`Builder.Reset`), and so does every `flush`. The
  model follows the code here too, although the comment on `setCorrelationId` says the id
  propagates to all future metrics.
- A property named `_aws` replaces the envelope in the flushed record. This matches the
  assignment `metric[key] = value` at src/domain/entities/MikroMetric.ts:183
  (`Builder.RecordMap`).
- A property named `__proto__` passes the checks but is never stored, because assigning that
  key to a plain object reaches the inherited `__proto__` accessor instead of creating a field
  (`Values.AssignField`). So `putDimension('__proto__', v)` declares a dimension whose value
  never appears. A `__proto__` field from the configuration or the metadata helper is lost in
  `sortOutput` the same way (`Output.SortOutput`, `MetricProperties.PropertyReachesFlush`).
- Once the instance exists, its namespace and service name are non-empty, and every operation
  keeps it so (`MetricProperties.NamesStaySet`).
- `putDimension('_aws', v)` and `putMetric('_aws', v)` pass every check. Each writes
  `metric._aws = v` through `setProperty`, then reads `metric._aws.CloudWatchMetrics[0]` to
  push the new entry, and throws a TypeError on the string or number just written. So the
  call throws, declares nothing, and leaves the value in place of the envelope; the next
  flush emits it as `_aws` (`Builder.PutDimension`, `Builder.PutMetric`,
  `MetricProperties.EnvelopeKeyDimensionThrows`). The capacity lemmas therefore leave the
  key `_aws` out of the valid inputs.

## Model

| member | source | states |
|---|---|---|
| Values.Truthy | src/domain/entities/MikroMetric.ts:284 | JavaScript truthiness, as `if (value)` and `\|\|` test it: a value is truthy exactly when it is none of `undefined`, `null`, `false`, `0` and `""`. |
| Values.OrElse | src/domain/entities/MikroMetric.ts:65-72 | `a \|\| b` on strings: the result is `a` when `a` is non-empty, otherwise `b`. It is empty exactly when both are. |
| Values.OrElseValue | src/domain/entities/MikroMetric.ts:69-70 | `a \|\| b` on values: the result is `a` when `a` is truthy, otherwise `b`. It is falsy exactly when both are. |
| Values.AssignField | src/domain/entities/MikroMetric.ts:183 | A plain-object assignment `o[key] = value` adds or replaces the field, except that the key `__proto__` leaves the fields unchanged. Other fields are kept. |
| Decimal.NatToString | src/domain/entities/MikroMetric.ts:249 | The decimal text of a number is non-empty, all digits, has no leading zero, and is longer than one digit exactly when the number is at least 10. |
| Decimal.ParseNatToString | src/domain/entities/MikroMetric.ts:249 | Reading the decimal text back gives the number (round trip). |
| Decimal.NatToStringInjective | src/application/errors/errors.ts:36 | Different numbers have different decimal texts. |
| Errors.Name | src/application/errors/errors.ts:7-49 | The `name` each error class sets: its class name, which ends in `Error`. |
| Errors.Message | src/application/errors/errors.ts:8-50 | The `message` each error class sets and logs: a non-empty sentence ending in `!`. |
| Errors.NamesIdentifyKinds | src/application/errors/errors.ts:4-55 | Two errors have the same `name` exactly when they are of the same class. |
| Errors.MessageInitial | src/application/errors/errors.ts:8-50 | Each message is non-empty, and its first character tells the four classes apart. |
| Errors.MessageInjective | src/application/errors/errors.ts:8-50 | The message text determines the error, including the maximum it embeds. |
| Errors.DimensionCapacityMessage | src/application/errors/errors.ts:36 | The capacity error for the limit 30, which is the one raised for dimensions, reads "Cannot add more than 30 metrics to a single metric log!". |
| Errors.BoundsMessages | src/application/errors/errors.ts:50 | The length errors read "Value must be between 1-255 characters!" and "Value must be between 1-1024 characters!". |
| KeyOrder.BelowAtFirstDifference | src/domain/entities/MikroMetric.ts:296-297 | The key order `KeyOrder.Below` used for the sort is lexicographic: one key sorts first exactly when it is a proper prefix of the other, or has the lower character where they first differ. |
| KeyOrder.BelowTransitive | src/domain/entities/MikroMetric.ts:296-297 | The string order used by `sort` is transitive. |
| KeyOrder.BelowTotal | src/domain/entities/MikroMetric.ts:296-297 | Any two distinct strings are ordered one way or the other. |
| KeyOrder.LeastExists | src/domain/entities/MikroMetric.ts:296-297 | Every non-empty set of keys has a first key. |
| KeyOrder.LeastUnique | src/domain/entities/MikroMetric.ts:296-297 | That first key is unique. |
| Output.Merge | src/domain/entities/MikroMetric.ts:225-229 | The spread `{...dynamic, ...config, ...record}` has every key of the three sources. The record wins over the configuration, and the configuration wins over the dynamic metadata. |
| Output.SortEntries | src/domain/entities/MikroMetric.ts:293-301 | The sorted rendering of an object lists exactly its fields with their values, keys strictly ascending. |
| Output.RendersUnique | src/domain/entities/MikroMetric.ts:293-301 | An object has exactly one such sorted rendering. |
| Output.LeastOf | src/domain/entities/MikroMetric.ts:296-297 | One pass over a non-empty key set finds its first key. |
| Output.SortOutput | src/domain/entities/MikroMetric.ts:293-301 | `sortOutput` emits every field of its input once, with its value, in ascending key order, except a field named `__proto__`, whose assignment creates no field. Its output equals `SortEntries` of the input without that key. |
| Output.KeepTruthy | src/domain/entities/MikroMetric.ts:279-288 | An entry survives the filter exactly when it was in the input and its value is truthy. The result is no longer than the input. |
| Output.KeepTruthySorted | src/domain/entities/MikroMetric.ts:279-288 | Filtering keeps the ascending key order. |
| Output.RenderedFilter | src/domain/entities/MikroMetric.ts:284 | After sorting and filtering an object, a field (k, v) is present exactly when the object maps k to v and v is truthy. |
| Output.FilterMetadata | src/domain/entities/MikroMetric.ts:279-288 | The `forEach` loop of `filterMetadata` computes `KeepTruthy` of its input. |
| Output.EmittedFields | src/domain/entities/MikroMetric.ts:225-231 | Sorting then filtering an object (`Output.Emitted`) gives entries sorted by key that are exactly its truthy fields other than `__proto__`. |
| Builder.HasNonAsciiCharacters | src/domain/entities/MikroMetric.ts:256-259 | The check passes exactly when every character code is at most 127. Otherwise it throws `HasNonAsciiCharactersError`. |
| Builder.IsLengthWithinBounds | src/domain/entities/MikroMetric.ts:271-274 | The check passes exactly when the length lies in 1..max, both ends included. Otherwise it throws `LengthNotWithinBoundsError(max)`. |
| Builder.CanAddMoreItemsToArray | src/domain/entities/MikroMetric.ts:264-266 | The check passes exactly when the list has at most `max` items. Otherwise it throws `CannotAddMoreItemsToArrayError(max)`. |
| Builder.BaseMetric | src/domain/entities/MikroMetric.ts:205-219 | A fresh record has only the `service` property. Its envelope carries the given time and namespace, the single dimension `service` and no metrics. |
| Builder.EnvelopeValue | src/domain/entities/MikroMetric.ts:206-218 | The emitted `_aws` object has exactly the keys `Timestamp` and `CloudWatchMetrics`. The latter is a one-element array whose object has exactly `Namespace`, `Dimensions` (one list of dimension keys) and `Metrics`, filled from the envelope. |
| Builder.Construct | src/domain/entities/MikroMetric.ts:47-55 | The constructor stores the names and defaults an absent event or context to `{}`. It clears the configuration and the correlation id, and makes a fresh record. |
| Builder.ResolveName | src/domain/entities/MikroMetric.ts:65-66 | A name is taken from the input if given, otherwise from the environment variable. It is empty exactly when both are missing or empty. |
| Builder.Start | src/domain/entities/MikroMetric.ts:64-85 | `start` throws `MissingRequiredStartParamsError` exactly when a resolved name is empty. Otherwise it stores the names, and the event, context, configuration and correlation id, each with its fallback to the stored value. It creates a record only when there is no instance yet. |
| Builder.StartSuccess | src/domain/entities/MikroMetric.ts:64-85 | The whole state after a successful `start`, written out. |
| Builder.Reset | src/domain/entities/MikroMetric.ts:92-94 | `reset` keeps only the names. Event and context become `{}`, the configuration and correlation id are cleared, and the record starts over. |
| Builder.SetCorrelationId | src/domain/entities/MikroMetric.ts:101-103 | The correlation id is stored as given, and nothing else changes. |
| Builder.SetNamespace | src/domain/entities/MikroMetric.ts:110-115 | The ASCII check comes first, then the 1..255 length check. On success only the stored namespace changes; the current record's envelope does not. |
| Builder.SetProperty | src/domain/entities/MikroMetric.ts:179-184 | The key is checked for ASCII, then for length 1..255. On success the record's property is set, unless the key is `__proto__`, which stores nothing; nothing else changes. |
| Builder.PutDimension | src/domain/entities/MikroMetric.ts:140-150 | The five checks run in the source's order, and the first to fail decides the error, with nothing written. Success holds exactly when all five pass and the key is not `_aws`. It sets the property to the value (no field for the key `__proto__`) and appends the key to the dimension list, and nothing else changes. With the key `_aws` and all checks passed, the call throws a TypeError after writing the value as the `_aws` property: the envelope and everything else are unchanged. |
| Builder.UnitOrDefault | src/domain/entities/MikroMetric.ts:168 | The unit is never empty: a missing unit becomes `None`, and a given unit is kept. |
| Builder.PutMetric | src/domain/entities/MikroMetric.ts:159-170 | Three checks run in order: key ASCII, key length, metric count, and the first to fail decides the error, with nothing written. The value is not checked. Success holds exactly when all three pass and the key is not `_aws`. Then the property is set (no field for the key `__proto__`) and the definition (key, unit or `None`) is appended; nothing else changes. With the key `_aws` and all checks passed, the call throws a TypeError after writing the value as the `_aws` property, and declares no metric. |
| Builder.RecordMap | src/domain/entities/MikroMetric.ts:183 | The record as an object: its properties plus `_aws`. A property named `_aws` overrides the envelope. |
| Builder.CreateDynamicMetadata | src/domain/entities/MikroMetric.ts:240-251 | The helper's fields, plus four more: `correlationId` (the stored id if non-empty, else the helper's), `id`, `timestamp` (ISO text) and `timestampEpoch` (milliseconds in decimal). |
| Builder.MergedRecordKeys | src/domain/entities/MikroMetric.ts:225-229 | The merged object `{...dynamic, ...metadataConfig, ...metric}` (`Builder.MergedRecord`) has exactly the helper's keys, the four added keys, the configuration's keys, the properties and `_aws`. |
| Builder.MergedRecordValues | src/domain/entities/MikroMetric.ts:225-229 | In the merged object a property wins over everything else, and `_aws` is the envelope unless a property of that name exists. A configuration field wins over the dynamic metadata. |
| Builder.FlushOutputFields | src/domain/entities/MikroMetric.ts:224-234 | The contract of `Builder.FlushOutput`, the record `createMetricObject` and `flush` return: it is sorted by key. It holds a field (k, v) exactly when k is not `__proto__`, the merged object maps k to v, and v is truthy. |
| Metrics.MikroMetric.constructor | src/domain/entities/MikroMetric.ts:38-45 | The static fields as the module loads: no instance, nothing stored. |
| Metrics.MikroMetric.Create | src/domain/entities/MikroMetric.ts:47-55 | The private constructor stores the two names, defaults an absent event or context to `{}`, clears the configuration and the correlation id, and makes the fresh record `{ service }` with an envelope of the names, the clock and no metrics. Whether an instance exists is unchanged. |
| Metrics.MikroMetric.CreateBaseMetricObject | src/domain/entities/MikroMetric.ts:205-219 | The live record becomes `{ service: serviceName }` with an envelope holding the time, the namespace, the one dimension `service` and no metrics. No other field changes. |
| Metrics.MikroMetric.Start | src/domain/entities/MikroMetric.ts:64-85 | The outcome and the new state are those of `Builder.Start`. A throw leaves the state unchanged. |
| Metrics.MikroMetric.Install | src/domain/entities/MikroMetric.ts:74-82 | Afterwards an instance exists and the six inputs are the static fields. An existing record is kept; without an instance a fresh record of the new names is made. |
| Metrics.MikroMetric.Reset | src/domain/entities/MikroMetric.ts:92-94 | The new state is `Builder.Reset` of the old one. |
| Metrics.MikroMetric.SetCorrelationId | src/domain/entities/MikroMetric.ts:101-103 | The new state is `Builder.SetCorrelationId` of the old one. |
| Metrics.MikroMetric.SetNamespace | src/domain/entities/MikroMetric.ts:110-115 | The outcome and the new state are those of `Builder.SetNamespace`. A throw leaves the state unchanged. |
| Metrics.MikroMetric.GetNamespace | src/domain/entities/MikroMetric.ts:120-122 | Returns the stored namespace. |
| Metrics.MikroMetric.GetServiceName | src/domain/entities/MikroMetric.ts:127-129 | Returns the stored service name. |
| Metrics.MikroMetric.PutDimension | src/domain/entities/MikroMetric.ts:140-150 | The outcome and the new state are those of `Builder.PutDimension`: a failed check leaves the state unchanged, and the key `_aws` throws a TypeError after the property write. |
| Metrics.MikroMetric.PutMetric | src/domain/entities/MikroMetric.ts:159-170 | The outcome and the new state are those of `Builder.PutMetric`: a failed check leaves the state unchanged, and the key `_aws` throws a TypeError after the property write. |
| Metrics.MikroMetric.SetProperty | src/domain/entities/MikroMetric.ts:179-184 | The outcome and the new state are those of `Builder.SetProperty`. A throw leaves the state unchanged. |
| Metrics.MikroMetric.Flush | src/domain/entities/MikroMetric.ts:192-197 | Returns `Builder.FlushOutput` of the state before the call, with the metadata helper applied to the stored event and context, then resets it. |
| Metrics.MikroMetric.CreateMetricObject | src/domain/entities/MikroMetric.ts:224-234 | The merge, sort and filter loops produce `Builder.FlushOutput` of the current state, with the helper's metadata for the stored event and context, and change nothing. |
| MetricProperties.RunCapacity | src/domain/entities/MikroMetric.ts:264-266 | A run of calls that each append one entry while the list holds at most `max` entries, and otherwise fail with one error, succeeds exactly when the list ends with at most `max + 1` entries. Then it has appended the entries in order; otherwise it fails with that error. |
| MetricProperties.DimensionCapacity | src/domain/entities/MikroMetric.ts:140-150 | Given valid pairs (valid ASCII key and value, key not `_aws`), a run of `putDimension` calls succeeds exactly when the list ends with at most 31 entries. On success it appends the keys in order; on failure it throws the capacity error with limit 30. |
| MetricProperties.ThirtyDimensionsPerRecord | src/domain/entities/MikroMetric.ts:145 | From a fresh record, 30 valid dimensions (none with the key `_aws`) are accepted and the 31st throws `CannotAddMoreItemsToArrayError(30)`. |
| MetricProperties.MetricCapacity | src/domain/entities/MikroMetric.ts:159-170 | Given valid keys other than `_aws`, a run of `putMetric` calls succeeds exactly when the list ends with at most 101 entries. On success it appends the definitions in order; on failure it throws the capacity error with limit 100. |
| MetricProperties.HundredAndOneMetricsPerRecord | src/domain/entities/MikroMetric.ts:162 | From an empty metric list, 101 metrics with valid keys other than `_aws` are accepted and the 102nd throws `CannotAddMoreItemsToArrayError(100)`. |
| MetricProperties.EnvelopeKeyDimensionThrows | src/domain/entities/MikroMetric.ts:140-150 | A `putDimension('_aws', v)` that passes its checks throws the TypeError, adds no dimension, and the next flush carries `v` as its `_aws` field. |
| MetricProperties.PropertyReachesFlush | src/domain/entities/MikroMetric.ts:179-184 | A property set to a truthy value appears, with that value, in the next flushed record; one named `__proto__` never appears. |
| MetricProperties.ZeroMetricDropped | src/domain/entities/MikroMetric.ts:284 | A metric put with the value 0 has no field at all in the flushed record. |
| MetricProperties.CorrelationIdOverridesHelper | src/domain/entities/MikroMetric.ts:246 | An id set with `setCorrelationId` is the flushed `correlationId`, overriding the helper, unless the configuration or the record has that key. |
| MetricProperties.HelperCorrelationIdOtherwise | src/domain/entities/MikroMetric.ts:246 | Without a stored id, the helper's non-empty correlation id is flushed. |
| MetricProperties.FlushStartsOver | src/domain/entities/MikroMetric.ts:192-197 | After a flush or reset, the next record's envelope declares only `service`, no metrics, and the current namespace, and its `service` field is the service name, which is never empty while the instance exists. |
| MetricProperties.NamesStaySet | src/domain/entities/MikroMetric.ts:64-115 | Once the instance exists its namespace and service name are non-empty. This holds at load time and after `start`, `reset`, `setCorrelationId`, `setNamespace`, `setProperty`, `putDimension` and `putMetric`, whether they succeed or throw. |
| MetricProperties.NamespaceReachesRecordAfterReset | src/domain/entities/MikroMetric.ts:110-115 | `setNamespace` leaves the current record alone. The next reset puts the new namespace in the envelope. |
| MetricProperties.GettersReportStartedNames | src/domain/entities/MikroMetric.ts:120-129 | The getters return the non-empty names that `start` resolved, and `getNamespace` returns a namespace set later. |
| MetricProperties.EnvelopeRoundTrip | src/domain/entities/MikroMetric.ts:205-219 | Decoding the emitted `_aws` object gives back the envelope: timestamp, namespace, dimensions and metric definitions. |
| MetricProperties.FlushDeclaresEnvelope | src/domain/entities/MikroMetric.ts:224-234 | A flushed record, without an overriding `_aws` property, carries an `_aws` field that decodes to the record's envelope. |

## Left out

- Writing to standard output in `flush` is not modelled, and neither is `console.error` in the error constructors. `Metrics.MikroMetric.Flush` returns the record instead.
- The inputs the library reads from its environment are parameters of the operations:
  - `getMetadata(event, context)` from `aws-metadata-utils` is the function parameter `getMetadata` of `Flush`, applied to the stored event and context; the `Builder` functions take its result, a map of strings, as `metadata`;
  - `randomUUID()` is the string `id`;
  - `Date.now()` is `now` or `nowMs`;
  - `toISOString()` is the string `isoTime`;
  - `process.env` is `env`.
  The helper's own logic is not part of this model. Its non-string fields are not modelled.
- Builder.FlushOutput: the deep copy `JSON.parse(JSON.stringify(...))` is taken as the identity. Values that JSON cannot carry are not modelled:
  - `NaN` and the infinities;
  - `undefined` members inside nested objects.
- Output.SortOutput: the output assumes two things the source does not guarantee. The source's `Object.entries(...).sort()`:
  - compares whole `"key,value"` strings, which differs from key order when one key is a proper prefix of another followed by a character at or below `,` (`,` itself included);
  - builds a JavaScript object, which lists integer-like keys first.
  Neither quirk is modelled.
- KeyOrder.Below: keys are compared by Unicode scalar values, not by UTF-16 code units as JavaScript's `sort` does. The orders differ when a character at or above U+10000 meets one in U+E000..U+FFFF at the first difference: the model puts `"\uFFFF"` before `"\u{10000}"`, and the source puts it after. Only non-ASCII keys reach this case, from `metadataConfig` or the metadata helper. Every key the builder validates is ASCII. Lengths are unaffected for the same reason: only ASCII strings reach a length check.
- Output.FilterMetadata: its own assignment `filteredMetadata[key] = value` is not modelled as dropping `__proto__`. Its input comes from `sortOutput`, which never emits that key.
- Builder.SetProperty: a property named `_aws` is stored as the model says, with one difference from the source. In the source it also replaces the live envelope object. The model keeps the envelope separately, and lets `_aws` win only in the flushed record. The consequence for the put operations is on the next line.
- Builder.PutDimension, Builder.PutMetric, Metrics.MikroMetric.PutDimension, Metrics.MikroMetric.PutMetric: after an earlier `setProperty('_aws', v)`, or a put with the key `_aws`, the source reads the capacity through `v` at src/domain/entities/MikroMetric.ts:145 and :162. It throws a TypeError there unless `v` has the envelope's shape, and then updates `v` rather than the envelope. The model goes on using the kept envelope. This is not modelled because the outcome depends on the shape of an arbitrary value at each step of the access chain. The put with the key `_aws` itself is modelled: it throws after its write.
- MetricProperties.DimensionCapacity, MetricProperties.ThirtyDimensionsPerRecord, MetricProperties.MetricCapacity, MetricProperties.HundredAndOneMetricsPerRecord: the runs take keys other than `_aws`, because a put with that key throws a TypeError rather than appending (stated by `Builder.PutDimension`, `Builder.PutMetric` and `MetricProperties.EnvelopeKeyDimensionThrows`). They also take the kept envelope as the list, so a starting record holding an `_aws` property, for which the source throws at :145 or :162 as the line above says, is not excluded.
- Builder.PutMetric: with the key `_aws`, the model throws the TypeError for every value. The source would instead push onto an object value that has the envelope's shape. The declared value type `string | number` excludes such values, and strings and numbers always throw.
- Metric and property values are JavaScript values whose numbers are mathematical reals. The text `${n}` is modelled only for natural numbers; exponent notation for large numbers is not modelled.
- Concurrency and re-entrancy are not modelled. A Lambda container runs one invocation at a time.
- The compiled copies under `lib/` and `dist/` are not modelled. One of them keeps the value `0` in `filterMetadata`, a behaviour the TypeScript source does not share.
- The type-level restrictions on `unit` (the `Unit` union) and on property values are not modelled. Any string unit is accepted, as at run time.
