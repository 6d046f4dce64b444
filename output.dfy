/**
 * The last steps of a flush: merging the three sources of fields, sorting
 * the merged object by key (`sortOutput`) and dropping falsy fields
 * (`filterMetadata`). A JavaScript object whose keys are iterated in a
 * known order is modelled as a sequence of (key, value) entries.
 */
module Output {
  import opened Values
  import opened KeyOrder

  type Entries = seq<(string, Value)>

  /** Keys strictly ascending, hence also distinct. */
  ghost predicate SortedByKey(e: Entries) {
    forall i, j :: 0 <= i < j < |e| ==> Below(e[i].0, e[j].0)
  }

  /** `e` lists exactly the fields of `m`, in ascending key order. */
  ghost predicate Renders(e: Entries, m: map<string, Value>) {
    && SortedByKey(e)
    && (forall i :: 0 <= i < |e| ==> e[i].0 in m && m[e[i].0] == e[i].1)
    && (forall k :: k in m ==> exists i :: 0 <= i < |e| && e[i].0 == k)
  }

  /**
   * `{...dynamic, ...config, ...record}`: every key of the three sources,
   * a later source winning on a key collision.
   */
  function Merge(dynamic: map<string, Value>, config: map<string, Value>, record: map<string, Value>)
    : (r: map<string, Value>)
    ensures r.Keys == dynamic.Keys + config.Keys + record.Keys
    ensures forall k :: k in record ==> r[k] == record[k]
    ensures forall k :: k in config && k !in record ==> r[k] == config[k]
    ensures forall k :: k in dynamic && k !in config && k !in record ==> r[k] == dynamic[k]
  {
    dynamic + config + record
  }

  /** A key below every key of a sorted list may go in front of it. */
  lemma SortedCons(entry: (string, Value), tail: Entries)
    requires SortedByKey(tail)
    requires forall i :: 0 <= i < |tail| ==> Below(entry.0, tail[i].0)
    ensures SortedByKey([entry] + tail)
  {
    var e := [entry] + tail;
    forall i, j | 0 <= i < j < |e| ensures Below(e[i].0, e[j].0) {
      assert e[j] == tail[j - 1];
      if i > 0 { assert e[i] == tail[i - 1]; }
    }
  }

  lemma {:induction false} RendersCons(k: string, m: map<string, Value>, tail: Entries)
    requires IsLeast(k, m.Keys)
    requires Renders(tail, m - {k})
    ensures Renders([(k, m[k])] + tail, m)
  {
    var e := [(k, m[k])] + tail;
    forall i | 0 <= i < |tail| ensures Below(k, tail[i].0) {
      assert tail[i].0 in m - {k};
    }
    SortedCons((k, m[k]), tail);
    forall key | key in m ensures exists i :: 0 <= i < |e| && e[i].0 == key {
      if key == k {
        assert e[0].0 == key;
      } else {
        assert key in m - {k};
        var i :| 0 <= i < |tail| && tail[i].0 == key;
        assert e[i + 1].0 == key;
      }
    }
    forall i | 0 <= i < |e| ensures e[i].0 in m && m[e[i].0] == e[i].1 {
      if i > 0 { assert e[i] == tail[i - 1]; }
    }
  }

  /** The fields of `m` in ascending key order: what `sortOutput` produces. */
  ghost function SortEntries(m: map<string, Value>): (r: Entries)
    ensures Renders(r, m)
    decreases |m|
  {
    if |m| == 0 then []
    else
      var k := Least(m.Keys);
      assert (m - {k}).Keys == m.Keys - {k};
      RendersCons(k, m, SortEntries(m - {k}));
      [(k, m[k])] + SortEntries(m - {k})
  }

  /** The first entry of a rendering is the least key, and the rest renders the others. */
  lemma RendersTail(e: Entries, m: map<string, Value>)
    requires Renders(e, m) && |e| > 0
    ensures IsLeast(e[0].0, m.Keys) && e[0].1 == m[e[0].0]
    ensures Renders(e[1..], m - {e[0].0})
  {
    var k := e[0].0;
    forall j | j in m && j != k ensures Below(k, j) {
      var i :| 0 <= i < |e| && e[i].0 == j;
    }
    var t := e[1..];
    forall i | 0 <= i < |t| ensures t[i].0 in m - {k} && (m - {k})[t[i].0] == t[i].1 {
      assert t[i] == e[i + 1];
      BelowIrreflexive(k);
    }
    forall key | key in m - {k} ensures exists i :: 0 <= i < |t| && t[i].0 == key {
      var i :| 0 <= i < |e| && e[i].0 == key;
      assert t[i - 1].0 == key;
    }
  }

  /** Only the empty object renders as no entries. */
  lemma RendersEmpty(e: Entries, m: map<string, Value>)
    requires Renders(e, m)
    ensures e == [] <==> m == map[]
  {
    if e != [] {
      assert e[0].0 in m;
    } else {
      assert forall k :: k !in m;
    }
  }

  /** Two renderings of one object start with the same entry. */
  lemma RendersSameHead(a: Entries, b: Entries, m: map<string, Value>)
    requires Renders(a, m) && Renders(b, m) && a != []
    ensures b != [] && a[0] == b[0]
    ensures Renders(a[1..], m - {a[0].0}) && Renders(b[1..], m - {a[0].0})
  {
    RendersEmpty(a, m);
    RendersEmpty(b, m);
    RendersTail(a, m);
    RendersTail(b, m);
    LeastUnique(a[0].0, b[0].0, m.Keys);
  }

  lemma SameHeadAndTail<T>(a: seq<T>, b: seq<T>)
    requires a != [] && b != [] && a[0] == b[0] && a[1..] == b[1..]
    ensures a == b
  {
    assert a == [a[0]] + a[1..] && b == [b[0]] + b[1..];
  }

  /** A map has exactly one rendering. */
  lemma {:induction false} RendersUnique(a: Entries, b: Entries, m: map<string, Value>)
    requires Renders(a, m) && Renders(b, m)
    ensures a == b
    decreases |a|
  {
    if a == [] {
      RendersEmpty(a, m);
      RendersEmpty(b, m);
    } else {
      RendersSameHead(a, b, m);
      RendersUnique(a[1..], b[1..], m - {a[0].0});
      SameHeadAndTail(a, b);
    }
  }

  /**
   * What `sortOutput` has done once the keys outside `remaining` are
   * emitted: `out` renders exactly those fields, and every one of them
   * sorts below every key still to come.
   */
  ghost predicate SortedPrefix(input: map<string, Value>, remaining: set<string>, out: Entries) {
    && remaining <= input.Keys
    && Renders(out, map k | k in input && k !in remaining :: input[k])
    && (forall i, k :: 0 <= i < |out| && k in remaining ==> Below(out[i].0, k))
  }

  /** Emitting the least remaining key keeps `SortedPrefix`. */
  lemma SortStep(input: map<string, Value>, remaining: set<string>, out: Entries, k: string)
    requires SortedPrefix(input, remaining, out)
    requires IsLeast(k, remaining)
    ensures SortedPrefix(input, remaining - {k}, out + [(k, input[k])])
  {
    var done := map j | j in input && j !in remaining :: input[j];
    var done' := map j | j in input && j !in remaining - {k} :: input[j];
    var e := out + [(k, input[k])];
    forall i, j | 0 <= i < j < |e| ensures Below(e[i].0, e[j].0) {
      if j < |out| { assert e[i] == out[i] && e[j] == out[j]; }
      else { assert e[i] == out[i]; }
    }
    forall i | 0 <= i < |e| ensures e[i].0 in done' && done'[e[i].0] == e[i].1 {
      if i < |out| { assert e[i] == out[i]; }
    }
    forall key | key in done' ensures exists i :: 0 <= i < |e| && e[i].0 == key {
      if key == k {
        assert e[|out|].0 == key;
      } else {
        assert key in done;
        var i :| 0 <= i < |out| && out[i].0 == key;
        assert e[i].0 == key;
      }
    }
    forall i, j | 0 <= i < |e| && j in remaining - {k} ensures Below(e[i].0, j) {
      if i < |out| { assert e[i] == out[i]; }
    }
  }

  /** The least key of a set is also the least of any subset holding it. */
  lemma LeastOfSubset(k: string, keys: set<string>, subset: set<string>)
    requires IsLeast(k, keys) && subset <= keys && k in subset
    ensures IsLeast(k, subset)
  {
  }

  /**
   * One round of `sortOutput`'s loop: the least remaining key is emitted,
   * unless it is `__proto__`, and either way leaves the keys to come.
   */
  lemma SortAdvance(input: map<string, Value>, remaining: set<string>, pending: set<string>, out: Entries, k: string)
    requires remaining <= input.Keys && pending == remaining - {ProtoKey}
    requires SortedPrefix(input - {ProtoKey}, pending, out) && IsLeast(k, remaining)
    ensures pending - {k} == (remaining - {k}) - {ProtoKey}
    ensures k != ProtoKey ==> SortedPrefix(input - {ProtoKey}, pending - {k}, out + [(k, input[k])])
    ensures k == ProtoKey ==> SortedPrefix(input - {ProtoKey}, pending - {k}, out)
  {
    if k != ProtoKey {
      LeastOfSubset(k, remaining, pending);
      SortStep(input - {ProtoKey}, pending, out, k);
    } else {
      assert pending - {k} == pending;
    }
  }

  /** The first key of a non-empty set, found by one pass over it. */
  method LeastOf(keys: set<string>) returns (k: string)
    requires keys != {}
    ensures IsLeast(k, keys)
  {
    k :| k in keys;
    var rest := keys - {k};
    while rest != {}
      invariant rest <= keys && k in keys && k !in rest
      invariant forall j :: j in keys && j !in rest && j != k ==> Below(k, j)
      decreases |rest|
    {
      var x :| x in rest;
      if Below(x, k) {
        forall j | j in keys && j !in rest && j != x ensures Below(x, j) {
          if j != k { BelowTransitive(x, k, j); }
        }
        k := x;
      } else {
        BelowTotal(x, k);
      }
      rest := rest - {x};
    }
  }

  /**
   * `sortOutput`: the entries of `input` in ascending key order, emitted
   * one at a time into a fresh object; the assignment of an entry with the
   * key `__proto__` creates no field there. On the source's own comparison:
   * `Object.entries(input).sort()` compares the strings "key,value", which
   * agrees with key order except when one key is a proper prefix of another
   * and the next character of the longer key sorts at or below ','; and a
   * JavaScript object lists integer-like keys ("0", "29") first whatever
   * order they are inserted in. Neither quirk is modelled.
   */
  method SortOutput(input: map<string, Value>) returns (out: Entries)
    ensures Renders(out, input - {ProtoKey})
    ensures out == SortEntries(input - {ProtoKey})
  {
    ghost var visible := input - {ProtoKey};
    var remaining := input.Keys;
    ghost var pending := visible.Keys;
    out := [];
    assert (map k | k in visible && k !in pending :: visible[k]) == map[];
    while remaining != {}
      invariant remaining <= input.Keys && pending == remaining - {ProtoKey}
      invariant SortedPrefix(visible, pending, out)
      decreases |remaining|
    {
      var k := LeastOf(remaining);
      SortAdvance(input, remaining, pending, out, k);
      if k != ProtoKey {
        out := out + [(k, input[k])];
      }
      pending := pending - {k};
      remaining := remaining - {k};
    }
    assert (map k | k in visible && k !in pending :: visible[k]) == visible;
    RendersUnique(out, SortEntries(visible), visible);
  }

  /** `filterMetadata`'s result: the truthy entries, in their original order. */
  function KeepTruthy(e: Entries): (r: Entries)
    ensures forall x :: x in r <==> x in e && Truthy(x.1)
    ensures |r| <= |e|
  {
    if e == [] then []
    else
      var last := e[|e| - 1];
      KeepTruthy(e[..|e| - 1]) + (if Truthy(last.1) then [last] else [])
  }

  /** Filtering keeps the ascending key order. */
  lemma {:induction false} KeepTruthySorted(e: Entries)
    requires SortedByKey(e)
    ensures SortedByKey(KeepTruthy(e))
  {
    if e != [] {
      var init, last := e[..|e| - 1], e[|e| - 1];
      KeepTruthySorted(init);
      var r := KeepTruthy(init);
      if Truthy(last.1) {
        forall i | 0 <= i < |r| ensures Below(r[i].0, last.0) {
          assert r[i] in init;
          var j :| 0 <= j < |init| && init[j] == r[i];
          assert e[j] == init[j];
        }
      }
    }
  }

  /** The fields of a rendering that survive the filter. */
  lemma RenderedFilter(e: Entries, m: map<string, Value>, k: string, v: Value)
    requires Renders(e, m)
    ensures (k, v) in KeepTruthy(e) <==> k in m && m[k] == v && Truthy(v)
  {
    if k in m && m[k] == v && Truthy(v) {
      var i :| 0 <= i < |e| && e[i].0 == k;
      assert e[i] == (k, v);
    }
  }

  /**
   * An object as `sortOutput` and then `filterMetadata` emit it: the truthy
   * fields other than `__proto__`, in ascending key order.
   */
  ghost function Emitted(m: map<string, Value>): Entries {
    KeepTruthy(SortEntries(m - {ProtoKey}))
  }

  /** The emitted entries are sorted by key and are exactly the truthy fields not named `__proto__`. */
  lemma EmittedFields(m: map<string, Value>)
    ensures SortedByKey(Emitted(m))
    ensures forall k, v :: (k, v) in Emitted(m) <==> k != ProtoKey && k in m && m[k] == v && Truthy(v)
  {
    var visible := m - {ProtoKey};
    var sorted := SortEntries(visible);
    KeepTruthySorted(sorted);
    forall k, v ensures (k, v) in KeepTruthy(sorted) <==> k in visible && visible[k] == v && Truthy(v) {
      RenderedFilter(sorted, visible, k, v);
    }
  }

  /**
   * `filterMetadata`: copy every entry whose value is truthy into a fresh
   * object, in order. This drops "", null, undefined, false and 0.
   */
  method FilterMetadata(metadata: Entries) returns (out: Entries)
    ensures out == KeepTruthy(metadata)
  {
    out := [];
    var i := 0;
    while i < |metadata|
      invariant 0 <= i <= |metadata|
      invariant out == KeepTruthy(metadata[..i])
    {
      var entry := metadata[i];
      assert metadata[..i + 1][..i] == metadata[..i];
      if Truthy(entry.1) {
        out := out + [entry];
      }
      i := i + 1;
    }
    assert metadata[..i] == metadata;
  }
}
