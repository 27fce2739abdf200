/**
 * Spans as the tracing client sends them, and the two last-write-wins
 * indexes the server keeps of them.
 */
module Spans {

  type U64 = x: int | 0 <= x < 0x1_0000_0000_0000_0000
  type I64 = x: int | -0x8000_0000_0000_0000 <= x < 0x8000_0000_0000_0000
  type I32 = x: int | -0x8000_0000 <= x < 0x8000_0000

  /**
   * One recorded unit of work. `kind` is the wire field `type`. The float
   * `metrics` map is not modelled; every other field is carried unchanged.
   */
  datatype Span = Span(
    name: string,
    service: string,
    resource: string,
    kind: string,
    start: I64,
    duration: I64,
    meta: map<string, string>,
    spanId: U64,
    traceId: U64,
    parentId: U64,
    error: I32)

  type Trace = seq<Span>

  /** The unit decoded from one ingestion request. */
  type Batch = seq<Trace>

  /** The number of spans in all traces of a batch. */
  function TotalSpans(batch: Batch): nat
  {
    if batch == [] then 0 else TotalSpans(batch[1..]) + |batch[0]|
  }

  lemma {:induction false} TotalSpansSnoc(batch: Batch, trace: Trace)
    ensures TotalSpans(batch + [trace]) == TotalSpans(batch) + |trace|
  {
    if batch != [] {
      assert (batch + [trace])[1..] == batch[1..] + [trace];
      TotalSpansSnoc(batch[1..], trace);
    }
  }

  /** The spans of a batch in trace-then-span order: as many as all traces hold together. */
  function Flatten(batch: Batch): (r: seq<Span>)
    ensures |r| == TotalSpans(batch)
  {
    if batch == [] then []
    else
      var init := batch[..|batch| - 1];
      TotalSpansSnoc(init, batch[|batch| - 1]);
      assert init + [batch[|batch| - 1]] == batch;
      Flatten(init) + batch[|batch| - 1]
  }

  /** Flattening two batches one after the other is flattening their concatenation. */
  lemma {:induction false} FlattenAppend(a: Batch, b: Batch)
    ensures Flatten(a + b) == Flatten(a) + Flatten(b)
  {
    if b == [] {
      assert a + b == a;
    } else {
      var init := b[..|b| - 1];
      FlattenAppend(a, init);
      assert (a + b)[..|a + b| - 1] == a + init;
      assert (a + b)[|a + b| - 1] == b[|b| - 1];
    }
  }

  /** A span is written by a batch exactly when it occurs in one of its traces. */
  lemma {:induction false} FlattenMembers(batch: Batch, sp: Span)
    ensures sp in Flatten(batch) <==> exists t :: 0 <= t < |batch| && sp in batch[t]
  {
    if batch != [] {
      var init := batch[..|batch| - 1];
      FlattenMembers(init, sp);
      if sp in Flatten(batch) && sp !in batch[|batch| - 1] {
        var t :| 0 <= t < |init| && sp in init[t];
        assert batch[t] == init[t];
      }
      if (exists t :: 0 <= t < |batch| && sp in batch[t]) && sp !in batch[|batch| - 1] {
        var t :| 0 <= t < |batch| && sp in batch[t];
        assert init[t] == batch[t];
      }
    }
  }

  function IdOf(sp: Span): U64 { sp.spanId }

  function NameOf(sp: Span): string { sp.name }

  /**
   * Writes `spans` into `m` one after the other under `key`, so that a later
   * span overwrites an earlier one with the same key.
   */
  function Merge<K>(m: map<K, Span>, spans: seq<Span>, key: Span -> K): (r: map<K, Span>)
    ensures m.Keys <= r.Keys
    ensures forall j :: 0 <= j < |spans| ==> key(spans[j]) in r
  {
    if spans == [] then m
    else
      var last := spans[|spans| - 1];
      Merge(m, spans[..|spans| - 1], key)[key(last) := last]
  }

  /** Merging two lists one after the other is merging their concatenation. */
  lemma {:induction false} MergeAppend<K>(m: map<K, Span>, a: seq<Span>, b: seq<Span>, key: Span -> K)
    ensures Merge(m, a + b, key) == Merge(Merge(m, a, key), b, key)
  {
    if b != [] {
      assert (a + b)[..|a + b| - 1] == a + b[..|b| - 1];
      MergeAppend(m, a, b[..|b| - 1], key);
    } else {
      assert a + b == a;
    }
  }

  /** A span that no later span shares a key with is the one stored under its key. */
  lemma {:induction false} MergeLastWins<K>(m: map<K, Span>, spans: seq<Span>, key: Span -> K, i: nat)
    requires i < |spans|
    requires forall j :: i < j < |spans| ==> key(spans[j]) != key(spans[i])
    ensures key(spans[i]) in Merge(m, spans, key)
    ensures Merge(m, spans, key)[key(spans[i])] == spans[i]
  {
    if i < |spans| - 1 {
      MergeLastWins(m, spans[..|spans| - 1], key, i);
    }
  }

  /** A key that no span carries keeps its previous entry, or its absence. */
  lemma {:induction false} MergeUntouched<K>(m: map<K, Span>, spans: seq<Span>, key: Span -> K, k: K)
    requires forall j :: 0 <= j < |spans| ==> key(spans[j]) != k
    ensures k in Merge(m, spans, key) <==> k in m
    ensures k in m ==> Merge(m, spans, key)[k] == m[k]
  {
    if spans != [] {
      MergeUntouched(m, spans[..|spans| - 1], key, k);
    }
  }

  /** The keys afterwards are the old keys and the keys of the spans written. */
  lemma {:induction false} MergeKeys<K>(m: map<K, Span>, spans: seq<Span>, key: Span -> K)
    ensures Merge(m, spans, key).Keys == m.Keys + set j | 0 <= j < |spans| :: key(spans[j])
  {
    if spans != [] {
      var init := spans[..|spans| - 1];
      MergeKeys(m, init, key);
      assert (set j | 0 <= j < |spans| :: key(spans[j]))
          == (set j | 0 <= j < |init| :: key(init[j])) + {key(spans[|spans| - 1])};
    }
  }

  /** Every entry is filed under its own key. */
  ghost predicate KeyedBy<K>(m: map<K, Span>, key: Span -> K)
  {
    forall k :: k in m ==> key(m[k]) == k
  }

  /**
   * Merging keeps every entry under its own key, and every entry afterwards
   * is an old entry or one of the spans written.
   */
  lemma {:induction false} MergeKeyed<K>(m: map<K, Span>, spans: seq<Span>, key: Span -> K)
    requires KeyedBy(m, key)
    ensures KeyedBy(Merge(m, spans, key), key)
    ensures forall k :: k in Merge(m, spans, key) ==>
      (k in m && Merge(m, spans, key)[k] == m[k]) || Merge(m, spans, key)[k] in spans
  {
    if spans != [] {
      var init := spans[..|spans| - 1];
      MergeKeyed(m, init, key);
      forall k | k in Merge(m, spans, key)
        ensures (k in m && Merge(m, spans, key)[k] == m[k]) || Merge(m, spans, key)[k] in spans
      {
        var r := Merge(m, init, key);
        if k != key(spans[|spans| - 1]) && !(k in m && r[k] == m[k]) {
          assert r[k] in init;
        }
      }
    }
  }

  /** A read-only view of both indexes at one instant. */
  datatype Index = Index(byId: map<U64, Span>, byName: map<string, Span>)

  /** The indexes built from the given spans, starting empty. */
  function IndexOf(spans: seq<Span>): Index
  {
    Index(Merge(map[], spans, IdOf), Merge(map[], spans, NameOf))
  }

  /** Each entry sits under its own id or name, and every stored span was written. */
  ghost predicate Consistent(ix: Index, written: seq<Span>)
  {
    && (forall id :: id in ix.byId ==> ix.byId[id].spanId == id && ix.byId[id] in written)
    && (forall n :: n in ix.byName ==> ix.byName[n].name == n && ix.byName[n] in written)
  }

  lemma IndexOfConsistent(spans: seq<Span>)
    ensures Consistent(IndexOf(spans), spans)
  {
    MergeKeyed(map[], spans, IdOf);
    MergeKeyed(map[], spans, NameOf);
  }
}
