/**
 * The mock tracing endpoint: its state (the accepted path and the two span
 * indexes), the ingestion handler, and the assertions a test calls on it.
 */
module Server {
  import opened Wrappers
  import opened Strconv
  import opened Names
  import opened Spans
  import opened Assertions

  const DefaultTracePath: string := "/v0.4/traces"

  /** The response status of every ingestion request. */
  const StatusOK: int := 200

  /** What the handler did with a request (the log line it wrote, or acceptance). */
  datatype Admission =
    | WrongPath
    | MissingCount
    | MalformedCount(header: string)
    | MalformedBody
    | CountMismatch(decoded: nat, declared: int)
    | Accepted(batch: Batch)

  /**
   * The handler's gates, in order: the request path, the trace-count header
   * (absent and empty read alike), its decimal parse, the body decode
   * (reading and decoding the body are given as `body`), and the count.
   */
  function Admit(path: string, requestPath: string, countHeader: string, body: Option<Batch>): (a: Admission)
    ensures a.Accepted? <==>
      && requestPath == path
      && countHeader != ""
      && Atoi(countHeader).Some?
      && body.Some?
      && |body.value| == Atoi(countHeader).value
    ensures a.Accepted? ==> a.batch == body.value
    ensures a == WrongPath <==> requestPath != path
    ensures a.CountMismatch? ==> body.Some? && a.decoded == |body.value| != a.declared
  {
    if requestPath != path then WrongPath
    else if countHeader == "" then MissingCount
    else match Atoi(countHeader)
      case None => MalformedCount(countHeader)
      case Some(count) =>
        match body
        case None => MalformedBody
        case Some(batch) =>
          if |batch| != count then CountMismatch(|batch|, count) else Accepted(batch)
  }

  /** The ids that carry the given name. */
  ghost function IdsNamed(byId: map<U64, Span>, name: string): set<U64>
  {
    set id | id in byId && byId[id].name == name
  }

  /** Taking one more id out of the pending set adds it to the ids counted for its own name only. */
  lemma IdsNamedTakeOne(byId: map<U64, Span>, rest: set<U64>, id: U64, name: string)
    requires id in rest && id in byId
    ensures |IdsNamed(byId, name) - (rest - {id})| ==
      |IdsNamed(byId, name) - rest| + (if byId[id].name == name then 1 else 0)
  {
    if byId[id].name == name {
      assert IdsNamed(byId, name) - (rest - {id}) == (IdsNamed(byId, name) - rest) + {id};
    } else {
      assert IdsNamed(byId, name) - (rest - {id}) == IdsNamed(byId, name) - rest;
    }
  }

  class MockDatadogServer {
    var path: string
    var spansById: map<U64, Span>
    var spansByName: map<string, Span>

    /** Every span of every batch accepted since the last reset, in order. */
    ghost var received: seq<Span>

    /** Both indexes are exactly what writing the received spans in order produces. */
    ghost predicate Valid()
      reads this
    {
      Snapshot() == IndexOf(received)
    }

    function Snapshot(): Index
      reads this
    {
      Index(spansById, spansByName)
    }

    /** A server on the default path with empty indexes. */
    constructor ()
      ensures Valid()
      ensures path == DefaultTracePath
      ensures spansById == map[] && spansByName == map[] && received == []
    {
      path := DefaultTracePath;
      spansById := map[];
      spansByName := map[];
      received := [];
    }

    method SetTracePath(p: string)
      modifies this`path
      ensures path == p
    {
      path := p;
    }

    /**
     * Handles one ingestion request. The response is always 200. A request
     * that fails a gate changes nothing; an accepted batch is written span by
     * span, trace by trace, into both indexes.
     */
    method ServeHTTP(requestPath: string, countHeader: string, body: Option<Batch>)
      returns (status: int, verdict: Admission)
      requires Valid()
      modifies this`spansById, this`spansByName, this`received
      ensures Valid()
      ensures Consistent(Snapshot(), received)
      ensures status == StatusOK
      ensures verdict == Admit(path, requestPath, countHeader, body)
      ensures verdict.Accepted? ==>
        && spansById == Merge(old(spansById), Flatten(verdict.batch), IdOf)
        && spansByName == Merge(old(spansByName), Flatten(verdict.batch), NameOf)
        && received == old(received) + Flatten(verdict.batch)
      ensures !verdict.Accepted? ==>
        spansById == old(spansById) && spansByName == old(spansByName) && received == old(received)
    {
      status := StatusOK;
      IndexOfConsistent(received);
      if requestPath != path {
        return status, WrongPath;
      }
      if countHeader == "" {
        return status, MissingCount;
      }
      var count := Atoi(countHeader);
      if count.None? {
        return status, MalformedCount(countHeader);
      }
      if body.None? {
        return status, MalformedBody;
      }
      var batch := body.value;
      if |batch| != count.value {
        return status, CountMismatch(|batch|, count.value);
      }
      InsertBatch(batch);
      return status, Accepted(batch);
    }

    /** Writes the spans of one trace into both indexes, in order. */
    method InsertTrace(trace: Trace)
      modifies this`spansById, this`spansByName
      ensures spansById == Merge(old(spansById), trace, IdOf)
      ensures spansByName == Merge(old(spansByName), trace, NameOf)
    {
      var j := 0;
      while j < |trace|
        invariant 0 <= j <= |trace|
        invariant spansById == Merge(old(spansById), trace[..j], IdOf)
        invariant spansByName == Merge(old(spansByName), trace[..j], NameOf)
      {
        var span := trace[j];
        assert trace[..j + 1][..j] == trace[..j];
        spansById := spansById[span.spanId := span];
        spansByName := spansByName[span.name := span];
        j := j + 1;
      }
      assert trace[..j] == trace;
    }

    /** Writes every span of every trace into both indexes, in trace-then-span order. */
    method InsertBatch(batch: Batch)
      requires Valid()
      modifies this`spansById, this`spansByName, this`received
      ensures Valid()
      ensures Consistent(Snapshot(), received)
      ensures spansById == Merge(old(spansById), Flatten(batch), IdOf)
      ensures spansByName == Merge(old(spansByName), Flatten(batch), NameOf)
      ensures received == old(received) + Flatten(batch)
    {
      var i := 0;
      while i < |batch|
        invariant 0 <= i <= |batch|
        invariant spansById == Merge(old(spansById), Flatten(batch[..i]), IdOf)
        invariant spansByName == Merge(old(spansByName), Flatten(batch[..i]), NameOf)
        invariant received == old(received)
      {
        InsertTrace(batch[i]);
        MergeAppend(old(spansById), Flatten(batch[..i]), batch[i], IdOf);
        MergeAppend(old(spansByName), Flatten(batch[..i]), batch[i], NameOf);
        assert batch[..i + 1][..i] == batch[..i];
        i := i + 1;
      }
      assert batch[..i] == batch;
      MergeAppend(map[], received, Flatten(batch), IdOf);
      MergeAppend(map[], received, Flatten(batch), NameOf);
      received := received + Flatten(batch);
      IndexOfConsistent(received);
    }

    /**
     * The name of every span in the id index, in ascending order, once per
     * id: a name carried by several ids is listed that many times.
     */
    method SpanNames() returns (names: seq<string>)
      ensures Sorted(names)
      ensures |names| == |spansById|
      ensures forall n :: multiset(names)[n] == |IdsNamed(spansById, n)|
    {
      names := [];
      var rest := spansById.Keys;
      while rest != {}
        invariant rest <= spansById.Keys
        invariant |names| + |rest| == |spansById|
        invariant forall n :: multiset(names)[n] == |IdsNamed(spansById, n) - rest|
        decreases |rest|
      {
        var id :| id in rest;
        var name := spansById[id].name;
        assert multiset(names + [name]) == multiset(names) + multiset{name};
        forall n
          ensures multiset(names + [name])[n] == |IdsNamed(spansById, n) - (rest - {id})|
        {
          IdsNamedTakeOne(spansById, rest, id, n);
        }
        names := names + [name];
        rest := rest - {id};
      }
      assert forall n :: IdsNamed(spansById, n) - {} == IdsNamed(spansById, n);
      names := Sort(names);
    }

    /** The wait predicate on the current state, then on each later state, until one decides. */
    method WaitDurationForSpan(later: seq<Index>, name: string, parents: seq<string>) returns (r: Check)
      ensures r == WaitResult([Snapshot()] + later, name, parents)
      ensures SpanPoll(Snapshot(), name, parents) == Satisfied ==> r == Pass
      ensures SpanPoll(Snapshot(), name, parents).Fatal? ==> r == Fail(SpanPoll(Snapshot(), name, parents).failure)
      ensures later == [] && name !in spansByName ==> r == Fail(TimedOut(name))
    {
      var observed := [Snapshot()] + later;
      var i := 0;
      while i < |observed|
        invariant 0 <= i <= |observed|
        invariant WaitResult(observed, name, parents) == WaitResult(observed[i..], name, parents)
      {
        var p := Expectation(observed[i], name, parents);
        match p
        case Satisfied => return Pass;
        case Fatal(f) => return Fail(f);
        case Pending =>
        assert observed[i..][1..] == observed[i + 1..];
        i := i + 1;
      }
      return Fail(TimedOut(name));
    }

    /** The absence check on the current state, then on each later state until the timeout. */
    method ExpectDurationNoSpan(later: seq<Index>, name: string) returns (r: Check)
      ensures r == AbsenceResult([Snapshot()] + later, name)
      ensures name in spansByName ==> r == Fail(UnexpectedSpan(name))
    {
      var observed := [Snapshot()] + later;
      var i := 0;
      while i < |observed|
        invariant 0 <= i <= |observed|
        invariant AbsenceResult(observed, name) == AbsenceResult(observed[i..], name)
      {
        if name in observed[i].byName {
          return Fail(UnexpectedSpan(name));
        }
        assert observed[i..][1..] == observed[i + 1..];
        i := i + 1;
      }
      return Pass;
    }

    /** The immediate check of a span and its parent chain. */
    method ExpectSpan(name: string, parents: seq<string>) returns (r: Check)
      ensures r == SpanCheck(Snapshot(), name, parents)
      ensures r == Pass <==> name in spansByName && ParentChain(spansById, spansByName[name], parents) == Pass
      ensures name !in spansByName ==> r == Fail(SpanNotFound(name))
    {
      if name !in spansByName {
        return Fail(SpanNotFound(name));
      }
      r := WalkParents(spansById, spansByName[name], parents);
    }

    /** The immediate check of a span against the caller's predicate. */
    method ExpectSpanFn(name: string, fn: Span -> bool, message: string) returns (r: Check)
      ensures r == Pass <==> name in spansByName && fn(spansByName[name])
      ensures r == SpanFnCheck(Snapshot(), name, fn, message)
    {
      if name !in spansByName {
        return Fail(SpanNotFound(name));
      }
      if !fn(spansByName[name]) {
        return Fail(PredicateFailed(message));
      }
      return Pass;
    }

    /** Empties both indexes at once. */
    method Reset()
      modifies this`spansById, this`spansByName, this`received
      ensures Valid()
      ensures spansById == map[] && spansByName == map[] && received == []
      ensures Consistent(Snapshot(), received)
      ensures forall name :: SpanCheck(Snapshot(), name, []) == Fail(SpanNotFound(name))
      ensures forall name :: AbsenceCheck(Snapshot(), name) == Pass
    {
      spansById := map[];
      spansByName := map[];
      received := [];
    }
  }
}
