/**
 * The repository's own test cases, replayed against the model: each method
 * drives a fresh server the way the test drives the real one, and its
 * postcondition is what the test expects to observe.
 */
module Scenarios {
  import opened Wrappers
  import opened Strconv
  import opened Names
  import opened Spans
  import opened Assertions
  import opened Server

  /** A span with the given name, id and parent id and no other payload. */
  function TestSpan(name: string, id: U64, parent: U64): (sp: Span)
    ensures sp.name == name && sp.spanId == id && sp.parentId == parent
  {
    Span(name, "service", "", "", 0, 0, map[], id, 1, parent, 0)
  }

  lemma AtoiSmall()
    ensures Atoi("1") == Some(1) && Atoi("2") == Some(2)
  {
  }

  /** A batch holding one trace. */
  lemma FlattenOne(trace: Trace)
    ensures Flatten([trace]) == trace
  {
  }

  /** Writing four spans into an empty index. */
  lemma MergeFour<K>(a: Span, b: Span, c: Span, d: Span, key: Span -> K)
    ensures Merge(map[], [a, b, c, d], key) == map[key(a) := a][key(b) := b][key(c) := c][key(d) := d]
  {
    assert [a, b, c, d][..3] == [a, b, c];
    assert [a, b, c][..2] == [a, b];
    assert [a, b][..1] == [a];
    assert [a][..0] == [];
    assert Merge(map[], [a], key) == map[key(a) := a];
    assert Merge(map[], [a, b], key) == map[key(a) := a][key(b) := b];
    assert Merge(map[], [a, b, c], key) == map[key(a) := a][key(b) := b][key(c) := c];
  }

  lemma NamedOnce(byId: map<U64, Span>, name: string, id: U64)
    requires id in byId && byId[id].name == name
    requires forall other :: other in byId && other != id ==> byId[other].name != name
    ensures |IdsNamed(byId, name)| == 1
  {
    assert IdsNamed(byId, name) == {id};
  }

  lemma NamedNone(byId: map<U64, Span>, name: string)
    requires forall id :: id in byId ==> byId[id].name != name
    ensures |IdsNamed(byId, name)| == 0
  {
  }

  lemma DigitNamesSorted()
    ensures Sorted(["0", "1", "2", "3"])
  {
  }

  /** The only sorted listing of the four ids' names, one per id, is "0", "1", "2", "3". */
  lemma ListedNames(names: seq<string>, byId: map<U64, Span>)
    requires byId.Keys == {1, 2, 3, 4}
    requires byId[4].name == "0" && byId[1].name == "1" && byId[2].name == "2" && byId[3].name == "3"
    requires Sorted(names)
    requires forall n :: multiset(names)[n] == |IdsNamed(byId, n)|
    ensures names == ["0", "1", "2", "3"]
  {
    var expected := ["0", "1", "2", "3"];
    forall n ensures multiset(names)[n] == multiset(expected)[n] {
      if n == "0" {
        NamedOnce(byId, n, 4);
      } else if n == "1" {
        NamedOnce(byId, n, 1);
      } else if n == "2" {
        NamedOnce(byId, n, 2);
      } else if n == "3" {
        NamedOnce(byId, n, 3);
      } else {
        NamedNone(byId, n);
      }
    }
    assert multiset(names) == multiset(expected);
    DigitNamesSorted();
    SortedUnique(names, expected);
  }

  /** A span is found, the server is reset, and the span is then absent. */
  method ResetScenario() returns (found: Check, absent: Check)
    ensures found == Pass && absent == Pass
  {
    var s := new MockDatadogServer();
    var sp := TestSpan("test.reset", 7, 0);
    AtoiSmall();
    FlattenOne([sp]);
    var status, verdict := s.ServeHTTP(DefaultTracePath, "1", Some([[sp]]));
    assert s.spansByName == Merge(map[], [sp], NameOf);
    assert [sp][..0] == [];
    found := s.WaitDurationForSpan([], "test.reset", []);
    s.Reset();
    absent := s.ExpectDurationNoSpan([], "test.reset");
  }

  /** A batch that declares two traces but carries one leaves the server empty. */
  method CountMismatchScenario() returns (verdict: Admission, absent: Check)
    ensures verdict == CountMismatch(1, 2)
    ensures absent == Pass
  {
    var s := new MockDatadogServer();
    AtoiSmall();
    var status;
    status, verdict := s.ServeHTTP(DefaultTracePath, "2", Some([[TestSpan("lonely", 9, 0)]]));
    absent := s.ExpectDurationNoSpan([], "lonely");
  }

  /** A span is found with the caller's predicate over its resource. */
  method ExpectSpanFnScenario() returns (r: Check)
    ensures r == Pass
  {
    var s := new MockDatadogServer();
    var sp := Span("test.expectspanfn", "service", "resource", "", 0, 0, map[], 5, 1, 0, 0);
    AtoiSmall();
    FlattenOne([sp]);
    var status, verdict := s.ServeHTTP(DefaultTracePath, "1", Some([[sp]]));
    assert [sp][..0] == [];
    r := s.ExpectSpanFn("test.expectspanfn", (x: Span) => x.resource == "resource", "invalid span");
  }

  /** Writing two spans into an empty index. */
  lemma MergeTwo<K>(a: Span, b: Span, key: Span -> K)
    ensures Merge(map[], [a, b], key) == map[key(a) := a][key(b) := b]
  {
    assert [a, b][..1] == [a];
    assert [a][..0] == [];
    assert Merge(map[], [a], key) == map[key(a) := a];
  }

  /** What the checks see once a child and its parent are indexed. */
  lemma ChildAndParentChecks(c: Span, p: Span, ix: Index)
    requires c == TestSpan("test.expectspan.child", 11, 10) && p == TestSpan("test.expectspan", 10, 0)
    requires ix == Index(map[11 := c][10 := p], map[c.name := c][p.name := p])
    ensures WaitResult([ix], "test.expectspan.child", ["test.expectspan"]) == Pass
    ensures SpanCheck(ix, "test.expectspan", []) == Pass
    ensures SpanCheck(ix, "test.expectspan.child", ["test.expectspan"]) == Pass
  {
  }

  /** Spans are absent before they are sent; afterwards the child is found under its parent. */
  method ExpectSpanScenario() returns (before: Check, beforeChild: Check, waited: Check, parent: Check, child: Check)
    ensures before == Pass && beforeChild == Pass && waited == Pass && parent == Pass && child == Pass
  {
    var s := new MockDatadogServer();
    before := s.ExpectDurationNoSpan([], "test.expectspan");
    beforeChild := s.ExpectDurationNoSpan([], "test.expectspan.child");
    var p := TestSpan("test.expectspan", 10, 0);
    var c := TestSpan("test.expectspan.child", 11, 10);
    AtoiSmall();
    FlattenOne([c, p]);
    var status, verdict := s.ServeHTTP(DefaultTracePath, "1", Some([[c, p]]));
    MergeTwo(c, p, IdOf);
    MergeTwo(c, p, NameOf);
    ChildAndParentChecks(c, p, s.Snapshot());
    waited := s.WaitDurationForSpan([], "test.expectspan.child", ["test.expectspan"]);
    parent := s.ExpectSpan("test.expectspan", []);
    child := s.ExpectSpan("test.expectspan.child", ["test.expectspan"]);
  }

  /** What the checks see once the four chained spans are indexed. */
  lemma FourChainChecks(zero: Span, three: Span, two: Span, one: Span, ix: Index)
    requires zero == TestSpan("0", 4, 3) && three == TestSpan("3", 3, 2)
    requires two == TestSpan("2", 2, 1) && one == TestSpan("1", 1, 0)
    requires ix == Index(map[4 := zero, 3 := three, 2 := two, 1 := one], map["0" := zero, "3" := three, "2" := two, "1" := one])
    ensures WaitResult([ix], "1", []) == Pass
    ensures SpanCheck(ix, "0", ["3", "2", "1"]) == Pass
    ensures SpanCheck(ix, "0", ["3", "1", "2"]) == Fail(ParentMismatch("2", "1"))
    ensures SpanCheck(ix, "1", ["0"]) == Fail(ParentNotFound("1"))
  {
  }

  /** A fresh server that has accepted one trace of four spans chained "0" under "3" under "2" under "1". */
  method ServerWithChain() returns (s: MockDatadogServer, zero: Span, three: Span, two: Span, one: Span)
    ensures fresh(s) && s.Valid()
    ensures zero == TestSpan("0", 4, 3) && three == TestSpan("3", 3, 2)
    ensures two == TestSpan("2", 2, 1) && one == TestSpan("1", 1, 0)
    ensures s.Snapshot() == Index(map[4 := zero, 3 := three, 2 := two, 1 := one],
                                  map["0" := zero, "3" := three, "2" := two, "1" := one])
  {
    s := new MockDatadogServer();
    one := TestSpan("1", 1, 0);
    two := TestSpan("2", 2, 1);
    three := TestSpan("3", 3, 2);
    zero := TestSpan("0", 4, 3);
    var trace := [zero, three, two, one];
    AtoiSmall();
    FlattenOne(trace);
    var status, verdict := s.ServeHTTP(DefaultTracePath, "1", Some([trace]));
    MergeFour(zero, three, two, one, IdOf);
    MergeFour(zero, three, two, one, NameOf);
  }

  /** With the four chained spans indexed, the root is found and the names are listed in order. */
  method SpanNamesScenario() returns (found: Check, names: seq<string>)
    ensures found == Pass
    ensures names == ["0", "1", "2", "3"]
  {
    var s, zero, three, two, one := ServerWithChain();
    FourChainChecks(zero, three, two, one, s.Snapshot());
    found := s.WaitDurationForSpan([], "1", []);
    names := s.SpanNames();
    ListedNames(names, s.spansById);
  }

  /**
   * With the four chained spans indexed, the chain is checked in order, a
   * chain given in the wrong order fails at its first wrong name, and the
   * root has no parent to find.
   */
  method ParentChainScenario() returns (chain: Check, wrongOrder: Check, rootParent: Check)
    ensures chain == Pass
    ensures wrongOrder == Fail(ParentMismatch("2", "1"))
    ensures rootParent == Fail(ParentNotFound("1"))
  {
    var s, zero, three, two, one := ServerWithChain();
    FourChainChecks(zero, three, two, one, s.Snapshot());
    chain := s.ExpectSpan("0", ["3", "2", "1"]);
    wrongOrder := s.ExpectSpan("0", ["3", "1", "2"]);
    rootParent := s.ExpectSpan("1", ["0"]);
  }
}
