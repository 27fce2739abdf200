/**
 * The checks a test runs against the span indexes: the parent-chain walk,
 * the wait predicate, the immediate checks and the absence check, and what a
 * polling wait concludes from the states it observes.
 */
module Assertions {
  import opened Wrappers
  import opened Spans

  /** Why a check failed the test (the `t.Fatalf` cases). */
  datatype Failure =
    | SpanNotFound(name: string)
    | ParentNotFound(child: string)
    | ParentMismatch(got: string, want: string)
    | PredicateFailed(message: string)
    | UnexpectedSpan(name: string)
    | TimedOut(name: string)

  datatype Check = Pass | Fail(failure: Failure)

  /** One evaluation of the wait predicate: true, false (retry), or a fatal failure. */
  datatype Poll = Satisfied | Pending | Fatal(failure: Failure)

  /**
   * Starting at `current`, for each expected name in order: look up the
   * current span's parent id; fail if it is absent or its span has another
   * name, otherwise continue from that parent. Parent id 0 is looked up
   * like any other id.
   */
  function ParentChain(byId: map<U64, Span>, current: Span, parents: seq<string>): (r: Check)
    ensures parents == [] ==> r == Pass
    ensures r.Fail? ==> r.failure.ParentNotFound? || r.failure.ParentMismatch?
    decreases |parents|
  {
    if parents == [] then Pass
    else if current.parentId !in byId then Fail(ParentNotFound(current.name))
    else
      var p := byId[current.parentId];
      if p.name != parents[0] then Fail(ParentMismatch(p.name, parents[0]))
      else ParentChain(byId, p, parents[1..])
  }

  /** The k-th ancestor of `span` through the id index (the 0th is `span`). */
  function Ancestor(byId: map<U64, Span>, span: Span, k: nat): Option<Span>
  {
    if k == 0 then Some(span)
    else match Ancestor(byId, span, k - 1)
      case None => None
      case Some(a) => if a.parentId in byId then Some(byId[a.parentId]) else None
  }

  lemma {:induction false} AncestorShift(byId: map<U64, Span>, span: Span, k: nat)
    requires span.parentId in byId
    ensures Ancestor(byId, span, k + 1) == Ancestor(byId, byId[span.parentId], k)
  {
    if k > 0 {
      AncestorShift(byId, span, k - 1);
    }
  }

  lemma AncestorOne(byId: map<U64, Span>, span: Span)
    ensures Ancestor(byId, span, 1) == if span.parentId in byId then Some(byId[span.parentId]) else None
  {
  }

  /** The k-th ancestor exists and is named `name`. */
  ghost predicate AncestorNamed(byId: map<U64, Span>, span: Span, k: nat, name: string)
  {
    Ancestor(byId, span, k).Some? && Ancestor(byId, span, k).value.name == name
  }

  /** For every i, the (i + 1)-th ancestor exists and is named `parents[i]`. */
  ghost predicate ChainMatches(byId: map<U64, Span>, span: Span, parents: seq<string>)
  {
    forall i :: 0 <= i < |parents| ==> AncestorNamed(byId, span, i + 1, parents[i])
  }

  /** A chain matches from `span` exactly when its first name is the parent's and the rest matches from there. */
  lemma ChainMatchesStep(byId: map<U64, Span>, span: Span, parents: seq<string>)
    requires parents != [] && span.parentId in byId
    ensures ChainMatches(byId, span, parents) <==>
      byId[span.parentId].name == parents[0] && ChainMatches(byId, byId[span.parentId], parents[1..])
  {
    var p := byId[span.parentId];
    forall i | 0 <= i < |parents|
      ensures AncestorNamed(byId, span, i + 1, parents[i]) <==> AncestorNamed(byId, p, i, parents[i])
    {
      AncestorShift(byId, span, i);
    }
    if byId[span.parentId].name == parents[0] && ChainMatches(byId, p, parents[1..]) {
      forall i | 0 < i < |parents| ensures AncestorNamed(byId, p, i, parents[i]) {
        assert AncestorNamed(byId, p, (i - 1) + 1, parents[1..][i - 1]);
      }
    }
    if ChainMatches(byId, span, parents) {
      forall i | 0 <= i < |parents[1..]| ensures AncestorNamed(byId, p, i + 1, parents[1..][i]) {
        assert AncestorNamed(byId, p, i + 1, parents[i + 1]);
      }
    }
  }

  /** The chain check succeeds exactly when the i-th ancestor exists and is named `parents[i - 1]`, for every i. */
  lemma {:induction false} ParentChainPassIff(byId: map<U64, Span>, span: Span, parents: seq<string>)
    ensures ParentChain(byId, span, parents) == Pass <==> ChainMatches(byId, span, parents)
    decreases |parents|
  {
    if parents != [] && span.parentId in byId {
      ParentChainPassIff(byId, byId[span.parentId], parents[1..]);
      ChainMatchesStep(byId, span, parents);
    } else if parents != [] {
      AncestorOne(byId, span);
      assert !AncestorNamed(byId, span, 0 + 1, parents[0]);
    }
  }

  /** The failure names the first step at which the walk breaks; nothing later is looked at. */
  lemma {:induction false} ParentChainFailsFirst(byId: map<U64, Span>, span: Span, parents: seq<string>, i: nat)
    requires i < |parents|
    requires forall j :: 0 <= j < i ==> AncestorNamed(byId, span, j + 1, parents[j])
    ensures Ancestor(byId, span, i).Some?
    ensures var cur := Ancestor(byId, span, i).value;
      && (cur.parentId !in byId ==> ParentChain(byId, span, parents) == Fail(ParentNotFound(cur.name)))
      && (cur.parentId in byId && byId[cur.parentId].name != parents[i] ==>
            ParentChain(byId, span, parents) == Fail(ParentMismatch(byId[cur.parentId].name, parents[i])))
    decreases i
  {
    if i > 0 {
      assert AncestorNamed(byId, span, 0 + 1, parents[0]);
      AncestorOne(byId, span);
      var p := byId[span.parentId];
      forall j | 0 <= j < i - 1
        ensures AncestorNamed(byId, p, j + 1, parents[1..][j])
      {
        assert AncestorNamed(byId, span, (j + 1) + 1, parents[j + 1]);
        AncestorShift(byId, span, j + 1);
      }
      ParentChainFailsFirst(byId, p, parents[1..], i - 1);
      AncestorShift(byId, span, i - 1);
    }
  }

  /** Parent id 0 is not a root marker: a span indexed under id 0 is found as the parent. */
  lemma ZeroParentIsLookedUp(byId: map<U64, Span>, span: Span, want: string)
    requires span.parentId == 0
    ensures 0 in byId && byId[0].name == want ==> ParentChain(byId, span, [want]) == Pass
    ensures 0 !in byId ==> ParentChain(byId, span, [want]) == Fail(ParentNotFound(span.name))
  {
  }

  /** The loop that walks the chain, reassigning the current span at each step. */
  method WalkParents(byId: map<U64, Span>, span: Span, parents: seq<string>) returns (r: Check)
    ensures r == ParentChain(byId, span, parents)
  {
    var current := span;
    var i := 0;
    while i < |parents|
      invariant 0 <= i <= |parents|
      invariant ParentChain(byId, span, parents) == ParentChain(byId, current, parents[i..])
    {
      if current.parentId !in byId {
        return Fail(ParentNotFound(current.name));
      }
      var p := byId[current.parentId];
      if p.name != parents[i] {
        return Fail(ParentMismatch(p.name, parents[i]));
      }
      assert parents[i..][1..] == parents[i + 1..];
      current := p;
      i := i + 1;
    }
    return Pass;
  }

  /** The wait predicate: an absent name means "not yet", a broken chain is fatal. */
  function SpanPoll(ix: Index, name: string, parents: seq<string>): (r: Poll)
    ensures r == Pending <==> name !in ix.byName
    ensures r == Satisfied <==> name in ix.byName && ParentChain(ix.byId, ix.byName[name], parents) == Pass
    ensures r.Fatal? ==> r.failure.ParentNotFound? || r.failure.ParentMismatch?
    ensures parents == [] ==> !r.Fatal?
  {
    if name !in ix.byName then Pending
    else match ParentChain(ix.byId, ix.byName[name], parents)
      case Pass => Satisfied
      case Fail(f) => Fatal(f)
  }

  /** The immediate check of a span and its parent chain. */
  function SpanCheck(ix: Index, name: string, parents: seq<string>): (r: Check)
    ensures r == Fail(SpanNotFound(name)) <==> name !in ix.byName
    ensures r == Pass <==> name in ix.byName && ParentChain(ix.byId, ix.byName[name], parents) == Pass
    ensures parents == [] ==> (r == Pass <==> name in ix.byName)
  {
    if name !in ix.byName then Fail(SpanNotFound(name))
    else ParentChain(ix.byId, ix.byName[name], parents)
  }

  /** The immediate check of a span against a caller's predicate. */
  function SpanFnCheck(ix: Index, name: string, fn: Span -> bool, message: string): (r: Check)
    ensures r == Pass <==> name in ix.byName && fn(ix.byName[name])
    ensures r == Fail(SpanNotFound(name)) <==> name !in ix.byName
  {
    if name !in ix.byName then Fail(SpanNotFound(name))
    else if !fn(ix.byName[name]) then Fail(PredicateFailed(message))
    else Pass
  }

  /** One evaluation of the absence check. */
  function AbsenceCheck(ix: Index, name: string): (r: Check)
    ensures r == Pass <==> name !in ix.byName
    ensures r != Pass ==> r == Fail(UnexpectedSpan(name))
  {
    if name in ix.byName then Fail(UnexpectedSpan(name)) else Pass
  }

  /**
   * A wait that observes the states `observed` in order (the first is the
   * immediate check, the rest one per tick before the timeout): the first
   * satisfied or fatal evaluation decides, and running out is a timeout.
   */
  function WaitResult(observed: seq<Index>, name: string, parents: seq<string>): (r: Check)
    ensures r.Fail? ==> r.failure == TimedOut(name) || r.failure.ParentNotFound? || r.failure.ParentMismatch?
    ensures (forall i :: 0 <= i < |observed| ==> name !in observed[i].byName) ==> r == Fail(TimedOut(name))
  {
    if observed == [] then Fail(TimedOut(name))
    else match SpanPoll(observed[0], name, parents)
      case Satisfied => Pass
      case Fatal(f) => Fail(f)
      case Pending => WaitResult(observed[1..], name, parents)
  }

  /** An absence check over the observed states: the first that holds the name fails. */
  function AbsenceResult(observed: seq<Index>, name: string): (r: Check)
    ensures r == Pass || r == Fail(UnexpectedSpan(name))
    ensures observed != [] && name in observed[0].byName ==> r == Fail(UnexpectedSpan(name))
  {
    if observed == [] then Pass
    else if AbsenceCheck(observed[0], name).Fail? then AbsenceCheck(observed[0], name)
    else AbsenceResult(observed[1..], name)
  }

  /**
   * The wait predicate and the immediate check agree, except that a missing
   * span is retried by the one and fails the other.
   */
  lemma PollAgreesWithCheck(ix: Index, name: string, parents: seq<string>)
    ensures SpanPoll(ix, name, parents) == Satisfied <==> SpanCheck(ix, name, parents) == Pass
    ensures SpanPoll(ix, name, parents) == Pending <==> SpanCheck(ix, name, parents) == Fail(SpanNotFound(name))
    ensures SpanPoll(ix, name, parents).Fatal? ==>
      SpanCheck(ix, name, parents) == Fail(SpanPoll(ix, name, parents).failure)
  {
  }

  /** The i-th observed state is the first that is not pending, and it satisfies the predicate. */
  ghost predicate SatisfiedFirstAt(observed: seq<Index>, name: string, parents: seq<string>, i: int)
  {
    && 0 <= i < |observed|
    && SpanPoll(observed[i], name, parents) == Satisfied
    && forall j :: 0 <= j < i ==> SpanPoll(observed[j], name, parents) == Pending
  }

  /**
   * A wait passes exactly when some observed state satisfies the predicate
   * and every state before it was merely pending.
   */
  lemma {:induction false} WaitResultPassIff(observed: seq<Index>, name: string, parents: seq<string>)
    ensures WaitResult(observed, name, parents) == Pass <==>
      exists i :: SatisfiedFirstAt(observed, name, parents, i)
  {
    if observed != [] {
      var tail := observed[1..];
      WaitResultPassIff(tail, name, parents);
      if SpanPoll(observed[0], name, parents) == Pending {
        if exists i :: SatisfiedFirstAt(observed, name, parents, i) {
          var i :| SatisfiedFirstAt(observed, name, parents, i);
          assert SatisfiedFirstAt(tail, name, parents, i - 1) by {
            forall j | 0 <= j < i - 1 ensures SpanPoll(tail[j], name, parents) == Pending {
              assert tail[j] == observed[j + 1];
            }
          }
        }
        if exists i :: SatisfiedFirstAt(tail, name, parents, i) {
          var i :| SatisfiedFirstAt(tail, name, parents, i);
          assert SatisfiedFirstAt(observed, name, parents, i + 1) by {
            forall j | 0 < j < i + 1 ensures SpanPoll(observed[j], name, parents) == Pending {
              assert observed[j] == tail[j - 1];
            }
          }
        }
      } else if SpanPoll(observed[0], name, parents) == Satisfied {
        assert SatisfiedFirstAt(observed, name, parents, 0);
      }
    }
  }

  /**
   * A broken chain on the first observed state that is not pending ends the
   * wait with that chain failure, whichever tick it is seen on.
   */
  lemma {:induction false} WaitResultFailsAt(observed: seq<Index>, name: string, parents: seq<string>, i: nat)
    requires i < |observed|
    requires forall j :: 0 <= j < i ==> SpanPoll(observed[j], name, parents) == Pending
    requires SpanPoll(observed[i], name, parents).Fatal?
    ensures WaitResult(observed, name, parents) == Fail(SpanPoll(observed[i], name, parents).failure)
  {
    if i > 0 {
      assert SpanPoll(observed[0], name, parents) == Pending;
      var tail := observed[1..];
      forall j | 0 <= j < i - 1 ensures SpanPoll(tail[j], name, parents) == Pending {
        assert tail[j] == observed[j + 1];
      }
      WaitResultFailsAt(tail, name, parents, i - 1);
    }
  }

  /** A wait times out exactly when no observed state holds the name. */
  lemma {:induction false} WaitResultTimedOutIff(observed: seq<Index>, name: string, parents: seq<string>)
    ensures WaitResult(observed, name, parents) == Fail(TimedOut(name)) <==>
      forall i :: 0 <= i < |observed| ==> name !in observed[i].byName
  {
    if observed != [] {
      var tail := observed[1..];
      WaitResultTimedOutIff(tail, name, parents);
      if name !in observed[0].byName {
        if forall i :: 0 <= i < |tail| ==> name !in tail[i].byName {
          forall i | 0 <= i < |observed| ensures name !in observed[i].byName {
            if i > 0 { assert observed[i] == tail[i - 1]; }
          }
        }
        if forall i :: 0 <= i < |observed| ==> name !in observed[i].byName {
          forall i | 0 <= i < |tail| ensures name !in tail[i].byName {
            assert tail[i] == observed[i + 1];
          }
        }
      }
    }
  }

  /** An absence check passes exactly when no observed state holds the name. */
  lemma {:induction false} AbsenceResultPassIff(observed: seq<Index>, name: string)
    ensures AbsenceResult(observed, name) == Pass <==>
      forall i :: 0 <= i < |observed| ==> name !in observed[i].byName
    ensures AbsenceResult(observed, name) != Pass ==> AbsenceResult(observed, name) == Fail(UnexpectedSpan(name))
  {
    if observed != [] {
      AbsenceResultPassIff(observed[1..], name);
      if name !in observed[0].byName {
        forall i | 0 < i < |observed| ensures observed[i] == observed[1..][i - 1] { }
      }
    }
  }

  /** The wait predicate, evaluated on one state (the closure `expectation`). */
  method Expectation(ix: Index, name: string, parents: seq<string>) returns (p: Poll)
    ensures p == SpanPoll(ix, name, parents)
  {
    if name !in ix.byName {
      return Pending;
    }
    var chain := WalkParents(ix.byId, ix.byName[name], parents);
    if chain.Fail? {
      return Fatal(chain.failure);
    }
    return Satisfied;
  }
}
