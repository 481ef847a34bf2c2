/** Sets of ports, as spans of them. */
module Ports {
  datatype Span = Span(start: nat, end: nat)

  predicate Proper(spans: seq<Span>) {
    forall s :: s in spans ==> s.start <= s.end <= 0xffff
  }

  predicate In(s: Span, p: nat) {
    s.start <= p <= s.end
  }

  predicate Has(spans: seq<Span>, p: nat) {
    exists s :: s in spans && In(s, p)
  }

  function Count(spans: seq<Span>): nat
    requires Proper(spans)
  {
    if spans == [] then 0 else spans[0].end - spans[0].start + 1 + Count(spans[1..])
  }

  /** The i-th port, counting through the spans. */
  function PortAt(spans: seq<Span>, i: nat): nat
    requires Proper(spans) && i < Count(spans)
  {
    var n := spans[0].end - spans[0].start + 1;
    if i < n then spans[0].start + i else PortAt(spans[1..], i - n)
  }

  lemma {:induction false} CountTail(spans: seq<Span>, k: nat)
    requires Proper(spans) && k < |spans|
    ensures Proper(spans[k + 1..]) && Count(spans[k..]) == spans[k].end - spans[k].start + 1 + Count(spans[k + 1..])
  {
    assert spans[k..][1..] == spans[k + 1..];
  }

  method PortCount(spans: seq<Span>) returns (n: nat)
    requires Proper(spans)
    ensures n == Count(spans)
  {
    hide Count;
    n := 0;
    assert spans[0..] == spans;
    for k := 0 to |spans|
      invariant Proper(spans[k..]) && n + Count(spans[k..]) == Count(spans)
    {
      CountTail(spans, k);
      n := n + spans[k].end - spans[k].start + 1;
    }
    NoneLeft(spans);
  }

  lemma NoneLeft(spans: seq<Span>)
    requires Proper(spans)
    ensures Count(spans[|spans|..]) == 0
  {
  }

  /** nthPort; past the last port there is none, and 0 says so. */
  method NthPort(spans: seq<Span>, i: nat) returns (e: nat)
    requires Proper(spans)
    ensures e == if i < Count(spans) then PortAt(spans, i) else 0
  {
    hide Count;
    var left: nat := i;
    assert spans[0..] == spans;
    NoneLeft(spans);
    for k := 0 to |spans|
      invariant Proper(spans[k..])
      invariant left < Count(spans[k..]) <==> i < Count(spans)
      invariant i < Count(spans) ==> PortAt(spans[k..], left) == PortAt(spans, i)
    {
      CountTail(spans, k);
      if left < Count(spans[k..]) { PortAtTail(spans, k, left); }
      var n := spans[k].end - spans[k].start + 1;
      if left < n { return (spans[k].start + left) % 0x1_0000; }
      left := left - n;
    }
    e := 0;
  }

  lemma {:induction false} PortAtTail(spans: seq<Span>, k: nat, i: nat)
    requires Proper(spans) && k < |spans| && i < Count(spans[k..])
    ensures Count(spans[k..]) == spans[k].end - spans[k].start + 1 + Count(spans[k + 1..])
    ensures var n := spans[k].end - spans[k].start + 1;
            PortAt(spans[k..], i) == if i < n then spans[k].start + i else PortAt(spans[k + 1..], i - n)
  {
    assert spans[k..][1..] == spans[k + 1..];
  }

  /** Counting comes to ports of the set only, */
  lemma {:induction false} PortAtIn(spans: seq<Span>, i: nat)
    requires Proper(spans) && i < Count(spans)
    ensures Has(spans, PortAt(spans, i))
  {
    var n := spans[0].end - spans[0].start + 1;
    if i < n {
      assert In(spans[0], spans[0].start + i);
    } else {
      PortAtIn(spans[1..], i - n);
      var s :| s in spans[1..] && In(s, PortAt(spans, i));
      assert s in spans;
    }
  }

  /** to every one of them, */
  lemma {:induction false} PortReached(spans: seq<Span>, p: nat) returns (i: nat)
    requires Proper(spans) && Has(spans, p)
    ensures i < Count(spans) && PortAt(spans, i) == p
  {
    if In(spans[0], p) {
      i := p - spans[0].start;
    } else {
      var s :| s in spans && In(s, p);
      assert s in spans[1..];
      i := PortReached(spans[1..], p);
      i := i + spans[0].end - spans[0].start + 1;
    }
  }

  predicate Apart(s: Span, t: Span) {
    s.end < t.start || t.end < s.start
  }

  predicate Disjoint(spans: seq<Span>) {
    forall j, k :: 0 <= j < k < |spans| ==> Apart(spans[j], spans[k])
  }

  /** and, when no two spans overlap, to each once. */
  lemma {:induction false} PortOnce(spans: seq<Span>, i: nat, j: nat)
    requires Proper(spans) && Disjoint(spans) && i < j < Count(spans)
    ensures PortAt(spans, i) != PortAt(spans, j)
  {
    var n := spans[0].end - spans[0].start + 1;
    assert Disjoint(spans[1..]);
    if i >= n {
      PortOnce(spans[1..], i - n, j - n);
    } else if j >= n {
      PortAtIn(spans[1..], j - n);
      var s :| s in spans[1..] && In(s, PortAt(spans, j));
      var k :| 0 <= k < |spans[1..]| && spans[1..][k] == s;
      assert Apart(spans[0], spans[k + 1]);
    }
  }
}
