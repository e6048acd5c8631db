/** Counting indices: a set of indices is no larger than the span between two of its members. */
module Spans {

  lemma {:induction false} Span(s: set<nat>, n: nat) returns (lo: nat, hi: nat)
    requires s != {} && forall i :: i in s ==> i < n
    ensures lo in s && hi in s && lo <= hi && |s| <= hi - lo + 1
    decreases n
  {
    var last := n - 1;
    var rest := s - {last};
    if last !in s {
      assert rest == s;
      lo, hi := Span(s, last);
    } else if rest == {} {
      assert s == {last};
      lo, hi := last, last;
    } else {
      lo, hi := Span(rest, last);
      hi := last;
    }
  }

  lemma {:induction false} SpanSize(s: set<nat>, lo: nat, hi: nat)
    requires lo <= hi && forall i: nat :: i in s <==> lo <= i < hi
    ensures |s| == hi - lo
    decreases hi
  {
    if lo < hi {
      SpanSize(s - {hi - 1}, lo, hi - 1);
      assert s == s - {hi - 1} + {hi - 1};
    } else {
      assert s == {};
    }
  }
}
