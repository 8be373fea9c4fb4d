// What a run's history says about its last state: something holds because one call brought it about
// and none since has ended it.
module Histories {

  // `run` gives the state after a sequence of calls; `on` and `off` look at a state and the next call.
  ghost predicate Since<S, C>(run: seq<C> -> S, calls: seq<C>, on: (S, C) -> bool, off: (S, C) -> bool) {
    exists i :: 0 <= i < |calls| && on(run(calls[..i]), calls[i]) &&
                forall j :: i < j < |calls| ==> !off(run(calls[..j]), calls[j])
  }

  lemma SinceOneMore<S, C>(run: seq<C> -> S, calls: seq<C>, on: (S, C) -> bool, off: (S, C) -> bool)
    requires calls != []
    ensures var n := |calls| - 1;
            var before := run(calls[..n]);
            Since(run, calls, on, off) <==> on(before, calls[n]) || (Since(run, calls[..n], on, off) && !off(before, calls[n]))
  {
    var n := |calls| - 1;
    assert forall i :: 0 <= i < n ==> calls[..n][..i] == calls[..i] && calls[..n][i] == calls[i];
    if Since(run, calls[..n], on, off) && !off(run(calls[..n]), calls[n]) {
      var i :| 0 <= i < n && on(run(calls[..n][..i]), calls[..n][i]) &&
               forall j :: i < j < n ==> !off(run(calls[..n][..j]), calls[..n][j]);
      assert on(run(calls[..i]), calls[i]) && forall j :: i < j < |calls| ==> !off(run(calls[..j]), calls[j]);
    }
    if Since(run, calls, on, off) && !on(run(calls[..n]), calls[n]) {
      var i :| 0 <= i < |calls| && on(run(calls[..i]), calls[i]) &&
               forall j :: i < j < |calls| ==> !off(run(calls[..j]), calls[j]);
      assert on(run(calls[..n][..i]), calls[..n][i]) && forall j :: i < j < n ==> !off(run(calls[..n][..j]), calls[..n][j]);
    }
  }

  // After its last call the run holds it if that call brought it about, or left it as it was.
  ghost predicate Decides<S, C>(run: seq<C> -> S, calls: seq<C>, on: (S, C) -> bool, off: (S, C) -> bool, holds: S -> bool)
    requires calls != []
  {
    var before, call := run(calls[..|calls| - 1]), calls[|calls| - 1];
    holds(run(calls)) <==> on(before, call) || (holds(before) && !off(before, call))
  }

  ghost predicate Never<S, C>(run: seq<C> -> S, calls: seq<C>, off: (S, C) -> bool) {
    forall j :: 0 <= j < |calls| ==> !off(run(calls[..j]), calls[j])
  }

  lemma NeverOneMore<S, C>(run: seq<C> -> S, calls: seq<C>, off: (S, C) -> bool)
    requires calls != []
    ensures var n := |calls| - 1;
            Never(run, calls, off) <==> Never(run, calls[..n], off) && !off(run(calls[..n]), calls[n])
  {
    var n := |calls| - 1;
    assert forall i :: 0 <= i < n ==> calls[..n][..i] == calls[..i] && calls[..n][i] == calls[i];
    if Never(run, calls, off) {
      forall j | 0 <= j < n
        ensures !off(run(calls[..n][..j]), calls[..n][j])
      {
        assert !off(run(calls[..j]), calls[j]);
      }
    }
  }

  // What every call decides so holds exactly since some call, or from the start.
  lemma {:induction false} HoldsSinceOrAlways<S, C>(run: seq<C> -> S, calls: seq<C>, on: (S, C) -> bool, off: (S, C) -> bool,
                                                    holds: S -> bool)
    requires forall n :: 0 < n <= |calls| ==> Decides(run, calls[..n], on, off, holds)
    ensures holds(run(calls)) <==> Since(run, calls, on, off) || (holds(run([])) && Never(run, calls, off))
    decreases |calls|
  {
    if calls == [] {
      assert calls == [];
    } else {
      var n := |calls| - 1;
      assert forall m :: 0 < m <= n ==> calls[..n][..m] == calls[..m];
      hide Since, Never;
      HoldsSinceOrAlways(run, calls[..n], on, off, holds);
      SinceOneMore(run, calls, on, off);
      NeverOneMore(run, calls, off);
      assert calls[..n + 1] == calls && Decides(run, calls[..n + 1], on, off, holds);
    }
  }

  // What is false at first holds exactly since some call.
  lemma HoldsSince<S, C>(run: seq<C> -> S, calls: seq<C>, on: (S, C) -> bool, off: (S, C) -> bool, holds: S -> bool)
    requires !holds(run([]))
    requires forall n :: 0 < n <= |calls| ==> Decides(run, calls[..n], on, off, holds)
    ensures holds(run(calls)) <==> Since(run, calls, on, off)
  {
    HoldsSinceOrAlways(run, calls, on, off, holds);
  }
}
