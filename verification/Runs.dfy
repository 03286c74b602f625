/** Running a list of steps up to the first that fails. */
module Runs {
  import opened Text

  /** Where a run has got to, and how many steps that took. */
  datatype Run<S> = Run(state: S, done: nat)

  /** One more step after n steps, unless one of those failed. */
  function Extend<S, W>(perform: (S, W) -> Option<S>, r: Run<S>, n: nat, step: W): Run<S> {
    if r.done < n then r
    else
      match perform(r.state, step)
      case None => r
      case Some(next) => Run(next, r.done + 1)
  }

  /** The state after as many of the steps as go through, and how many those are. */
  function Attempt<S, W>(perform: (S, W) -> Option<S>, s: S, steps: seq<W>): (r: Run<S>)
    ensures r.done <= |steps|
  {
    if steps == [] then Run(s, 0)
    else Extend(perform, Attempt(perform, s, steps[..|steps| - 1]), |steps| - 1, steps[|steps| - 1])
  }

  lemma AttemptOne<S, W>(perform: (S, W) -> Option<S>, s: S, step: W)
    ensures Attempt(perform, s, [step]) == match perform(s, step) case None => Run(s, 0) case Some(t) => Run(t, 1)
  {
    assert [step][..0] == [];
    assert Attempt(perform, s, []) == Run(s, 0);
  }

  lemma AttemptTwo<S, W>(perform: (S, W) -> Option<S>, s: S, first: W, second: W)
    ensures Attempt(perform, s, [first, second]) ==
      match perform(s, first)
      case None => Run(s, 0)
      case Some(t) => match perform(t, second) case None => Run(t, 1) case Some(u) => Run(u, 2)
  {
    AttemptOne(perform, s, first);
    assert [first, second] == [first] + [second];
    AttemptSnoc(perform, s, [first], second);
  }

  lemma AttemptSnoc<S, W>(perform: (S, W) -> Option<S>, s: S, steps: seq<W>, step: W)
    ensures Attempt(perform, s, steps + [step]) == Extend(perform, Attempt(perform, s, steps), |steps|, step)
  {
    assert (steps + [step])[..|steps|] == steps;
  }

  /** Running a list of steps is running its first part and then, if that all went through, the rest. */
  lemma {:induction false} AttemptConcat<S, W>(perform: (S, W) -> Option<S>, s: S, a: seq<W>, b: seq<W>)
    ensures Attempt(perform, s, a).done < |a| ==> Attempt(perform, s, a + b) == Attempt(perform, s, a)
    ensures Attempt(perform, s, a).done == |a| ==>
      var r := Attempt(perform, Attempt(perform, s, a).state, b);
      Attempt(perform, s, a + b) == Run(r.state, |a| + r.done)
    decreases |b|
  {
    if b == [] {
      assert a + b == a;
    } else {
      var n := |b| - 1;
      AttemptConcat(perform, s, a, b[..n]);
      AttemptSnoc(perform, s, a + b[..n], b[n]);
      assert a + b == (a + b[..n]) + [b[n]];
    }
  }

  /** Steps that went through went through one at a time. */
  lemma AttemptNext<S, W>(perform: (S, W) -> Option<S>, s: S, steps: seq<W>, k: nat, t: S)
    requires k < |steps| && Attempt(perform, s, steps[..k]) == Run(t, k)
    ensures perform(t, steps[k]).Some? ==>
      Attempt(perform, s, steps[..k + 1]) == Run(perform(t, steps[k]).value, k + 1)
    ensures perform(t, steps[k]).None? ==> Attempt(perform, s, steps) == Run(t, k)
  {
    AttemptSnoc(perform, s, steps[..k], steps[k]);
    assert steps[..k + 1] == steps[..k] + [steps[k]];
    assert steps == steps[..k + 1] + steps[k + 1..];
    AttemptConcat(perform, s, steps[..k + 1], steps[k + 1..]);
  }

  /** After one part of the steps, either the run has stopped or what remains decides it. */
  lemma Advance<S, W>(perform: (S, W) -> Option<S>, s: S, a: seq<W>, rest: seq<W>)
    ensures var Run(t, k) := Attempt(perform, s, a);
            var Run(u, n) := Attempt(perform, s, a + rest);
            && (k < |a| ==> u == t && n < |a + rest|)
            && (k == |a| ==> u == Attempt(perform, t, rest).state)
            && (k == |a| ==> (n == |a + rest| <==> Attempt(perform, t, rest).done == |rest|))
  {
    AttemptConcat(perform, s, a, rest);
  }

  lemma {:induction false} NoneDone<S, W>(perform: (S, W) -> Option<S>, s: S, steps: seq<W>)
    requires Attempt(perform, s, steps).done == 0
    ensures Attempt(perform, s, steps).state == s
  {
    if steps != [] { NoneDone(perform, s, steps[..|steps| - 1]); }
  }

  /** A run passes through the states its prefixes stop in, and ends in the last it passes through. */
  lemma AttemptPrefix<S, W>(perform: (S, W) -> Option<S>, s: S, steps: seq<W>, k: nat)
    requires k <= Attempt(perform, s, steps).done
    ensures Attempt(perform, s, steps[..k]).done == k
    ensures k == Attempt(perform, s, steps).done ==> Attempt(perform, s, steps[..k]) == Attempt(perform, s, steps)
  {
    var a, b := steps[..k], steps[k..];
    assert steps == a + b;
    AttemptConcat(perform, s, a, b);
    if Attempt(perform, Attempt(perform, s, a).state, b).done == 0 {
      NoneDone(perform, Attempt(perform, s, a).state, b);
    }
  }

  /** A run that goes further goes through with its next step. */
  lemma AttemptThen<S, W>(perform: (S, W) -> Option<S>, s: S, steps: seq<W>, k: nat, t: S)
    requires k < Attempt(perform, s, steps).done && Attempt(perform, s, steps[..k]) == Run(t, k)
    ensures var r := Attempt(perform, t, [steps[k]]);
            r.done == 1 && Attempt(perform, s, steps[..k + 1]) == Run(r.state, k + 1)
  {
    AttemptPrefix(perform, s, steps, k + 1);
    AttemptSnoc(perform, s, steps[..k], steps[k]);
    assert steps[..k + 1] == steps[..k] + [steps[k]];
    AttemptOne(perform, t, steps[k]);
  }

  // ----- Steps for each of a list -----

  function Flat<T, W>(steps: T -> seq<W>, xs: seq<T>): seq<W> {
    if xs == [] then [] else Flat(steps, xs[..|xs| - 1]) + steps(xs[|xs| - 1])
  }

  lemma FlatNext<T, W>(steps: T -> seq<W>, xs: seq<T>, i: nat)
    requires i < |xs|
    ensures Flat(steps, xs[..i + 1]) == Flat(steps, xs[..i]) + steps(xs[i])
  {
    assert xs[..i + 1][..i] == xs[..i];
  }

  lemma {:induction false} FlatSplit<T, W>(steps: T -> seq<W>, xs: seq<T>, i: nat)
    requires i <= |xs|
    ensures Flat(steps, xs) == Flat(steps, xs[..i]) + Flat(steps, xs[i..])
  {
    if i == |xs| {
      assert xs[..i] == xs && Flat(steps, xs[i..]) == [];
    } else {
      var n := |xs| - 1;
      FlatSplit(steps, xs[..n], i);
      assert xs[..n][..i] == xs[..i] && xs[..n][i..] == xs[i..][..n - i];
      assert Flat(steps, xs[i..]) == Flat(steps, xs[i..][..n - i]) + steps(xs[n]);
    }
  }

  /** After each of the first i items' steps went through: the next item's go through, or the whole run stops there. */
  lemma AttemptEach<S, T, W>(perform: (S, W) -> Option<S>, s: S, steps: T -> seq<W>, xs: seq<T>, i: nat, t: S)
    requires i < |xs| && Attempt(perform, s, Flat(steps, xs[..i])) == Run(t, |Flat(steps, xs[..i])|)
    ensures var Run(u, k) := Attempt(perform, t, steps(xs[i]));
            && (k == |steps(xs[i])| ==>
                  Attempt(perform, s, Flat(steps, xs[..i + 1])) == Run(u, |Flat(steps, xs[..i + 1])|))
            && (k < |steps(xs[i])| ==>
                  var end := Attempt(perform, s, Flat(steps, xs)); end.state == u && end.done < |Flat(steps, xs)|)
  {
    FlatNext(steps, xs, i);
    FlatSplit(steps, xs, i + 1);
    AttemptConcat(perform, s, Flat(steps, xs[..i]), steps(xs[i]));
    Advance(perform, s, Flat(steps, xs[..i + 1]), Flat(steps, xs[i + 1..]));
  }
}
