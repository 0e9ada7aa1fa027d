/** The loop shape that `GTestSource.collect` uses twice: for each child
    element, compute an entry (a key and a value) or fail; write the value
    under its key into an ordered dictionary; add the entry's count to a
    running `passed` total. The first failure ends the whole loop. */
module KeyedLoops {

  import opened Wrappers
  import OM = OrderedMaps

  /** The loop after its first `n` passes. */
  function Fold<X, T, E>(xs: seq<X>, step: X -> Result<(string, T), E>, count: T -> nat, n: nat)
    : (r: Result<(OM.OMap<string, T>, nat), E>)
    requires n <= |xs|
  {
    if n == 0 then Ok((OM.Empty(), 0))
    else
      var before := Fold(xs, step, count, n - 1);
      if before.Err? then before
      else
        match step(xs[n - 1])
        case Err(e) => Err(e)
        case Ok((key, value)) => Ok((OM.Put(before.value.0, key, value), before.value.1 + count(value)))
  }

  /** One more successful pass writes its entry and adds its count. */
  lemma FoldNext<X, T, E>(xs: seq<X>, step: X -> Result<(string, T), E>, count: T -> nat, n: nat,
                          acc: OM.OMap<string, T>, passed: nat)
    requires n < |xs|
    requires Fold(xs, step, count, n) == Ok((acc, passed))
    requires step(xs[n]).Ok?
    ensures Fold(xs, step, count, n + 1) ==
      Ok((OM.Put(acc, step(xs[n]).value.0, step(xs[n]).value.1), passed + count(step(xs[n]).value.1)))
  {
  }

  /** Once a pass fails, the loop has failed with that error. */
  lemma {:induction false} FoldErrorSticks<X, T, E>(xs: seq<X>, step: X -> Result<(string, T), E>,
                                                    count: T -> nat, n: nat, m: nat)
    requires n <= m <= |xs|
    requires Fold(xs, step, count, n).Err?
    ensures Fold(xs, step, count, m) == Fold(xs, step, count, n)
    decreases m
  {
    if m > n {
      FoldErrorSticks(xs, step, count, n, m - 1);
    }
  }

  /** The loop succeeds iff every pass does, and otherwise fails with the
      error of the first failing pass. */
  lemma {:induction false} FoldOutcome<X, T, E>(xs: seq<X>, step: X -> Result<(string, T), E>,
                                                count: T -> nat, n: nat)
    requires n <= |xs|
    ensures Fold(xs, step, count, n).Ok? <==> forall i :: 0 <= i < n ==> step(xs[i]).Ok?
    ensures Fold(xs, step, count, n).Err? ==>
      exists i :: 0 <= i < n && step(xs[i]) == Err(Fold(xs, step, count, n).error) &&
        forall j :: 0 <= j < i ==> step(xs[j]).Ok?
  {
    if n > 0 {
      FoldOutcome(xs, step, count, n - 1);
      if Fold(xs, step, count, n - 1).Ok? && step(xs[n - 1]).Err? {
        assert step(xs[n - 1]) == Err(Fold(xs, step, count, n).error);
      }
    }
  }

  /** The dictionary the loop builds lists each of its keys once. */
  lemma {:induction false} FoldValid<X, T, E>(xs: seq<X>, step: X -> Result<(string, T), E>,
                                              count: T -> nat, n: nat)
    requires n <= |xs|
    ensures Fold(xs, step, count, n).Ok? ==> OM.Valid(Fold(xs, step, count, n).value.0)
  {
    if n > 0 {
      FoldValid(xs, step, count, n - 1);
    }
  }

  /** On success a key is in the dictionary iff some entry carries it. */
  lemma {:induction false} FoldKeys<X, T, E>(xs: seq<X>, step: X -> Result<(string, T), E>,
                                             count: T -> nat, n: nat)
    requires n <= |xs|
    requires Fold(xs, step, count, n).Ok?
    ensures forall i :: 0 <= i < n ==> step(xs[i]).Ok?
    ensures forall k :: k in Fold(xs, step, count, n).value.0.values <==>
      exists i :: 0 <= i < n && step(xs[i]).value.0 == k
  {
    FoldOutcome(xs, step, count, n);
    if n > 0 {
      FoldKeys(xs, step, count, n - 1);
    }
  }

  /** On success a key holds the value of the last entry that carries it. */
  lemma {:induction false} FoldLastWins<X, T, E>(xs: seq<X>, step: X -> Result<(string, T), E>,
                                                 count: T -> nat, n: nat, i: nat)
    requires i < n <= |xs|
    requires Fold(xs, step, count, n).Ok?
    requires step(xs[i]).Ok?
    requires forall j :: i < j < n && step(xs[j]).Ok? ==> step(xs[j]).value.0 != step(xs[i]).value.0
    ensures step(xs[i]).value.0 in Fold(xs, step, count, n).value.0.values
    ensures Fold(xs, step, count, n).value.0.values[step(xs[i]).value.0] == step(xs[i]).value.1
    decreases n
  {
    if i < n - 1 {
      FoldLastWins(xs, step, count, n - 1, i);
    }
  }

  /** The loop itself. */
  method Loop<X, T, E>(xs: seq<X>, step: X -> Result<(string, T), E>, count: T -> nat)
    returns (r: Result<(OM.OMap<string, T>, nat), E>)
    ensures r == Fold(xs, step, count, |xs|)
  {
    var acc: OM.OMap<string, T> := OM.Empty();
    var passed: nat := 0;
    var i := 0;
    while i < |xs|
      invariant 0 <= i <= |xs|
      invariant Fold(xs, step, count, i) == Ok((acc, passed))
    {
      var entry := step(xs[i]);
      if entry.Err? {
        FoldErrorSticks(xs, step, count, i + 1, |xs|);
        return Err(entry.error);
      }
      var (key, value) := entry.value;
      FoldNext(xs, step, count, i, acc, passed);
      acc := OM.Put(acc, key, value);
      passed := passed + count(value);
      i := i + 1;
    }
    return Ok((acc, passed));
  }
}
