/** Removing finished entries from a list by putting the last entry in their place. */
module SwapRemoval {

  /** The last entry replaces entry i, and the list gets shorter by one. */
  function DropAt<T>(s: seq<T>, i: nat): (r: seq<T>)
    requires i < |s|
    ensures |r| == |s| - 1
  {
    s[i := s[|s| - 1]][..|s| - 1]
  }

  lemma DropAtRemovesOne<T>(s: seq<T>, i: nat)
    requires i < |s|
    ensures multiset(DropAt(s, i)) + multiset{s[i]} == multiset(s)
  {
    var n := |s| - 1;
    assert s == s[..n] + [s[n]];
    if i < n {
      assert DropAt(s, i) == s[..n][i := s[n]];
    } else {
      assert DropAt(s, i) == s[..n];
    }
  }

  /** Scanning up from i, re-examining an entry that took the place of a removed one. */
  function SweepUp<T>(s: seq<T>, finished: T -> bool, i: nat): seq<T>
    requires i <= |s|
    decreases |s| - i
  {
    if i == |s| then s
    else if finished(s[i]) then SweepUp(DropAt(s, i), finished, i)
    else SweepUp(s, finished, i + 1)
  }

  /** Scanning down from i, as far as the list has not been looked at. */
  function SweepDown<T>(s: seq<T>, finished: T -> bool, i: nat): seq<T>
    requires i <= |s|
    decreases i
  {
    if i == 0 then s
    else if finished(s[i - 1]) then SweepDown(DropAt(s, i - 1), finished, i - 1)
    else SweepDown(s, finished, i - 1)
  }

  /** What a sweep should do: every finished entry goes, every other entry stays, as often as it was there. */
  ghost predicate Sweeps<T(!new)>(s: seq<T>, finished: T -> bool, r: seq<T>) {
    forall x :: multiset(r)[x] == if finished(x) then 0 else multiset(s)[x]
  }

  lemma NoneFinished<T(!new)>(s: seq<T>, finished: T -> bool)
    requires forall j :: 0 <= j < |s| ==> !finished(s[j])
    ensures Sweeps(s, finished, s)
  {
    forall x | finished(x) ensures multiset(s)[x] == 0 {
      assert x !in s;
    }
  }

  lemma DropThenSweep<T(!new)>(s: seq<T>, finished: T -> bool, i: nat, r: seq<T>)
    requires i < |s| && finished(s[i]) && Sweeps(DropAt(s, i), finished, r)
    ensures Sweeps(s, finished, r)
  {
    DropAtRemovesOne(s, i);
  }

  lemma {:induction false} SweepUpSweeps<T(!new)>(s: seq<T>, finished: T -> bool, i: nat)
    requires i <= |s| && forall j :: 0 <= j < i ==> !finished(s[j])
    ensures Sweeps(s, finished, SweepUp(s, finished, i))
    decreases |s| - i
  {
    if i < |s| {
      if finished(s[i]) {
        SweepUpSweeps(DropAt(s, i), finished, i);
        DropThenSweep(s, finished, i, SweepUp(s, finished, i));
      } else {
        SweepUpSweeps(s, finished, i + 1);
      }
    } else {
      NoneFinished(s, finished);
    }
  }

  lemma {:induction false} SweepDownSweeps<T(!new)>(s: seq<T>, finished: T -> bool, i: nat)
    requires i <= |s| && forall j :: i <= j < |s| ==> !finished(s[j])
    ensures Sweeps(s, finished, SweepDown(s, finished, i))
    decreases i
  {
    if i > 0 {
      if finished(s[i - 1]) {
        var r := DropAt(s, i - 1);
        forall j | i - 1 <= j < |r| ensures !finished(r[j]) {
          assert r[j] == s[if j == i - 1 then |s| - 1 else j];
        }
        SweepDownSweeps(r, finished, i - 1);
        DropThenSweep(s, finished, i - 1, SweepDown(s, finished, i));
      } else {
        SweepDownSweeps(s, finished, i - 1);
      }
    } else {
      NoneFinished(s, finished);
    }
  }
}
