/** A sparse set over an integer range: a permutation whose first `size` entries are the members. */
module SparseSets {

  // ---------------------------------------------------------------- members in iteration order

  /** The first position from `i` on that holds x, or the length. */
  function IndexFrom(s: seq<nat>, x: nat, i: nat): (j: nat)
    requires i <= |s|
    ensures i <= j <= |s| && (j < |s| ==> s[j] == x) && forall k :: i <= k < j ==> s[k] != x
    decreases |s| - i
  {
    if i == |s| || s[i] == x then i else IndexFrom(s, x, i + 1)
  }

  /** A new member goes to the end of the order. */
  function Inserted(s: seq<nat>, x: nat): seq<nat> {
    if x in s then s else s + [x]
  }

  /** The last member takes the place of the one that is erased. */
  function Erased(s: seq<nat>, x: nat): seq<nat> {
    var i := IndexFrom(s, x, 0);
    if i == |s| then s else s[i := s[|s| - 1]][..|s| - 1]
  }

  ghost predicate Distinct(s: seq<nat>) {
    forall i, j :: 0 <= i < j < |s| ==> s[i] != s[j]
  }

  ghost function Elements(s: seq<nat>): set<nat> {
    set x | x in s
  }

  lemma EraseElements(s: seq<nat>, x: nat)
    requires Distinct(s)
    ensures Distinct(Erased(s, x)) && Elements(Erased(s, x)) == Elements(s) - {x}
  {
    if x in s {
      var a, r := IndexFrom(s, x, 0), Erased(s, x);
      forall y | y in s && y != x ensures y in r {
        var j :| 0 <= j < |s| && s[j] == y;
        assert r[if j == |s| - 1 then a else j] == y;
      }
    }
  }

  /** Erasing moves the last member to the place of the erased one, and no other. */
  lemma EraseOrder(s: seq<nat>, x: nat)
    requires Distinct(s) && x in s
    ensures |Erased(s, x)| == |s| - 1
    ensures forall i :: 0 <= i < |s| - 1 ==> Erased(s, x)[i] == if s[i] == x then s[|s| - 1] else s[i]
  {
    var j :| 0 <= j < |s| && s[j] == x;
    assert IndexFrom(s, x, 0) == j;
  }

  lemma ErasedMembers(s: seq<nat>, x: nat)
    requires Distinct(s)
    ensures forall y :: y in Erased(s, x) <==> y in s && y != x
  {
    EraseElements(s, x);
    assert forall y :: y in Erased(s, x) <==> y in Elements(Erased(s, x));
  }

  // ---------------------------------------------------------------- the structure

  /** Two tables of one length that are each other's inverse. */
  ghost predicate Inverse(domain: seq<nat>, index: seq<nat>) {
    && |domain| == |index|
    && (forall i :: 0 <= i < |domain| ==> domain[i] < |domain| && index[domain[i]] == i)
    && forall i :: 0 <= i < |index| ==> index[i] < |index| && domain[index[i]] == i
  }

  function Swap(s: seq<nat>, a: nat, b: nat): (r: seq<nat>)
    requires a < |s| && b < |s|
    ensures |r| == |s| && r[a] == s[b] && r[b] == s[a]
    ensures forall i :: 0 <= i < |s| && i != a && i != b ==> r[i] == s[i]
  {
    s[a := s[b]][b := s[a]]
  }

  lemma SwapKeepsInverse(domain: seq<nat>, index: seq<nat>, a: nat, b: nat)
    requires Inverse(domain, index) && a < |domain| && b < |domain|
    ensures Inverse(Swap(domain, a, b), Swap(index, domain[b], domain[a]))
  {
  }

  /** The shifted order lists x. */
  predicate Listed(order: seq<nat>, min: nat, x: nat) {
    x >= min && x - min in order
  }

  ghost function MembersOf(order: seq<nat>, min: nat, max: nat): set<nat> {
    set x | min <= x <= max && Listed(order, min, x)
  }

  lemma MembersAfterInsert(order: seq<nat>, min: nat, max: nat, x: nat)
    requires min <= x <= max
    ensures MembersOf(Inserted(order, x - min), min, max) == MembersOf(order, min, max) + {x}
  {
  }

  lemma MembersAfterErase(order: seq<nat>, min: nat, max: nat, x: nat)
    requires min <= x <= max && Distinct(order)
    ensures MembersOf(Erased(order, x - min), min, max) == MembersOf(order, min, max) - {x}
  {
    ErasedMembers(order, x - min);
  }

  class SparseSet {
    var min: nat
    var max: nat
    var size: nat
    var domain: seq<nat>
    var index: seq<nat>

    ghost predicate Valid()
      reads this
    {
      |domain| == max + 1 - min && size <= |domain| && Inverse(domain, index)
    }

    /** What iteration from begin to end visits: members, shifted down by the minimum. */
    function Order(): seq<nat>
      reads this
      requires size <= |domain|
    {
      domain[..size]
    }

    ghost function Members(): set<nat>
      reads this
      requires Valid()
    {
      MembersOf(Order(), min, max)
    }

    lemma OrderIsDistinct()
      requires Valid()
      ensures Distinct(Order())
    {
      forall i, j | 0 <= i < j < size ensures domain[i] != domain[j] {
        assert index[domain[i]] == i && index[domain[j]] == j;
      }
    }

    /** Iteration visits the members themselves exactly when the range starts at zero. */
    lemma IterationYieldsMembers()
      requires Valid()
      ensures Elements(Order()) == Members() <==> min == 0 || size == 0
    {
      if min > 0 && size > 0 && Elements(Order()) == Members() {
        Unbounded(Order()[0], Order());
        assert false;
      }
      if min == 0 {
        assert forall o: nat :: o in Order() <==> Listed(Order(), min, o);
      }
    }

    lemma Unbounded(o: nat, s: seq<nat>)
      requires Valid() && min > 0 && s == Order() && o in s
      requires Elements(s) == Members()
      ensures false
      decreases |domain| - o
    {
      assert Listed(Order(), min, o + min);
      assert o + min in Elements(s);
      Unbounded(o + min, s);
    }

    constructor (min': nat, max': nat)
      requires min' <= max'
      ensures Valid() && min == min' && max == max' && Order() == []
    {
      min, max, size := min', max', 0;
      domain, index := [], [];
      new;
      Reset(min', max');
    }

    method Reset(min': nat, max': nat)
      requires min' <= max'
      modifies this
      ensures Valid() && min == min' && max == max' && Order() == []
    {
      var n := max' - min' + 1;
      domain := seq(n, i => 0);
      index := seq(n, i => 0);
      for i := 0 to n
        invariant |domain| == |index| == n
        invariant forall j :: 0 <= j < i ==> domain[j] == j && index[j] == j
      {
        domain := domain[i := i];
        index := index[i := i];
      }
      min, max, size := min', max', 0;
    }

    method Extend(newMax: nat)
      requires Valid() && newMax > max
      modifies this
      ensures Valid() && min == old(min) && max == newMax && Order() == old(Order())
    {
      var oldSize, n := |domain|, newMax + 1 - min;
      domain := domain + seq(n - oldSize, i => 0);
      index := index + seq(n - oldSize, i => 0);
      for i := oldSize to n
        invariant |domain| == |index| == n && min == old(min) && size == old(size)
        invariant forall j :: 0 <= j < oldSize ==> domain[j] == old(domain)[j] && index[j] == old(index)[j]
        invariant forall j :: oldSize <= j < i ==> domain[j] == j && index[j] == j
      {
        domain := domain[i := i];
        index := index[i := i];
      }
      max := newMax;
    }

    method Clear()
      requires Valid()
      modifies this`size
      ensures Valid() && Order() == []
    {
      size := 0;
    }

    predicate Contains(x: nat)
      reads this
      requires Valid()
      ensures Contains(x) <==> x in Members()
    {
      if x >= min && x <= max && index[x - min] < size then
        assert Order()[index[x - min]] == x - min;
        true
      else
        assert !Listed(Order(), min, x);
        false
    }

    /** The position of x in the iteration, or the end position. */
    method Find(x: nat) returns (i: nat)
      requires Valid()
      ensures if x in Members() then i < size && Order()[i] + min == x else i == size
    {
      assert Contains(x) <==> x in Members();
      if x < min || x > max {
        i := size;
      } else if index[x - min] >= size {
        i := size;
      } else {
        i := index[x - min];
      }
    }

    method Insert(x: nat)
      requires Valid() && min <= x <= max
      modifies this
      ensures Valid() && min == old(min) && max == old(max)
      ensures Order() == Inserted(old(Order()), x - min)
      ensures Members() == old(Members()) + {x}
    {
      MembersAfterInsert(Order(), min, max, x);
      if !Contains(x) {
        SwapNextIn(x - min);
        size := size + 1;
      }
    }

    method SwapNextIn(x: nat)
      requires Inverse(domain, index) && size < |domain| && x < |domain| && index[x] >= size
      modifies this`domain, this`index
      ensures Inverse(domain, index) && |domain| == |old(domain)|
      ensures domain[..size + 1] == Inserted(old(domain)[..size], x)
    {
      var a, b := index[x], size;
      SwapKeepsInverse(domain, index, a, b);
      domain := Swap(domain, a, b);
      index := Swap(index, domain[a], domain[b]);
    }

    method Erase(x: nat)
      requires Valid() && min <= x <= max
      modifies this
      ensures Valid() && min == old(min) && max == old(max)
      ensures Order() == Erased(old(Order()), x - min)
      ensures Members() == old(Members()) - {x}
    {
      OrderIsDistinct();
      MembersAfterErase(Order(), min, max, x);
      if Contains(x) {
        size := size - 1;
        SwapLastOut(x - min);
      }
    }

    /** The members are the first `size + 1` entries until x leaves them. */
    method SwapLastOut(x: nat)
      requires Inverse(domain, index) && size < |domain| && x < |domain| && index[x] <= size
      modifies this`domain, this`index
      ensures Inverse(domain, index) && |domain| == |old(domain)|
      ensures domain[..size] == Erased(old(domain)[..size + 1], x)
    {
      var a, b := index[x], size;
      SwapKeepsInverse(domain, index, a, b);
      domain := Swap(domain, a, b);
      index := Swap(index, domain[a], domain[b]);
    }
  }

  /** The only member of a set over `[min, max]` is not what iteration yields, unless the range starts at zero. */
  method IterationIsShifted(min: nat, max: nat, x: nat) returns (first: nat)
    requires min <= x <= max
    ensures first == x - min && (first == x <==> min == 0)
  {
    var members := new SparseSet(min, max);
    members.Insert(x);
    first := members.Order()[0];
  }
}
