/**
 * Write conflicts resolved by labels equal a serialisation of the writes.
 *
 * A label is the number kept for one address: 0 when no message writes it, and otherwise one
 * more than the highest message id that does.
 */
module Serialisation {

  type Labels = nat -> nat
  type Memory<B> = nat -> B

  /** Message `id` writes the addresses `[base, base + size)`; what it writes there is `data(id, _)`. */
  datatype Write = Write(id: nat, base: nat, size: nat)

  predicate Hits(w: Write, a: nat) {
    w.base <= a < w.base + w.size
  }

  // ---------------------------------------------------------------- labelling

  function Raise(mark: nat, w: Write, a: nat): nat {
    if Hits(w, a) && w.id >= mark then w.id + 1 else mark
  }

  /** The label of address a after the writes have been pushed in this order. */
  function Label(ws: seq<Write>, a: nat): nat {
    if ws == [] then 0 else Raise(Label(ws[..|ws| - 1], a), ws[|ws| - 1], a)
  }

  /** A label names the highest write of its address. */
  lemma {:induction false} LabelIsHighest(ws: seq<Write>, a: nat)
    ensures forall i :: 0 <= i < |ws| && Hits(ws[i], a) ==> ws[i].id < Label(ws, a)
    ensures Label(ws, a) > 0 ==> exists i :: 0 <= i < |ws| && Hits(ws[i], a) && ws[i].id == Label(ws, a) - 1
  {
    if ws != [] {
      var n := |ws| - 1;
      LabelIsHighest(ws[..n], a);
      if Label(ws, a) > 0 {
        if Hits(ws[n], a) && ws[n].id >= Label(ws[..n], a) {
          assert Hits(ws[n], a) && ws[n].id == Label(ws, a) - 1;
        } else {
          var i :| 0 <= i < n && Hits(ws[..n][i], a) && ws[..n][i].id == Label(ws[..n], a) - 1;
          assert Hits(ws[i], a);
        }
      }
    }
  }

  /** Labels do not depend on the order in which writes are pushed. */
  lemma LabelsCommute(us: seq<Write>, ws: seq<Write>, a: nat)
    requires multiset(us) == multiset(ws)
    ensures Label(us, a) == Label(ws, a)
  {
    LabelAtMost(us, ws, a);
    LabelAtMost(ws, us, a);
  }

  lemma LabelAtMost(us: seq<Write>, ws: seq<Write>, a: nat)
    requires multiset(us) == multiset(ws)
    ensures Label(us, a) <= Label(ws, a)
  {
    LabelIsHighest(us, a);
    LabelIsHighest(ws, a);
    if Label(us, a) > 0 {
      var i :| 0 <= i < |us| && Hits(us[i], a) && us[i].id == Label(us, a) - 1;
      assert us[i] in multiset(us);
      assert us[i] in multiset(ws);
      var j :| 0 <= j < |ws| && ws[j] == us[i];
    }
  }

  // ---------------------------------------------------------------- performing writes

  /** What address a holds after the writes have been performed one after the other. */
  ghost function Perform<B>(ws: seq<Write>, mem: Memory<B>, data: (nat, nat) -> B, a: nat): B {
    if ws == [] then mem(a)
    else if Hits(ws[|ws| - 1], a) then data(ws[|ws| - 1].id, a)
    else Perform(ws[..|ws| - 1], mem, data, a)
  }

  ghost predicate Ascending(ws: seq<Write>) {
    forall i, j :: 0 <= i < j < |ws| ==> ws[i].id <= ws[j].id
  }

  /** Writes performed in ascending id order leave what the label names. */
  lemma {:induction false} AscendingLeavesLabel<B>(ws: seq<Write>, mem: Memory<B>, data: (nat, nat) -> B, a: nat)
    requires Ascending(ws)
    ensures Perform(ws, mem, data, a) == if Label(ws, a) == 0 then mem(a) else data(Label(ws, a) - 1, a)
  {
    if ws != [] {
      var n := |ws| - 1;
      AscendingLeavesLabel(ws[..n], mem, data, a);
      LabelIsHighest(ws[..n], a);
      if Hits(ws[n], a) && Label(ws[..n], a) > 0 {
        var i :| 0 <= i < n && Hits(ws[..n][i], a) && ws[..n][i].id == Label(ws[..n], a) - 1;
        assert ws[i].id <= ws[n].id;
      }
    }
  }

  // ---------------------------------------------------------------- draining

  ghost predicate Disjoint(w: Write, v: Write) {
    forall a: nat :: !(Hits(w, a) && Hits(v, a))
  }

  /**
   * The runs are pairwise disjoint, none is empty, together they cover exactly the labelled
   * addresses, and each address is in a run of the message its label names.
   */
  ghost predicate Drains(labels: Labels, runs: seq<Write>) {
    && (forall k :: 0 <= k < |runs| ==> runs[k].size > 0)
    && (forall k, l :: 0 <= k < l < |runs| ==> Disjoint(runs[k], runs[l]))
    && (forall k, a: nat :: 0 <= k < |runs| && Hits(runs[k], a) ==> labels(a) == runs[k].id + 1)
    && forall a: nat :: labels(a) != 0 ==> exists k :: 0 <= k < |runs| && Hits(runs[k], a)
  }

  lemma {:induction false} DrainLeavesLabel<B>(runs: seq<Write>, mem: Memory<B>, data: (nat, nat) -> B, a: nat)
    ensures (forall k :: 0 <= k < |runs| ==> !Hits(runs[k], a)) ==> Perform(runs, mem, data, a) == mem(a)
    ensures forall k :: 0 <= k < |runs| && Hits(runs[k], a)
                        && (forall l :: 0 <= l < |runs| && Hits(runs[l], a) ==> runs[l].id == runs[k].id)
                        ==> Perform(runs, mem, data, a) == data(runs[k].id, a)
  {
    if runs != [] {
      var n := |runs| - 1;
      DrainLeavesLabel(runs[..n], mem, data, a);
      if !Hits(runs[n], a) {
        forall k | 0 <= k < |runs| && Hits(runs[k], a)
                   && (forall l :: 0 <= l < |runs| && Hits(runs[l], a) ==> runs[l].id == runs[k].id)
          ensures Perform(runs, mem, data, a) == data(runs[k].id, a)
        {
          assert runs[..n][k] == runs[k];
        }
      }
    }
  }

  /**
   * Copying what a drain yields leaves the same memory as performing all pushed writes one
   * after the other in ascending id order, however the pushes were ordered and overlapped.
   */
  lemma DrainIsSerialisation<B>(pushes: seq<Write>, serial: seq<Write>, labels: Labels, runs: seq<Write>,
                                mem: Memory<B>, data: (nat, nat) -> B, a: nat)
    requires forall b: nat :: labels(b) == Label(pushes, b)
    requires multiset(serial) == multiset(pushes) && Ascending(serial)
    requires Drains(labels, runs)
    ensures Perform(runs, mem, data, a) == Perform(serial, mem, data, a)
  {
    LabelsCommute(serial, pushes, a);
    AscendingLeavesLabel(serial, mem, data, a);
    DrainLeavesLabel(runs, mem, data, a);
    if labels(a) != 0 {
      var k :| 0 <= k < |runs| && Hits(runs[k], a);
      forall l | 0 <= l < |runs| && Hits(runs[l], a) ensures runs[l].id == runs[k].id {
        assert labels(a) == runs[l].id + 1;
      }
    }
  }

  /** A drain that starts with a run of equal labels goes on with a drain of the others. */
  lemma DrainNext(labels: Labels, r: Write, rest: Labels, runs: seq<Write>)
    requires r.size > 0 && forall a: nat :: Hits(r, a) ==> labels(a) == r.id + 1
    requires forall a: nat :: rest(a) == if Hits(r, a) then 0 else labels(a)
    requires Drains(rest, runs)
    ensures Drains(labels, [r] + runs)
  {
    var all := [r] + runs;
    forall k, a: nat | 0 <= k < |all| && Hits(all[k], a) ensures labels(a) == all[k].id + 1 {
      if k > 0 {
        assert all[k] == runs[k - 1] && rest(a) == runs[k - 1].id + 1;
      }
    }
    forall k, l | 0 <= k < l < |all| ensures Disjoint(all[k], all[l]) {
      assert all[l] == runs[l - 1];
      if k == 0 {
        forall a: nat | Hits(all[l], a) ensures !Hits(r, a) {
          assert rest(a) == runs[l - 1].id + 1;
        }
      } else {
        assert all[k] == runs[k - 1] && Disjoint(runs[k - 1], runs[l - 1]);
      }
    }
    forall a: nat | labels(a) != 0 ensures exists k :: 0 <= k < |all| && Hits(all[k], a) {
      if Hits(r, a) {
        assert Hits(all[0], a);
      } else {
        assert rest(a) != 0;
        var k :| 0 <= k < |runs| && Hits(runs[k], a);
        assert Hits(all[k + 1], a);
      }
    }
  }
}
