/** Leaving elements out of a list: what stays are exactly the others, in order. */
module Picking {

  /** `at` are the places in `all` of what is kept: all that are not dropped, in order. */
  ghost predicate PickedAt<T(!new)>(all: seq<T>, kept: seq<T>, drop: iset<T>, at: seq<nat>) {
    && |at| == |kept|
    && (forall j :: 0 <= j < |at| ==> at[j] < |all| && kept[j] == all[at[j]] && all[at[j]] !in drop)
    && (forall i, j :: 0 <= i < j < |at| ==> at[i] < at[j])
    && (forall i {:trigger IsPlace(at, i)} :: 0 <= i < |all| && all[i] !in drop ==> IsPlace(at, i))
  }

  ghost predicate IsPlace(at: seq<nat>, i: int) {
    i in at
  }

  ghost predicate Picked<T(!new)>(all: seq<T>, kept: seq<T>, drop: iset<T>) {
    exists at :: PickedAt(all, kept, drop, at)
  }

  lemma PickNone<T(!new)>(drop: iset<T>)
    ensures Picked([], [], drop)
  {
    assert PickedAt([], [], drop, []);
  }

  lemma PickedAtSnoc<T(!new)>(all: seq<T>, kept: seq<T>, x: T, drop: iset<T>, at: seq<nat>)
    requires PickedAt(all, kept, drop, at)
    ensures x in drop ==> PickedAt(all + [x], kept, drop, at)
    ensures x !in drop ==> PickedAt(all + [x], kept + [x], drop, at + [|all|])
  {
    var longer, at' := all + [x], at + [|all|];
    forall i | 0 <= i < |longer| && longer[i] !in drop
      ensures IsPlace(at', i) && (x in drop ==> IsPlace(at, i))
    {
      if i < |all| {
        assert longer[i] == all[i] && IsPlace(at, i);
        var j :| 0 <= j < |at| && at[j] == i;
        assert at'[j] == i;
      } else {
        assert at'[|at|] == i;
      }
    }
  }

  lemma PickedSnoc<T(!new)>(all: seq<T>, kept: seq<T>, drop: iset<T>, x: T)
    requires Picked(all, kept, drop)
    ensures Picked(all + [x], if x in drop then kept else kept + [x], drop)
  {
    var at :| PickedAt(all, kept, drop, at);
    PickedAtSnoc(all, kept, x, drop, at);
  }

  lemma LastIsPicked<T(!new)>(all: seq<T>, kept: seq<T>, drop: iset<T>, at: seq<nat>)
    requires PickedAt(all, kept, drop, at) && all != [] && all[|all| - 1] !in drop
    ensures at != [] && at[|at| - 1] == |all| - 1
  {
    assert IsPlace(at, |all| - 1);
    var j :| 0 <= j < |at| && at[j] == |all| - 1;
    assert at[|at| - 1] <= at[j];
  }

  lemma PickedAtFront<T(!new)>(all: seq<T>, kept: seq<T>, drop: iset<T>, at: seq<nat>)
    requires PickedAt(all, kept, drop, at) && all != []
    ensures var n := |all| - 1;
            if all[n] in drop then PickedAt(all[..n], kept, drop, at)
            else kept != [] && kept[|kept| - 1] == all[n]
                 && PickedAt(all[..n], kept[..|kept| - 1], drop, at[..|at| - 1])
  {
    var n, m := |all| - 1, |at| - 1;
    if all[n] !in drop {
      LastIsPicked(all, kept, drop, at);
    }
    var front := if all[n] in drop then at else at[..m];
    forall j | 0 <= j < |front|
      ensures front[j] == at[j] < n
    {
      assert all[n] !in drop ==> at[j] < at[m];
    }
    forall i | 0 <= i < n && all[i] !in drop
      ensures IsPlace(front, i)
    {
      assert IsPlace(at, i);
      var j :| 0 <= j < |at| && at[j] == i;
      assert front[j] == i;
    }
  }

  lemma NoPlaces(at: seq<nat>, bound: nat)
    requires forall j :: 0 <= j < |at| ==> at[j] < bound
    ensures at == [] || bound > 0
  {
    var first := if at == [] then 0 else at[0];
  }

  lemma {:induction false} SamePicks<T(!new)>(all: seq<T>, a: seq<T>, b: seq<T>, drop: iset<T>, at: seq<nat>,
                                              bt: seq<nat>)
    requires PickedAt(all, a, drop, at) && PickedAt(all, b, drop, bt)
    ensures a == b
    decreases |all|
  {
    if all == [] {
      NoPlaces(at, |all|);
      NoPlaces(bt, |all|);
    } else {
      PickedAtFront(all, a, drop, at);
      PickedAtFront(all, b, drop, bt);
      var n := |all| - 1;
      if all[n] in drop {
        SamePicks(all[..n], a, b, drop, at, bt);
      } else {
        SamePicks(all[..n], a[..|a| - 1], b[..|b| - 1], drop, at[..|at| - 1], bt[..|bt| - 1]);
        assert a == a[..|a| - 1] + [all[n]] && b == b[..|b| - 1] + [all[n]];
      }
    }
  }

  /** What is kept is decided by what is dropped. */
  lemma PickedIsUnique<T(!new)>(all: seq<T>, a: seq<T>, b: seq<T>, drop: iset<T>)
    requires Picked(all, a, drop) && Picked(all, b, drop)
    ensures a == b
  {
    var at :| PickedAt(all, a, drop, at);
    var bt :| PickedAt(all, b, drop, bt);
    SamePicks(all, a, b, drop, at, bt);
  }
}
