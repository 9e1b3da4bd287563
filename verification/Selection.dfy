/** What filtering a list leaves, without saying how: each wanted element, in place, and no other. */
module Selection {
  ghost predicate Increasing(at: seq<nat>) {
    forall i, j :: 0 <= i < j < |at| ==> at[i] < at[j]
  }

  /** ys are the elements of xs at these places. */
  ghost predicate ReadsAt<T(!new)>(xs: seq<T>, ys: seq<T>, at: seq<nat>) {
    |at| == |ys| && forall i :: 0 <= i < |at| ==> at[i] < |xs| && ys[i] == xs[at[i]]
  }

  /** Just the elements that keep takes. */
  ghost predicate JustThose<T(!new)>(xs: seq<T>, keep: T -> bool, at: seq<nat>) {
    forall k: nat :: k < |xs| ==> (k in at <==> keep(xs[k]))
  }

  ghost predicate SelectedAt<T(!new)>(xs: seq<T>, keep: T -> bool, ys: seq<T>, at: seq<nat>) {
    Increasing(at) && ReadsAt(xs, ys, at) && JustThose(xs, keep, at)
  }

  ghost predicate Selects<T(!new)>(xs: seq<T>, keep: T -> bool, ys: seq<T>) {
    exists at: seq<nat> :: SelectedAt(xs, keep, ys, at)
  }

  lemma SelectsNone<T(!new)>(keep: T -> bool)
    ensures Selects([], keep, [])
  {
    assert SelectedAt([], keep, [], []);
  }

  lemma TakesMore<T(!new)>(xs: seq<T>, keep: T -> bool, ys: seq<T>, at: seq<nat>, x: T)
    requires SelectedAt(xs, keep, ys, at) && keep(x)
    ensures SelectedAt(xs + [x], keep, ys + [x], at + [|xs|])
  {
    forall k: nat | k < |xs + [x]|
      ensures k in at + [|xs|] <==> keep((xs + [x])[k])
    {
      assert k in at + [|xs|] <==> k in at || k == |xs|;
      if k in at {
        var i :| 0 <= i < |at| && at[i] == k;
      }
    }
  }

  lemma LeavesMore<T(!new)>(xs: seq<T>, keep: T -> bool, ys: seq<T>, at: seq<nat>, x: T)
    requires SelectedAt(xs, keep, ys, at) && !keep(x)
    ensures SelectedAt(xs + [x], keep, ys, at)
  {
    forall k: nat | k < |xs + [x]|
      ensures k in at <==> keep((xs + [x])[k])
    {
      if k in at {
        var i :| 0 <= i < |at| && at[i] == k;
      }
    }
  }

  lemma SelectsMore<T(!new)>(xs: seq<T>, keep: T -> bool, ys: seq<T>, x: T)
    requires Selects(xs, keep, ys)
    ensures Selects(xs + [x], keep, if keep(x) then ys + [x] else ys)
  {
    var at: seq<nat> :| SelectedAt(xs, keep, ys, at);
    if keep(x) {
      TakesMore(xs, keep, ys, at, x);
    } else {
      LeavesMore(xs, keep, ys, at, x);
    }
  }

  // ---- lists of places ----

  /** One more element, read or passed over. */
  lemma ReadsMore<T(!new)>(xs: seq<T>, ys: seq<T>, at: seq<nat>, x: T)
    requires Increasing(at) && ReadsAt(xs, ys, at)
    ensures ReadsAt(xs + [x], ys, at)
    ensures Increasing(at + [|xs|]) && ReadsAt(xs + [x], ys + [x], at + [|xs|])
  {
  }

  function Shifted(at: seq<nat>): (r: seq<nat>)
    ensures |r| == |at| && forall i :: 0 <= i < |at| ==> r[i] == at[i] + 1
  {
    seq(|at|, i requires 0 <= i < |at| => at[i] + 1)
  }

  lemma ShiftedMembers(at: seq<nat>, k: nat)
    ensures k + 1 in Shifted(at) <==> k in at
    ensures 0 !in Shifted(at)
  {
    if i :| 0 <= i < |at| && at[i] == k {
      assert Shifted(at)[i] == k + 1;
    }
  }

  /** One element before. */
  lemma ReadsBefore<T(!new)>(xs: seq<T>, ys: seq<T>, at: seq<nat>, x: T)
    requires Increasing(at) && ReadsAt(xs, ys, at)
    ensures Increasing(Shifted(at)) && ReadsAt([x] + xs, ys, Shifted(at))
    ensures Increasing([0] + Shifted(at)) && ReadsAt([x] + xs, [x] + ys, [0] + Shifted(at))
  {
  }

  lemma SelectsSame<T(!new)>(xs: seq<T>, keep: T -> bool, same: T -> bool, ys: seq<T>)
    requires Selects(xs, keep, ys) && forall x :: keep(x) == same(x)
    ensures Selects(xs, same, ys)
  {
    var at: seq<nat> :| SelectedAt(xs, keep, ys, at);
    assert SelectedAt(xs, same, ys, at);
  }
}
