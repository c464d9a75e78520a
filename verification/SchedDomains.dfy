/** Attaching a CPU to its scheduling domains, after pruning those that do not contribute. */
module SchedDomains {
  import opened Common

  datatype Flag =
    | LoadBalance | BalanceNewidle | BalanceExec | BalanceFork | BalanceWake | WakeAffine
    | PreferLocal | ShareCpupower | PowersavingsBalance | SharePkgResources | Serialize | PreferSibling

  /** The flags that mean something only with at least two groups. */
  const NEED_GROUPS: set<Flag> :=
    {LoadBalance, BalanceNewidle, BalanceFork, BalanceExec, ShareCpupower, SharePkgResources}

  class SchedDomain {
    var parent: SchedDomain?
    var child: SchedDomain?
    const span: set<nat>
    const flags: set<Flag>
    const oneGroup: bool       // sd->groups == sd->groups->next

    constructor (span: set<nat>, flags: set<Flag>, oneGroup: bool)
      ensures this.span == span && this.flags == flags && this.oneGroup == oneGroup
      ensures parent == null && child == null
    {
      this.span, this.flags, this.oneGroup, parent, child := span, flags, oneGroup, null, null;
    }
  }

  /** `sd_degenerate`. */
  predicate Degenerate(sd: SchedDomain) {
    || |sd.span| == 1
    || ((sd.flags * NEED_GROUPS == {} || sd.oneGroup) && WakeAffine !in sd.flags)
  }

  /** `sd_parent_degenerate`: the parent adds nothing over `sd`. */
  predicate ParentDegenerate(nr_node_ids: nat, sd: SchedDomain, parent: SchedDomain) {
    Degenerate(parent) ||
    (sd.span == parent.span &&
     (var pflags := if !parent.oneGroup then parent.flags
                    else parent.flags - NEED_GROUPS - (if nr_node_ids == 1 then {Serialize} else {});
      pflags <= sd.flags))
  }

  /** The domain balances between groups: it has some, and a flag that uses them. */
  predicate BalancesGroups(sd: SchedDomain) {
    && !sd.oneGroup
    && (exists f | f in sd.flags :: f in {LoadBalance, BalanceNewidle, BalanceFork, BalanceExec, ShareCpupower,
                                          SharePkgResources})
  }

  /** A domain contributes if and only if it spans several CPUs (or none) and balances groups or places wakeups. */
  lemma DegenerateIff(sd: SchedDomain)
    ensures !Degenerate(sd) <==> |sd.span| != 1 && (BalancesGroups(sd) || WakeAffine in sd.flags)
  {
    assert forall f | f in sd.flags :: f in NEED_GROUPS ==> f in sd.flags * NEED_GROUPS;
    if sd.flags * NEED_GROUPS != {} {
      var f :| f in sd.flags * NEED_GROUPS;
      assert f in sd.flags && f in NEED_GROUPS;
    }
  }

  /** What a flag of a domain is good for: one that needs groups only where there are several, the rest everywhere. */
  predicate Useful(nr_node_ids: nat, sd: SchedDomain, f: Flag) {
    && f in sd.flags
    && (sd.oneGroup ==> f in {WakeAffine, BalanceWake, PreferLocal, PowersavingsBalance, PreferSibling, Serialize})
    && (sd.oneGroup && f == Serialize ==> nr_node_ids != 1)
  }

  /** A parent is dropped exactly if it does not contribute, or spans the same CPUs without a useful flag of its own. */
  lemma ParentDegenerateIff(nr_node_ids: nat, sd: SchedDomain, parent: SchedDomain)
    ensures ParentDegenerate(nr_node_ids, sd, parent) <==>
            || Degenerate(parent)
            || (parent.span == sd.span && forall f | Useful(nr_node_ids, parent, f) :: f in sd.flags)
  {
    hide Degenerate;
    var pflags := if !parent.oneGroup then parent.flags
                  else parent.flags - NEED_GROUPS - (if nr_node_ids == 1 then {Serialize} else {});
    forall f ensures f in pflags <==> Useful(nr_node_ids, parent, f) {
      assert f in NEED_GROUPS <==>
             f !in {WakeAffine, BalanceWake, PreferLocal, PowersavingsBalance, PreferSibling, Serialize} by {
        match f case LoadBalance => case _ =>
      }
    }
  }

  /** `chain` runs from a base domain up its parents, and every child link mirrors a parent link. */
  ghost predicate Linked(chain: seq<SchedDomain>)
    reads chain
  {
    && (forall k, l | 0 <= k < l < |chain| :: chain[k] != chain[l])
    && (forall k, l | 0 <= k && l == k + 1 < |chain| :: chain[k].parent == chain[l] && chain[l].child == chain[k])
    && (chain != [] ==> chain[0].child == null && chain[|chain| - 1].parent == null)
  }

  /** `sd` and those of the domains `above` it that survive the loop. */
  function Prune(nr_node_ids: nat, sd: SchedDomain, above: seq<SchedDomain>): (kept: seq<SchedDomain>)
    ensures kept != [] && kept[0] == sd
  {
    if above == [] then [sd]
    else if ParentDegenerate(nr_node_ids, sd, above[0]) then Prune(nr_node_ids, sd, above[1..])
    else [sd] + Prune(nr_node_ids, above[0], above[1..])
  }

  /** The chain that is attached: the loop, and the final check of the base. */
  function Pruned(nr_node_ids: nat, chain: seq<SchedDomain>): seq<SchedDomain> {
    if chain == [] then []
    else
      var kept := Prune(nr_node_ids, chain[0], chain[1..]);
      if Degenerate(chain[0]) then kept[1..] else kept
  }

  class Rq {
    var sd: SchedDomain?
  }

  /**
   Attaches the pruned chain: `rq->sd` is its base, and parent and child links along it are
   inverse to each other.
   */
  method CpuAttachDomain(rq: Rq, base: SchedDomain?, nr_node_ids: nat, ghost chain: seq<SchedDomain>)
    requires Linked(chain)
    requires if base == null then chain == [] else chain != [] && base == chain[0]
    modifies rq, chain
    ensures Linked(Pruned(nr_node_ids, chain))
    ensures rq.sd == if Pruned(nr_node_ids, chain) == [] then null else Pruned(nr_node_ids, chain)[0]
  {
    hide Prune, Degenerate, Linked;
    var sd := base;
    if sd != null {
      PruneParents(sd, nr_node_ids, chain);
      if Degenerate(sd) {
        sd := DropBase(sd, Prune(nr_node_ids, sd, chain[1..]), chain);
      }
    }
    rq.sd := sd;
  }

  /** The final check of the base: its parent becomes the base. */
  method DropBase(sd: SchedDomain, ghost kept: seq<SchedDomain>, ghost chain: seq<SchedDomain>)
    returns (base: SchedDomain?)
    requires Linked(kept) && kept != [] && sd == kept[0] && forall d | d in kept :: d in chain
    modifies chain
    ensures Linked(kept[1..]) && base == if |kept| == 1 then null else kept[1]
  {
    assert |kept| > 1 ==> sd.parent == kept[1] && kept[1] in kept;
    base := sd.parent;
    if base != null {
      base.child := null;
    }
  }

  /** The loop: unlink every parent that adds nothing over the domain below it. */
  method PruneParents(sd: SchedDomain, nr_node_ids: nat, ghost chain: seq<SchedDomain>)
    requires Linked(chain) && chain != [] && sd == chain[0]
    modifies chain
    ensures Linked(Prune(nr_node_ids, sd, chain[1..]))
    ensures forall d | d in Prune(nr_node_ids, sd, chain[1..]) :: d in chain
  {
    hide Prune, ParentDegenerate, Linked;
    var tmp: SchedDomain := sd;
    ghost var below, above := [], chain[1..];
    assert below + [tmp] + above == chain;
    while tmp.parent != null
      invariant Linked(below + [tmp] + above)
      invariant (below + [tmp])[0] == sd
      invariant forall d | d in below + [tmp] + above :: d in chain
      invariant below + Prune(nr_node_ids, tmp, above) == Prune(nr_node_ids, sd, chain[1..])
      decreases |above|
    {
      ParentOf(below, tmp, above);
      var parent: SchedDomain := tmp.parent;
      Members(below, tmp, above);
      PruneStep(nr_node_ids, below, tmp, above);
      if ParentDegenerate(nr_node_ids, tmp, parent) {
        Unlink(tmp, parent, below, above);
        above := above[1..];
      } else {
        ghost var child := tmp;
        tmp := parent;
        below, above := below + [child], above[1..];
      }
    }
    ParentOf(below, tmp, above);
    PruneStep(nr_node_ids, below, tmp, above);
  }

  /** The domain at hand, and its parent passed over or passed. */
  lemma Members(below: seq<SchedDomain>, sd: SchedDomain, above: seq<SchedDomain>)
    ensures sd in below + [sd] + above && (below + [sd])[..|below|] == below
    ensures above != [] ==>
              && above[0] in below + [sd] + above
              && (below + [sd]) + [above[0]] + above[1..] == below + [sd] + above
              && (below + [sd] + [above[0]])[0] == (below + [sd])[0]
              && forall d | d in below + [sd] + above[1..] :: d in below + [sd] + above
    ensures |above| > 1 ==> above[1] in below + [sd] + above
  {
    if above != [] {
      assert above == [above[0]] + above[1..];
      assert (below + [sd]) + [above[0]] + above[1..] == below + [sd] + above;
      if |above| > 1 { assert above[1..][0] == above[1]; }
    }
  }

  lemma ParentOf(below: seq<SchedDomain>, sd: SchedDomain, above: seq<SchedDomain>)
    requires Linked(below + [sd] + above)
    ensures sd.parent == if above == [] then null else above[0]
    ensures above != [] ==> above[0].parent == if |above| == 1 then null else above[1]
  {
    var all := below + [sd] + above;
    assert all[|below|] == sd;
    if above != [] {
      assert all[|below| + 1] == above[0];
      if |above| > 1 { assert all[|below| + 2] == above[1]; }
    }
  }

  lemma PruneStep(nr_node_ids: nat, below: seq<SchedDomain>, sd: SchedDomain, above: seq<SchedDomain>)
    ensures above == [] ==> below + Prune(nr_node_ids, sd, above) == below + [sd] + above
    ensures above != [] && ParentDegenerate(nr_node_ids, sd, above[0]) ==>
              Prune(nr_node_ids, sd, above) == Prune(nr_node_ids, sd, above[1..])
    ensures above != [] && !ParentDegenerate(nr_node_ids, sd, above[0]) ==>
              below + Prune(nr_node_ids, sd, above) == below + [sd] + Prune(nr_node_ids, above[0], above[1..])
  {
  }

  /** Takes `parent` out of the chain: both links are passed over it. */
  method Unlink(tmp: SchedDomain, parent: SchedDomain, ghost below: seq<SchedDomain>, ghost above: seq<SchedDomain>)
    requires Linked(below + [tmp] + above) && above != [] && parent == above[0]
    modifies {tmp} + (if parent.parent == null then {} else {parent.parent})
    ensures Linked(below + [tmp] + above[1..])
  {
    ghost var all := below + [tmp] + above;
    assert all[|below|] == tmp && all[|below| + 1] == parent;
    assert |above| > 1 ==> all[|below| + 2] == above[1];
    ghost var rest := below + [tmp] + above[1..];
    assert forall k | 0 <= k < |rest| :: rest[k] == all[if k <= |below| then k else k + 1];
    tmp.parent := parent.parent;
    if parent.parent != null {
      parent.parent.child := tmp;
    }
  }

  /** `a` is what is left of `b` after deleting some elements. */
  predicate Subsequence<T(==)>(a: seq<T>, b: seq<T>) {
    a == [] || (b != [] && if a[0] == b[0] then Subsequence(a[1..], b[1..]) else Subsequence(a, b[1..]))
  }

  /** No parent in `chain` is redundant over the domain just below it. */
  predicate NoneRedundant(nr_node_ids: nat, chain: seq<SchedDomain>) {
    forall k, l | 0 <= k && l == k + 1 < |chain| :: !ParentDegenerate(nr_node_ids, chain[k], chain[l])
  }

  predicate NoneDegenerate(chain: seq<SchedDomain>) {
    forall k | 0 <= k < |chain| :: !Degenerate(chain[k])
  }

  /** The loop leaves only the base to be checked: every parent it keeps is neither degenerate nor redundant. */
  lemma {:induction false} PruneKeepsGood(nr_node_ids: nat, sd: SchedDomain, above: seq<SchedDomain>)
    ensures
      var kept := Prune(nr_node_ids, sd, above);
      NoneRedundant(nr_node_ids, kept) && NoneDegenerate(kept[1..])
    decreases |above|
  {
    if above != [] {
      if ParentDegenerate(nr_node_ids, sd, above[0]) {
        PruneKeepsGood(nr_node_ids, sd, above[1..]);
      } else {
        var rest := Prune(nr_node_ids, above[0], above[1..]);
        PruneKeepsGood(nr_node_ids, above[0], above[1..]);
        assert ([sd] + rest)[1..] == rest && rest[0] == above[0];
        assert forall k | 0 < k < |rest| :: rest[k] == rest[1..][k - 1];
        hide Prune;
      }
    }
  }

  /** `chain[j]` is the nearest domain below `chain[k]` that is kept. */
  predicate NearestKept(kept: seq<SchedDomain>, chain: seq<SchedDomain>, j: nat, k: nat)
    requires j < k < |chain|
  {
    chain[j] in kept && forall i | j < i < k :: chain[i] !in kept
  }

  /** `chain[k]` is kept, or adds nothing over the nearest domain kept below it. */
  predicate Justified(nr_node_ids: nat, kept: seq<SchedDomain>, chain: seq<SchedDomain>, k: nat)
    requires k < |chain|
  {
    chain[k] in kept
    || exists j: nat :: j < k && NearestKept(kept, chain, j, k) && ParentDegenerate(nr_node_ids, chain[j], chain[k])
  }

  /** Inserting a domain above the first that is not kept. */
  lemma InsertedAbove(nr_node_ids: nat, kept: seq<SchedDomain>, sd: SchedDomain, x: SchedDomain,
                      above: seq<SchedDomain>, k: nat)
    requires k < |above| && Justified(nr_node_ids, kept, [sd] + above, k + 1) && x !in kept
    ensures Justified(nr_node_ids, kept, [sd] + [x] + above, k + 2)
  {
    hide ParentDegenerate;
    var old_, chain := [sd] + above, [sd] + [x] + above;
    assert chain[k + 2] == old_[k + 1] == above[k];
    if above[k] !in kept {
      var j: nat :|
        j < k + 1 && NearestKept(kept, old_, j, k + 1) && ParentDegenerate(nr_node_ids, old_[j], old_[k + 1]);
      var m := if j == 0 then 0 else j + 1;
      assert chain[m] == old_[j];
      forall i | m < i < k + 2 ensures chain[i] !in kept {
        if i > 1 {
          assert chain[i] == old_[i - 1];
        }
      }
      assert NearestKept(kept, chain, m, k + 2);
    }
  }

  /** Putting a kept domain below the chain. */
  lemma PutBelow(nr_node_ids: nat, kept: seq<SchedDomain>, sd: SchedDomain, above: seq<SchedDomain>, k: nat)
    requires k < |above| && Justified(nr_node_ids, kept, above, k) && sd !in above
    ensures Justified(nr_node_ids, [sd] + kept, [sd] + above, k + 1)
  {
    hide ParentDegenerate;
    var chain := [sd] + above;
    assert chain[k + 1] == above[k];
    if above[k] !in kept {
      var j: nat :| j < k && NearestKept(kept, above, j, k) && ParentDegenerate(nr_node_ids, above[j], above[k]);
      assert chain[j + 1] == above[j];
      forall i | j + 1 < i < k + 1 ensures chain[i] !in [sd] + kept {
        assert chain[i] == above[i - 1];
      }
      assert NearestKept([sd] + kept, chain, j + 1, k + 1);
    }
  }

  lemma {:induction false} PruneKeepsFrom(nr_node_ids: nat, sd: SchedDomain, above: seq<SchedDomain>)
    ensures forall d | d in Prune(nr_node_ids, sd, above) :: d == sd || d in above
    decreases |above|
  {
    hide ParentDegenerate;
    if above != [] {
      PruneKeepsFrom(nr_node_ids, sd, above[1..]);
      PruneKeepsFrom(nr_node_ids, above[0], above[1..]);
    }
  }

  lemma DistinctParts(sd: SchedDomain, x: SchedDomain, rest: seq<SchedDomain>)
    requires Distinct([sd] + ([x] + rest))
    ensures Distinct([sd] + rest) && Distinct([x] + rest) && sd !in [x] + rest && x !in [sd] + rest
  {
    var chain := [sd] + ([x] + rest);
    assert chain[0] == sd && chain[1] == x;
    assert forall i | 0 <= i < |rest| :: rest[i] == chain[i + 2];
  }

  /** The loop drops a domain only if it adds nothing over the nearest one that it keeps below. */
  lemma {:induction false} DroppedAddsNothing(nr_node_ids: nat, sd: SchedDomain, above: seq<SchedDomain>, k: nat)
    requires k <= |above| && Distinct([sd] + above)
    ensures Justified(nr_node_ids, Prune(nr_node_ids, sd, above), [sd] + above, k)
    decreases |above|
  {
    hide ParentDegenerate, Justified, Distinct;
    if k == 0 {
      BaseIsKept(nr_node_ids, sd, above);
    } else {
      var x, rest := above[0], above[1..];
      assert above == [x] + rest && [sd] + above == [sd] + [x] + rest;
      DistinctParts(sd, x, rest);
      PruneKeepsFrom(nr_node_ids, sd, rest);
      if !ParentDegenerate(nr_node_ids, sd, x) {
        DroppedAddsNothing(nr_node_ids, x, rest, k - 1);
        PutBelow(nr_node_ids, Prune(nr_node_ids, x, rest), sd, [x] + rest, k - 1);
      } else if k == 1 {
        FirstIsDropped(nr_node_ids, sd, x, rest);
      } else {
        DroppedAddsNothing(nr_node_ids, sd, rest, k - 1);
        InsertedAbove(nr_node_ids, Prune(nr_node_ids, sd, rest), sd, x, rest, k - 2);
      }
    }
  }

  lemma BaseIsKept(nr_node_ids: nat, sd: SchedDomain, above: seq<SchedDomain>)
    ensures Justified(nr_node_ids, Prune(nr_node_ids, sd, above), [sd] + above, 0)
  {
    assert Prune(nr_node_ids, sd, above)[0] == sd;
  }

  lemma FirstIsDropped(nr_node_ids: nat, sd: SchedDomain, x: SchedDomain, rest: seq<SchedDomain>)
    requires ParentDegenerate(nr_node_ids, sd, x)
    ensures Justified(nr_node_ids, Prune(nr_node_ids, sd, rest), [sd] + [x] + rest, 1)
  {
    var chain := [sd] + [x] + rest;
    assert chain[0] == sd && chain[1] == x && Prune(nr_node_ids, sd, rest)[0] == sd;
    assert NearestKept(Prune(nr_node_ids, sd, rest), chain, 0, 1);
    hide ParentDegenerate, Prune;
  }

  lemma {:induction false} PruneIsSubsequence(nr_node_ids: nat, sd: SchedDomain, above: seq<SchedDomain>)
    ensures Subsequence(Prune(nr_node_ids, sd, above), [sd] + above)
    ensures Subsequence(Prune(nr_node_ids, sd, above)[1..], above)
    decreases |above|
  {
    assert ([sd] + above)[1..] == above;
    if above != [] {
      var rest := Prune(nr_node_ids, above[0], above[1..]);
      assert ([sd] + rest)[1..] == rest && [above[0]] + above[1..] == above;
      PruneIsSubsequence(nr_node_ids, sd, above[1..]);
      PruneIsSubsequence(nr_node_ids, above[0], above[1..]);
      if ParentDegenerate(nr_node_ids, sd, above[0]) {
        SkipFirst(Prune(nr_node_ids, sd, above[1..])[1..], above[1..], above[0]);
      }
    }
  }

  lemma {:induction false} SkipFirst<T>(a: seq<T>, b: seq<T>, x: T)
    requires Subsequence(a, b)
    ensures Subsequence(a, [x] + b)
    decreases |b|, 1
  {
    assert ([x] + b)[1..] == b;
    if a != [] && a[0] == x {
      DropFirst(a, b);
    }
  }

  lemma {:induction false} DropFirst<T>(a: seq<T>, b: seq<T>)
    requires Subsequence(a, b) && a != []
    ensures Subsequence(a[1..], b)
    decreases |b|, 0
  {
    if a[0] == b[0] {
      assert [b[0]] + b[1..] == b;
      SkipFirst(a[1..], b[1..], b[0]);
    } else {
      DropFirst(a, b[1..]);
      assert [b[0]] + b[1..] == b;
      SkipFirst(a[1..], b[1..], b[0]);
    }
  }

  /**
   The attached chain is a subsequence of the original one in which no domain is degenerate and
   no parent is redundant over its child; the single check of the base after the loop suffices.
   */
  lemma PrunedIsGood(nr_node_ids: nat, chain: seq<SchedDomain>)
    ensures
      var kept := Pruned(nr_node_ids, chain);
      Subsequence(kept, chain) && NoneDegenerate(kept) && NoneRedundant(nr_node_ids, kept)
  {
    if chain != [] {
      var sd, above := chain[0], chain[1..];
      assert [sd] + above == chain;
      PruneKeepsGood(nr_node_ids, sd, above);
      PruneIsSubsequence(nr_node_ids, sd, above);
      var kept := Prune(nr_node_ids, sd, above);
      assert forall k | 0 < k < |kept| :: kept[k] == kept[1..][k - 1];
      if Degenerate(sd) {
        SkipFirst(kept[1..], above, sd);
      }
    }
  }

  /** Attaching again changes nothing: a chain without degenerate or redundant domains is kept whole. */
  lemma {:induction false} GoodChainIsKept(nr_node_ids: nat, sd: SchedDomain, above: seq<SchedDomain>)
    requires NoneRedundant(nr_node_ids, [sd] + above)
    ensures Prune(nr_node_ids, sd, above) == [sd] + above
    decreases |above|
  {
    hide ParentDegenerate, Degenerate;
    if above != [] {
      var chain := [sd] + above;
      assert chain[0] == sd && chain[1] == above[0];
      assert !ParentDegenerate(nr_node_ids, sd, above[0]);
      assert forall k | 0 <= k < |above| :: ([above[0]] + above[1..])[k] == chain[k + 1];
      GoodChainIsKept(nr_node_ids, above[0], above[1..]);
    }
  }

  lemma PruningIsIdempotent(nr_node_ids: nat, chain: seq<SchedDomain>)
    ensures Pruned(nr_node_ids, Pruned(nr_node_ids, chain)) == Pruned(nr_node_ids, chain)
  {
    PrunedIsGood(nr_node_ids, chain);
    var kept := Pruned(nr_node_ids, chain);
    if kept != [] {
      assert [kept[0]] + kept[1..] == kept;
      GoodChainIsKept(nr_node_ids, kept[0], kept[1..]);
    }
  }
}
