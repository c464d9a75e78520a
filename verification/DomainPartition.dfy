/** Replacing the partition of CPUs into scheduling domains: `partition_sched_domains`. */
module DomainPartition {
  import opened Common

  /** `struct sched_domain_attr`; a missing array of attributes reads as `SD_ATTR_INIT`. */
  type Attr = int
  const SD_ATTR_INIT: Attr := -1

  function AttrAt(attrs: Option<seq<Attr>>, i: nat): Attr
    requires attrs.Some? ==> i < |attrs.value|
  {
    if attrs.Some? then attrs.value[i] else SD_ATTR_INIT
  }

  /** The domain a CPU is attached to: the mask it was built for and its attribute. */
  datatype Domain = Domain(mask: set<nat>, attr: Attr)

  /** A partition as the caller hands it over: one domain per mask. */
  datatype Partition = Partition(doms: seq<set<nat>>, attrs: Option<seq<Attr>>) {
    ghost predicate Valid() {
      && (attrs.Some? ==> |attrs.value| == |doms|)
      && (forall i, j | 0 <= i < j < |doms| :: doms[i] !! doms[j])
    }

    function DomainAt(i: nat): Domain
      requires i < |doms| && (attrs.Some? ==> |attrs.value| == |doms|)
    {
      Domain(doms[i], AttrAt(attrs, i))
    }

    /** Some domain of this partition has the mask and attribute of `d`. */
    predicate Has(d: Domain)
      requires attrs.Some? ==> |attrs.value| == |doms|
    {
      exists i | 0 <= i < |doms| :: DomainAt(i) == d
    }
  }

  /** Each CPU is attached to the domain of `p` whose mask contains it, or to none. */
  ghost predicate Reflects(attached: map<nat, Domain>, p: Partition)
    requires p.Valid()
  {
    && (forall i, c | 0 <= i < |p.doms| && c in p.doms[i] :: c in attached && attached[c] == p.DomainAt(i))
    && (forall c | c in attached :: exists i :: 0 <= i < |p.doms| && c in p.doms[i])
  }

  class Domains {
    var attached: map<nat, Domain>   // rq->sd of every CPU that has one
    var cur: Partition               // doms_cur, dattr_cur
    const online: set<nat>           // cpu_online_mask
    const isolated: set<nat>         // cpu_isolated_map

    constructor (online: set<nat>, isolated: set<nat>)
      ensures Valid() && cur == Partition([], None) && attached == map[]
      ensures this.online == online && this.isolated == isolated
    {
      attached, cur := map[], Partition([], None);
      this.online, this.isolated := online, isolated;
    }

    /** The recorded partition is the one in force. */
    ghost predicate Valid()
      reads this
    {
      cur.Valid() && Reflects(attached, cur)
    }

    method DetachDestroyDomains(cpu_map: set<nat>)
      modifies this`attached
      ensures attached == old(attached) - cpu_map
    {
      attached := attached - cpu_map;
    }

    /** A successful `__build_sched_domains`. */
    method BuildSchedDomains(d: Domain)
      modifies this`attached
      ensures attached == old(attached) + map c | c in d.mask :: d
    {
      attached := attached + map c | c in d.mask :: d;
    }

    /** The partition a call asks for: no array of masks stands for the non-isolated online CPUs. */
    function Requested(ndoms_new: nat, doms_new: Option<seq<set<nat>>>, dattr_new: Option<seq<Attr>>): Partition
      requires if doms_new.Some? then |doms_new.value| == ndoms_new else ndoms_new <= 1
    {
      match doms_new
      case Some(doms) => Partition(doms, dattr_new)
      case None => Partition(if ndoms_new == 0 then [] else [online - isolated], dattr_new)
    }

    /** The first loop: afterwards the kept domains, and only they, are attached. */
    method DestroyDeleted(new_topology: bool, candidates: Partition)
      requires Valid() && candidates.Valid()
      modifies this`attached
      ensures OnlyKept(attached, cur, new_topology, candidates)
    {
      AllAttached(attached, cur);
      hide Kept, Reflects;
      ghost var before := attached;
      var i := 0;
      while i < |cur.doms|
        invariant 0 <= i <= |cur.doms|
        invariant forall c | c in attached :: c in before && attached[c] == before[c]
        invariant forall k, c | 0 <= k < i && c in cur.doms[k] ::
                    c in attached <==> Kept(new_topology, candidates, cur.DomainAt(k))
        invariant forall k, c | i <= k < |cur.doms| && c in cur.doms[k] :: c in attached
      {
        var found := Match(new_topology, candidates, cur.DomainAt(i));
        if !found {
          DetachDestroyDomains(cur.doms[i]);
        }
        i := i + 1;
      }
      Remaining(before, attached, cur, new_topology, candidates);
    }

    /** The second loop: `compared` is the old partition, or nothing when no masks were given. */
    method BuildNew(new_topology: bool, compared: Partition, next: Partition)
      requires compared.Valid() && next.Valid()
      requires OnlyKept(attached, compared, new_topology, next)
      modifies this`attached
      ensures Reflects(attached, next)
    {
      var i := 0;
      ghost var before := attached;
      NothingBuilt(before, next);
      hide Built, OnlyKept, Reflects, Kept;
      while i < |next.doms|
        invariant 0 <= i <= |next.doms|
        invariant Built(before, attached, next, i)
      {
        var found := Match(new_topology, compared, next.DomainAt(i));
        if found {
          KeptAlready(before, compared, new_topology, next, i);
          BuiltKept(before, attached, next, i);
        } else {
          BuiltOne(before, attached, next, i);
          BuildSchedDomains(next.DomainAt(i));
        }
        i := i + 1;
      }
      KeptBelongs(before, compared, new_topology, next);
      BuiltAll(before, attached, next);
    }

    /**
     Whichever domains are kept, destroyed or rebuilt, afterwards every CPU is attached to the
     domain of the new partition that contains it, or to none.
     */
    method PartitionSchedDomains(ndoms_new: nat, doms_new: Option<seq<set<nat>>>, dattr_new: Option<seq<Attr>>,
                                 new_topology: bool)
      requires Valid()
      requires if doms_new.Some? then |doms_new.value| == ndoms_new else ndoms_new <= 1
      requires Requested(ndoms_new, doms_new, dattr_new).Valid()
      modifies this
      ensures Valid() && cur == Requested(ndoms_new, doms_new, dattr_new)
      ensures doms_new.Some? ==> cur == Partition(doms_new.value, dattr_new)
      ensures doms_new.None? && ndoms_new == 1 ==> cur.doms == [online - isolated] && attached.Keys == online - isolated
      ensures doms_new.None? && ndoms_new == 0 ==> attached == map[]
    {
      var next := Requested(ndoms_new, doms_new, dattr_new);
      if doms_new.Some? {
        DestroyDeleted(new_topology, next);
        BuildNew(new_topology, cur, next);
      } else {
        DestroyDeleted(new_topology, Partition([], None));   // n == 0: nothing matches
        NothingKept(attached, cur, new_topology, next);
        BuildNew(new_topology, Partition([], None), next);   // ndoms_cur == 0
      }
      cur := next;
      SingleDomain(attached, next);
    }
  }

  /** The CPUs attached under a partition of one domain, or of none. */
  lemma SingleDomain(attached: map<nat, Domain>, p: Partition)
    requires p.Valid() && Reflects(attached, p)
    ensures |p.doms| == 1 ==> attached.Keys == p.doms[0]
    ensures |p.doms| == 0 ==> attached == map[]
  {
    if |p.doms| == 0 {
      assert attached.Keys == {};
    }
  }

  /** Exactly the CPUs of the domains of `p` that `other` also has are attached, each to its domain. */
  ghost predicate OnlyKept(attached: map<nat, Domain>, p: Partition, new_topology: bool, other: Partition)
    requires p.Valid() && other.Valid()
  {
    && (forall k, c | 0 <= k < |p.doms| && c in p.doms[k] && Kept(new_topology, other, p.DomainAt(k)) ::
          c in attached && attached[c] == p.DomainAt(k))
    && (forall c | c in attached :: exists k ::
          0 <= k < |p.doms| && c in p.doms[k] && Kept(new_topology, other, p.DomainAt(k)))
  }

  lemma AllAttached(attached: map<nat, Domain>, p: Partition)
    requires p.Valid() && Reflects(attached, p)
    ensures forall k, c | 0 <= k < |p.doms| && c in p.doms[k] :: c in attached
  {
  }

  /** Detaching exactly the CPUs of the domains not kept leaves the kept ones. */
  lemma Remaining(before: map<nat, Domain>, attached: map<nat, Domain>, p: Partition, new_topology: bool,
                  other: Partition)
    requires p.Valid() && other.Valid() && Reflects(before, p)
    requires forall c | c in attached :: c in before && attached[c] == before[c]
    requires forall k, c | 0 <= k < |p.doms| && c in p.doms[k] ::
               c in attached <==> Kept(new_topology, other, p.DomainAt(k))
    ensures OnlyKept(attached, p, new_topology, other)
  {
    hide Kept;
  }

  /** The first `i` domains of `next` are attached; the CPUs of the others are as before. */
  ghost predicate Built(before: map<nat, Domain>, attached: map<nat, Domain>, next: Partition, i: nat)
    requires next.Valid() && i <= |next.doms|
  {
    && (forall k, c | 0 <= k < i && c in next.doms[k] :: c in attached && attached[c] == next.DomainAt(k))
    && (forall k, c | i <= k < |next.doms| && c in next.doms[k] && c in before ::
          c in attached && attached[c] == before[c])
    && (forall c | c in attached :: c in before || exists k :: 0 <= k < i && c in next.doms[k])
  }

  lemma NothingBuilt(before: map<nat, Domain>, next: Partition)
    requires next.Valid()
    ensures Built(before, before, next, 0)
  {
  }

  lemma BuiltKept(before: map<nat, Domain>, attached: map<nat, Domain>, next: Partition, i: nat)
    requires next.Valid() && i < |next.doms| && Built(before, attached, next, i)
    requires forall c | c in next.doms[i] :: c in before && before[c] == next.DomainAt(i)
    ensures Built(before, attached, next, i + 1)
  {
  }

  lemma BuiltOne(before: map<nat, Domain>, attached: map<nat, Domain>, next: Partition, i: nat)
    requires next.Valid() && i < |next.doms| && Built(before, attached, next, i)
    ensures Built(before, attached + map c | c in next.DomainAt(i).mask :: next.DomainAt(i), next, i + 1)
  {
  }

  lemma BuiltAll(before: map<nat, Domain>, attached: map<nat, Domain>, next: Partition)
    requires next.Valid() && Built(before, attached, next, |next.doms|)
    requires forall c | c in before :: exists k :: 0 <= k < |next.doms| && c in next.doms[k]
    ensures Reflects(attached, next)
  {
  }

  lemma NothingKept(attached: map<nat, Domain>, p: Partition, new_topology: bool, next: Partition)
    requires p.Valid() && next.Valid()
    requires OnlyKept(attached, p, new_topology, Partition([], None))
    ensures OnlyKept(attached, Partition([], None), new_topology, next)
  {
  }

  /** A new domain found in the old partition was kept there. */
  lemma KeptAlready(attached: map<nat, Domain>, p: Partition, new_topology: bool, next: Partition, i: nat)
    requires p.Valid() && next.Valid() && i < |next.doms|
    requires OnlyKept(attached, p, new_topology, next)
    requires Kept(new_topology, p, next.DomainAt(i))
    ensures forall c | c in next.doms[i] :: c in attached && attached[c] == next.DomainAt(i)
  {
    var k :| 0 <= k < |p.doms| && p.DomainAt(k) == next.DomainAt(i);
    assert Kept(new_topology, next, p.DomainAt(k));
  }

  /** A kept domain is one of the new ones. */
  lemma KeptBelongs(attached: map<nat, Domain>, p: Partition, new_topology: bool, next: Partition)
    requires p.Valid() && next.Valid()
    requires OnlyKept(attached, p, new_topology, next)
    ensures forall c | c in attached :: exists k :: 0 <= k < |next.doms| && c in next.doms[k]
  {
    forall c | c in attached ensures exists k :: 0 <= k < |next.doms| && c in next.doms[k] {
      var j :| 0 <= j < |p.doms| && c in p.doms[j] && Kept(new_topology, next, p.DomainAt(j));
      var k :| 0 <= k < |next.doms| && next.DomainAt(k) == p.DomainAt(j);
      assert c in next.doms[k];
    }
  }

  /** A domain is kept when the topology is unchanged and the other partition has it too. */
  predicate Kept(new_topology: bool, other: Partition, d: Domain)
    requires other.attrs.Some? ==> |other.attrs.value| == |other.doms|
  {
    !new_topology && other.Has(d)
  }

  /** The inner loops: search the other partition for a domain of the same mask and attribute. */
  method Match(new_topology: bool, other: Partition, d: Domain) returns (found: bool)
    requires other.attrs.Some? ==> |other.attrs.value| == |other.doms|
    ensures found == Kept(new_topology, other, d)
  {
    found := false;
    var j := 0;
    while j < |other.doms| && !new_topology
      invariant 0 <= j <= |other.doms|
      invariant !found && forall k | 0 <= k < j :: other.DomainAt(k) != d
    {
      if other.doms[j] == d.mask && AttrAt(other.attrs, j) == d.attr {
        assert other.DomainAt(j) == d;
        found := true;
        return;
      }
      j := j + 1;
    }
  }
}
