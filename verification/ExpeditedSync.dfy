/** When `synchronize_sched_expedited` falls back on a full synchronization after its requests were served. */
module ExpeditedSync {
  import opened Common
  import opened MigrationRequests

  /** The request of CPU `c`, which is up and has been waited for, did not run there. */
  predicate Strayed(online: set<Cpu>, req: map<ReqId, Req>, todo: set<Cpu>, c: Cpu) {
    c in online && c !in todo && Rcu(c) in req && !req[Rcu(c)].ranHome
  }

  /** Whoever holds out for a full synchronization has seen such a request. */
  ghost predicate Reasoned(s: State) {
    forall t | t in s.caller && s.caller[t].Waiting? && s.caller[t].needFullSync ::
      exists c :: Strayed(s.online, s.req, s.caller[t].todo, c)
  }

  lemma InvParts(s: State)
    requires Inv(s)
    ensures Shaped(s) && Located(s) && Serialized(s)
  {
  }

  /** Serving requests moves no caller, and leaves a finished request as it was served. */
  lemma QueueStep(s: State, a: Action, c: Cpu)
    requires Shaped(s) && Located(s) && OnQueue(a) && QueueEnabled(s, a)
    ensures var r := QueueApply(s, a);
            && r.caller == s.caller && r.online == s.online
            && (Rcu(c) in s.req && s.req[Rcu(c)].loc.Finished? ==>
                  Rcu(c) in r.req && r.req[Rcu(c)].ranHome == s.req[Rcu(c)].ranHome)
  {
    if a.Dequeue? {
      HeadIsQueued(s, a.c);
    } else if a.DrainOne? {
      HeadIsQueued(s, s.hotplug.cpu);
    }
    hide Located;
  }

  /** CPUs do not come and go while a caller waits. */
  lemma HotplugStep(s: State, a: Action)
    requires Shaped(s) && OnHotplug(a) && HotplugEnabled(s, a)
    ensures var r := HotplugApply(s, a);
            r.caller == s.caller && r.req == s.req && (s.readers != {} ==> r.online == s.online)
  {
  }

  /** A step of caller `a.t`: where the requests were served does not change, unless one is posted again. */
  lemma CallerStep(s: State, a: Action, t: Tid, c: Cpu)
    requires Shaped(s) && !OnQueue(a) && !OnHotplug(a) && CallerEnabled(s, a)
    ensures var r := CallerApply(s, a);
            && r.online == s.online && a.t in s.caller && r.caller.Keys == s.caller.Keys
            && (t in s.caller && t != a.t ==> r.caller[t] == s.caller[t])
            && (Rcu(c) in s.req && a != PostRcu(a.t, c) ==>
                  Rcu(c) in r.req && r.req[Rcu(c)].ranHome == s.req[Rcu(c)].ranHome)
            && (r.caller[a.t].Waiting? ==> a.AllPosted? || a.WaitRcu?)
            && (a.AllPosted? ==> !r.caller[a.t].needFullSync)
            && (a.WaitRcu? ==>
                  && Rcu(a.c) in s.req && a.c in s.caller[a.t].todo && s.caller[a.t].Waiting?
                  && r.caller[a.t] == Waiting(s.caller[a.t].todo - {a.c},
                                              s.caller[a.t].needFullSync || s.req[Rcu(a.c)].qs.MustSync?))
            && (a.PostRcu? ==> s.caller[a.t].Posting?)
  {
  }

  /** What holds of a waiting caller and of the requests it has waited for. */
  lemma WaitingFacts(s: State, t: Tid, c: Cpu)
    requires Inv(s) && t in s.caller && s.caller[t].Waiting?
    ensures s.caller[t].todo <= s.online && s.readers != {} && s.mutex == Some(t)
    ensures c !in s.caller[t].todo && Rcu(c) in s.req ==> s.req[Rcu(c)].loc.Finished?
    ensures c in s.online && c !in s.caller[t].todo ==>
              Rcu(c) in s.req && (s.req[Rcu(c)].ranHome || s.caller[t].needFullSync)
    ensures c in s.caller[t].todo && Rcu(c) in s.req && s.req[Rcu(c)].loc.Finished? ==>
              (s.req[Rcu(c)].ranHome <==> s.req[Rcu(c)].qs != MustSync)
    ensures forall u | u in s.caller && InSession(s.caller[u]) :: u == t
  {
    HolderIs(s, t);
    InvSession(s, c);
    InvParts(s);
    hide Inv, Shaped, Located;
  }

  /** A request with a token has been completed. */
  lemma TokenIsFinished(s: State, r: ReqId)
    requires Inv(s) && r in s.req && s.req[r].done > 0
    ensures s.req[r].loc.Finished?
  {
    assert Counted(s.req[r]);
  }

  lemma StillReasoned(s: State, a: Action, t: Tid, c: Cpu)
    requires Inv(s) && Shaped(s) && Enabled(s, a) && t in s.caller && s.caller[t].Waiting?
    requires t in Apply(s, a).caller && Apply(s, a).caller[t].Waiting?
    requires Strayed(s.online, s.req, s.caller[t].todo, c)
    ensures Strayed(Apply(s, a).online, Apply(s, a).req, Apply(s, a).caller[t].todo, c)
  {
    WaitingFacts(s, t, c);
    InvParts(s);
    hide Inv, Shaped, Located, Serialized, QueueApply, HotplugApply, CallerApply, QueueEnabled, HotplugEnabled,
         CallerEnabled;
    if OnQueue(a) {
      QueueStep(s, a, c);
    } else if OnHotplug(a) {
      HotplugStep(s, a);
    } else {
      CallerStep(s, a, t, c);
    }
  }

  /** Waiting for a request that did not run at home is what asks for a full synchronization. */
  lemma NewlyReasoned(s: State, a: Action)
    requires Inv(s) && Shaped(s) && a.WaitRcu? && Enabled(s, a) && !s.caller[a.t].needFullSync
    requires Apply(s, a).caller[a.t].needFullSync
    ensures Strayed(Apply(s, a).online, Apply(s, a).req, Apply(s, a).caller[a.t].todo, a.c)
  {
    CallerStep(s, a, a.t, a.c);
    TokenIsFinished(s, Rcu(a.c));
    WaitingFacts(s, a.t, a.c);
    hide Inv, Shaped, CallerApply;
  }

  /** Only a caller that waited already, or turns to waiting with nothing against it, waits afterwards. */
  lemma WasWaiting(s: State, a: Action, t: Tid)
    requires Inv(s) && Shaped(s) && Enabled(s, a)
    requires t in Apply(s, a).caller && Apply(s, a).caller[t].Waiting? && Apply(s, a).caller[t].needFullSync
    ensures t in s.caller && s.caller[t].Waiting?
    ensures !s.caller[t].needFullSync ==> a.WaitRcu? && a.t == t
  {
    InvParts(s);
    hide Inv, Shaped, Located, Serialized, QueueApply, HotplugApply, CallerApply, QueueEnabled, HotplugEnabled,
         CallerEnabled;
    if OnQueue(a) {
      QueueStep(s, a, 0);
    } else if OnHotplug(a) {
      HotplugStep(s, a);
    } else {
      CallerStep(s, a, t, 0);
    }
  }

  lemma StepKeepsReasoned(s: State, a: Action)
    requires Inv(s) && Shaped(s) && Reasoned(s) && Enabled(s, a)
    ensures Reasoned(Apply(s, a))
  {
    hide Inv, Shaped, Apply, Enabled, Strayed;
    var r := Apply(s, a);
    forall t | t in r.caller && r.caller[t].Waiting? && r.caller[t].needFullSync
      ensures exists c :: Strayed(r.online, r.req, r.caller[t].todo, c)
    {
      WasWaiting(s, a, t);
      if s.caller[t].needFullSync {
        var c :| Strayed(s.online, s.req, s.caller[t].todo, c);
        StillReasoned(s, a, t, c);
      } else {
        NewlyReasoned(s, a);
      }
    }
  }

  lemma {:induction false} RunKeepsReasoned(s: State, actions: seq<Action>)
    requires Inv(s) && Reasoned(s) && Runs(s, actions)
    ensures Inv(Exec(s, actions)) && Reasoned(Exec(s, actions))
    decreases |actions|
  {
    hide Inv, Reasoned, Apply, Enabled, Shaped;
    if actions != [] {
      StepKeepsInv(s, actions[0]);
      StepKeepsReasoned(s, actions[0]);
      RunKeepsReasoned(Apply(s, actions[0]), actions[1..]);
    }
  }

  /**
   In every run a caller that has waited for all its requests does the full synchronization if and
   only if one of them, of a CPU that is up, was not served by that CPU's thread at home.
   */
  lemma FullSyncIffStrayed(s0: State, actions: seq<Action>, t: Tid)
    requires Initial(s0) && Runs(s0, actions)
    requires t in Exec(s0, actions).caller && Exec(s0, actions).caller[t].Waiting?
    requires Exec(s0, actions).caller[t].todo == {}
    ensures var s := Exec(s0, actions);
            s.caller[t].needFullSync <==> exists c :: Strayed(s.online, s.req, {}, c)
  {
    InitialHasInv(s0);
    RunKeepsReasoned(s0, actions);
    var s := Exec(s0, actions);
    hide Inv, Runs, Exec, Initial;
    if !s.caller[t].needFullSync {
      forall c ensures !Strayed(s.online, s.req, {}, c) {
        WaitingFacts(s, t, c);
      }
    }
  }
}
