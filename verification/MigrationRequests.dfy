/**
 The migration threads: requests queued per CPU and completed one by one, CPU hot-unplug, and the
 expedited RCU grace period built on them. Every action is one section under a lock.
 */
module MigrationRequests {
  import opened Common

  type Cpu = nat
  type Tid = nat

  /** A request lives on its caller's stack, or is the one each CPU reserves for expedited RCU. */
  datatype ReqId = OnStack(n: nat) | Rcu(cpu: Cpu)

  /** RCU_MIGRATION_IDLE and so on. */
  datatype Qs = QsIdle | NeedQs | GotQs | MustSync

  datatype Loc = Queued(cpu: Cpu) | Handled(cpu: Cpu) | Drained | Finished

  /**
   `done` is the request's completion. The rest is for the specification: where the request is, how
   often it was dequeued and completed since it was posted, and whether a migration thread took it
   while running on the CPU the request was posted to.
   */
  datatype Req = Req(qs: Qs, done: nat, loc: Loc, dequeued: nat, completed: nat, ranHome: bool)

  datatype Thread = AtLoop | Handling(r: ReqId) | Stopped

  /** A CPU going down: its thread is being stopped, then the CPU_DEAD drain empties its queue. */
  datatype Hotplug = Quiet | Stopping(cpu: Cpu) | Draining(cpu: Cpu, hand: Option<ReqId>)

  /** Where a caller of `synchronize_sched_expedited` is. */
  datatype Caller =
    | Outside
    | Trying(snap: int, tries: nat)                              // holds the CPU hotplug lock
    | Retrying(snap: int, tries: nat)                            // has dropped it
    | Posting(todo: set<Cpu>)
    | Waiting(todo: set<Cpu>, needFullSync: bool)

  /** A return, with whether `synchronize_sched` ran and the CPUs whose thread did not run at home. */
  datatype Return = Return(synced: bool, missed: set<Cpu>)

  datatype State = State(
    cpus: set<Cpu>, online: set<Cpu>,
    queue: map<Cpu, seq<ReqId>>, thread: map<Cpu, Thread>, req: map<ReqId, Req>,
    hotplug: Hotplug, readers: set<Tid>,                         // get_online_cpus()
    mutex: Option<Tid>, caller: map<Tid, Caller>, log: seq<Return>)

  /** The counter that is meant to count completed grace periods; no statement changes it. */
  const synchronize_sched_expedited_count: int := 0

  datatype Action =
    | PostTask(n: nat, c: Cpu)           // migrate_task()
    | WaitTask(n: nat)                   // wait_for_completion(&req.done) returns
    | Dequeue(c: Cpu, at: Cpu)           // the migration thread of c, running on `at`
    | CompleteHandled(c: Cpu)
    | ThreadExit(c: Cpu)                 // stopped, or its CPU is offline
    | CpuDown(c: Cpu)
    | StartDrain
    | DrainOne
    | CompleteDrained
    | EndDown
    | CpuUp(c: Cpu)
    | Call(t: Tid)
    | LockFails(t: Tid)
    | Fallback(t: Tid)
    | EarlyReturn(t: Tid)
    | TryAgain(t: Tid)
    | Lock(t: Tid)
    | PostRcu(t: Tid, c: Cpu)
    | AllPosted(t: Tid)
    | WaitRcu(t: Tid, c: Cpu)
    | Finish(t: Tid)

  predicate Shaped(s: State) {
    && s.queue.Keys == s.cpus && s.thread.Keys == s.cpus && s.online <= s.cpus
    && (!s.hotplug.Quiet? ==> s.hotplug.cpu in s.cpus && s.hotplug.cpu !in s.online)
  }

  predicate At(s: State, t: Tid, pc: Caller) {
    t in s.caller && s.caller[t] == pc
  }

  /** The actions on requests: posting, waiting, and serving by a migration thread or by the drain. */
  predicate QueueEnabled(s: State, a: Action)
    requires Shaped(s)
  {
    match a
    // A task still on a runqueue is on a CPU whose tasks have not all been moved away.
    case PostTask(n, c) => OnStack(n) !in s.req && c in s.cpus && (c in s.online || s.hotplug == Stopping(c))
    case WaitTask(n) => OnStack(n) in s.req && s.req[OnStack(n)].done > 0
    case Dequeue(c, at) =>
      c in s.online && s.thread[c].AtLoop? && s.queue[c] != [] && s.queue[c][0] in s.req
    case CompleteHandled(c) => c in s.cpus && s.thread[c].Handling? && s.thread[c].r in s.req
    case DrainOne =>
      && s.hotplug.Draining? && s.hotplug.hand.None?
      && s.queue[s.hotplug.cpu] != [] && s.queue[s.hotplug.cpu][0] in s.req
    case CompleteDrained => s.hotplug.Draining? && s.hotplug.hand.Some? && s.hotplug.hand.value in s.req
    case _ => false
  }

  /** CPUs going down and coming up, and their threads leaving. */
  predicate HotplugEnabled(s: State, a: Action)
    requires Shaped(s)
  {
    match a
    case ThreadExit(c) => c in s.cpus && c !in s.online && s.thread[c].AtLoop?
    case CpuDown(c) => c in s.online && s.hotplug.Quiet? && s.readers == {}
    case StartDrain => s.hotplug.Stopping? && s.thread[s.hotplug.cpu].Stopped?
    case EndDown => s.hotplug.Draining? && s.hotplug.hand.None? && s.queue[s.hotplug.cpu] == []
    case CpuUp(c) => c in s.cpus && c !in s.online && s.hotplug.Quiet? && s.readers == {}
    case _ => false
  }

  /** The callers of `synchronize_sched_expedited`. */
  predicate CallerEnabled(s: State, a: Action)
    requires Shaped(s)
  {
    match a
    case Call(t) => At(s, t, Outside) && s.hotplug.Quiet?
    case LockFails(t) => t in s.caller && s.caller[t].Trying? && s.mutex.Some?
    case Fallback(t) => t in s.caller && s.caller[t].Retrying? && s.caller[t].tries > 10
    case EarlyReturn(t) =>
      && t in s.caller && s.caller[t].Retrying? && s.caller[t].tries <= 10
      && synchronize_sched_expedited_count - s.caller[t].snap > 0
    case TryAgain(t) =>
      && t in s.caller && s.caller[t].Retrying? && s.caller[t].tries <= 10 && s.hotplug.Quiet?
      && synchronize_sched_expedited_count - s.caller[t].snap <= 0
    case Lock(t) => t in s.caller && s.caller[t].Trying? && s.mutex.None?
    case PostRcu(t, c) => t in s.caller && s.caller[t].Posting? && c in s.caller[t].todo && c in s.cpus
    case AllPosted(t) => At(s, t, Posting({}))
    case WaitRcu(t, c) =>
      && t in s.caller && s.caller[t].Waiting? && c in s.caller[t].todo
      && Rcu(c) in s.req && s.req[Rcu(c)].done > 0
    case Finish(t) => t in s.caller && s.caller[t].Waiting? && s.caller[t].todo == {}
    case _ => false
  }

  predicate OnQueue(a: Action) {
    a.PostTask? || a.WaitTask? || a.Dequeue? || a.CompleteHandled? || a.DrainOne? || a.CompleteDrained?
  }

  predicate OnHotplug(a: Action) {
    a.ThreadExit? || a.CpuDown? || a.StartDrain? || a.EndDown? || a.CpuUp?
  }

  predicate Enabled(s: State, a: Action)
    requires Shaped(s)
  {
    if OnQueue(a) then QueueEnabled(s, a) else if OnHotplug(a) then HotplugEnabled(s, a) else CallerEnabled(s, a)
  }

  /** `list_add`: at the head. */
  function Post(s: State, r: ReqId, c: Cpu): State
    requires c in s.queue
  {
    s.(queue := s.queue[c := [r] + s.queue[c]], req := s.req[r := Req(NeedQs, 0, Queued(c), 0, 0, false)])
  }

  function TakeHead(s: State, c: Cpu, loc: Loc, qs: Qs, ranHome: bool): State
    requires c in s.queue && s.queue[c] != [] && s.queue[c][0] in s.req
  {
    var r := s.queue[c][0];
    var q := s.req[r];
    s.(queue := s.queue[c := s.queue[c][1..]],
       req := s.req[r := q.(qs := qs, loc := loc, dequeued := q.dequeued + 1, ranHome := ranHome)])
  }

  /** `complete(&req->done)` */
  function Complete(s: State, r: ReqId): State
    requires r in s.req
  {
    var q := s.req[r];
    s.(req := s.req[r := q.(done := q.done + 1, completed := q.completed + 1, loc := Finished)])
  }

  function Goto(s: State, t: Tid, pc: Caller): State {
    s.(caller := s.caller[t := pc])
  }

  function QueueApply(s: State, a: Action): State
    requires Shaped(s) && QueueEnabled(s, a)
  {
    match a
    case PostTask(n, c) => Post(s, OnStack(n), c)
    case WaitTask(n) => s.(req := s.req[OnStack(n) := s.req[OnStack(n)].(done := s.req[OnStack(n)].done - 1)])
    case Dequeue(c, at) =>
      var r := s.queue[c][0];
      var qs := if r.OnStack? then s.req[r].qs else if at == c then GotQs else MustSync;
      TakeHead(s, c, Handled(c), qs, at == c).(thread := s.thread[c := Handling(r)])
    case CompleteHandled(c) => Complete(s, s.thread[c].r).(thread := s.thread[c := AtLoop])
    case DrainOne =>
      var r := s.queue[s.hotplug.cpu][0];
      TakeHead(s, s.hotplug.cpu, Drained, s.req[r].qs, false).(hotplug := s.hotplug.(hand := Some(r)))
    case CompleteDrained => Complete(s, s.hotplug.hand.value).(hotplug := s.hotplug.(hand := None))
  }

  function HotplugApply(s: State, a: Action): State
    requires Shaped(s) && HotplugEnabled(s, a)
  {
    match a
    case ThreadExit(c) => s.(thread := s.thread[c := Stopped])
    case CpuDown(c) => s.(online := s.online - {c}, hotplug := Stopping(c))
    case StartDrain => s.(hotplug := Draining(s.hotplug.cpu, None))
    case EndDown => s.(hotplug := Quiet)
    case CpuUp(c) => s.(online := s.online + {c}, thread := s.thread[c := AtLoop])
  }

  function CallerApply(s: State, a: Action): State
    requires Shaped(s) && CallerEnabled(s, a)
  {
    match a
    case Call(t) =>
      Goto(s, t, Trying(synchronize_sched_expedited_count + 1, 0)).(readers := s.readers + {t})
    case LockFails(t) =>
      Goto(s, t, Retrying(s.caller[t].snap, s.caller[t].tries + 1)).(readers := s.readers - {t})
    case Fallback(t) => Goto(s, t, Outside).(log := s.log + [Return(true, {})])
    case EarlyReturn(t) => Goto(s, t, Outside).(log := s.log + [Return(false, s.cpus)])
    case TryAgain(t) => Goto(s, t, Trying(s.caller[t].snap, s.caller[t].tries)).(readers := s.readers + {t})
    case Lock(t) => Goto(s, t, Posting(s.online)).(mutex := Some(t))
    case PostRcu(t, c) => Goto(Post(s, Rcu(c), c), t, Posting(s.caller[t].todo - {c}))
    case AllPosted(t) => Goto(s, t, Waiting(s.online, false))
    case WaitRcu(t, c) =>
      var q := s.req[Rcu(c)];
      Goto(s.(req := s.req[Rcu(c) := q.(done := q.done - 1, qs := QsIdle)]), t,
           Waiting(s.caller[t].todo - {c}, s.caller[t].needFullSync || q.qs.MustSync?))
    case Finish(t) =>
      var missed := set c | c in s.online && !(Rcu(c) in s.req && s.req[Rcu(c)].ranHome);
      Goto(s, t, Outside).(mutex := None, readers := s.readers - {t},
                           log := s.log + [Return(s.caller[t].needFullSync, missed)])
  }

  function Apply(s: State, a: Action): State
    requires Shaped(s) && Enabled(s, a)
  {
    if OnQueue(a) then QueueApply(s, a) else if OnHotplug(a) then HotplugApply(s, a) else CallerApply(s, a)
  }

  /** A request is in exactly the place its `loc` names: one queue once, one thread's hands, or the drain's. */
  ghost predicate Located(s: State)
    requires Shaped(s)
  {
    InQueues(s.cpus, s.queue, s.req) && InHands(s.cpus, s.thread, s.req) && InDrain(Hand(s), s.req)
  }

  ghost predicate InQueues(cpus: set<Cpu>, queue: map<Cpu, seq<ReqId>>, req: map<ReqId, Req>)
    requires queue.Keys == cpus
  {
    && (forall c | c in cpus :: Distinct(queue[c]))
    && (forall c, r | c in cpus && r in queue[c] :: r in req && req[r].loc == Queued(c))
    && (forall r | r in req && req[r].loc.Queued? :: req[r].loc.cpu in cpus && r in queue[req[r].loc.cpu])
  }

  ghost predicate InHands(cpus: set<Cpu>, thread: map<Cpu, Thread>, req: map<ReqId, Req>)
    requires thread.Keys == cpus
  {
    && (forall c | c in cpus && thread[c].Handling? :: thread[c].r in req && req[thread[c].r].loc == Handled(c))
    && (forall r | r in req && req[r].loc.Handled? :: req[r].loc.cpu in cpus && thread[req[r].loc.cpu] == Handling(r))
  }

  ghost predicate InDrain(hand: Option<ReqId>, req: map<ReqId, Req>) {
    && (hand.Some? ==> hand.value in req && req[hand.value].loc.Drained?)
    && (forall r | r in req && req[r].loc.Drained? :: hand == Some(r))
  }

  /** What the drain has taken and not completed yet. */
  function Hand(s: State): Option<ReqId> {
    if s.hotplug.Draining? then s.hotplug.hand else None
  }

  /** Dequeued once and then completed once; the completion holds a token only after that. */
  predicate Counted(q: Req) {
    match q.loc
    case Queued(_) => q.dequeued == 0 && q.completed == 0 && q.done == 0
    case Finished => q.dequeued == 1 && q.completed == 1 && q.done <= 1
    case _ => q.dequeued == 1 && q.completed == 0 && q.done == 0
  }

  /** A CPU that is not online, nor on its way down, has no request queued and no thread. */
  ghost predicate Attended(s: State)
    requires Shaped(s)
  {
    && (forall c | c in s.online :: !s.thread[c].Stopped?)
    && (forall c | c in s.cpus && c !in s.online && (s.hotplug.Quiet? || s.hotplug.cpu != c) ::
          s.thread[c].Stopped? && s.queue[c] == [])
    && (s.hotplug.Draining? ==> s.thread[s.hotplug.cpu].Stopped?)
  }

  predicate InSession(pc: Caller) {
    pc.Posting? || pc.Waiting?
  }

  /** One caller at a time posts and waits, and CPUs stay online while it does. */
  ghost predicate Serialized(s: State) {
    && (forall t | t in s.caller && InSession(s.caller[t]) :: s.mutex == Some(t))
    && (s.mutex.Some? ==> s.mutex.value in s.caller && InSession(s.caller[s.mutex.value]))
    && (forall t | t in s.caller && (InSession(s.caller[t]) || s.caller[t].Trying?) :: t in s.readers)
    && (!s.hotplug.Quiet? ==> s.readers == {})
    && (forall t | t in s.caller && (s.caller[t].Trying? || s.caller[t].Retrying?) ::
          s.caller[t].snap == synchronize_sched_expedited_count + 1)
  }

  /** The request that CPU `c` reserves for expedited RCU, once it has been posted. */
  function RcuReq(req: map<ReqId, Req>, c: Cpu): Option<Req> {
    if Rcu(c) in req then Some(req[Rcu(c)]) else None
  }

  /** It is not in use. */
  predicate Unused(q: Option<Req>) {
    q.Some? ==> q.value.loc.Finished? && q.value.done == 0
  }

  /** It has been posted in this session, and was taken at home unless the outcome says otherwise. */
  predicate InUse(q: Option<Req>, c: Cpu) {
    && q.Some?
    && match q.value.loc
       case Queued(d) => d == c
       case Handled(d) => d == c && (q.value.ranHome <==> q.value.qs != MustSync)
       case Drained => false
       case Finished => q.value.done == 1 && (q.value.ranHome <==> q.value.qs != MustSync)
  }

  predicate Session(online: set<Cpu>, c: Cpu, q: Option<Req>, pc: Caller) {
    match pc
    case Posting(todo) => todo <= online && if c in online && c !in todo then InUse(q, c) else Unused(q)
    case Waiting(todo, need) =>
      && todo <= online
      && (if c in todo then InUse(q, c) else Unused(q))
      && (c in online && c !in todo ==> q.Some? && (q.value.ranHome || need))
    case _ => Unused(q)
  }

  /** Where the caller that holds the mutex is. */
  function Holder(s: State): Caller {
    if s.mutex.Some? && s.mutex.value in s.caller then s.caller[s.mutex.value] else Outside
  }

  ghost predicate SessionKept(s: State) {
    forall c :: Session(s.online, c, RcuReq(s.req, c), Holder(s))
  }

  ghost predicate Inv(s: State) {
    && Shaped(s) && Located(s) && Attended(s) && Serialized(s) && SessionKept(s)
    && (forall r | r in s.req :: Counted(s.req[r]))
    && (forall e | e in s.log :: e.synced || e.missed == {})
  }

  lemma HeadRemoved(queue: seq<ReqId>)
    requires queue != [] && Distinct(queue)
    ensures Distinct(queue[1..]) && queue[0] !in queue[1..]
    ensures forall r | r in queue :: r == queue[0] || r in queue[1..]
  {
  }

  lemma HeadAdded(queue: seq<ReqId>, r: ReqId)
    requires Distinct(queue) && r !in queue
    ensures Distinct([r] + queue)
  {
  }

  /** At most request `r` is new or in another place. */
  ghost predicate OnlyMoves(req: map<ReqId, Req>, next: map<ReqId, Req>, r: ReqId) {
    && r in next
    && forall q | q != r :: (q in req <==> q in next) && (q in req ==> next[q].loc == req[q].loc)
  }

  lemma Enqueued(cpus: set<Cpu>, queue: map<Cpu, seq<ReqId>>, req: map<ReqId, Req>, next: map<ReqId, Req>, r: ReqId,
                 c: Cpu)
    requires queue.Keys == cpus && InQueues(cpus, queue, req) && OnlyMoves(req, next, r) && c in cpus
    requires (r in req ==> !req[r].loc.Queued?) && next[r].loc == Queued(c)
    ensures InQueues(cpus, queue[c := [r] + queue[c]], next)
  {
    assert r !in queue[c];
    HeadAdded(queue[c], r);
    hide Distinct;
  }

  lemma Dequeued(cpus: set<Cpu>, queue: map<Cpu, seq<ReqId>>, req: map<ReqId, Req>, next: map<ReqId, Req>, c: Cpu)
    requires queue.Keys == cpus && InQueues(cpus, queue, req) && c in cpus && queue[c] != []
    requires OnlyMoves(req, next, queue[c][0]) && !next[queue[c][0]].loc.Queued?
    ensures InQueues(cpus, queue[c := queue[c][1..]], next)
  {
    HeadRemoved(queue[c]);
    assert queue[c][0] in req && req[queue[c][0]].loc == Queued(c);
    hide Distinct;
  }

  lemma QueuesKept(cpus: set<Cpu>, queue: map<Cpu, seq<ReqId>>, req: map<ReqId, Req>, next: map<ReqId, Req>, r: ReqId)
    requires queue.Keys == cpus && InQueues(cpus, queue, req) && OnlyMoves(req, next, r)
    requires (r in req ==> !req[r].loc.Queued?) && !next[r].loc.Queued?
    ensures InQueues(cpus, queue, next)
  {
    hide Distinct;
  }

  lemma HandTakes(cpus: set<Cpu>, thread: map<Cpu, Thread>, req: map<ReqId, Req>, next: map<ReqId, Req>, r: ReqId,
                  c: Cpu)
    requires thread.Keys == cpus && InHands(cpus, thread, req) && OnlyMoves(req, next, r) && c in cpus
    requires !thread[c].Handling? && (r in req ==> !req[r].loc.Handled?) && next[r].loc == Handled(c)
    ensures InHands(cpus, thread[c := Handling(r)], next)
  {
  }

  lemma HandGives(cpus: set<Cpu>, thread: map<Cpu, Thread>, req: map<ReqId, Req>, next: map<ReqId, Req>, r: ReqId,
                  c: Cpu)
    requires thread.Keys == cpus && InHands(cpus, thread, req) && OnlyMoves(req, next, r) && c in cpus
    requires thread[c] == Handling(r) && !next[r].loc.Handled?
    ensures InHands(cpus, thread[c := AtLoop], next)
  {
  }

  lemma HandsKept(cpus: set<Cpu>, thread: map<Cpu, Thread>, req: map<ReqId, Req>, next: map<ReqId, Req>, r: ReqId)
    requires thread.Keys == cpus && InHands(cpus, thread, req) && OnlyMoves(req, next, r)
    requires (r in req ==> !req[r].loc.Handled?) && !next[r].loc.Handled?
    ensures InHands(cpus, thread, next)
  {
  }

  lemma DrainKept(hand: Option<ReqId>, req: map<ReqId, Req>, next: map<ReqId, Req>, r: ReqId)
    requires InDrain(hand, req) && OnlyMoves(req, next, r)
    requires (r in req ==> !req[r].loc.Drained?) && !next[r].loc.Drained?
    ensures InDrain(hand, next)
  {
  }

  lemma PostKeepsLocated(s: State, r: ReqId, c: Cpu)
    requires Shaped(s) && Located(s) && c in s.cpus && (r in s.req ==> s.req[r].loc.Finished?)
    ensures Shaped(Post(s, r, c)) && Located(Post(s, r, c))
  {
    hide InQueues, InHands, InDrain;
    var next := Post(s, r, c).req;
    Enqueued(s.cpus, s.queue, s.req, next, r, c);
    HandsKept(s.cpus, s.thread, s.req, next, r);
    DrainKept(Hand(s), s.req, next, r);
  }

  lemma HeadIsQueued(s: State, c: Cpu)
    requires Shaped(s) && Located(s) && c in s.cpus && s.queue[c] != []
    ensures s.queue[c][0] in s.req && s.req[s.queue[c][0]].loc == Queued(c)
  {
  }

  lemma DequeueKeepsLocated(s: State, c: Cpu, qs: Qs, home: bool)
    requires Shaped(s) && Located(s) && c in s.cpus && s.queue[c] != [] && s.queue[c][0] in s.req
    requires s.thread[c].AtLoop?
    ensures var t := TakeHead(s, c, Handled(c), qs, home).(thread := s.thread[c := Handling(s.queue[c][0])]);
            Shaped(t) && Located(t)
  {
    hide InQueues, InHands, InDrain;
    HeadIsQueued(s, c);
    var r, next := s.queue[c][0], TakeHead(s, c, Handled(c), qs, home).req;
    assert OnlyMoves(s.req, next, r);
    hide OnlyMoves;
    Dequeued(s.cpus, s.queue, s.req, next, c);
    HandTakes(s.cpus, s.thread, s.req, next, r, c);
    DrainKept(Hand(s), s.req, next, r);
  }

  lemma DrainKeepsLocated(s: State, c: Cpu, qs: Qs)
    requires Shaped(s) && Located(s) && s.hotplug == Draining(c, None) && s.queue[c] != [] && s.queue[c][0] in s.req
    ensures var t := TakeHead(s, c, Drained, qs, false).(hotplug := Draining(c, Some(s.queue[c][0])));
            Shaped(t) && Located(t)
  {
    HeadIsQueued(s, c);
    var r, next := s.queue[c][0], TakeHead(s, c, Drained, qs, false).req;
    assert InDrain(Some(r), next);
    hide InQueues, InHands, InDrain;
    Dequeued(s.cpus, s.queue, s.req, next, c);
    HandsKept(s.cpus, s.thread, s.req, next, r);
  }

  lemma CompleteKeepsLocated(s: State, r: ReqId, c: Cpu)
    requires Shaped(s) && Located(s) && r in s.req && c in s.cpus
    ensures s.thread[c] == Handling(r) ==>
              var t := Complete(s, r).(thread := s.thread[c := AtLoop]); Shaped(t) && Located(t)
    ensures s.hotplug == Draining(c, Some(r)) ==>
              var t := Complete(s, r).(hotplug := Draining(c, None)); Shaped(t) && Located(t)
  {
    var next := Complete(s, r).req;
    if s.thread[c] == Handling(r) {
      assert s.req[r].loc == Handled(c);
      hide InQueues, InHands, InDrain;
      QueuesKept(s.cpus, s.queue, s.req, next, r);
      HandGives(s.cpus, s.thread, s.req, next, r, c);
      DrainKept(Hand(s), s.req, next, r);
    } else if s.hotplug == Draining(c, Some(r)) {
      assert s.req[r].loc == Drained && InDrain(None, next);
      hide InQueues, InHands, InDrain;
      QueuesKept(s.cpus, s.queue, s.req, next, r);
      HandsKept(s.cpus, s.thread, s.req, next, r);
    }
  }

  /** Nothing moves: the queues, the threads' hands and the places of the requests are the same. */
  ghost predicate SamePlaces(s: State, t: State)
    requires Shaped(s) && Shaped(t)
  {
    && t.cpus == s.cpus && t.queue == s.queue && t.req.Keys == s.req.Keys
    && (forall r | r in s.req :: t.req[r].loc == s.req[r].loc)
    && (forall c | c in s.cpus :: t.thread[c] == s.thread[c] || (!t.thread[c].Handling? && !s.thread[c].Handling?))
    && Hand(t) == Hand(s)
  }

  lemma SamePlacesKeepLocated(s: State, t: State)
    requires Shaped(s) && Shaped(t) && Located(s) && SamePlaces(s, t)
    ensures Located(t)
  {
    hide InQueues, InHands, InDrain;
    QueuesSame(s.cpus, s.queue, s.req, t.req);
    HandsSame(s.cpus, s.thread, t.thread, s.req, t.req);
    assert InDrain(Hand(s), s.req) ==> InDrain(Hand(t), t.req) by { DrainSame(Hand(s), s.req, t.req); }
  }

  lemma QueuesSame(cpus: set<Cpu>, queue: map<Cpu, seq<ReqId>>, req: map<ReqId, Req>, next: map<ReqId, Req>)
    requires queue.Keys == cpus && InQueues(cpus, queue, req)
    requires next.Keys == req.Keys && forall r | r in req :: next[r].loc == req[r].loc
    ensures InQueues(cpus, queue, next)
  {
    hide Distinct;
  }

  lemma HandsSame(cpus: set<Cpu>, thread: map<Cpu, Thread>, after: map<Cpu, Thread>, req: map<ReqId, Req>,
                  next: map<ReqId, Req>)
    requires thread.Keys == after.Keys == cpus && InHands(cpus, thread, req)
    requires next.Keys == req.Keys && forall r | r in req :: next[r].loc == req[r].loc
    requires forall c | c in cpus :: after[c] == thread[c] || (!after[c].Handling? && !thread[c].Handling?)
    ensures InHands(cpus, after, next)
  {
  }

  lemma DrainSame(hand: Option<ReqId>, req: map<ReqId, Req>, next: map<ReqId, Req>)
    requires next.Keys == req.Keys && forall r | r in req :: next[r].loc == req[r].loc
    ensures InDrain(hand, req) ==> InDrain(hand, next)
  {
  }

  predicate Moves(a: Action) {
    a.PostTask? || a.PostRcu? || a.Dequeue? || a.DrainOne? || a.CompleteHandled? || a.CompleteDrained?
  }

  lemma OthersStay(s: State, a: Action)
    requires Shaped(s) && Attended(s) && Enabled(s, a) && !Moves(a)
    ensures Shaped(Apply(s, a)) && SamePlaces(s, Apply(s, a))
  {
    if OnQueue(a) {
      hide HotplugApply, HotplugEnabled, CallerApply, CallerEnabled;
    } else if OnHotplug(a) {
      hide QueueApply, QueueEnabled, CallerApply, CallerEnabled;
    } else {
      hide Attended, QueueApply, QueueEnabled, HotplugApply, HotplugEnabled, SamePlaces;
      CallersStay(s, a);
    }
  }

  lemma CallersStay(s: State, a: Action)
    requires Shaped(s) && CallerEnabled(s, a) && !a.PostRcu?
    ensures Shaped(CallerApply(s, a)) && SamePlaces(s, CallerApply(s, a))
  {
    var t := CallerApply(s, a);
    assert t.cpus == s.cpus && t.online == s.online && t.queue == s.queue;
    assert t.thread == s.thread && t.hotplug == s.hotplug;
    assert t.req.Keys == s.req.Keys && forall r | r in s.req :: t.req[r].loc == s.req[r].loc;
    hide CallerApply, CallerEnabled;
  }

  lemma StepKeepsLocated(s: State, a: Action)
    requires Inv(s) && Enabled(s, a)
    ensures Shaped(Apply(s, a)) && Located(Apply(s, a))
  {
    assert Shaped(s) && Located(s) && Attended(s);
    hide Located, SamePlaces, Attended, Inv, QueueApply, QueueEnabled, HotplugApply, HotplugEnabled;
    if a.PostRcu? {
      PostRcuKeepsLocated(s, a.t, a.c);
    } else if Moves(a) {
      MovesKeepLocated(s, a);
    } else {
      hide CallerApply, CallerEnabled;
      OthersStay(s, a);
      SamePlacesKeepLocated(s, Apply(s, a));
    }
  }

  lemma PostRcuKeepsLocated(s: State, t: Tid, c: Cpu)
    requires Inv(s) && Enabled(s, PostRcu(t, c))
    ensures Shaped(Apply(s, PostRcu(t, c))) && Located(Apply(s, PostRcu(t, c)))
  {
    assert Located(s);
    PostIsUnused(s, t, c);
    hide Inv, InQueues, InHands, InDrain;
    PostKeepsLocated(s, Rcu(c), c);
  }

  lemma MovesKeepLocated(s: State, a: Action)
    requires Shaped(s) && Located(s) && Enabled(s, a) && Moves(a) && !a.PostRcu?
    ensures Shaped(Apply(s, a)) && Located(Apply(s, a))
  {
    hide Located;
    match a
    case PostTask(n, c) => PostKeepsLocated(s, OnStack(n), c);
    case Dequeue(c, at) =>
      var r := s.queue[c][0];
      DequeueKeepsLocated(s, c, if r.OnStack? then s.req[r].qs else if at == c then GotQs else MustSync, at == c);
    case DrainOne => DrainKeepsLocated(s, s.hotplug.cpu, s.req[s.queue[s.hotplug.cpu][0]].qs);
    case CompleteHandled(c) => CompleteKeepsLocated(s, s.thread[c].r, c);
    case CompleteDrained => CompleteKeepsLocated(s, s.hotplug.hand.value, s.hotplug.cpu);
  }

  /** `list_add` never meets a request that is still linked: the one of a CPU is free when it is posted. */
  lemma PostIsUnused(s: State, t: Tid, c: Cpu)
    requires Inv(s) && Enabled(s, PostRcu(t, c))
    ensures Unused(RcuReq(s.req, c)) && c in s.online
  {
    HolderIs(s, t);
    InvSession(s, c);
    hide Inv;
  }

  /** A caller that posts or waits is the holder of the mutex. */
  lemma HolderIs(s: State, t: Tid)
    requires Inv(s) && t in s.caller && InSession(s.caller[t])
    ensures Holder(s) == s.caller[t] && s.mutex == Some(t) && s.hotplug.Quiet?
  {
    assert Serialized(s);
    hide Inv;
  }

  lemma InvSession(s: State, d: Cpu)
    requires Inv(s)
    ensures Session(s.online, d, RcuReq(s.req, d), Holder(s))
    ensures Rcu(d) in s.req ==> Counted(s.req[Rcu(d)])
  {
    hide Located, Attended, Serialized, Session, Counted, Holder;
  }

  lemma StepKeepsCounted(s: State, a: Action)
    requires Inv(s) && Enabled(s, a)
    ensures forall r | r in Apply(s, a).req :: Counted(Apply(s, a).req[r])
  {
    assert Located(s) && forall r | r in s.req :: Counted(s.req[r]);
    hide Inv, Located, Counted;
    if OnQueue(a) {
      QueueKeepsCounted(s, a);
    } else {
      OthersKeepCounted(s, a);
    }
  }

  lemma QueueKeepsCounted(s: State, a: Action)
    requires Shaped(s) && Located(s) && QueueEnabled(s, a) && forall r | r in s.req :: Counted(s.req[r])
    ensures forall r | r in QueueApply(s, a).req :: Counted(QueueApply(s, a).req[r])
  {
    hide Distinct;
    if a.Dequeue? {
      HeadIsQueued(s, a.c);
    } else if a.DrainOne? {
      HeadIsQueued(s, s.hotplug.cpu);
    } else if a.CompleteHandled? {
      assert s.req[s.thread[a.c].r].loc == Handled(a.c);
    } else if a.CompleteDrained? {
      assert s.req[s.hotplug.hand.value].loc == Drained;
    }
    hide Located;
  }

  lemma OthersKeepCounted(s: State, a: Action)
    requires Shaped(s) && Enabled(s, a) && !OnQueue(a) && forall r | r in s.req :: Counted(s.req[r])
    ensures forall r | r in Apply(s, a).req :: Counted(Apply(s, a).req[r])
  {
    hide QueueApply, QueueEnabled;
  }

  lemma StepKeepsAttended(s: State, a: Action)
    requires Inv(s) && Enabled(s, a) && Shaped(Apply(s, a))
    ensures Attended(Apply(s, a))
  {
    assert Attended(s);
    if a.PostRcu? {
      PostIsUnused(s, a.t, a.c);
    }
    hide Inv;
    if Moves(a) {
      MovesKeepAttended(s, a);
    } else {
      OthersKeepAttended(s, a);
    }
  }

  lemma MovesKeepAttended(s: State, a: Action)
    requires Shaped(s) && Attended(s) && Enabled(s, a) && Moves(a) && Shaped(Apply(s, a))
    requires a.PostRcu? ==> a.c in s.online
    ensures Attended(Apply(s, a))
  {
  }

  lemma OthersKeepAttended(s: State, a: Action)
    requires Shaped(s) && Attended(s) && Enabled(s, a) && !Moves(a) && Shaped(Apply(s, a))
    ensures Attended(Apply(s, a))
  {
  }

  lemma StepKeepsSerialized(s: State, a: Action)
    requires Inv(s) && Enabled(s, a)
    ensures Serialized(Apply(s, a))
  {
    assert Shaped(s) && Serialized(s);
    hide Inv;
    if OnQueue(a) {
      hide Serialized;
      QueueKeepsSerialized(s, a);
    } else if OnHotplug(a) {
      hide QueueApply, QueueEnabled, CallerApply, CallerEnabled;
    } else {
      hide Serialized, QueueApply, QueueEnabled, HotplugApply, HotplugEnabled;
      if a.Lock? || a.PostRcu? || a.AllPosted? || a.WaitRcu? || a.Finish? {
        HoldersKeepSerialized(s, a);
      } else {
        WaitersKeepSerialized(s, a);
      }
    }
  }

  lemma QueueKeepsSerialized(s: State, a: Action)
    requires Shaped(s) && Serialized(s) && QueueEnabled(s, a)
    ensures Serialized(QueueApply(s, a))
  {
    var t := QueueApply(s, a);
    assert t.caller == s.caller && t.mutex == s.mutex && t.readers == s.readers && t.hotplug.Quiet? == s.hotplug.Quiet?;
    hide QueueApply, QueueEnabled;
  }

  /** The steps outside the session. */
  lemma WaitersKeepSerialized(s: State, a: Action)
    requires Shaped(s) && Serialized(s) && CallerEnabled(s, a)
    requires a.Call? || a.LockFails? || a.Fallback? || a.EarlyReturn? || a.TryAgain?
    ensures Serialized(CallerApply(s, a))
  {
    var t := CallerApply(s, a);
    assert t.mutex == s.mutex && t.hotplug == s.hotplug && t.caller == s.caller[a.t := t.caller[a.t]];
    assert t.readers == if a.Call? || a.TryAgain? then s.readers + {a.t}
                        else if a.LockFails? then s.readers - {a.t} else s.readers;
    assert !InSession(t.caller[a.t]) && (t.caller[a.t].Trying? ==> a.Call? || a.TryAgain?);
    assert (a.Call? || a.TryAgain? ==> s.hotplug.Quiet?) && !InSession(s.caller[a.t]);
    assert t.caller[a.t].Trying? || t.caller[a.t].Retrying? ==>
             t.caller[a.t].snap == synchronize_sched_expedited_count + 1;
    hide CallerApply, CallerEnabled, InSession;
  }

  /** The steps of the session itself. */
  lemma HoldersKeepSerialized(s: State, a: Action)
    requires Shaped(s) && Serialized(s) && CallerEnabled(s, a)
    requires a.Lock? || a.PostRcu? || a.AllPosted? || a.WaitRcu? || a.Finish?
    ensures Serialized(CallerApply(s, a))
  {
    var t := CallerApply(s, a);
    assert t.hotplug == s.hotplug && t.caller == s.caller[a.t := t.caller[a.t]];
    assert t.readers == if a.Finish? then s.readers - {a.t} else s.readers;
    assert t.mutex == if a.Lock? then Some(a.t) else if a.Finish? then None else s.mutex;
    assert if a.Finish? then t.caller[a.t] == Outside else InSession(t.caller[a.t]);
    assert if a.Lock? then s.caller[a.t].Trying? && s.mutex.None? else InSession(s.caller[a.t]);
    hide CallerApply, CallerEnabled;
  }

  /** CPUs come and go, and are drained, only between sessions. */
  lemma HotplugIsExclusive(s: State, d: Cpu)
    requires Inv(s) && (!s.hotplug.Quiet? || s.readers == {})
    ensures s.mutex == None && Holder(s) == Outside && Unused(RcuReq(s.req, d))
  {
    InvSession(s, d);
    assert Serialized(s);
    hide Inv;
  }

  /** What the threads do to requests keeps the sessions in order. */
  lemma DequeueKeepsSession(s: State, c: Cpu, at: Cpu, d: Cpu)
    requires Inv(s) && Enabled(s, Dequeue(c, at))
    ensures var t := Apply(s, Dequeue(c, at)); Session(t.online, d, RcuReq(t.req, d), Holder(t))
  {
    InvSession(s, d);
    assert Located(s);
    HeadIsQueued(s, c);
    hide Inv, Located;
    var t := Apply(s, Dequeue(c, at));
    assert t.online == s.online && Holder(t) == Holder(s);
    assert s.queue[c][0] != Rcu(d) ==> RcuReq(t.req, d) == RcuReq(s.req, d);
    assert s.queue[c][0] == Rcu(d) ==> InUse(RcuReq(t.req, d), d) && RcuReq(s.req, d).value.loc.Queued?;
    hide Apply, Enabled, Holder, RcuReq;
  }

  lemma CompleteKeepsSession(s: State, c: Cpu, d: Cpu)
    requires Inv(s) && Enabled(s, CompleteHandled(c))
    ensures var t := Apply(s, CompleteHandled(c)); Session(t.online, d, RcuReq(t.req, d), Holder(t))
  {
    InvSession(s, d);
    assert Located(s);
    assert s.req[s.thread[c].r].loc == Handled(c);
    hide Inv, Located;
    var t := Apply(s, CompleteHandled(c));
    assert t.online == s.online && Holder(t) == Holder(s);
    assert s.thread[c].r != Rcu(d) ==> RcuReq(t.req, d) == RcuReq(s.req, d);
    assert s.thread[c].r == Rcu(d) ==> InUse(RcuReq(t.req, d), d) && RcuReq(s.req, d).value.loc.Handled?;
    hide Apply, Enabled, Holder, RcuReq;
  }

  /** The drain meets none of their requests. */
  lemma DrainKeepsSession(s: State, a: Action, d: Cpu)
    requires Inv(s) && Enabled(s, a) && (a.DrainOne? || a.CompleteDrained?)
    ensures Session(Apply(s, a).online, d, RcuReq(Apply(s, a).req, d), Holder(Apply(s, a)))
  {
    HotplugIsExclusive(s, d);
    assert Located(s);
    if a.DrainOne? {
      HeadIsQueued(s, s.hotplug.cpu);
    }
    var t := Apply(s, a);
    assert Holder(t) == Outside;
    assert RcuReq(t.req, d) == RcuReq(s.req, d);
    hide *;
  }

  /** The steps of the caller that holds the mutex. */
  lemma PostRcuKeepsSession(s: State, t: Tid, c: Cpu, d: Cpu)
    requires Inv(s) && Enabled(s, PostRcu(t, c))
    ensures var r := Apply(s, PostRcu(t, c)); Session(r.online, d, RcuReq(r.req, d), Holder(r))
  {
    InvSession(s, d);
    HolderIs(s, t);
    PostIsUnused(s, t, c);
    hide Inv;
    var r := Apply(s, PostRcu(t, c));
    assert r.online == s.online && Holder(r) == Posting(s.caller[t].todo - {c});
    assert if d == c then InUse(RcuReq(r.req, d), d) else RcuReq(r.req, d) == RcuReq(s.req, d);
    hide Apply, Enabled, Holder, RcuReq, InUse, Unused;
  }

  lemma WaitRcuKeepsSession(s: State, t: Tid, c: Cpu, d: Cpu)
    requires Inv(s) && Enabled(s, WaitRcu(t, c))
    ensures var r := Apply(s, WaitRcu(t, c)); Session(r.online, d, RcuReq(r.req, d), Holder(r))
  {
    InvSession(s, d);
    HolderIs(s, t);
    hide Inv, Session;
    var r := Apply(s, WaitRcu(t, c));
    var need := s.caller[t].needFullSync || s.req[Rcu(c)].qs.MustSync?;
    assert r.online == s.online && Holder(r) == Waiting(s.caller[t].todo - {c}, need);
    var q := RcuReq(s.req, d);
    assert RcuReq(r.req, d) == if d == c then Some(q.value.(done := q.value.done - 1, qs := QsIdle)) else q;
    assert d == c ==> q.value.done > 0;
    hide Apply, Enabled, Holder, RcuReq;
    Waited(s.online, d, q, s.caller[t].todo, s.caller[t].needFullSync, c, need);
  }

  /** Waiting for the request of CPU `c` puts it out of use and notes how it was served. */
  lemma Waited(online: set<Cpu>, d: Cpu, q: Option<Req>, todo: set<Cpu>, before: bool, c: Cpu, need: bool)
    requires Session(online, d, q, Waiting(todo, before)) && (before ==> need) && c in todo
    requires d == c ==> q.Some? && Counted(q.value) && q.value.done > 0 && (q.value.qs.MustSync? ==> need)
    ensures Session(online, d, if d == c then Some(q.value.(done := q.value.done - 1, qs := QsIdle)) else q,
                    Waiting(todo - {c}, need))
  {
  }

  /** Taking and releasing the mutex, and turning from posting to waiting. */
  lemma LockKeepsSession(s: State, t: Tid, d: Cpu)
    requires Inv(s) && Enabled(s, Lock(t))
    ensures var r := Apply(s, Lock(t)); Session(r.online, d, RcuReq(r.req, d), Holder(r))
  {
    InvSession(s, d);
    hide Inv, RcuReq, InUse, Unused;
    var r := Apply(s, Lock(t));
    assert r.online == s.online && r.req == s.req && Holder(r) == Posting(s.online);
    assert Holder(s) == Outside;
    hide Apply, Enabled, Holder;
  }

  lemma MutexKeepsSession(s: State, a: Action, d: Cpu)
    requires Inv(s) && Enabled(s, a) && (a.AllPosted? || a.Finish?)
    ensures Session(Apply(s, a).online, d, RcuReq(Apply(s, a).req, d), Holder(Apply(s, a)))
  {
    InvSession(s, d);
    HolderIs(s, a.t);
    hide Inv, RcuReq, InUse, Unused;
    var t := Apply(s, a);
    assert t.online == s.online && t.req == s.req;
    assert Holder(t) == if a.AllPosted? then Waiting(s.online, false) else Outside;
    hide Apply, Holder;
  }

  /** CPUs go down and come up between sessions. */
  lemma HotplugKeepsSession(s: State, a: Action, d: Cpu)
    requires Inv(s) && Enabled(s, a) && (a.CpuDown? || a.CpuUp?)
    ensures Session(Apply(s, a).online, d, RcuReq(Apply(s, a).req, d), Holder(Apply(s, a)))
  {
    HotplugIsExclusive(s, d);
    hide Inv;
  }

  /** The other steps leave the holder and its requests alone. */
  lemma OthersKeepSession(s: State, a: Action, d: Cpu)
    requires Inv(s) && Enabled(s, a)
    requires a.PostTask? || a.WaitTask? || a.ThreadExit? || a.StartDrain? || a.EndDown?
    ensures Session(Apply(s, a).online, d, RcuReq(Apply(s, a).req, d), Holder(Apply(s, a)))
  {
    InvSession(s, d);
    hide Inv, Session;
    var t := Apply(s, a);
    assert t.online == s.online && RcuReq(t.req, d) == RcuReq(s.req, d);
    assert t.mutex == s.mutex && t.caller == s.caller;
  }

  /** So do those of the callers that do not hold the mutex. */
  lemma WaitersKeepSession(s: State, a: Action, d: Cpu)
    requires Inv(s) && Enabled(s, a)
    requires a.Call? || a.LockFails? || a.Fallback? || a.EarlyReturn? || a.TryAgain?
    ensures Session(Apply(s, a).online, d, RcuReq(Apply(s, a).req, d), Holder(Apply(s, a)))
  {
    hide Inv, Session, RcuReq, Serialized, CallerApply, CallerEnabled, Holder;
    InvSession(s, d);
    InvSerialized(s);
    WaitersLeaveHolder(s, a);
  }

  lemma InvSerialized(s: State)
    requires Inv(s)
    ensures Shaped(s) && Serialized(s)
  {
    hide Serialized;
  }

  lemma WaitersLeaveHolder(s: State, a: Action)
    requires Shaped(s) && Serialized(s) && CallerEnabled(s, a)
    requires a.Call? || a.LockFails? || a.Fallback? || a.EarlyReturn? || a.TryAgain?
    ensures var t := CallerApply(s, a); t.online == s.online && t.req == s.req && Holder(t) == Holder(s)
  {
    var t := CallerApply(s, a);
    assert t.mutex == s.mutex && t.caller == s.caller[a.t := t.caller[a.t]];
    assert s.mutex != Some(a.t);
    hide CallerApply, CallerEnabled;
  }

  lemma StepKeepsSession(s: State, a: Action, d: Cpu)
    requires Inv(s) && Enabled(s, a)
    ensures Session(Apply(s, a).online, d, RcuReq(Apply(s, a).req, d), Holder(Apply(s, a)))
  {
    hide Session, Inv, Apply, Enabled, Holder, RcuReq;
    match a
    case Dequeue(c, at) => DequeueKeepsSession(s, c, at, d);
    case CompleteHandled(c) => CompleteKeepsSession(s, c, d);
    case DrainOne => DrainKeepsSession(s, a, d);
    case CompleteDrained => DrainKeepsSession(s, a, d);
    case PostRcu(t, c) => PostRcuKeepsSession(s, t, c, d);
    case WaitRcu(t, c) => WaitRcuKeepsSession(s, t, c, d);
    case Lock(t) => LockKeepsSession(s, t, d);
    case AllPosted(_) => MutexKeepsSession(s, a, d);
    case Finish(_) => MutexKeepsSession(s, a, d);
    case CpuDown(_) => HotplugKeepsSession(s, a, d);
    case CpuUp(_) => HotplugKeepsSession(s, a, d);
    case _ =>
      if OnQueue(a) || OnHotplug(a) { OthersKeepSession(s, a, d); } else { WaitersKeepSession(s, a, d); }
  }

  lemma StepKeepsSessions(s: State, a: Action)
    requires Inv(s) && Enabled(s, a)
    ensures SessionKept(Apply(s, a))
  {
    assert Shaped(s);
    hide Session, Inv, Apply, Enabled, Holder, Shaped;
    forall d ensures Session(Apply(s, a).online, d, RcuReq(Apply(s, a).req, d), Holder(Apply(s, a))) {
      StepKeepsSession(s, a, d);
    }
  }

  lemma StepKeepsLog(s: State, a: Action)
    requires Inv(s) && Enabled(s, a)
    ensures forall e | e in Apply(s, a).log :: e.synced || e.missed == {}
  {
    assert Shaped(s) && Serialized(s) && forall e | e in s.log :: e.synced || e.missed == {};
    if a.Finish? {
      forall c | c in s.online ensures Rcu(c) in s.req && (s.req[Rcu(c)].ranHome || s.caller[a.t].needFullSync) {
        HolderIs(s, a.t);
        InvSession(s, c);
      }
    }
    hide Inv, Session, Serialized, QueueApply, HotplugApply, QueueEnabled, HotplugEnabled;
    NeverEarly(s, a);
    if OnQueue(a) || OnHotplug(a) {
      LogStays(s, a);
    }
  }

  lemma LogStays(s: State, a: Action)
    requires Shaped(s) && Enabled(s, a) && (OnQueue(a) || OnHotplug(a))
    ensures Apply(s, a).log == s.log
  {
    hide CallerApply, CallerEnabled;
  }

  lemma NeverEarly(s: State, a: Action)
    requires Shaped(s) && Serialized(s)
    ensures CallerEnabled(s, a) ==> !a.EarlyReturn?
  {
  }

  lemma StepKeepsInv(s: State, a: Action)
    requires Inv(s) && Enabled(s, a)
    ensures Inv(Apply(s, a))
  {
    hide Located, Attended, Serialized, SessionKept, Counted, Apply, Enabled;
    StepKeepsLocated(s, a);
    StepKeepsAttended(s, a);
    StepKeepsSerialized(s, a);
    StepKeepsSessions(s, a);
    StepKeepsCounted(s, a);
    StepKeepsLog(s, a);
  }

  /** Every CPU that is up has an idle migration thread, and nobody has called yet. */
  ghost predicate Initial(s: State) {
    && Shaped(s) && s.req == map[] && s.hotplug.Quiet? && s.readers == {} && s.mutex.None? && s.log == []
    && (forall c | c in s.cpus :: s.queue[c] == [] && s.thread[c] == if c in s.online then AtLoop else Stopped)
    && (forall t | t in s.caller :: s.caller[t].Outside?)
  }

  ghost predicate Runs(s: State, actions: seq<Action>)
    decreases |actions|
  {
    actions != [] ==> Shaped(s) && Enabled(s, actions[0]) && Runs(Apply(s, actions[0]), actions[1..])
  }

  ghost function Exec(s: State, actions: seq<Action>): State
    requires Runs(s, actions)
    decreases |actions|
  {
    if actions == [] then s else Exec(Apply(s, actions[0]), actions[1..])
  }

  lemma {:induction false} RunKeepsInv(s: State, actions: seq<Action>)
    requires Inv(s) && Runs(s, actions)
    ensures Inv(Exec(s, actions))
    decreases |actions|
  {
    hide Inv, Apply, Enabled;
    if actions != [] {
      StepKeepsInv(s, actions[0]);
      RunKeepsInv(Apply(s, actions[0]), actions[1..]);
    }
  }

  lemma InitialHasInv(s: State)
    requires Initial(s)
    ensures Inv(s)
  {
  }

  /** In every run a request is dequeued at most once, completed at most once, and only after that waited for. */
  lemma ServedOnce(s0: State, actions: seq<Action>, r: ReqId)
    requires Initial(s0) && Runs(s0, actions) && r in Exec(s0, actions).req
    ensures var q := Exec(s0, actions).req[r];
            q.completed <= q.dequeued <= 1 && (q.done > 0 ==> q.completed == 1 && q.done == 1)
  {
    InitialHasInv(s0);
    RunKeepsInv(s0, actions);
  }

  /** A request that is still queued has a thread to serve it, or a CPU_DEAD drain to come. */
  lemma QueuedIsServed(s0: State, actions: seq<Action>, r: ReqId)
    requires Initial(s0) && Runs(s0, actions) && r in Exec(s0, actions).req
    requires Exec(s0, actions).req[r].loc.Queued?
    ensures var s, c := Exec(s0, actions), Exec(s0, actions).req[r].loc.cpu;
            Shaped(s) && c in s.cpus && r in s.queue[c]
            && if c in s.online then !s.thread[c].Stopped? else !s.hotplug.Quiet? && s.hotplug.cpu == c
  {
    InitialHasInv(s0);
    RunKeepsInv(s0, actions);
  }

  /**
   When `synchronize_sched_expedited` returns, each CPU that was online has had its migration thread
   run there since the request was posted, or `synchronize_sched` has been called.
   */
  lemma ExpeditedIsAGracePeriod(s0: State, actions: seq<Action>, e: Return)
    requires Initial(s0) && Runs(s0, actions) && e in Exec(s0, actions).log
    ensures e.synced || e.missed == {}
  {
    InitialHasInv(s0);
    RunKeepsInv(s0, actions);
  }

  /** The return that relies on another caller's grace period is never taken: the counter stands still. */
  lemma EarlyReturnIsDead(s0: State, actions: seq<Action>, t: Tid)
    requires Initial(s0) && Runs(s0, actions)
    ensures Shaped(Exec(s0, actions)) && !Enabled(Exec(s0, actions), EarlyReturn(t))
  {
    InitialHasInv(s0);
    RunKeepsInv(s0, actions);
    hide Located, Attended, SessionKept, Counted;
  }

  /** When a request of expedited RCU is posted, it is linked nowhere and its completion is empty. */
  lemma PostedRequestIsFree(s0: State, actions: seq<Action>, t: Tid, c: Cpu)
    requires Initial(s0) && Runs(s0, actions)
    requires Shaped(Exec(s0, actions)) && Enabled(Exec(s0, actions), PostRcu(t, c))
    ensures var s := Exec(s0, actions);
            && (forall d | d in s.cpus :: Rcu(c) !in s.queue[d] && s.thread[d] != Handling(Rcu(c)))
            && (Rcu(c) in s.req ==> s.req[Rcu(c)].done == 0)
  {
    InitialHasInv(s0);
    RunKeepsInv(s0, actions);
    hide Inv, Exec, Runs, Enabled;
    PostIsUnused(Exec(s0, actions), t, c);
    UnusedIsUnlinked(Exec(s0, actions), c);
  }

  lemma UnusedIsUnlinked(s: State, c: Cpu)
    requires Inv(s) && Unused(RcuReq(s.req, c))
    ensures forall d | d in s.cpus :: Rcu(c) !in s.queue[d] && s.thread[d] != Handling(Rcu(c))
  {
    assert Located(s);
    hide Inv, Distinct;
  }

  /** The steps of the migration threads and of the CPU_DEAD callback. */
  predicate Serves(a: Action) {
    || a.Dequeue? || a.CompleteHandled? || a.ThreadExit? || a.StartDrain? || a.DrainOne? || a.CompleteDrained?
    || a.EndDown?
  }

  /** The steps that bring work: a request, or a CPU that goes down. */
  predicate Brings(a: Action) {
    a.PostTask? || a.PostRcu? || a.CpuDown?
  }

  /** What is left of taking a CPU down. */
  function Phases(h: Hotplug): nat {
    match h
    case Quiet => 0
    case Stopping(_) => 2
    case Draining(_, _) => 1
  }

  function QueuedRequests(req: map<ReqId, Req>): set<ReqId> {
    set r | r in req && req[r].loc.Queued?
  }

  function OpenRequests(req: map<ReqId, Req>): set<ReqId> {
    set r | r in req && !req[r].loc.Finished?
  }

  /** Threads that have yet to leave an offline CPU. */
  function Leaving(thread: map<Cpu, Thread>, online: set<Cpu>): set<Cpu> {
    set c | c in thread && c !in online && !thread[c].Stopped?
  }

  /** Dequeueings, completions and stages of CPU-down still to come. */
  function Work(s: State): nat {
    |QueuedRequests(s.req)| + |OpenRequests(s.req)| + |Leaving(s.thread, s.online)| + Phases(s.hotplug)
  }

  /**
   Nothing is lost or stuck: where no migration thread and no CPU_DEAD callback can take a step, every
   request has been dequeued once and completed once.
   */
  lemma QuietIsServed(s0: State, actions: seq<Action>, r: ReqId)
    requires Initial(s0) && Runs(s0, actions) && r in Exec(s0, actions).req
    requires Exec(s0, actions).hotplug.Quiet? && Shaped(Exec(s0, actions))
    requires forall c, at :: !Enabled(Exec(s0, actions), Dequeue(c, at))
    requires forall c :: !Enabled(Exec(s0, actions), CompleteHandled(c))
    ensures var q := Exec(s0, actions).req[r]; q.loc.Finished? && q.dequeued == q.completed == 1
  {
    InitialHasInv(s0);
    RunKeepsInv(s0, actions);
    hide Exec, Runs;
    assert Counted(Exec(s0, actions).req[r]);
    if !Exec(s0, actions).req[r].loc.Finished? {
      var a := SomethingToServe(Exec(s0, actions), r);
    }
  }

  /** An open request has a step of its thread, or of the callback, that is due. */
  lemma SomethingToServe(s: State, r: ReqId) returns (a: Action)
    requires Inv(s) && r in s.req && !s.req[r].loc.Finished?
    ensures Serves(a) && Enabled(s, a)
    ensures s.hotplug.Quiet? ==> a.Dequeue? || a.CompleteHandled?
  {
    assert Located(s) && Attended(s);
    hide Inv, Distinct;
    match s.req[r].loc
    case Queued(c) =>
      if c in s.online || s.hotplug.Stopping? {
        a := match s.thread[c]
          case AtLoop => if c in s.online then Dequeue(c, c) else ThreadExit(c)
          case Handling(_) => CompleteHandled(c)
          case Stopped => StartDrain;
      } else {
        a := if s.hotplug.hand.None? then DrainOne else CompleteDrained;
      }
    case Handled(c) => a := CompleteHandled(c);
    case Drained => a := CompleteDrained;
  }

  function One(b: bool): nat {
    if b then 1 else 0
  }

  lemma SmallerBy<T>(old_: set<T>, new_: set<T>, x: T)
    requires new_ == old_ - {x} && x in old_
    ensures |new_| == |old_| - 1
  {
  }

  /** Moving request `r` on, and no other. */
  lemma MovedOn(old_: map<ReqId, Req>, new_: map<ReqId, Req>, r: ReqId)
    requires new_.Keys == old_.Keys && r in old_ && forall q | q in old_ && q != r :: new_[q].loc == old_[q].loc
    ensures old_[r].loc.Queued? && !new_[r].loc.Queued? && !new_[r].loc.Finished? ==>
              |QueuedRequests(new_)| == |QueuedRequests(old_)| - 1 && |OpenRequests(new_)| == |OpenRequests(old_)|
    ensures !old_[r].loc.Queued? && !old_[r].loc.Finished? && new_[r].loc.Finished? ==>
              |QueuedRequests(new_)| == |QueuedRequests(old_)| && |OpenRequests(new_)| == |OpenRequests(old_)| - 1
  {
    if old_[r].loc.Queued? && !new_[r].loc.Queued? && !new_[r].loc.Finished? {
      SmallerBy(QueuedRequests(old_), QueuedRequests(new_), r);
      assert OpenRequests(new_) == OpenRequests(old_);
    } else if !old_[r].loc.Queued? && !old_[r].loc.Finished? && new_[r].loc.Finished? {
      SmallerBy(OpenRequests(old_), OpenRequests(new_), r);
      assert QueuedRequests(new_) == QueuedRequests(old_);
    }
  }

  lemma SameLocs(old_: map<ReqId, Req>, new_: map<ReqId, Req>)
    requires new_.Keys == old_.Keys && forall q | q in old_ :: new_[q].loc == old_[q].loc
    ensures QueuedRequests(new_) == QueuedRequests(old_) && OpenRequests(new_) == OpenRequests(old_)
  {
  }

  /** The steps that move a request on. */
  lemma HeadTaken(s: State, c: Cpu, loc: Loc, qs: Qs, home: bool)
    requires Shaped(s) && Located(s) && c in s.cpus && s.queue[c] != [] && s.queue[c][0] in s.req
    requires !loc.Queued? && !loc.Finished?
    ensures |QueuedRequests(TakeHead(s, c, loc, qs, home).req)| == |QueuedRequests(s.req)| - 1
    ensures |OpenRequests(TakeHead(s, c, loc, qs, home).req)| == |OpenRequests(s.req)|
  {
    hide QueuedRequests, OpenRequests, Located;
    HeadIsQueued(s, c);
    MovedOn(s.req, TakeHead(s, c, loc, qs, home).req, s.queue[c][0]);
  }

  lemma DequeueServes(s: State, a: Action)
    requires Shaped(s) && Located(s) && Enabled(s, a) && (a.Dequeue? || a.DrainOne?)
    ensures Work(Apply(s, a)) + 1 <= Work(s)
  {
    hide QueuedRequests, OpenRequests, Leaving, Located, TakeHead, HotplugEnabled, CallerEnabled;
    if a.Dequeue? {
      var r := s.queue[a.c][0];
      HeadTaken(s, a.c, Handled(a.c), if r.OnStack? then s.req[r].qs else if a.at == a.c then GotQs else MustSync,
                a.at == a.c);
      SameLeaving(s.thread, s.thread[a.c := Handling(r)], s.online);
    } else {
      HeadTaken(s, s.hotplug.cpu, Drained, s.req[s.queue[s.hotplug.cpu][0]].qs, false);
    }
    TakesOnly(s, a);
  }

  lemma TakesOnly(s: State, a: Action)
    requires Shaped(s) && QueueEnabled(s, a) && (a.Dequeue? || a.DrainOne?)
    ensures var t := QueueApply(s, a);
            && t.online == s.online && (a.DrainOne? ==> t.thread == s.thread) && Phases(t.hotplug) == Phases(s.hotplug)
  {
  }

  lemma CompleteServes(s: State, a: Action)
    requires Shaped(s) && Located(s) && Enabled(s, a) && (a.CompleteHandled? || a.CompleteDrained?)
    ensures Work(Apply(s, a)) + 1 <= Work(s)
  {
    hide QueuedRequests, OpenRequests, Leaving, Distinct;
    var t := Apply(s, a);
    MovedOn(s.req, t.req, if a.CompleteHandled? then s.thread[a.c].r else s.hotplug.hand.value);
    SameLeaving(s.thread, t.thread, s.online);
  }

  lemma SameLeaving(old_: map<Cpu, Thread>, new_: map<Cpu, Thread>, online: set<Cpu>)
    requires new_.Keys == old_.Keys && forall c | c in old_ :: new_[c].Stopped? <==> old_[c].Stopped?
    ensures Leaving(new_, online) == Leaving(old_, online)
  {
  }

  /** The other steps. */
  lemma OthersServe(s: State, a: Action)
    requires Shaped(s) && Attended(s) && Enabled(s, a) && !Moves(a) && !Brings(a)
    ensures Work(Apply(s, a)) + One(Serves(a)) <= Work(s)
  {
    OthersStay(s, a);
    SameLocs(s.req, Apply(s, a).req);
    hide QueuedRequests, OpenRequests, SamePlaces;
    if OnHotplug(a) {
      HotplugServes(s, a);
    } else {
      hide Leaving, Attended;
    }
  }

  lemma HotplugServes(s: State, a: Action)
    requires Shaped(s) && Attended(s) && HotplugEnabled(s, a) && !Brings(a)
    ensures var t := HotplugApply(s, a);
            |Leaving(t.thread, t.online)| + Phases(t.hotplug) + One(Serves(a))
            <= |Leaving(s.thread, s.online)| + Phases(s.hotplug)
  {
    var t := HotplugApply(s, a);
    if a.ThreadExit? {
      SmallerBy(Leaving(s.thread, s.online), Leaving(t.thread, t.online), a.c);
    } else {
      assert Leaving(t.thread, t.online) == Leaving(s.thread, s.online);
    }
  }

  /** Each step that serves leaves less to do, and no step but those that bring work adds any. */
  lemma StepServes(s: State, a: Action)
    requires Inv(s) && Enabled(s, a) && !Brings(a)
    ensures Work(Apply(s, a)) + One(Serves(a)) <= Work(s)
  {
    hide Located, Attended, Work, Serialized, SessionKept;
    if a.Dequeue? || a.DrainOne? {
      DequeueServes(s, a);
    } else if Moves(a) {
      CompleteServes(s, a);
    } else {
      OthersServe(s, a);
    }
  }

  function Services(actions: seq<Action>): nat {
    if actions == [] then 0 else One(Serves(actions[0])) + Services(actions[1..])
  }

  /** So without new work only so many steps are left, and `SomethingToServe` names one while a request is open. */
  lemma {:induction false} ServiceEnds(s: State, actions: seq<Action>)
    requires Inv(s) && Runs(s, actions) && forall k | 0 <= k < |actions| :: !Brings(actions[k])
    ensures Work(Exec(s, actions)) + Services(actions) <= Work(s)
    decreases |actions|
  {
    hide Inv, Apply, Enabled, Work;
    if actions != [] {
      StepServes(s, actions[0]);
      StepKeepsInv(s, actions[0]);
      ServiceEnds(Apply(s, actions[0]), actions[1..]);
    }
  }
}
