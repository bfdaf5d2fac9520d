/**
 The hub's handlers running concurrently: enqueues, authentications with their flush, sync
 requests and disconnects. A thread advances by one lock section, one store call or one channel
 send at a time, so a sequence of actions is an arbitrary interleaving.
 */
module HubRuns {
  import opened Ordering
  import opened RelayDb
  import opened Registry

  datatype Thread =
    // ENQUEUE_CMD and the REST enqueue
    | Enqueuing(id: string, deviceId: string, command: string, timeoutSec: int, createdAt: int)
    | LookingUp(id: string, deviceId: string)
    | Dispatching(id: string, target: nat)
    | Marking(id: string)
    | AgentOffline(id: string, deviceId: string)
    | Responding(id: string, deviceId: string)
    | Completing(id: string)
    // AUTH of an agent, then the flush
    | Authenticating(client: nat, deviceId: string)
    | ReadingPending(deviceId: string)
    | FlushLookup(deviceId: string, todo: seq<Key>)
    | Flushing(target: nat, todo: seq<Key>)
    | FlushMarking(target: nat, sent: string, todo: seq<Key>)
    // SYNC_REQ, after its results have been saved
    | SyncReading(deviceId: string)
    | SyncMarking(todo: seq<Key>)
    | Finished

  datatype State = State(reg: Roster, db: Db, threads: map<nat, Thread>, panicked: bool)

  /**
   `fallback` is the agent the case-insensitive lookup may settle on when no id matches exactly;
   `predefined` is whether the offline responder handles the command, `purge` whether it is a
   clear-queue.
   */
  datatype Action =
    | Spawn(t: nat, thread: Thread)
    | Advance(t: nat, now: int, fallback: Option<nat>, predefined: bool, purge: bool, answer: Report)
    | Arrive(client: nat)
    | Leave(client: nat)
    | Elsewhere(op: Op)

  predicate Entry(t: Thread) {
    t.Enqueuing? || t.Authenticating? || t.SyncReading?
  }

  ghost function Step(s: State, a: Action): State {
    if s.panicked then s else
      match a
      case Spawn(t, thread) => if t in s.threads || !Entry(thread) then s else s.(threads := s.threads[t := thread])
      case Arrive(c) => if Possible(s.reg, Connected(c)) then s.(reg := Connect(s.reg, c)) else s
      case Leave(c) => if Possible(s.reg, Unregistered(c)) then s.(reg := Unregister(s.reg, c)) else s
      case Elsewhere(op) => if op.Enqueue? then s else s.(db := Apply(s.db, op))
      case Advance(t, now, fallback, predefined, purge, answer) => if t in s.threads then Advanced(s, a) else s
  }

  /** The agent client found for a device, exactly or by the case-insensitive fallback. */
  function Found(s: State, deviceId: string, fallback: Option<nat>): Option<nat> {
    if deviceId in s.reg.agents then Some(s.reg.agents[deviceId])
    else if fallback.Some? && fallback.value in s.reg.agents.Values then fallback
    else None
  }

  /** A handler's next step: at most one send, one lock section or one store call. */
  ghost function Advanced(s: State, a: Action): State
    requires a.Advance? && a.t in s.threads
  {
    var thread := s.threads[a.t];
    var c := SendsTo(thread);
    if c.Some? && !StillOpen(s, c.value) then s.(panicked := true)
    else s.(reg := if Registers(s, thread) then Authenticate(s.reg, thread.client, Agent, thread.deviceId) else s.reg,
            db := match StoreCall(thread, a) case None => s.db case Some(op) => Apply(s.db, op),
            threads := s.threads[a.t := Next(s, thread, a)])
  }

  /** A send on the channel of a connection that has ended panics, which ends the process. */
  predicate StillOpen(s: State, c: nat) {
    c in s.reg.clients && s.reg.clients[c].open
  }

  function SendsTo(thread: Thread): Option<nat> {
    match thread
    case Dispatching(_, c) => Some(c)
    case Flushing(c, todo) => if todo == [] then None else Some(c)
    case _ => None
  }

  predicate Registers(s: State, thread: Thread) {
    thread.Authenticating? && Possible(s.reg, Authed(thread.client, Agent, thread.deviceId))
  }

  /** The store call a thread makes; for an offline agent, those of the cloud responder. */
  function StoreCall(thread: Thread, a: Action): Option<Op>
    requires a.Advance?
  {
    match thread
    case Enqueuing(id, d, c, timeout, at) => Some(Enqueue(id, d, c, timeout, at, a.now))
    case Marking(id) => Some(Dispatch(id, a.now))
    case AgentOffline(id, d) =>
      if !a.predefined then Some(SaveSandbox(CloudReport(id, d, a.answer), a.now))
      else if a.purge then Some(Cancel(d, a.now))
      else None
    case Responding(id, d) => Some(Save(CloudReport(id, d, a.answer).(exitCode := 0, timedOut := false), a.now))
    case Completing(id) => Some(Complete(id, false, a.now))
    case FlushMarking(_, id, _) => Some(Dispatch(id, a.now))
    case SyncMarking(todo) => if todo == [] then None else Some(Dispatch(todo[0].id, a.now))
    case _ => None
  }

  ghost function Next(s: State, thread: Thread, a: Action): Thread
    requires a.Advance?
  {
    match thread
    case Enqueuing(id, d, _, _, _) => if id in s.db.commands then Finished else LookingUp(id, d)
    case LookingUp(id, d) =>
      var found := Found(s, d, a.fallback);
      if found.Some? then Dispatching(id, found.value) else AgentOffline(id, d)
    case Dispatching(id, _) => Marking(id)
    case Marking(_) => Finished
    case AgentOffline(id, d) => if a.predefined then Responding(id, d) else Finished
    case Responding(id, _) => Completing(id)
    case Completing(_) => Finished
    case Authenticating(_, d) => if Registers(s, thread) then ReadingPending(d) else thread
    case ReadingPending(d) =>
      var todo := Sorted(PendingKeys(s.db, d));
      if todo == [] then Finished else FlushLookup(d, todo)
    case FlushLookup(d, todo) =>
      var found := Found(s, d, a.fallback);
      if found.Some? then Flushing(found.value, todo) else Finished
    case Flushing(c, todo) => if todo == [] then Finished else FlushMarking(c, todo[0].id, todo[1..])
    case FlushMarking(c, _, todo) => Flushing(c, todo)
    case SyncReading(d) => SyncMarking(Sorted(PendingKeys(s.db, d)))
    case SyncMarking(todo) => if todo == [] then Finished else SyncMarking(todo[1..])
    case Finished => Finished
  }

  function CloudReport(id: string, deviceId: string, answer: Report): Report {
    answer.(resultId := id, commandId := id, deviceId := deviceId)
  }

  ghost function Run(s: State, actions: seq<Action>): State {
    if actions == [] then s else Step(Run(s, actions[..|actions| - 1]), actions[|actions| - 1])
  }

  /** The device has a registered agent at every point of the run. */
  ghost predicate StaysRegistered(s: State, actions: seq<Action>, d: string) {
    forall n | 0 <= n <= |actions| :: d in Run(s, actions[..n]).reg.agents
  }

  // ---- No stranded command ----

  /** An enqueue of `id` has persisted it and will still mark it. */
  ghost predicate BeingDispatched(s: State, id: string) {
    exists t | t in s.threads ::
      Dispatches(s.threads[t], id)
  }

  predicate Dispatches(thread: Thread, id: string) {
    (thread.LookingUp? || thread.Dispatching? || thread.Marking?) && thread.id == id
  }

  /** The flush thread `t` of device d has yet to read the queue, or has `id` on its list. */
  ghost predicate Flushes(thread: Thread, d: string, id: string) {
    match thread
    case ReadingPending(d') => d' == d
    case FlushLookup(d', todo) => d' == d && Lists(todo, id)
    case Flushing(_, todo) => Lists(todo, id)
    case FlushMarking(_, sent, todo) => sent == id || Lists(todo, id)
    case _ => false
  }

  /** Every PENDING command of the device is still in somebody's hands. */
  ghost predicate Covered(s: State, flush: nat, d: string) {
    flush in s.threads
    && forall id | PendingFor(s.db, d, id) :: BeingDispatched(s, id) || Flushes(s.threads[flush], d, id)
  }

  /** Threads look up the device their command was stored for. */
  ghost predicate Honest(s: State) {
    forall t | t in s.threads && s.threads[t].LookingUp? ::
      s.threads[t].id in s.db.commands && s.db.commands[s.threads[t].id].deviceId == s.threads[t].deviceId
  }

  /** No handler removes a command, moves it to another device or makes it PENDING again. */
  ghost predicate RowsKept(a: Db, b: Db) {
    forall id | id in a.commands ::
      && id in b.commands && b.commands[id].deviceId == a.commands[id].deviceId
      && (b.commands[id].status.Pending? ==> a.commands[id].status.Pending?)
  }

  lemma OpKeepsRows(db: Db, op: Op)
    ensures RowsKept(db, Apply(db, op))
  {
  }

  lemma AdvanceKeepsRows(s: State, a: Action)
    requires a.Advance? && a.t in s.threads
    ensures RowsKept(s.db, Advanced(s, a).db)
    ensures forall id | id in Advanced(s, a).db.commands && id !in s.db.commands ::
              Advanced(s, a).threads[a.t] == LookingUp(id, Advanced(s, a).db.commands[id].deviceId)
  {
    var op := StoreCall(s.threads[a.t], a);
    if op.Some? { OpKeepsRows(s.db, op.value); }
  }

  lemma AdvanceShape(s: State, a: Action)
    requires a.Advance? && a.t in s.threads && Advanced(s, a).threads[a.t].LookingUp?
    ensures var n := Advanced(s, a);
            n.threads[a.t].id in n.db.commands && n.db.commands[n.threads[a.t].id].deviceId == n.threads[a.t].deviceId
  {
  }

  lemma AdvanceHonest(s: State, a: Action)
    requires Honest(s) && a.Advance? && a.t in s.threads
    ensures Honest(Advanced(s, a))
  {
    AdvanceKeepsRows(s, a);
    if Advanced(s, a).threads[a.t].LookingUp? { AdvanceShape(s, a); }
  }

  lemma StepHonest(s: State, a: Action)
    requires Honest(s)
    ensures Honest(Step(s, a))
  {
    var n := Step(s, a);
    if !s.panicked && a.Advance? && a.t in s.threads {
      AdvanceHonest(s, a);
    } else {
      if !s.panicked && a.Elsewhere? && !a.op.Enqueue? { OpKeepsRows(s.db, a.op); }
      assert RowsKept(s.db, n.db);
      assert forall t | t in n.threads && n.threads[t].LookingUp? :: t in s.threads && n.threads[t] == s.threads[t];
    }
  }

  /** The thread dispatching `id` goes on to mark it as long as the device is registered. */
  lemma DispatchGoesOn(s: State, a: Action, d: string, id: string)
    requires Honest(s) && d in s.reg.agents
    requires a.Advance? && a.t in s.threads
    requires PendingFor(s.db, d, id) && BeingDispatched(s, id)
    requires PendingFor(Advanced(s, a).db, d, id)
    ensures BeingDispatched(Advanced(s, a), id)
  {
    var t :| t in s.threads && Dispatches(s.threads[t], id);
    var n := Advanced(s, a);
    if t != a.t {
      assert n.threads[t] == s.threads[t];
    } else {
      assert !s.threads[t].Marking?;
      assert n.threads[t].Dispatching? || n.threads[t].Marking? || n.panicked;
      assert n.threads[t].id == id;
    }
  }

  lemma ListsTail(todo: seq<Key>, id: string)
    requires todo != [] && Lists(todo, id) && todo[0].id != id
    ensures Lists(todo[1..], id)
  {
  }

  lemma PendingIsListed(db: Db, d: string, id: string)
    requires PendingFor(db, d, id)
    ensures Lists(Sorted(PendingKeys(db, d)), id)
  {
    SortedLists(PendingKeys(db, d));
    PendingKeyIff(db, d, Key(db.commands[id].createdAt, id));
    assert Key(db.commands[id].createdAt, id) in Sorted(PendingKeys(db, d));
  }

  /** The flush thread keeps `id` on its list until it has marked it. */
  lemma FlushGoesOn(s: State, a: Action, d: string, id: string)
    requires d in s.reg.agents
    requires a.Advance? && a.t in s.threads
    requires PendingFor(s.db, d, id) && Flushes(s.threads[a.t], d, id)
    requires PendingFor(Advanced(s, a).db, d, id)
    ensures Flushes(Advanced(s, a).threads[a.t], d, id)
  {
    match s.threads[a.t]
    case ReadingPending(_) => PendingIsListed(s.db, d, id);
    case Flushing(_, todo) =>
      if todo[0].id != id { ListsTail(todo, id); }
    case _ =>
  }

  lemma StepCovered(s: State, a: Action, flush: nat, d: string)
    requires Honest(s) && Covered(s, flush, d) && d in s.reg.agents
    ensures Covered(Step(s, a), flush, d)
  {
    var n := Step(s, a);
    if s.panicked || n == s {
    } else if a.Advance? && a.t in s.threads {
      AdvanceKeepsRows(s, a);
      forall id | PendingFor(n.db, d, id) ensures BeingDispatched(n, id) || Flushes(n.threads[flush], d, id) {
        if id !in s.db.commands {
          assert n.threads[a.t].LookingUp? && n.threads[a.t].id == id;
        } else if BeingDispatched(s, id) {
          DispatchGoesOn(s, a, d, id);
        } else if a.t == flush {
          FlushGoesOn(s, a, d, id);
        }
      }
    } else {
      if a.Elsewhere? { OpKeepsRows(s.db, a.op); }
      forall id | PendingFor(n.db, d, id) ensures BeingDispatched(n, id) || Flushes(n.threads[flush], d, id) {
        QuietStep(s, a, d, id);
        if BeingDispatched(s, id) {
          var t :| t in s.threads && Dispatches(s.threads[t], id);
          assert n.threads[t] == s.threads[t];
        }
      }
    }
  }

  lemma QuietStep(s: State, a: Action, d: string, id: string)
    requires !a.Advance? && PendingFor(Step(s, a).db, d, id)
    ensures PendingFor(s.db, d, id)
  {
    if !s.panicked && a.Elsewhere? && !a.op.Enqueue? {
      OpKeepsRows(s.db, a.op);
      assert id in s.db.commands;
    }
  }

  lemma {:induction false} RunCovered(s: State, actions: seq<Action>, flush: nat, d: string)
    requires Honest(s) && Covered(s, flush, d) && StaysRegistered(s, actions, d)
    ensures Honest(Run(s, actions)) && Covered(Run(s, actions), flush, d)
  {
    if actions != [] {
      var n := |actions| - 1;
      forall k | 0 <= k <= n ensures d in Run(s, actions[..n][..k]).reg.agents {
        assert actions[..n][..k] == actions[..k];
      }
      RunCovered(s, actions[..n], flush, d);
      StepHonest(Run(s, actions[..n]), actions[n]);
      StepCovered(Run(s, actions[..n]), actions[n], flush, d);
    }
  }

  lemma {:induction false} AlwaysHonest(s: State, actions: seq<Action>)
    requires s.threads == map[]
    ensures Honest(Run(s, actions))
  {
    if actions != [] {
      var n := |actions| - 1;
      AlwaysHonest(s, actions[..n]);
      StepHonest(Run(s, actions[..n]), actions[n]);
    }
  }

  /**
   No stranded command. From a hub with no handler running, after any run `before` that has just
   registered an agent for the device, and for any run `after` during which the device stays
   registered: once the agent's flush has finished, a command of the device that no enqueue is
   still working on is not PENDING. Enqueues may start, interleave and end anywhere in both runs.
   */
  lemma NoStrandedCommand(idle: State, before: seq<Action>, s: State, after: seq<Action>, t: State,
                          flush: nat, d: string, id: string)
    requires idle.threads == map[] && s == Run(idle, before) && t == Run(s, after)
    requires flush in s.threads && s.threads[flush] == ReadingPending(d) && StaysRegistered(s, after, d)
    requires flush in t.threads && t.threads[flush].Finished? && !BeingDispatched(t, id)
    ensures !PendingFor(t.db, d, id)
  {
    AlwaysHonest(idle, before);
    RunCovered(s, after, flush, d);
  }

  /** The sync handler has yet to read the queue of d, or has `id` on its list. */
  ghost predicate Syncs(thread: Thread, d: string, id: string) {
    match thread
    case SyncReading(d') => d' == d
    case SyncMarking(todo) => Lists(todo, id)
    case _ => false
  }

  lemma SyncGoesOn(s: State, a: Action, t: nat, d: string, id: string)
    requires t in s.threads && PendingFor(s.db, d, id) && Syncs(s.threads[t], d, id)
    ensures t in Step(s, a).threads && (PendingFor(Step(s, a).db, d, id) ==> Syncs(Step(s, a).threads[t], d, id))
  {
    if !s.panicked && a.Advance? && a.t == t && PendingFor(Step(s, a).db, d, id) {
      match s.threads[t]
      case SyncReading(_) => PendingIsListed(s.db, d, id);
      case SyncMarking(todo) => if todo[0].id != id { ListsTail(todo, id); }
    }
  }

  /** In every run, a SYNC_REQ handler keeps all that waits for the device on its list until it has marked it. */
  lemma {:induction false} SyncHandsOut(s: State, actions: seq<Action>, t: nat, d: string, id: string)
    requires t in s.threads && s.threads[t] == SyncReading(d) && PendingFor(s.db, d, id)
    ensures t in Run(s, actions).threads
    ensures PendingFor(Run(s, actions).db, d, id) ==> Syncs(Run(s, actions).threads[t], d, id)
  {
    if actions != [] {
      var n := |actions| - 1;
      var m := Run(s, actions[..n]);
      SyncHandsOut(s, actions[..n], t, d, id);
      StepRowsKept(m, actions[n]);
      if PendingFor(m.db, d, id) {
        SyncGoesOn(m, actions[n], t, d, id);
      } else {
        StaysHandedOut(s, actions[..n], d, id);
        StepThreads(m, actions[n], t);
      }
    }
  }

  lemma StepThreads(s: State, a: Action, t: nat)
    requires t in s.threads
    ensures t in Step(s, a).threads
  {
  }

  lemma {:induction false} StaysHandedOut(s: State, actions: seq<Action>, d: string, id: string)
    requires PendingFor(s.db, d, id)
    ensures id in Run(s, actions).db.commands && Run(s, actions).db.commands[id].deviceId == d
  {
    if actions != [] {
      var n := |actions| - 1;
      StaysHandedOut(s, actions[..n], d, id);
      StepRowsKept(Run(s, actions[..n]), actions[n]);
    }
  }

  // ---- Sends outside the lock ----

  /** The connection a thread holds on to between its lookup and its sends. */
  function Target(thread: Thread): Option<nat> {
    match thread
    case Dispatching(_, c) => Some(c)
    case Flushing(c, _) => Some(c)
    case FlushMarking(c, _, _) => Some(c)
    case _ => None
  }

  /** Registered agents and looked-up connections are ones the hub has accepted. */
  ghost predicate TargetsKnown(s: State) {
    && (forall d | d in s.reg.agents :: s.reg.agents[d] in s.reg.clients)
    && (forall t | t in s.threads && Target(s.threads[t]).Some? :: Target(s.threads[t]).value in s.reg.clients)
  }

  lemma FoundKnown(s: State, d: string, fallback: Option<nat>)
    requires TargetsKnown(s)
    ensures Found(s, d, fallback).Some? ==> Found(s, d, fallback).value in s.reg.clients
  {
  }

  lemma StepClients(s: State, a: Action)
    ensures s.reg.clients.Keys <= Step(s, a).reg.clients.Keys
  {
  }

  lemma StepAgents(s: State, a: Action)
    requires TargetsKnown(s)
    ensures forall d | d in Step(s, a).reg.agents :: Step(s, a).reg.agents[d] in Step(s, a).reg.clients
  {
    StepClients(s, a);
  }

  lemma StepTargets(s: State, a: Action)
    requires TargetsKnown(s)
    ensures TargetsKnown(Step(s, a))
  {
    StepClients(s, a);
    StepAgents(s, a);
    if a.Advance? && a.t in s.threads {
      match s.threads[a.t]
      case LookingUp(_, d) => FoundKnown(s, d, a.fallback);
      case FlushLookup(d, _) => FoundKnown(s, d, a.fallback);
      case _ =>
    }
  }

  lemma {:induction false} AlwaysTargets(s: State, actions: seq<Action>)
    requires TargetsKnown(s)
    ensures TargetsKnown(Run(s, actions))
  {
    if actions != [] {
      var n := |actions| - 1;
      AlwaysTargets(s, actions[..n]);
      StepTargets(Run(s, actions[..n]), actions[n]);
    }
  }

  lemma PanicIsFinal(s: State, a: Action)
    ensures s.panicked ==> Step(s, a).panicked
  {
  }

  lemma OpenStep(s: State, a: Action, c: nat)
    requires c in s.reg.clients && !s.panicked
    ensures c in Step(s, a).reg.clients
    ensures StillOpen(Step(s, a), c) <==> StillOpen(s, c) && a != Leave(c)
  {
  }

  lemma {:induction false} OpenUntilLeave(s: State, actions: seq<Action>, c: nat)
    requires c in s.reg.clients && !Run(s, actions).panicked
    ensures c in Run(s, actions).reg.clients
    ensures StillOpen(Run(s, actions), c) <==> StillOpen(s, c) && Leave(c) !in actions
  {
    if actions != [] {
      var n := |actions| - 1;
      var m := Run(s, actions[..n]);
      PanicIsFinal(m, actions[n]);
      OpenUntilLeave(s, actions[..n], c);
      assert actions == actions[..n] + [actions[n]];
      OpenStep(m, actions[n], c);
    }
  }

  /** At some point of the run the connection was there and ended. */
  ghost predicate HasEnded(s: State, actions: seq<Action>, c: nat) {
    exists n | 0 <= n < |actions| :: actions[n] == Leave(c) && c in Run(s, actions[..n]).reg.clients
  }

  lemma EndedMore(s: State, actions: seq<Action>, c: nat)
    requires actions != []
    ensures var n := |actions| - 1;
            HasEnded(s, actions, c)
            <==> HasEnded(s, actions[..n], c) || (actions[n] == Leave(c) && c in Run(s, actions[..n]).reg.clients)
  {
    var n := |actions| - 1;
    assert forall k | 0 <= k < n :: actions[..n][..k] == actions[..k] && actions[..n][k] == actions[k];
    if HasEnded(s, actions[..n], c) {
      var k :| 0 <= k < n && actions[..n][k] == Leave(c) && c in Run(s, actions[..n][..k]).reg.clients;
      assert actions[k] == Leave(c) && c in Run(s, actions[..k]).reg.clients;
    }
    if HasEnded(s, actions, c) {
      var k :| 0 <= k < |actions| && actions[k] == Leave(c) && c in Run(s, actions[..k]).reg.clients;
      assert k < n ==> actions[..n][k] == Leave(c) && c in Run(s, actions[..n][..k]).reg.clients;
    }
  }

  /** A connection the hub has accepted is open until it ends, and it does not come back. */
  lemma {:induction false} OpenUnlessEnded(s: State, actions: seq<Action>, c: nat)
    requires s.reg.clients == map[] && !Run(s, actions).panicked
    ensures HasEnded(s, actions, c) ==> c in Run(s, actions).reg.clients
    ensures c in Run(s, actions).reg.clients ==> (StillOpen(Run(s, actions), c) <==> !HasEnded(s, actions, c))
  {
    if actions != [] {
      var n := |actions| - 1;
      var m := Run(s, actions[..n]);
      PanicIsFinal(m, actions[n]);
      OpenUnlessEnded(s, actions[..n], c);
      EndedMore(s, actions, c);
      if c in m.reg.clients { OpenStep(m, actions[n], c); } else { ArriveOpen(m, actions[n], c); }
    }
  }

  lemma ArriveOpen(s: State, a: Action, c: nat)
    requires c !in s.reg.clients
    ensures c in Step(s, a).reg.clients ==> StillOpen(Step(s, a), c)
  {
  }

  const IDLE := State(EMPTY, Db({}, map[], map[], map[]), map[], false)

  /**
   The agent looked up by an enqueue or a flush is used after the lock is released. In every run
   from an idle hub, and for every thread about to send, the send panics exactly when the
   connection it holds has ended, no matter whether before or after it was looked up.
   */
  lemma SendPanicsIff(actions: seq<Action>, a: Action, c: nat)
    requires !Run(IDLE, actions).panicked && a.Advance? && a.t in Run(IDLE, actions).threads
    requires SendsTo(Run(IDLE, actions).threads[a.t]) == Some(c)
    ensures Step(Run(IDLE, actions), a).panicked <==> HasEnded(IDLE, actions, c)
  {
    AlwaysTargets(IDLE, actions);
    assert Target(Run(IDLE, actions).threads[a.t]) == Some(c);
    OpenUnlessEnded(IDLE, actions, c);
  }

  /** Seen from the lookup: the connection had ended by then, or it has ended in between. */
  lemma DirectSendPanicsIff(before: seq<Action>, s: State, actions: seq<Action>, a: Action, c: nat)
    requires s == Run(IDLE, before) && !Run(s, actions).panicked
    requires a.Advance? && a.t in s.threads && Target(s.threads[a.t]) == Some(c)
    requires a.t in Run(s, actions).threads && SendsTo(Run(s, actions).threads[a.t]) == Some(c)
    ensures Step(Run(s, actions), a).panicked <==> !StillOpen(s, c) || Leave(c) in actions
  {
    AlwaysTargets(IDLE, before);
    OpenUntilLeave(s, actions, c);
  }

  // ---- Whom a command is sent to ----

  /** The lookup for the command's device: the registered agent; another one only if there is none by that id. */
  ghost predicate FoundFor(s: State, id: string, c: nat) {
    && id in s.db.commands
    && var d := s.db.commands[id].deviceId;
       if d in s.reg.agents then c == s.reg.agents[d] else exists d' | d' in s.reg.agents :: s.reg.agents[d'] == c
  }

  ghost predicate FoundForAll(s: State, todo: seq<Key>, c: nat) {
    forall i | 0 <= i < |todo| :: FoundFor(s, todo[i].id, c)
  }

  /** At some moment of the run, the thread's connection was the one to send its commands to. */
  ghost predicate Addressed(s: State, actions: seq<Action>, thread: Thread) {
    match thread
    case Dispatching(id, c) => exists n | 0 <= n <= |actions| :: FoundFor(Run(s, actions[..n]), id, c)
    case Flushing(c, todo) => exists n | 0 <= n <= |actions| :: FoundForAll(Run(s, actions[..n]), todo, c)
    case FlushMarking(c, _, todo) => exists n | 0 <= n <= |actions| :: FoundForAll(Run(s, actions[..n]), todo, c)
    case _ => true
  }

  lemma AddressedMore(s: State, actions: seq<Action>, thread: Thread)
    requires actions != [] && Addressed(s, actions[..|actions| - 1], thread)
    ensures Addressed(s, actions, thread)
  {
    var k := |actions| - 1;
    match thread
    case Dispatching(id, c) =>
      var n :| 0 <= n <= k && FoundFor(Run(s, actions[..k][..n]), id, c);
      assert actions[..k][..n] == actions[..n];
    case Flushing(c, todo) =>
      var n :| 0 <= n <= k && FoundForAll(Run(s, actions[..k][..n]), todo, c);
      assert actions[..k][..n] == actions[..n];
    case FlushMarking(c, _, todo) =>
      var n :| 0 <= n <= k && FoundForAll(Run(s, actions[..k][..n]), todo, c);
      assert actions[..k][..n] == actions[..n];
    case _ =>
  }

  /** A flush works on commands of the device it looks up. */
  ghost predicate FlushHonest(s: State) {
    forall t | t in s.threads && s.threads[t].FlushLookup? ::
      forall i | 0 <= i < |s.threads[t].todo| ::
        && s.threads[t].todo[i].id in s.db.commands
        && s.db.commands[s.threads[t].todo[i].id].deviceId == s.threads[t].deviceId
  }

  lemma ListedRows(db: Db, d: string)
    ensures var todo := Sorted(PendingKeys(db, d));
            forall i | 0 <= i < |todo| :: todo[i].id in db.commands && db.commands[todo[i].id].deviceId == d
  {
    var todo := Sorted(PendingKeys(db, d));
    SortedLists(PendingKeys(db, d));
    forall i | 0 <= i < |todo| ensures todo[i].id in db.commands && db.commands[todo[i].id].deviceId == d {
      assert todo[i] in PendingKeys(db, d);
    }
  }

  lemma StepRowsKept(s: State, a: Action)
    ensures RowsKept(s.db, Step(s, a).db)
  {
    if !s.panicked && a.Advance? && a.t in s.threads {
      AdvanceKeepsRows(s, a);
    } else if !s.panicked && a.Elsewhere? && !a.op.Enqueue? {
      OpKeepsRows(s.db, a.op);
    }
  }

  lemma NewLookup(s: State, a: Action, t: nat)
    requires t in Step(s, a).threads && Step(s, a).threads[t].FlushLookup?
    ensures || (t in s.threads && s.threads[t] == Step(s, a).threads[t])
            || (Step(s, a).db == s.db
                && Step(s, a).threads[t].todo == Sorted(PendingKeys(s.db, Step(s, a).threads[t].deviceId)))
  {
  }

  lemma StepFlushHonest(s: State, a: Action)
    requires FlushHonest(s)
    ensures FlushHonest(Step(s, a))
  {
    var n := Step(s, a);
    StepRowsKept(s, a);
    forall t | t in n.threads && n.threads[t].FlushLookup?
      ensures forall i | 0 <= i < |n.threads[t].todo| ::
                && n.threads[t].todo[i].id in n.db.commands
                && n.db.commands[n.threads[t].todo[i].id].deviceId == n.threads[t].deviceId
    {
      NewLookup(s, a, t);
      ListedRows(s.db, n.threads[t].deviceId);
    }
  }

  lemma {:induction false} AlwaysFlushHonest(s: State, actions: seq<Action>)
    requires s.threads == map[]
    ensures FlushHonest(Run(s, actions))
  {
    if actions != [] {
      var n := |actions| - 1;
      AlwaysFlushHonest(s, actions[..n]);
      StepFlushHonest(Run(s, actions[..n]), actions[n]);
    }
  }

  /** Where a thread gets its connection from: the lookup, or what it held before. */
  lemma TargetStep(s: State, a: Action, t: nat)
    requires Honest(s) && FlushHonest(s) && t in Step(s, a).threads
    ensures var thread := Step(s, a).threads[t];
            || (t in s.threads && s.threads[t] == thread)
            || (match thread
                case Dispatching(id, c) => FoundFor(s, id, c)
                case Flushing(c, todo) =>
                  FoundForAll(s, todo, c) || (t in s.threads && s.threads[t].FlushMarking? && s.threads[t].target == c
                                              && s.threads[t].todo == todo)
                case FlushMarking(c, sent, todo) =>
                  t in s.threads && s.threads[t].Flushing? && s.threads[t].target == c && s.threads[t].todo != []
                  && sent == s.threads[t].todo[0].id && todo == s.threads[t].todo[1..]
                case _ => true)
  {
  }

  /** In every run from an idle hub, a thread's connection was found by a lookup for its commands' own device. */
  lemma {:induction false} AlwaysAddressed(s: State, actions: seq<Action>, t: nat)
    requires s.threads == map[] && t in Run(s, actions).threads
    ensures Addressed(s, actions, Run(s, actions).threads[t])
  {
    var n := |actions| - 1;
    var m := Run(s, actions[..n]);
    AlwaysHonest(s, actions[..n]);
    AlwaysFlushHonest(s, actions[..n]);
    TargetStep(m, actions[n], t);
    if t in m.threads {
      AlwaysAddressed(s, actions[..n], t);
      AddressedMore(s, actions, m.threads[t]);
    }
    AddressedStep(s, actions, t);
  }

  lemma AddressedStep(s: State, actions: seq<Action>, t: nat)
    requires actions != [] && t in Run(s, actions).threads
    requires var m := Run(s, actions[..|actions| - 1]);
             Honest(m) && FlushHonest(m) && (t in m.threads ==> Addressed(s, actions, m.threads[t]))
    ensures Addressed(s, actions, Run(s, actions).threads[t])
  {
    var k := |actions| - 1;
    var m := Run(s, actions[..k]);
    TargetStep(m, actions[k], t);
    match Run(s, actions).threads[t]
    case Flushing(c, todo) =>
    case FlushMarking(c, sent, todo) =>
      if t in m.threads && m.threads[t].Flushing? {
        var n :| 0 <= n <= |actions| && FoundForAll(Run(s, actions[..n]), m.threads[t].todo, c);
        assert FoundForAll(Run(s, actions[..n]), todo, c);
      }
    case _ =>
  }

  /** The command a thread is about to send. */
  function Sending(thread: Thread): Option<string> {
    match thread
    case Dispatching(id, _) => Some(id)
    case Flushing(_, todo) => if todo == [] then None else Some(todo[0].id)
    case _ => None
  }

  /** So every send is to the agent that was looked up for that very command's device. */
  lemma SendsToOwner(s: State, actions: seq<Action>, t: nat, c: nat, id: string) returns (n: nat)
    requires s.threads == map[] && t in Run(s, actions).threads
    requires SendsTo(Run(s, actions).threads[t]) == Some(c) && Sending(Run(s, actions).threads[t]) == Some(id)
    ensures n <= |actions| && FoundFor(Run(s, actions[..n]), id, c)
  {
    AlwaysAddressed(s, actions, t);
    match Run(s, actions).threads[t]
    case Dispatching(_, _) => n :| 0 <= n <= |actions| && FoundFor(Run(s, actions[..n]), id, c);
    case Flushing(_, todo) => n :| 0 <= n <= |actions| && FoundForAll(Run(s, actions[..n]), todo, c);
  }

  // ---- A command for an agent that is not there ----

  /** The thread's next steps with nobody else moving. */
  ghost function Steps(s: State, a: Action, n: nat): State {
    if n == 0 then s else Step(Steps(s, a, n - 1), a)
  }

  /** The row is the cloud's answer, under the command's id. */
  predicate AnswerRow(db: Db, id: string, d: string, stdout: string, stderr: string, exitCode: int) {
    && id in db.results && db.results[id].stdout == stdout && db.results[id].stderr == stderr
    && db.results[id].exitCode == exitCode
    && (db.results[id].commandId == id && db.results[id].deviceId == d)
  }

  ghost predicate Nobody(s: State, d: string, a: Action)
    requires a.Advance?
  {
    Found(s, d, a.fallback).None?
  }

  /** The command is stored, and the lookup finds nobody. */
  lemma OfflineStored(s: State, a: Action, id: string, d: string, command: string, timeoutSec: int, createdAt: int)
    requires !s.panicked && a.Advance? && a.t in s.threads && Nobody(s, d, a)
    requires s.threads[a.t] == Enqueuing(id, d, command, timeoutSec, createdAt) && id !in s.db.commands
    ensures Steps(s, a, 2) == s.(db := Apply(s.db, Enqueue(id, d, command, timeoutSec, createdAt, a.now)),
                                 threads := s.threads[a.t := AgentOffline(id, d)])
  {
    assert Steps(s, a, 0) == s;
    var s1 := Steps(s, a, 1);
    assert s1 == Step(s, a) && s1.threads == s.threads[a.t := LookingUp(id, d)] && s1.reg == s.reg;
    assert Steps(s, a, 2) == Step(s1, a);
    assert Step(s1, a).threads == s.threads[a.t := AgentOffline(id, d)];
  }

  /** A command no predefined answer fits: its sandbox result is kept and it goes on waiting for the agent. */
  lemma OfflineSandboxed(s: State, a: Action, id: string, d: string, command: string, timeoutSec: int, createdAt: int)
    requires !s.panicked && a.Advance? && a.t in s.threads && !a.predefined && Nobody(s, d, a)
    requires s.threads[a.t] == Enqueuing(id, d, command, timeoutSec, createdAt)
    requires id !in s.db.commands && id !in s.db.results
    ensures var t := Steps(s, a, 3);
            && !t.panicked && a.t in t.threads && t.threads[a.t].Finished? && id in t.db.commands
            && t.db.commands == s.db.commands[id := t.db.commands[id]]
            && t.db.commands[id].status == Pending && t.db.commands[id].deviceId == d
            && t.db.commands[id].command == command && t.db.commands[id].timeoutSec == timeoutSec
            && AnswerRow(t.db, id, d, a.answer.stdout, a.answer.stderr, a.answer.exitCode)
  {
    OfflineStored(s, a, id, d, command, timeoutSec, createdAt);
    var s2 := Steps(s, a, 2);
    assert a.t in s2.threads && s2.threads[a.t] == AgentOffline(id, d);
    assert Steps(s, a, 3) == Step(s2, a);
    assert Step(s2, a).db.commands == s2.db.commands;
  }

  /**
   A predefined one: it is COMPLETED with that answer and exit code 0; a clear-queue also fails the
   other commands waiting for the device, and no other answer touches them.
   */
  lemma OfflineAnswered(s: State, a: Action, id: string, d: string, command: string, timeoutSec: int, createdAt: int)
    requires !s.panicked && a.Advance? && a.t in s.threads && a.predefined && Nobody(s, d, a)
    requires s.threads[a.t] == Enqueuing(id, d, command, timeoutSec, createdAt)
    requires id !in s.db.commands && id !in s.db.results
    ensures var t := Steps(s, a, 5);
            && !t.panicked && a.t in t.threads && t.threads[a.t].Finished?
            && id in t.db.commands && t.db.commands[id].status == Completed
            && AnswerRow(t.db, id, d, a.answer.stdout, a.answer.stderr, 0)
            && forall x | x in s.db.commands ::
                 && x in t.db.commands
                 && if a.purge && PendingFor(s.db, d, x) then t.db.commands[x].status == Failed
                    else t.db.commands[x] == s.db.commands[x]
  {
    OfflineStored(s, a, id, d, command, timeoutSec, createdAt);
    OfflineResponds(Steps(s, a, 2), a, id, d);
    var s2, s4 := Steps(s, a, 2), Steps(s, a, 4);
    assert s4 == Step(Steps(s, a, 3), a) && Steps(s, a, 3) == Step(s2, a);
    assert Steps(s, a, 5) == Step(s4, a);
    OfflineCompletes(s4, a, id);
  }

  lemma OfflineCompletes(s: State, a: Action, id: string)
    requires !s.panicked && a.Advance? && a.t in s.threads && s.threads[a.t] == Completing(id) && id in s.db.commands
    ensures var t := Step(s, a);
            && !t.panicked && a.t in t.threads && t.threads[a.t].Finished? && t.db.results == s.db.results
            && id in t.db.commands && t.db.commands[id].status == Completed
            && t.db.commands == s.db.commands[id := t.db.commands[id]]
  {
  }

  /** The queue is cleared if asked to, and the answer is saved. */
  lemma OfflineResponds(s: State, a: Action, id: string, d: string)
    requires !s.panicked && a.Advance? && a.t in s.threads && s.threads[a.t] == AgentOffline(id, d) && a.predefined
    requires id in s.db.commands && id !in s.db.results
    ensures var t := Step(Step(s, a), a);
            && !t.panicked && a.t in t.threads && t.threads[a.t] == Completing(id) && id in t.db.commands
            && AnswerRow(t.db, id, d, a.answer.stdout, a.answer.stderr, 0)
            && forall x | x in s.db.commands && x != id ::
                 && x in t.db.commands
                 && if a.purge && PendingFor(s.db, d, x) then t.db.commands[x].status == Failed
                    else t.db.commands[x] == s.db.commands[x]
  {
    var m := Step(s, a);
    assert a.t in m.threads && m.threads[a.t] == Responding(id, d);
    assert m.db == if a.purge then Apply(s.db, Cancel(d, a.now)) else s.db;
  }

  // ---- Such a panic happens ----

  lemma RunMore(s: State, actions: seq<Action>, a: Action)
    ensures Run(s, actions + [a]) == Step(Run(s, actions), a)
  {
  }

  lemma AgentRegistered(d: string, answer: Report) returns (actions: seq<Action>, s: State)
    ensures s == Run(IDLE, actions) && !s.panicked && s.db.commands == map[]
    ensures s.threads == map[0 := ReadingPending(d)] && s.reg.agents == map[d := 0] && StillOpen(s, 0)
  {
    var arrive, spawn := Arrive(0), Spawn(0, Authenticating(0, d));
    var step := Advance(0, 1, None, false, false, answer);
    RunMore(IDLE, [], arrive);
    RunMore(IDLE, [arrive], spawn);
    var before := Run(IDLE, [arrive] + [spawn]);
    assert before.threads == map[0 := Authenticating(0, d)] && StillOpen(before, 0);
    RunMore(IDLE, [arrive] + [spawn], step);
    actions := [arrive] + [spawn] + [step];
    s := Run(IDLE, actions);
    assert s.threads == map[0 := ReadingPending(d)] && s.reg.agents == map[d := 0];
  }

  /** An enqueue stores its command and finds that agent. */
  lemma AgentFound(id: string, d: string, answer: Report) returns (actions: seq<Action>, s: State)
    ensures s == Run(IDLE, actions) && !s.panicked
    ensures s.threads.Keys == {0, 1} && s.threads[1] == Dispatching(id, 0) && StillOpen(s, 0)
  {
    var before;
    actions, before := AgentRegistered(d, answer);
    var enqueue, step := Spawn(1, Enqueuing(id, d, "", 0, 1)), Advance(1, 1, None, false, false, answer);
    RunMore(IDLE, actions, enqueue);
    RunMore(IDLE, actions + [enqueue], step);
    var stored := Run(IDLE, actions + [enqueue] + [step]);
    assert stored.threads == map[0 := ReadingPending(d), 1 := LookingUp(id, d)] && stored.reg == before.reg;
    RunMore(IDLE, actions + [enqueue] + [step], step);
    actions := actions + [enqueue] + [step] + [step];
    s := Run(IDLE, actions);
  }

  /** From an idle hub: the agent leaves between the lookup and the send, and the process panics. */
  lemma PanicHappens(id: string, d: string, answer: Report) returns (actions: seq<Action>)
    ensures Run(IDLE, actions).panicked
  {
    var s;
    actions, s := AgentFound(id, d, answer);
    var send := Advance(1, 1, None, false, false, answer);
    RunMore(IDLE, actions, Leave(0));
    RunMore(IDLE, actions + [Leave(0)], send);
    var gone := Step(s, Leave(0));
    assert gone.threads == s.threads && !StillOpen(gone, 0);
    actions := actions + [Leave(0)] + [send];
  }

  /** A connection that authenticates under two device ids and leaves: its entry under the first stays. */
  lemma DeadEntry(d1: string, d2: string, answer: Report) returns (actions: seq<Action>, s: State)
    requires d1 != d2 && d2 != ""
    ensures s == Run(IDLE, actions) && !s.panicked && s.db.commands == map[] && 1 !in s.threads
    ensures d1 in s.reg.agents && s.reg.agents[d1] == 0 && 0 in s.reg.clients && !StillOpen(s, 0)
  {
    var before;
    actions, before := AgentRegistered(d1, answer);
    var again, step := Spawn(2, Authenticating(0, d2)), Advance(2, 1, None, false, false, answer);
    RunMore(IDLE, actions, again);
    RunMore(IDLE, actions + [again], step);
    var twice := Run(IDLE, actions + [again] + [step]);
    assert twice.threads == map[0 := ReadingPending(d1), 2 := ReadingPending(d2)];
    assert twice.reg.agents == map[d1 := 0, d2 := 0] && StillOpen(twice, 0);
    assert twice.reg.clients[0].role.Agent? && twice.reg.clients[0].deviceId == d2;
    RunMore(IDLE, actions + [again] + [step], Leave(0));
    actions := actions + [again] + [step] + [Leave(0)];
    s := Run(IDLE, actions);
  }

  /** An enqueue for the first id finds the dead entry and its send panics, with nothing in between. */
  lemma DeadEntryPanics(id: string, d1: string, d2: string, answer: Report) returns (actions: seq<Action>)
    requires d1 != d2 && d2 != ""
    ensures Run(IDLE, actions).panicked
  {
    var s;
    actions, s := DeadEntry(d1, d2, answer);
    var enqueue, step := Spawn(1, Enqueuing(id, d1, "", 0, 1)), Advance(1, 1, None, false, false, answer);
    RunMore(IDLE, actions, enqueue);
    RunMore(IDLE, actions + [enqueue], step);
    var stored := Run(IDLE, actions + [enqueue] + [step]);
    assert 1 in stored.threads && stored.threads[1] == LookingUp(id, d1) && stored.reg == s.reg;
    RunMore(IDLE, actions + [enqueue] + [step], step);
    var found := Run(IDLE, actions + [enqueue] + [step] + [step]);
    assert found.threads[1] == Dispatching(id, 0) && found.reg == s.reg;
    RunMore(IDLE, actions + [enqueue] + [step] + [step], step);
    actions := actions + [enqueue] + [step] + [step] + [step];
  }
}
