/**
 Commands on their way to the agent: what a reply lists, what is marked when it is handed out, and
 that what the agent ends up with is what was enqueued.
 */
module Delivery {
  import opened Ordering
  import AgentDb
  import A = AgentRuns
  import R = RelayDb
  import opened Protocol

  predicate Waiting(db: R.Db, id: string) {
    id in db.commands && db.commands[id].deviceId == DEVICE && db.commands[id].status == R.Pending
  }

  /** The payload is the text and the time limit of the relay's row. */
  predicate Faithful(db: R.Db, id: string, p: AgentDb.Payload) {
    id in db.commands && p == AgentDb.Json(db.commands[id].command, db.commands[id].timeoutSec)
  }

  ghost predicate Earlier(db: R.Db, a: string, b: string)
    requires a in db.commands && b in db.commands
  {
    || db.commands[a].createdAt < db.commands[b].createdAt
    || (db.commands[a].createdAt == db.commands[b].createdAt && exists n :: PartsAt(a, b, n))
  }

  /** The list is the device's queue: every waiting command, oldest first, with its text and time limit. */
  ghost predicate ListsQueue(db: R.Db, pending: seq<(string, AgentDb.Payload)>) {
    && (forall i | 0 <= i < |pending| :: Waiting(db, pending[i].0) && Faithful(db, pending[i].0, pending[i].1))
    && (forall id | Waiting(db, id) :: exists i | 0 <= i < |pending| :: pending[i].0 == id)
    && (forall i, j | 0 <= i < j < |pending| :: Earlier(db, pending[i].0, pending[j].0))
  }

  // ---- What a SYNC_RESP lists ----

  lemma ReadsQueue(db: R.Db)
    ensures ListsQueue(db, SyncPending(db))
    ensures forall i | 0 <= i < |SyncPending(db)| :: R.Lists(Sorted(R.PendingKeys(db, DEVICE)), SyncPending(db)[i].0)
  {
    var set0 := R.PendingKeys(db, DEVICE);
    var keys, pending := Sorted(set0), SyncPending(db);
    SortedLists(set0);
    forall i | 0 <= i < |keys|
      ensures Waiting(db, keys[i].id) && keys[i].createdAt == db.commands[keys[i].id].createdAt {
      assert keys[i] in set0;
      R.PendingKeyIff(db, DEVICE, keys[i]);
    }
    forall id | Waiting(db, id) ensures exists i | 0 <= i < |pending| :: pending[i].0 == id {
      R.PendingKeyIff(db, DEVICE, Key(db.commands[id].createdAt, id));
      var i :| 0 <= i < |keys| && keys[i] == Key(db.commands[id].createdAt, id);
      assert pending[i].0 == id;
    }
    forall i, j | 0 <= i < j < |pending| ensures Earlier(db, pending[i].0, pending[j].0) {
      SortedOldestFirst(set0, i, j);
    }
  }

  /** Some moment of the run at which the list was the queue. */
  ghost predicate WasQueue(s: State, actions: seq<Action>, max: nat, pending: seq<(string, AgentDb.Payload)>) {
    exists n | 0 <= n <= |actions| :: ListsQueue(Run(s, actions[..n], max).relay, pending)
  }

  lemma WasQueueMore(s: State, actions: seq<Action>, max: nat, pending: seq<(string, AgentDb.Payload)>)
    requires actions != [] && WasQueue(s, actions[..|actions| - 1], max, pending)
    ensures WasQueue(s, actions, max, pending)
  {
    var k := |actions| - 1;
    var n :| 0 <= n <= k && ListsQueue(Run(s, actions[..k][..n], max).relay, pending);
    assert actions[..k][..n] == actions[..n];
  }

  /** A handler is working with the list, or a reply carries it. */
  ghost predicate InUse(s: State, pending: seq<(string, AgentDb.Payload)>) {
    || (exists acked :: SyncResp(acked, pending) in s.toAgent)
    || (exists k | k in s.jobs :: s.jobs[k].Marking? && s.jobs[k].pending == pending)
  }

  lemma JobInUse(s: State, k: nat, now: int, fault: bool, pending: seq<(string, AgentDb.Payload)>)
    requires k in s.jobs && InUse(Advanced(s, k, now, fault), pending)
    ensures InUse(s, pending) || ListsQueue(s.relay, pending)
  {
    var t := Advanced(s, k, now, fault);
    if s.jobs[k].Saving? && s.jobs[k].todo == [] { ReadsQueue(s.relay); }
    if !exists acked :: SyncResp(acked, pending) in t.toAgent {
      var j :| j in t.jobs && t.jobs[j].Marking? && t.jobs[j].pending == pending;
      assert j == k || (j in s.jobs && s.jobs[j] == t.jobs[j]);
    }
  }

  lemma StepInUse(s: State, a: Action, max: nat, pending: seq<(string, AgentDb.Payload)>)
    requires InUse(Step(s, a, max), pending)
    ensures InUse(s, pending) || ListsQueue(s.relay, pending)
  {
    if a.Advance? && a.k in s.jobs {
      JobInUse(s, a.k, a.now, a.fault, pending);
    } else {
      var t := Step(s, a, max);
      QuietJobs(s, a, max);
      if !exists acked :: SyncResp(acked, pending) in t.toAgent {
        var j :| j in t.jobs && t.jobs[j].Marking? && t.jobs[j].pending == pending;
        assert s.jobs[j].pending == pending;
      }
    }
  }

  lemma QuietJobs(s: State, a: Action, max: nat)
    requires !(a.Advance? && a.k in s.jobs)
    ensures var t := Step(s, a, max);
            && (forall acked, pending | SyncResp(acked, pending) in t.toAgent :: SyncResp(acked, pending) in s.toAgent)
            && (forall k | k in t.jobs && t.jobs[k].Marking? :: k in s.jobs && t.jobs[k] == s.jobs[k])
  {
  }

  /** In every run each SYNC_RESP lists the whole queue as it was when its handler read it. */
  lemma {:induction false} RepliesListQueue(s: State, actions: seq<Action>, max: nat,
                                          pending: seq<(string, AgentDb.Payload)>)
    requires s.jobs == map[] && s.toAgent == {} && InUse(Run(s, actions, max), pending)
    ensures WasQueue(s, actions, max, pending)
  {
    var n := |actions| - 1;
    var m := Run(s, actions[..n], max);
    StepInUse(m, actions[n], max, pending);
    if InUse(m, pending) {
      RepliesListQueue(s, actions[..n], max, pending);
      WasQueueMore(s, actions, max, pending);
    }
  }

  /** The same said of the replies themselves. */
  lemma RepliesAreQueues(db: AgentDb.Db, actions: seq<Action>, max: nat, acked: seq<string>,
                         pending: seq<(string, AgentDb.Payload)>) returns (n: nat)
    requires SyncResp(acked, pending) in Run(Start(db), actions, max).toAgent
    ensures n <= |actions| && ListsQueue(Run(Start(db), actions[..n], max).relay, pending)
  {
    RepliesListQueue(Start(db), actions, max, pending);
    n :| 0 <= n <= |actions| && ListsQueue(Run(Start(db), actions[..n], max).relay, pending);
  }

  // ---- The relay's rows ----

  /** No row goes away or changes what it asks for, and none becomes PENDING again. */
  ghost predicate RowsStay(a: R.Db, b: R.Db) {
    forall id | id in a.commands ::
      && id in b.commands
      && b.commands[id].command == a.commands[id].command && b.commands[id].timeoutSec == a.commands[id].timeoutSec
      && b.commands[id].deviceId == a.commands[id].deviceId && b.commands[id].createdAt == a.commands[id].createdAt
      && (b.commands[id].status == R.Pending ==> a.commands[id].status == R.Pending)
  }

  /** The store call a step makes at the relay. */
  ghost function StoreCall(s: State, a: Action): Option<R.Op> {
    match a
    case Enqueue(id, c, t, at, now) =>
      if id == "" || IsResultId(s, id) then None else Some(R.Enqueue(id, DEVICE, c, t, at, now))
    case Hand(id, now) => Some(R.Op.Dispatch(id, now))
    case Answer(id, r, now, predefined) =>
      if id !in s.relay.commands then None
      else if predefined then Some(R.Save(CloudReport(id, r).(exitCode := 0, timedOut := false), now))
      else Some(R.SaveSandbox(CloudReport(id, r), now))
    case Conclude(id, now) => if Answered(id) !in s.cloud then None else Some(R.Complete(id, false, now))
    case CancelQueue(now) => Some(R.Cancel(DEVICE, now))
    case OnCmdResult(k, r, now, saved) =>
      if CmdResult(r) !in s.toRelay || k in s.jobs || !saved then None else Some(R.Save(r, now))
    case Advance(k, now, fault) => if k in s.jobs then JobCall(s.jobs[k], now, fault) else None
    case _ => None
  }

  function JobCall(job: Job, now: int, fault: bool): Option<R.Op> {
    match job
    case Acking(_) => None
    case Saving(todo, _) => if todo == [] || fault then None else Some(R.Save(todo[0], now))
    case Marking(_, _, keys) => if keys == [] then None else Some(R.Op.Dispatch(keys[0].id, now))
  }

  /** Every step of the protocol makes at most one store call at the relay. */
  lemma StepIsStoreCall(s: State, a: Action, max: nat)
    ensures Step(s, a, max).relay == match StoreCall(s, a) case None => s.relay case Some(op) => R.Apply(s.relay, op)
  {
  }

  lemma RelayRowsStay(s: State, a: Action, max: nat)
    ensures RowsStay(s.relay, Step(s, a, max).relay)
  {
    StepIsStoreCall(s, a, max);
    if StoreCall(s, a).Some? {
      R.StepGrows(s.relay, StoreCall(s, a).value);
      GrowsStay(s.relay, R.Apply(s.relay, StoreCall(s, a).value));
    }
  }

  lemma GrowsStay(a: R.Db, b: R.Db)
    requires R.Grows(a, b)
    ensures RowsStay(a, b)
  {
  }

  /** A row that is new was enqueued by this step, as asked. */
  lemma NewRow(s: State, a: Action, max: nat, id: string)
    requires id in Step(s, a, max).relay.commands && id !in s.relay.commands
    ensures a.Enqueue? && a.id == id && AsEnqueued(Step(s, a, max).relay, a)
  {
  }

  /** The row is what the enqueue asked for. */
  predicate AsEnqueued(db: R.Db, a: Action)
    requires a.Enqueue?
  {
    && a.id in db.commands && db.commands[a.id].deviceId == DEVICE
    && db.commands[a.id].command == a.command && db.commands[a.id].timeoutSec == a.timeoutSec
    && db.commands[a.id].createdAt == if a.createdAt != 0 then a.createdAt else a.now
  }

  /** In every run each command at the relay is what the enqueue that brought it in asked for. */
  lemma {:induction false} RowsAreEnqueued(s: State, actions: seq<Action>, max: nat, id: string) returns (n: nat)
    requires id !in s.relay.commands && id in Run(s, actions, max).relay.commands
    ensures n < |actions| && id !in Run(s, actions[..n], max).relay.commands
    ensures actions[n].Enqueue? && actions[n].id == id && AsEnqueued(Run(s, actions, max).relay, actions[n])
  {
    n := |actions| - 1;
    var m := Run(s, actions[..n], max);
    RelayRowsStay(m, actions[n], max);
    if id in m.relay.commands {
      var k := RowsAreEnqueued(s, actions[..n], max, id);
      assert actions[..n][..k] == actions[..k];
      n := k;
    } else {
      NewRow(m, actions[n], max, id);
    }
  }

  // ---- What is handed out is marked, and is what the row says ----

  predicate Marked(db: R.Db, id: string) {
    id in db.commands && db.commands[id].status != R.Pending
  }

  /** Handed out as the row says; marked, or still on the list of what to mark. */
  ghost predicate HandedOut(db: R.Db, pending: seq<(string, AgentDb.Payload)>, keys: seq<Key>) {
    forall i | 0 <= i < |pending| ::
      Faithful(db, pending[i].0, pending[i].1) && (Marked(db, pending[i].0) || R.Lists(keys, pending[i].0))
  }

  ghost predicate ReplyFaithful(db: R.Db, m: ToAgent) {
    match m
    case Dispatch(id, p) => Faithful(db, id, p) && Marked(db, id)
    case SyncResp(_, pending) => HandedOut(db, pending, [])
    case ResultAck(_) => true
  }

  ghost predicate WireFaithful(s: State) {
    && (forall m | m in s.toAgent :: ReplyFaithful(s.relay, m))
    && (forall k | k in s.jobs && s.jobs[k].Marking? :: HandedOut(s.relay, s.jobs[k].pending, s.jobs[k].keys))
  }

  lemma HandedOutStays(a: R.Db, b: R.Db, pending: seq<(string, AgentDb.Payload)>, keys: seq<Key>)
    requires RowsStay(a, b) && HandedOut(a, pending, keys)
    ensures HandedOut(b, pending, keys)
  {
  }

  lemma WireStays(s: State, t: State)
    requires WireFaithful(s) && RowsStay(s.relay, t.relay)
    requires forall m | m in t.toAgent && m !in s.toAgent :: ReplyFaithful(t.relay, m)
    requires forall k | k in t.jobs && t.jobs[k].Marking? ::
               (k in s.jobs && t.jobs[k] == s.jobs[k]) || HandedOut(t.relay, t.jobs[k].pending, t.jobs[k].keys)
    ensures WireFaithful(t)
  {
    forall pending, keys | HandedOut(s.relay, pending, keys) ensures HandedOut(t.relay, pending, keys) {
      HandedOutStays(s.relay, t.relay, pending, keys);
    }
    forall m | m in s.toAgent ensures ReplyFaithful(t.relay, m) {
      assert ReplyFaithful(s.relay, m);
    }
  }

  lemma MarkNext(db: R.Db, pending: seq<(string, AgentDb.Payload)>, keys: seq<Key>, now: int)
    requires keys != [] && HandedOut(db, pending, keys)
    ensures HandedOut(R.MarkDispatched(db, keys[0].id, now), pending, keys[1..])
  {
    forall i | 0 <= i < |pending| && !Marked(db, pending[i].0) && pending[i].0 != keys[0].id
      ensures R.Lists(keys[1..], pending[i].0)
    {
      var j :| 0 <= j < |keys| && keys[j].id == pending[i].0;
      assert keys[1..][j - 1] == keys[j];
    }
  }

  lemma JobFaithful(s: State, k: nat, now: int, fault: bool)
    requires WireFaithful(s) && k in s.jobs && RowsStay(s.relay, Advanced(s, k, now, fault).relay)
    ensures WireFaithful(Advanced(s, k, now, fault))
  {
    match s.jobs[k]
    case Acking(_) =>
    case Saving(todo, _) =>
      if todo == [] { ReadsQueue(s.relay); }
    case Marking(_, pending, keys) =>
      if keys != [] { MarkNext(s.relay, pending, keys, now); }
    WireStays(s, Advanced(s, k, now, fault));
  }

  lemma StepFaithful(s: State, a: Action, max: nat)
    requires WireFaithful(s)
    ensures WireFaithful(Step(s, a, max))
  {
    RelayRowsStay(s, a, max);
    match a
    case Advance(k, now, fault) =>
      if k in s.jobs { JobFaithful(s, k, now, fault); }
    case Hand(_, _) => HandFaithful(s, a, max);
    case _ => OtherFaithful(s, a, max);
  }

  lemma OtherFaithful(s: State, a: Action, max: nat)
    requires WireFaithful(s) && !a.Hand? && !a.Advance? && RowsStay(s.relay, Step(s, a, max).relay)
    ensures WireFaithful(Step(s, a, max))
  {
    SameReplies(s, a, max);
    WireStays(s, Step(s, a, max));
  }

  lemma HandFaithful(s: State, a: Action, max: nat)
    requires WireFaithful(s) && a.Hand? && RowsStay(s.relay, Step(s, a, max).relay)
    ensures WireFaithful(Step(s, a, max))
  {
    WireStays(s, Step(s, a, max));
  }

  /** Only the queue and the relay's handlers send anything to the agent. */
  lemma SameReplies(s: State, a: Action, max: nat)
    requires !a.Hand? && !(a.Advance? && a.k in s.jobs)
    ensures var t := Step(s, a, max);
            && t.toAgent == s.toAgent
            && forall k | k in t.jobs && t.jobs[k].Marking? :: k in s.jobs && t.jobs[k] == s.jobs[k]
  {
  }

  // ---- What the agent ends up with ----

  /** Handlers hold, and the agent has stored, what the relay's rows say; `other` came to the agent otherwise. */
  ghost predicate AgentFaithful(s: State, other: set<string>) {
    && (forall h, i | h in s.agent.handlers && 0 <= i < |s.agent.handlers[h].todo| ::
          Faithful(s.relay, s.agent.handlers[h].todo[i].0, s.agent.handlers[h].todo[i].1))
    && (forall id | id in s.agent.db.commands && id !in s.agent.local && id !in other ::
          Faithful(s.relay, id, s.agent.db.commands[id].payload))
  }

  ghost predicate AllFaithful(db: R.Db, pending: seq<(string, AgentDb.Payload)>) {
    forall i | 0 <= i < |pending| :: Faithful(db, pending[i].0, pending[i].1)
  }

  lemma AgentHandlers(s: State, x: A.Action, max: nat)
    requires x.Receive? ==> AllFaithful(s.relay, x.commands)
    requires forall h | h in s.agent.handlers :: AllFaithful(s.relay, s.agent.handlers[h].todo)
    ensures var t := A.Step(s.agent, x, max);
            forall h | h in t.handlers :: AllFaithful(s.relay, t.handlers[h].todo)
  {
  }

  lemma AgentRows(s: State, x: A.Action, max: nat, id: string)
    requires id in A.Step(s.agent, x, max).db.commands
    ensures var t := A.Step(s.agent, x, max);
            || (id in s.agent.db.commands && t.db.commands[id].payload == s.agent.db.commands[id].payload
                && (id in s.agent.local ==> id in t.local))
            || id in t.local
            || (x.Insert? && x.h in s.agent.handlers && s.agent.handlers[x.h].todo != []
                && s.agent.handlers[x.h].todo[0] == (id, t.db.commands[id].payload))
  {
  }

  lemma AgentStepFaithful(s: State, x: A.Action, max: nat, t: State, other: set<string>)
    requires AgentFaithful(s, other) && t == s.(agent := A.Step(s.agent, x, max))
    requires x.Receive? ==> AllFaithful(s.relay, x.commands)
    ensures AgentFaithful(t, other)
  {
    AgentHandlers(s, x, max);
    assert forall h | h in t.agent.handlers :: AllFaithful(t.relay, t.agent.handlers[h].todo);
    forall id | id in t.agent.db.commands && id !in t.agent.local && id !in other
      ensures Faithful(t.relay, id, t.agent.db.commands[id].payload)
    {
      AgentRows(s, x, max, id);
    }
  }

  lemma StepAgentFaithful(s: State, a: Action, max: nat, other: set<string>)
    requires WireFaithful(s) && AgentFaithful(s, other)
    ensures AgentFaithful(Step(s, a, max), other)
  {
    var t := Step(s, a, max);
    RelayRowsStay(s, a, max);
    if t.agent != s.agent {
      assert t == s.(agent := A.Step(s.agent, AgentAction(a), max));
      match a
      case TakeDispatch(_, id, p) => assert ReplyFaithful(s.relay, Dispatch(id, p));
      case TakeSyncResp(_, acked, pending) => assert ReplyFaithful(s.relay, SyncResp(acked, pending));
      case _ =>
      AgentStepFaithful(s, AgentAction(a), max, t, other);
    }
  }

  lemma {:induction false} RunFaithful(s: State, actions: seq<Action>, max: nat, other: set<string>)
    requires WireFaithful(s) && AgentFaithful(s, other)
    ensures WireFaithful(Run(s, actions, max)) && AgentFaithful(Run(s, actions, max), other)
  {
    if actions != [] {
      var n := |actions| - 1;
      RunFaithful(s, actions[..n], max, other);
      StepFaithful(Run(s, actions[..n], max), actions[n], max);
      StepAgentFaithful(Run(s, actions[..n], max), actions[n], max, other);
    }
  }

  /**
   In every run, a command the agent got from the relay has the text and the time limit of the
   enqueue that brought it into the relay's queue.
   */
  lemma DeliveredAsEnqueued(db: AgentDb.Db, actions: seq<Action>, max: nat, s: State, id: string) returns (n: nat)
    requires A.Untouched(db) && s == Run(Start(db), actions, max)
    requires id in s.agent.db.commands && id !in s.agent.local && id !in db.commands
    ensures n < |actions| && actions[n].Enqueue? && actions[n].id == id
    ensures id !in Run(Start(db), actions[..n], max).relay.commands
    ensures s.agent.db.commands[id].payload == AgentDb.Json(actions[n].command, actions[n].timeoutSec)
  {
    RunFaithful(Start(db), actions, max, db.commands.Keys);
    n := RowsAreEnqueued(Start(db), actions, max, id);
  }

  /** In every run: whatever message carries a command, it is that enqueue's, and is no longer PENDING. */
  lemma SentAsEnqueued(db: AgentDb.Db, actions: seq<Action>, max: nat, s: State, m: ToAgent,
                       id: string, p: AgentDb.Payload)
    returns (n: nat)
    requires A.Untouched(db) && s == Run(Start(db), actions, max) && m in s.toAgent
    requires m == Dispatch(id, p) || (m.SyncResp? && (id, p) in m.pending)
    ensures n < |actions| && actions[n].Enqueue? && actions[n].id == id
    ensures id !in Run(Start(db), actions[..n], max).relay.commands
    ensures p == AgentDb.Json(actions[n].command, actions[n].timeoutSec)
    ensures id in s.relay.commands && s.relay.commands[id].status != R.Pending
  {
    RunFaithful(Start(db), actions, max, db.commands.Keys);
    assert ReplyFaithful(s.relay, m);
    assert Faithful(s.relay, id, p) && Marked(s.relay, id);
    n := RowsAreEnqueued(Start(db), actions, max, id);
  }
}
