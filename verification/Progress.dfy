/**
 The synchronisation gets done: from every reachable state of the protocol, whatever is on the wire
 and whatever handlers are at work, a few reconnections on which nothing is lost leave nothing
 unsynced.
 */
module Progress {
  import opened Ordering
  import opened AgentDb
  import A = AgentRuns
  import R = RelayDb
  import opened NetClient
  import opened Protocol
  import opened Delivery

  // ---- A batch can always be listed ----

  lemma {:induction false} OldestOf(results: seq<Result>, rest: set<nat>) returns (k: nat)
    requires rest != {} && forall n | n in rest :: n < |results|
    ensures k in rest && forall n | n in rest :: results[k].executedAt <= results[n].executedAt
    decreases |rest|
  {
    k :| k in rest;
    if rest - {k} != {} {
      var m := OldestOf(results, rest - {k});
      if results[m].executedAt < results[k].executedAt { k := m; }
    }
  }

  lemma {:induction false} BatchExists(results: seq<Result>, limit: nat) returns (picks: seq<nat>)
    ensures UnsyncedBatch(results, limit, picks)
  {
    picks := [];
    if limit > 0 {
      picks := BatchExists(results, limit - 1);
      UnsyncedIsCount(results);
      DistinctCount(picks, UnsyncedAt(results));
      if |picks| < Unsynced(results) && |picks| < limit {
        var rest := set n | n in UnsyncedAt(results) && n !in picks;
        var other :| other in UnsyncedAt(results) && other !in picks;
        assert other in rest;
        var k := OldestOf(results, rest);
        OldestFirstExtend(results, picks, k);
        picks := picks + [k];
      }
    }
  }

  // ---- Steps of a round ----

  /** The steps of a reconnection on which no message is lost and no save fails. */
  predicate RoundStep(a: Action) {
    || a.Reconnect? || a.OnSyncReq? || a.TakeSyncAck? || a.TakeSyncResp?
    || (a.Advance? && !a.fault) || a == Internal(A.Restart(false))
    || (a.Internal? && ((a.a.Insert? && !a.a.fault) || a.a.Signal?))
  }

  predicate Undisturbed(actions: seq<Action>) {
    forall i | 0 <= i < |actions| :: RoundStep(actions[i])
  }

  function Reconnections(actions: seq<Action>): nat {
    if actions == [] then 0
    else Reconnections(actions[..|actions| - 1]) + (if actions[|actions| - 1].Reconnect? then 1 else 0)
  }

  /** `more` leads from s to t, with n reconnections. */
  ghost predicate Leads(s: State, more: seq<Action>, t: State, n: nat, max: nat) {
    t == Run(s, more, max) && Undisturbed(more) && Reconnections(more) == n
  }

  lemma Begin(s: State, max: nat)
    ensures Leads(s, [], s, 0, max)
  {
  }

  lemma Next(s: State, more: seq<Action>, t: State, n: nat, a: Action, max: nat)
    requires Leads(s, more, t, n, max) && RoundStep(a)
    ensures Leads(s, more + [a], Step(t, a, max), if a.Reconnect? then n + 1 else n, max)
  {
    RunMore(s, more, a, max);
    assert (more + [a])[..|more|] == more;
  }

  /** A run of one step. */
  lemma One(s: State, a: Action, max: nat) returns (one: seq<Action>, t: State)
    requires Inv(s) && RoundStep(a)
    ensures Leads(s, one, t, if a.Reconnect? then 1 else 0, max) && t == Step(s, a, max) && Inv(t)
  {
    Begin(s, max);
    Next(s, [], s, 0, a, max);
    StepInv(s, a, max);
    one, t := [] + [a], Step(s, a, max);
  }

  lemma {:induction false} Join(s: State, a: seq<Action>, t: State, m: nat, b: seq<Action>, u: State, n: nat, max: nat)
    requires Leads(s, a, t, m, max) && Leads(t, b, u, n, max)
    ensures Leads(s, a + b, u, m + n, max)
    decreases |b|
  {
    if b == [] {
      assert a + b == a;
    } else {
      var k := |b| - 1;
      var mid := Run(t, b[..k], max);
      var n' := Reconnections(b[..k]);
      assert Leads(t, b[..k], mid, n', max);
      Join(s, a, t, m, b[..k], mid, n', max);
      Next(s, a + b[..k], mid, m + n', b[k], max);
      assert a + b == a + b[..k] + [b[k]];
    }
  }

  /** What the relay's side of a round leaves alone. */
  predicate AgentSame(s: State, t: State) {
    t.agent == s.agent && t.unsaved == s.unsaved
  }

  /** Over any run the relay's tables only grow. */
  lemma {:induction false} RelayRunGrows(s: State, actions: seq<Action>, max: nat)
    ensures R.Grows(s.relay, Run(s, actions, max).relay)
  {
    if actions != [] {
      var n := |actions| - 1;
      var m := Run(s, actions[..n], max);
      RelayRunGrows(s, actions[..n], max);
      StepIsStoreCall(m, actions[n], max);
      if StoreCall(m, actions[n]).Some? {
        R.StepGrows(m.relay, StoreCall(m, actions[n]).value);
        R.GrowsTransitive(s.relay, m.relay, R.Apply(m.relay, StoreCall(m, actions[n]).value));
      }
    }
  }

  /** Saving results completes or fails commands and does nothing else to them. */
  ghost predicate Settles(a: R.Db, b: R.Db) {
    forall id | id in a.commands ::
      id in b.commands && (b.commands[id].status == a.commands[id].status || b.commands[id].status.Rank() == 2)
  }

  /** The ids to acknowledge are those given and those of the reports. */
  ghost predicate AckedAll(todo: seq<R.Report>, acked: seq<string>, all: seq<string>) {
    forall c :: c in all <==> c in acked || Names(todo, c)
  }

  ghost predicate Names(todo: seq<R.Report>, c: string) {
    exists i | 0 <= i < |todo| :: todo[i].commandId == c
  }

  /** Reports with ids of their own have rows under them. */
  ghost predicate RowsFor(todo: seq<R.Report>, db: R.Db) {
    forall i | 0 <= i < |todo| && todo[i].resultId != "" :: todo[i].resultId in db.results
  }

  /** Every result of the request is saved, each under its own id. */
  lemma {:induction false} Saves(s: State, k: nat, todo: seq<R.Report>, acked: seq<string>, max: nat)
    returns (more: seq<Action>, t: State, all: seq<string>)
    requires Inv(s) && k in s.jobs && s.jobs[k] == Saving(todo, acked)
    ensures Leads(s, more, t, 0, max) && Inv(t) && AgentSame(s, t) && Settles(s.relay, t.relay)
    ensures k in t.jobs && t.jobs[k] == Saving([], all)
    ensures AckedAll(todo, acked, all) && RowsFor(todo, t.relay)
    decreases |todo|
  {
    if todo == [] {
      more, t, all := [], s, acked;
      Begin(s, max);
    } else {
      var one, next := SavesOne(s, k, todo, acked, max);
      more, t, all := Saves(next, k, todo[1..], acked + [todo[0].commandId], max);
      SavesFirst(s.relay, todo, next, more, t, max);
      AllSaved(todo, acked, all);
      Join(s, one, next, 0, more, t, 0, max);
      more := one + more;
    }
  }

  lemma SavesOne(s: State, k: nat, todo: seq<R.Report>, acked: seq<string>, max: nat)
    returns (one: seq<Action>, t: State)
    requires Inv(s) && k in s.jobs && s.jobs[k] == Saving(todo, acked) && todo != []
    ensures Leads(s, one, t, 0, max) && Inv(t) && AgentSame(s, t) && t.relay == R.SaveResult(s.relay, todo[0], 0)
    ensures k in t.jobs && t.jobs[k] == Saving(todo[1..], acked + [todo[0].commandId])
  {
    one, t := One(s, Advance(k, 0, false), max);
  }

  lemma SavesFirst(db: R.Db, todo: seq<R.Report>, next: State, more: seq<Action>, t: State, max: nat)
    requires todo != [] && next.relay == R.SaveResult(db, todo[0], 0) && t == Run(next, more, max)
    requires Settles(next.relay, t.relay) && RowsFor(todo[1..], t.relay)
    ensures Settles(db, t.relay) && RowsFor(todo, t.relay)
  {
    R.SavedWhere(db, todo[0], 0);
    RelayRunGrows(next, more, max);
    forall i | 0 <= i < |todo| && todo[i].resultId != "" ensures todo[i].resultId in t.relay.results {
      if i > 0 { assert todo[i] == todo[1..][i - 1]; }
    }
  }

  lemma AllSaved(todo: seq<R.Report>, acked: seq<string>, all: seq<string>)
    requires todo != [] && AckedAll(todo[1..], acked + [todo[0].commandId], all)
    ensures AckedAll(todo, acked, all)
  {
    forall c ensures c in all <==> c in acked || Names(todo, c) {
      NamesCons(todo, c);
    }
  }

  lemma NamesCons(todo: seq<R.Report>, c: string)
    requires todo != []
    ensures Names(todo, c) <==> todo[0].commandId == c || Names(todo[1..], c)
  {
    if i :| 0 <= i < |todo| && todo[i].commandId == c {
      assert i > 0 ==> todo[1..][i - 1].commandId == c;
    }
    if i :| 0 <= i < |todo| - 1 && todo[1..][i].commandId == c {
      assert todo[i + 1].commandId == c;
    }
  }

  /** The listed commands are marked and the reply goes out. */
  lemma {:induction false} Marks(s: State, k: nat, max: nat) returns (more: seq<Action>, t: State)
    requires Inv(s) && k in s.jobs && s.jobs[k].Marking?
    ensures Leads(s, more, t, 0, max) && Inv(t) && AgentSame(s, t)
    ensures SyncResp(s.jobs[k].acked, s.jobs[k].pending) in t.toAgent
    ensures forall id | Waiting(t.relay, id) :: Waiting(s.relay, id) && !R.Lists(s.jobs[k].keys, id)
    decreases |s.jobs[k].keys|
  {
    more, t := One(s, Advance(k, 0, false), max);
    if s.jobs[k].keys != [] {
      var one, next, keys := more, t, s.jobs[k].keys;
      more, t := Marks(next, k, max);
      Join(s, one, next, 0, more, t, 0, max);
      more := one + more;
      forall id | Waiting(t.relay, id) ensures Waiting(s.relay, id) && !R.Lists(keys, id) {
        MarkedOff(s.relay, keys, id);
      }
    }
  }

  lemma MarkedOff(db: R.Db, keys: seq<Key>, id: string)
    requires keys != [] && Waiting(R.MarkDispatched(db, keys[0].id, 0), id) && !R.Lists(keys[1..], id)
    ensures Waiting(db, id) && !R.Lists(keys, id)
  {
    assert id != keys[0].id;
    forall i | 0 <= i < |keys| ensures keys[i].id != id {
      if i > 0 { assert keys[1..][i - 1] == keys[i]; }
    }
  }

  /** All is saved: the queue is read, all of it is marked, and the reply lists it. */
  lemma Replies(s: State, k: nat, acked: seq<string>, max: nat)
    returns (more: seq<Action>, t: State, pending: seq<(string, Payload)>)
    requires Inv(s) && k in s.jobs && s.jobs[k] == Saving([], acked)
    ensures Leads(s, more, t, 0, max) && Inv(t) && AgentSame(s, t) && SyncResp(acked, pending) in t.toAgent
    ensures ListsQueue(s.relay, pending) && forall id :: !Waiting(t.relay, id)
  {
    var one, next := One(s, Advance(k, 0, false), max);
    pending := next.jobs[k].pending;
    more, t := Marks(next, k, max);
    Join(s, one, next, 0, more, t, 0, max);
    more := one + more;
    QueueRead(s, k, acked);
  }

  /** At the reading the list is the queue, and all of it is to be marked. */
  lemma QueueRead(s: State, k: nat, acked: seq<string>)
    requires k in s.jobs && s.jobs[k] == Saving([], acked)
    ensures var t := Advanced(s, k, 0, false);
            && k in t.jobs && t.jobs[k].Marking? && t.jobs[k].acked == acked && t.relay == s.relay
            && ListsQueue(s.relay, t.jobs[k].pending)
            && forall id | Waiting(s.relay, id) :: R.Lists(t.jobs[k].keys, id)
  {
    ReadsQueue(s.relay);
    var pending := SyncPending(s.relay);
    forall id | Waiting(s.relay, id) ensures R.Lists(Sorted(R.PendingKeys(s.relay, DEVICE)), id) {
      var i :| 0 <= i < |pending| && pending[i].0 == id;
    }
  }

  lemma AckStep(s: State, c: string, acked: seq<string>, pending: seq<(string, Payload)>, max: nat)
    requires SyncResp(acked, pending) in s.toAgent && c in acked && !s.agent.phase.Down?
    ensures Step(s, TakeSyncAck(c, acked, pending), max)
         == s.(agent := s.agent.(db := s.agent.db.(results := MarkSynced(s.agent.db.results, c))))
  {
  }

  /** The agent applies the first n acknowledgements of a reply. */
  lemma {:induction false} Acks(s: State, acked: seq<string>, pending: seq<(string, Payload)>, n: nat, max: nat)
    returns (more: seq<Action>, t: State)
    requires Inv(s) && SyncResp(acked, pending) in s.toAgent && n <= |acked| && !s.agent.phase.Down?
    ensures Leads(s, more, t, 0, max) && Inv(t)
    ensures t == s.(agent := s.agent.(db := s.agent.db.(results := MarkAllSynced(s.agent.db.results, acked[..n]))))
    decreases n
  {
    if n == 0 {
      more, t := [], s;
      Begin(s, max);
    } else {
      more, t := Acks(s, acked, pending, n - 1, max);
      var a := TakeSyncAck(acked[n - 1], acked, pending);
      Next(s, more, t, 0, a, max);
      StepInv(t, a, max);
      AckStep(t, acked[n - 1], acked, pending, max);
      more, t := more + [a], Step(t, a, max);
      assert acked[..n][..n - 1] == acked[..n - 1];
    }
  }

  lemma {:induction false} FreshKey(keys: set<nat>) returns (k: nat)
    ensures k !in keys && forall n | n in keys :: n < k
    decreases |keys|
  {
    k := 0;
    if keys != {} {
      var m :| m in keys;
      var above := FreshKey(keys - {m});
      k := if above <= m then m + 1 else above;
      forall n | n in keys ensures n < k { if n != m { assert n in keys - {m}; } }
    }
  }

  // ---- Storing what the reply lists ----

  /** Known commands keep their rows; the others are stored as listed. */
  ghost predicate StoredAll(before: Db, after: Db, list: seq<(string, Payload)>) {
    && after.results == before.results
    && (forall id | id in before.commands :: id in after.commands && after.commands[id] == before.commands[id])
    && (forall i | 0 <= i < |list| :: list[i].0 in after.commands)
    && (forall id | id in after.commands && id !in before.commands ::
          exists i | 0 <= i < |list| :: StoredAs(after, id, list[i]))
  }

  predicate StoredAs(db: Db, id: string, entry: (string, Payload)) {
    entry.0 == id && id in db.commands && db.commands[id].payload == entry.1
    && db.commands[id].status.Pending? && db.commands[id].attempts == 0
  }

  lemma StoredFirst(before: Db, mid: Db, after: Db, list: seq<(string, Payload)>)
    requires list != [] && mid == EnqueueWithId(before, list[0].0, list[0].1, 0) && StoredAll(mid, after, list[1..])
    ensures StoredAll(before, after, list)
  {
    forall i | 0 <= i < |list| ensures list[i].0 in after.commands {
      if i > 0 { assert list[1..][i - 1] == list[i]; }
    }
    forall id | id in after.commands && id !in before.commands
      ensures exists i | 0 <= i < |list| :: StoredAs(after, id, list[i])
    {
      if id in mid.commands {
        assert StoredAs(after, id, list[0]);
      } else {
        var i :| 0 <= i < |list| - 1 && StoredAs(after, id, list[1..][i]);
        assert list[1..][i] == list[i + 1];
      }
    }
  }

  /** What storing commands leaves alone. */
  ghost predicate RelaySame(s: State, t: State) {
    t.relay == s.relay && t.unsaved == s.unsaved && t.agent.phase == s.agent.phase
  }

  /** A handler enqueues its list and calls Wake. */
  lemma {:induction false} Inserts(s: State, h: nat, max: nat) returns (more: seq<Action>, t: State)
    requires Inv(s) && h in s.agent.handlers
    ensures Leads(s, more, t, 0, max) && Inv(t) && RelaySame(s, t) && t.agent.token
    ensures StoredAll(s.agent.db, t.agent.db, s.agent.handlers[h].todo)
    decreases |s.agent.handlers[h].todo|
  {
    var todo := s.agent.handlers[h].todo;
    var a := Internal(if todo == [] then A.Signal(h) else A.Insert(h, 0, false));
    more, t := One(s, a, max);
    if todo != [] {
      var one, next := more, t;
      more, t := Inserts(next, h, max);
      Join(s, one, next, 0, more, t, 0, max);
      more := one + more;
      StoredFirst(s.agent.db, next.agent.db, t.agent.db, todo);
    }
  }

  /** The agent takes the list of a reply. */
  lemma Stores(s: State, acked: seq<string>, pending: seq<(string, Payload)>, max: nat)
    returns (more: seq<Action>, t: State)
    requires Inv(s) && SyncResp(acked, pending) in s.toAgent && !s.agent.phase.Down?
    ensures Leads(s, more, t, 0, max) && Inv(t) && RelaySame(s, t)
    ensures StoredAll(s.agent.db, t.agent.db, pending) && (pending != [] ==> t.agent.token)
  {
    more, t := [], s;
    Begin(s, max);
    if pending != [] {
      var h := FreshKey(s.agent.handlers.Keys);
      var one, next := One(s, TakeSyncResp(h, acked, pending), max);
      more, t := Inserts(next, h, max);
      Join(s, one, next, 0, more, t, 0, max);
      more := one + more;
    }
  }

  // ---- One round ----

  /** The saved results are the same, except that more of them are synced. */
  ghost predicate MoreSynced(a: seq<Result>, b: seq<Result>) {
    && |b| == |a|
    && forall i | 0 <= i < |a| :: b[i] == a[i].(synced := b[i].synced) && (a[i].synced ==> b[i].synced)
  }

  predicate InBatch(results: seq<Result>, picks: seq<nat>, c: string)
    requires forall p | 0 <= p < |picks| :: picks[p] < |results|
  {
    exists p | 0 <= p < |picks| :: results[picks[p]].commandId == c
  }

  /** Exactly the results of the commands in the batch become synced. */
  ghost predicate MarkedBy(a: seq<Result>, b: seq<Result>, picks: seq<nat>)
    requires |b| == |a| && forall p | 0 <= p < |picks| :: picks[p] < |a|
  {
    forall i | 0 <= i < |a| :: b[i].synced <==> a[i].synced || InBatch(a, picks, a[i].commandId)
  }

  /** The results of the batch have rows of their own, under their own ids. */
  ghost predicate HaveRows(results: seq<Result>, picks: seq<nat>, db: R.Db)
    requires forall p | 0 <= p < |picks| :: picks[p] < |results|
  {
    forall p | 0 <= p < |picks| :: results[picks[p]].resultId in db.results
  }

  /** A command that waited at the relay has got an outcome, or is at the agent as the relay's row says. */
  ghost predicate Arrived(before: R.Db, known: map<string, Command>, after: R.Db,
                          stored: map<string, Command>, id: string)
    requires id in before.commands
  {
    && id in after.commands
    && (|| after.commands[id].status.Rank() == 2
        || (id in stored && (id !in known ==> Faithful(before, id, stored[id].payload))))
  }

  ghost predicate NoneWaiting(db: R.Db) {
    forall id :: !Waiting(db, id)
  }

  /** The whole queue has been handed over. */
  ghost predicate HandedOver(s: State, t: State) {
    && NoneWaiting(t.relay)
    && forall id | Waiting(s.relay, id) :: Arrived(s.relay, s.agent.db.commands, t.relay, t.agent.db.commands, id)
  }

  /** The agent's commands are still there, with the same payloads. */
  predicate RowsKept(a: map<string, Command>, b: map<string, Command>) {
    forall id | id in a :: id in b && b[id].payload == a[id].payload
  }

  /** The relay's side of a round: what the batch reports is saved and acknowledged, and the queue is listed. */
  lemma Answers(s: State, picks: seq<nat>, max: nat)
    returns (more: seq<Action>, t: State, acked: seq<string>, pending: seq<(string, Payload)>, read: R.Db)
    requires Inv(s) && UnsyncedBatch(s.agent.db.results, BATCH, picks)
    ensures Leads(s, more, t, 1, max) && Inv(t) && AgentSame(s, t) && SyncResp(acked, pending) in t.toAgent
    ensures Settles(s.relay, read) && RowsStay(s.relay, read) && ListsQueue(read, pending) && R.Grows(read, t.relay)
    ensures NoneWaiting(t.relay) && HaveRows(s.agent.db.results, picks, t.relay)
    ensures forall c :: c in acked <==> InBatch(s.agent.db.results, picks, c)
  {
    var k := FreshKey(s.jobs.Keys);
    var reports := ReportsOf(s.agent.db.results, picks, DEVICE);
    var s2;
    more, s2 := Requested(s, picks, k, max);
    var saves, s3, all := Saves(s2, k, reports, [], max);
    RelayRunGrows(s2, saves, max);
    GrowsStay(s2.relay, s3.relay);
    Join(s, more, s2, 1, saves, s3, 0, max);
    more := more + saves;
    var reply;
    acked, read := all, s3.relay;
    reply, t, pending := Replies(s3, k, acked, max);
    RelayRunGrows(s3, reply, max);
    Join(s, more, s3, 1, reply, t, 0, max);
    more := more + reply;
    Batch(s, picks, acked, read, t.relay);
  }

  lemma Batch(s: State, picks: seq<nat>, acked: seq<string>, saved: R.Db, after: R.Db)
    requires Inv(s) && UnsyncedBatch(s.agent.db.results, BATCH, picks) && R.Grows(saved, after)
    requires var reports := ReportsOf(s.agent.db.results, picks, DEVICE);
             AckedAll(reports, [], acked) && RowsFor(reports, saved)
    ensures forall c :: c in acked <==> InBatch(s.agent.db.results, picks, c)
    ensures HaveRows(s.agent.db.results, picks, after)
  {
    var results, reports := s.agent.db.results, ReportsOf(s.agent.db.results, picks, DEVICE);
    forall c ensures c in acked <==> InBatch(results, picks, c) {
      assert c in acked <==> Names(reports, c);
      if Names(reports, c) {
        var i :| 0 <= i < |reports| && reports[i].commandId == c;
        assert results[picks[i]].commandId == c;
      }
      if InBatch(results, picks, c) {
        var i :| 0 <= i < |picks| && results[picks[i]].commandId == c;
        assert reports[i].commandId == c;
      }
    }
    forall p | 0 <= p < |picks| ensures results[picks[p]].resultId in after.results {
      assert reports[p].resultId == results[picks[p]].resultId;
    }
  }

  /** A SYNC_REQ with the batch is sent and taken. */
  lemma Requested(s: State, picks: seq<nat>, k: nat, max: nat) returns (more: seq<Action>, t: State)
    requires Inv(s) && UnsyncedBatch(s.agent.db.results, BATCH, picks) && k !in s.jobs
    ensures Leads(s, more, t, 1, max) && Inv(t) && AgentSame(s, t) && t.relay == s.relay
    ensures k in t.jobs && t.jobs[k] == Saving(ReportsOf(s.agent.db.results, picks, DEVICE), [])
  {
    var ask, asked := One(s, Reconnect(picks), max);
    var take;
    take, t := One(asked, OnSyncReq(k, ReportsOf(s.agent.db.results, picks, DEVICE)), max);
    Join(s, ask, asked, 1, take, t, 0, max);
    more := ask + take;
  }

  /** Both sides of a round: request, reply, acknowledgements, and the commands it lists. */
  lemma RoundSteps(s: State, picks: seq<nat>, max: nat)
    returns (more: seq<Action>, t: State, acked: seq<string>, pending: seq<(string, Payload)>, read: R.Db)
    requires Inv(s) && !s.agent.phase.Down? && UnsyncedBatch(s.agent.db.results, BATCH, picks)
    ensures Leads(s, more, t, 1, max) && Inv(t) && !t.agent.phase.Down? && t.unsaved == s.unsaved
    ensures Settles(s.relay, read) && RowsStay(s.relay, read) && ListsQueue(read, pending) && R.Grows(read, t.relay)
    ensures NoneWaiting(t.relay) && HaveRows(s.agent.db.results, picks, t.relay)
    ensures forall c :: c in acked <==> InBatch(s.agent.db.results, picks, c)
    ensures t.agent.db.results == MarkAllSynced(s.agent.db.results, acked)
    ensures StoredAll(Db(s.agent.db.commands, t.agent.db.results), t.agent.db, pending)
    ensures pending != [] ==> t.agent.token
  {
    var asked, m;
    asked, m, acked, pending, read := Answers(s, picks, max);
    var acks, u := Acks(m, acked, pending, |acked|, max);
    Join(s, asked, m, 1, acks, u, 0, max);
    var stores;
    stores, t := Stores(u, acked, pending, max);
    Join(s, asked + acks, u, 1, stores, t, 0, max);
    more := asked + acks + stores;
    assert acked[..|acked|] == acked;
    assert u.agent.db == Db(s.agent.db.commands, t.agent.db.results);
  }

  /** What a round leaves behind. */
  ghost predicate Rounded(s: State, m: State, picks: seq<nat>) {
    && UnsyncedBatch(s.agent.db.results, BATCH, picks) && HaveRows(s.agent.db.results, picks, m.relay)
    && MoreSynced(s.agent.db.results, m.agent.db.results)
    && MarkedBy(s.agent.db.results, m.agent.db.results, picks)
    && RowsKept(s.agent.db.commands, m.agent.db.commands) && HandedOver(s, m) && m.unsaved == s.unsaved
  }

  /**
   One undisturbed reconnection, whatever else is under way: a full batch, or all that is left, is
   cleared, each of its results with a row of its own at the relay; exactly the results of the
   commands in the batch become synced; the relay's whole queue is handed over, and the worker woken.
   */
  lemma Round(s: State, max: nat) returns (more: seq<Action>, t: State, picks: seq<nat>)
    requires Inv(s) && !s.agent.phase.Down?
    ensures Leads(s, more, t, 1, max) && Inv(t) && !t.agent.phase.Down? && Rounded(s, t, picks)
    ensures Unsynced(t.agent.db.results) + Min(BATCH, Unsynced(s.agent.db.results)) <= Unsynced(s.agent.db.results)
    ensures t.agent.db.commands != s.agent.db.commands ==> t.agent.token
  {
    picks := BatchExists(s.agent.db.results, BATCH);
    var acked, pending, read;
    more, t, acked, pending, read := RoundSteps(s, picks, max);
    Cleared(s.agent.db.results, picks, acked, t.agent.db.results);
    Handed(s, read, pending, t);
  }

  /** The agent's results after a round. */
  lemma Cleared(a: seq<Result>, picks: seq<nat>, acked: seq<string>, b: seq<Result>)
    requires UnsyncedBatch(a, BATCH, picks) && b == MarkAllSynced(a, acked)
    requires forall c :: c in acked <==> InBatch(a, picks, c)
    ensures MoreSynced(a, b) && MarkedBy(a, b, picks)
    ensures Unsynced(b) + Min(BATCH, Unsynced(a)) <= Unsynced(a)
  {
    forall p | 0 <= p < |picks| ensures a[picks[p]].commandId in acked {
      assert InBatch(a, picks, a[picks[p]].commandId);
    }
    BatchCleared(a, picks, acked);
    MarkAllLength(a, acked);
    forall i | 0 <= i < |a| ensures b[i] == a[i].(synced := a[i].synced || a[i].commandId in acked) {
      MarkAllAt(a, acked, i);
    }
  }

  /** The queue after a round. */
  lemma Handed(s: State, read: R.Db, pending: seq<(string, Payload)>, t: State)
    requires Settles(s.relay, read) && RowsStay(s.relay, read) && ListsQueue(read, pending) && R.Grows(read, t.relay)
    requires StoredAll(Db(s.agent.db.commands, t.agent.db.results), t.agent.db, pending)
    requires NoneWaiting(t.relay)
    ensures RowsKept(s.agent.db.commands, t.agent.db.commands) && HandedOver(s, t)
    ensures pending == [] ==> t.agent.db.commands == s.agent.db.commands
  {
    forall id | Waiting(s.relay, id)
      ensures Arrived(s.relay, s.agent.db.commands, t.relay, t.agent.db.commands, id)
    {
      HandedOne(s.relay, read, pending, t.relay, s.agent.db.commands, t.agent.db, id);
    }
  }

  lemma HandedOne(before: R.Db, read: R.Db, pending: seq<(string, Payload)>, after: R.Db, known: map<string, Command>,
                  stored: Db, id: string)
    requires Settles(before, read) && RowsStay(before, read) && ListsQueue(read, pending) && R.Grows(read, after)
    requires StoredAll(Db(known, stored.results), stored, pending) && Waiting(before, id)
    ensures Arrived(before, known, after, stored.commands, id)
  {
    if read.commands[id].status.Rank() != 2 {
      assert Waiting(read, id);
      var i :| 0 <= i < |pending| && pending[i].0 == id;
      if id !in known {
        var j :| 0 <= j < |pending| && StoredAs(stored, id, pending[j]);
        assert Faithful(read, id, stored.commands[id].payload);
      }
    }
  }

  // ---- As many rounds as there are batches ----

  /** For everything unsynced, some unsynced result of its command has a row of its own. */
  ghost predicate Covered(results: seq<Result>, db: R.Db) {
    forall i | 0 <= i < |results| && !results[i].synced :: HasPeer(results, i, db)
  }

  ghost predicate HasPeer(results: seq<Result>, i: nat, db: R.Db)
    requires i < |results|
  {
    exists j | 0 <= j < |results| ::
      !results[j].synced && results[j].commandId == results[i].commandId && results[j].resultId in db.results
  }

  /** Both sides are up to date with what there was at s. */
  ghost predicate UpToDate(s: State, t: State) {
    && t.unsaved == s.unsaved
    && MoreSynced(s.agent.db.results, t.agent.db.results) && Unsynced(t.agent.db.results) == 0
    && Covered(s.agent.db.results, t.relay)
    && (Unsynced(s.agent.db.results) <= BATCH ==> AllHaveRows(s.agent.db.results, t.relay))
    && RowsKept(s.agent.db.commands, t.agent.db.commands) && HandedOver(s, t)
  }

  /** Every unsynced result has a row of its own. */
  ghost predicate AllHaveRows(results: seq<Result>, db: R.Db) {
    forall i | 0 <= i < |results| && !results[i].synced :: results[i].resultId in db.results
  }

  function AtLeastOne(n: nat): nat {
    if n == 0 then 1 else n
  }

  /** With u results unsynced at first and v after a round, n rounds more stay within the bound. */
  lemma WithinBound(u: nat, v: nat, n: nat)
    requires v + Min(BATCH, u) <= u && n * BATCH < v + BATCH
    ensures (1 + n) * BATCH < AtLeastOne(u) + BATCH
  {
  }

  /** Round after round until nothing is unsynced. */
  lemma {:induction false} Rounds(s: State, max: nat) returns (more: seq<Action>, t: State, n: nat)
    requires Inv(s) && !s.agent.phase.Down?
    ensures Leads(s, more, t, n, max) && UpToDate(s, t)
    ensures n * BATCH < AtLeastOne(Unsynced(s.agent.db.results)) + BATCH
    decreases Unsynced(s.agent.db.results), 1
  {
    var first, m, picks := Round(s, max);
    var rest, n';
    rest, t, n' := RoundsAfter(s, m, picks, max);
    Join(s, first, m, 1, rest, t, n', max);
    more, n := first + rest, 1 + n';
    WithinBound(Unsynced(s.agent.db.results), Unsynced(m.agent.db.results), n');
  }

  lemma {:induction false} RoundsAfter(s: State, m: State, picks: seq<nat>, max: nat)
    returns (rest: seq<Action>, t: State, n: nat)
    requires Inv(m) && !m.agent.phase.Down? && Rounded(s, m, picks)
    requires Unsynced(m.agent.db.results) < AtLeastOne(Unsynced(s.agent.db.results))
    ensures Leads(m, rest, t, n, max) && UpToDate(s, t)
    ensures n * BATCH < Unsynced(m.agent.db.results) + BATCH
    decreases Unsynced(s.agent.db.results), 0
  {
    rest, t, n := [], m, 0;
    if Unsynced(m.agent.db.results) == 0 {
      Begin(m, max);
      NothingUnsynced(m.agent.db.results);
    } else {
      rest, t, n := Rounds(m, max);
    }
    RelayRunGrows(m, rest, max);
    Conclude(s, m, picks, t);
  }

  /** What one round and those after it amount to. */
  lemma Conclude(s: State, m: State, picks: seq<nat>, t: State)
    requires Rounded(s, m, picks)
    requires MoreSynced(m.agent.db.results, t.agent.db.results) && Unsynced(t.agent.db.results) == 0
    requires R.Grows(m.relay, t.relay) && Covered(m.agent.db.results, t.relay) && t.unsaved == m.unsaved
    requires RowsKept(m.agent.db.commands, t.agent.db.commands) && NoneWaiting(t.relay)
    ensures UpToDate(s, t)
  {
    var results := s.agent.db.results;
    CoveredMore(results, m.agent.db.results, picks, m.relay, t.relay);
    MoreSyncedTransitive(results, m.agent.db.results, t.agent.db.results);
    HandedOverMore(s, m, t);
    if Unsynced(results) <= BATCH { OneBatch(results, picks, m.relay, t.relay); }
  }

  lemma MoreSyncedTransitive(a: seq<Result>, b: seq<Result>, c: seq<Result>)
    requires MoreSynced(a, b) && MoreSynced(b, c)
    ensures MoreSynced(a, c)
  {
  }

  lemma NothingUnsynced(results: seq<Result>)
    requires Unsynced(results) == 0
    ensures forall i | 0 <= i < |results| :: results[i].synced
  {
    forall i | 0 <= i < |results| ensures results[i].synced { AllSynced(results, i); }
  }

  lemma {:induction false} AllSynced(results: seq<Result>, i: nat)
    requires Unsynced(results) == 0 && i < |results|
    ensures results[i].synced
  {
    var n := |results| - 1;
    if i < n { AllSynced(results[..n], i); }
  }

  lemma CoveredMore(a: seq<Result>, b: seq<Result>, picks: seq<nat>, mid: R.Db, after: R.Db)
    requires MoreSynced(a, b) && R.Grows(mid, after) && Covered(b, after)
    requires UnsyncedBatch(a, BATCH, picks) && MarkedBy(a, b, picks) && HaveRows(a, picks, mid)
    ensures Covered(a, after)
  {
    forall i | 0 <= i < |a| && !a[i].synced ensures HasPeer(a, i, after) {
      if b[i].synced {
        var p :| 0 <= p < |picks| && a[picks[p]].commandId == a[i].commandId;
        assert a[picks[p]].resultId in after.results && !a[picks[p]].synced;
      } else {
        assert HasPeer(b, i, after);
        var j :| 0 <= j < |b| && !b[j].synced && b[j].commandId == b[i].commandId && b[j].resultId in after.results;
        assert !a[j].synced && a[j].commandId == a[i].commandId && a[j].resultId in after.results;
      }
    }
  }

  /** The first round hands the queue over and the others keep it that way. */
  lemma HandedOverMore(s: State, m: State, t: State)
    requires HandedOver(s, m) && R.Grows(m.relay, t.relay) && NoneWaiting(t.relay)
    requires RowsKept(s.agent.db.commands, m.agent.db.commands) && RowsKept(m.agent.db.commands, t.agent.db.commands)
    ensures HandedOver(s, t)
  {
    forall id | Waiting(s.relay, id)
      ensures Arrived(s.relay, s.agent.db.commands, t.relay, t.agent.db.commands, id)
    {
      assert Arrived(s.relay, s.agent.db.commands, m.relay, m.agent.db.commands, id);
    }
  }

  /** When it all fits into one batch, every result gets its row. */
  lemma OneBatch(results: seq<Result>, picks: seq<nat>, mid: R.Db, after: R.Db)
    requires UnsyncedBatch(results, BATCH, picks) && Unsynced(results) <= BATCH
    requires HaveRows(results, picks, mid) && R.Grows(mid, after)
    ensures forall i | 0 <= i < |results| && !results[i].synced :: results[i].resultId in after.results
  {
    UnsyncedIsCount(results);
    DistinctCount(picks, UnsyncedAt(results));
    forall i | 0 <= i < |results| && !results[i].synced ensures results[i].resultId in after.results {
      assert i in UnsyncedAt(results);
      var p :| 0 <= p < |picks| && picks[p] == i;
    }
  }

  /** The agent is up, if need be after a restart; nothing else has changed. */
  lemma Started(s: State, max: nat) returns (first: seq<Action>, up: State)
    requires Inv(s)
    ensures Leads(s, first, up, 0, max) && Inv(up) && !up.agent.phase.Down?
    ensures Restarted(s, up)
  {
    first, up := One(s, Internal(A.Restart(false)), max);
  }

  /**
   From every reachable state, if need be after a restart: one reconnection per 50 unsynced results,
   and at least one, with nothing lost, brings both sides up to date. Every saved result is synced;
   each command with results that were not has one with a row of its own at the relay, and if they
   fit into one batch they all have; the relay holds a result of every command that has one, unless
   it acknowledged a CMD_RESULT it failed to store. No command waits at the relay: each that did has
   an outcome or is at the agent, with the text and time limit of the relay's row unless known before.
   */
  lemma SyncCompletes(db: Db, actions: seq<Action>, max: nat, s: State) returns (more: seq<Action>, t: State, n: nat)
    requires A.Untouched(db) && s == Run(Start(db), actions, max)
    ensures Leads(s, more, t, n, max) && n * BATCH < AtLeastOne(Unsynced(s.agent.db.results)) + BATCH
    ensures UpToDate(s, t)
    ensures forall i | 0 <= i < |t.agent.db.results| ::
              R.HasResultFor(t.relay, t.agent.db.results[i].commandId) || t.agent.db.results[i].commandId in s.unsaved
  {
    RunInv(Start(db), actions, max);
    more, t, n := FromStart(s, max);
    RunInv(s, more, max);
    AllAccounted(t);
  }

  lemma FromStart(s: State, max: nat) returns (more: seq<Action>, t: State, n: nat)
    requires Inv(s)
    ensures Leads(s, more, t, n, max) && UpToDate(s, t)
    ensures n * BATCH < AtLeastOne(Unsynced(s.agent.db.results)) + BATCH
  {
    var first, up := Started(s, max);
    more, t, n := RoundsSince(s, up, max);
    Join(s, first, up, 0, more, t, n, max);
    more := first + more;
  }

  /** A restart changes no result, no payload and nothing at the relay. */
  ghost predicate Restarted(s: State, up: State) {
    && up.relay == s.relay && up.unsaved == s.unsaved && up.agent.db.results == s.agent.db.results
    && RowsKept(s.agent.db.commands, up.agent.db.commands) && up.agent.db.commands.Keys == s.agent.db.commands.Keys
  }

  lemma RoundsSince(s: State, up: State, max: nat) returns (more: seq<Action>, t: State, n: nat)
    requires Inv(up) && !up.agent.phase.Down? && Restarted(s, up)
    ensures Leads(up, more, t, n, max) && UpToDate(s, t)
    ensures n * BATCH < AtLeastOne(Unsynced(s.agent.db.results)) + BATCH
  {
    more, t, n := Rounds(up, max);
    SinceStart(s, up, t);
  }

  lemma AllAccounted(t: State)
    requires Inv(t) && Unsynced(t.agent.db.results) == 0
    ensures forall i | 0 <= i < |t.agent.db.results| :: Accounted(t, t.agent.db.results[i].commandId)
  {
    NothingUnsynced(t.agent.db.results);
  }

  lemma SinceStart(s: State, up: State, t: State)
    requires Restarted(s, up) && UpToDate(up, t)
    ensures UpToDate(s, t)
  {
    forall id | Waiting(s.relay, id)
      ensures Arrived(s.relay, s.agent.db.commands, t.relay, t.agent.db.commands, id)
    {
      assert Arrived(up.relay, up.agent.db.commands, t.relay, t.agent.db.commands, id);
    }
  }
}
