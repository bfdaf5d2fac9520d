/**
 The agent's side of the link: storing dispatched commands, sending unsynced results on
 reconnection and applying acknowledgements.
 */
module NetClient {
  import opened Ordering
  import opened AgentDb
  import AgentStore
  import AgentWorker
  import RelayDb
  import RelayStore

  /** performSync sends at most this many results. */
  const BATCH: nat := 50

  function ReportOf(r: Result, deviceId: string): RelayDb.Report {
    RelayDb.Report(r.resultId, r.commandId, deviceId, r.stdout, r.stderr, r.exitCode, r.executedAt, false)
  }

  function ReportsOf(results: seq<Result>, picks: seq<nat>, deviceId: string): seq<RelayDb.Report>
    requires forall i | 0 <= i < |picks| :: picks[i] < |results|
  {
    seq(|picks|, i requires 0 <= i < |picks| => ReportOf(results[picks[i]], deviceId))
  }

  function MarkAllSynced(results: seq<Result>, commandIds: seq<string>): seq<Result> {
    if commandIds == [] then results
    else MarkSynced(MarkAllSynced(results, commandIds[..|commandIds| - 1]), commandIds[|commandIds| - 1])
  }

  /** Storing the listed commands one by one; `clock` gives each call's time. */
  function EnqueueAll(db: Db, commands: seq<(string, Payload)>, clock: nat -> int): Db {
    if commands == [] then db else
      var n := |commands| - 1;
      EnqueueWithId(EnqueueAll(db, commands[..n], clock), commands[n].0, commands[n].1, clock(n))
  }

  /** The row of a listed command: the old one if there was one, else the first mention with its time. */
  lemma {:induction false} EnqueueAllRow(db: Db, commands: seq<(string, Payload)>, clock: nat -> int, id: string)
    ensures var after := EnqueueAll(db, commands, clock);
            && after.results == db.results
            && (id in after.commands <==> id in db.commands || exists i | 0 <= i < |commands| :: commands[i].0 == id)
            && (id in db.commands ==> after.commands[id] == db.commands[id])
            && (id in after.commands && id !in db.commands ==>
                  exists i | 0 <= i < |commands| ::
                    && commands[i].0 == id && after.commands[id] == Command(commands[i].1, Pending, clock(i), 0)
                    && forall j | 0 <= j < i :: commands[j].0 != id)
  {
    if commands != [] {
      var n := |commands| - 1;
      EnqueueAllRow(db, commands[..n], clock, id);
      assert forall i | 0 <= i < n :: commands[..n][i] == commands[i];
    }
  }

  /** Acknowledging touches only Synced, which only ever goes from 0 to 1. */
  lemma {:induction false} MarkAllAt(results: seq<Result>, ids: seq<string>, i: nat)
    requires i < |results|
    ensures |MarkAllSynced(results, ids)| == |results|
    ensures MarkAllSynced(results, ids)[i] == results[i].(synced := results[i].synced || results[i].commandId in ids)
  {
    if ids != [] {
      var n := |ids| - 1;
      MarkAllAt(results, ids[..n], i);
      assert ids == ids[..n] + [ids[n]];
    }
  }

  class Client {
    const store: AgentStore.Store
    const worker: AgentWorker.Worker
    const deviceId: string

    constructor (store: AgentStore.Store, worker: AgentWorker.Worker, deviceId: string)
      ensures this.store == store && this.worker == worker && this.deviceId == deviceId
    {
      this.store, this.worker, this.deviceId := store, worker, deviceId;
    }

    /** DISPATCH_CMD: a command already known is ignored; the worker is woken either way. */
    method HandleDispatch(id: string, p: Payload, now: int)
      modifies store, worker
      ensures store.Value() == EnqueueWithId(old(store.Value()), id, p, now)
      ensures worker.wake
    {
      store.EnqueueWithID(id, p, now);
      worker.Wake();
    }

    method HandleResultAck(commandId: string, success: bool)
      modifies store
      ensures store.commands == old(store.commands)
      ensures store.results == if success then MarkSynced(old(store.results), commandId) else old(store.results)
    {
      if success {
        store.MarkResultSynced(commandId);
      }
    }

    method HandleSyncResp(acked: seq<string>, pending: seq<(string, Payload)>, clock: nat -> int)
      modifies store, worker
      ensures store.results == MarkAllSynced(old(store.results), acked)
      ensures store.commands == EnqueueAll(old(store.Value()), pending, clock).commands
      ensures worker.wake == (old(worker.wake) || pending != [])
    {
      ghost var start := store.Value();
      for i := 0 to |acked|
        invariant store.commands == start.commands && store.results == MarkAllSynced(start.results, acked[..i])
        invariant worker.wake == old(worker.wake)
      {
        assert acked[..i + 1][..i] == acked[..i];
        store.MarkResultSynced(acked[i]);
      }
      assert acked[..|acked|] == acked;
      for i := 0 to |pending|
        invariant store.results == MarkAllSynced(start.results, acked)
        invariant store.commands == EnqueueAll(start, pending[..i], clock).commands
        invariant worker.wake == old(worker.wake)
      {
        assert pending[..i + 1][..i] == pending[..i];
        store.EnqueueWithID(pending[i].0, pending[i].1, clock(i));
      }
      assert pending[..|pending|] == pending;
      if |pending| > 0 {
        worker.Wake();
      }
    }

    /** On reconnection: the oldest unsynced results, at most 50. */
    method PerformSync() returns (picks: seq<nat>, reports: seq<RelayDb.Report>)
      ensures UnsyncedBatch(store.results, BATCH, picks)
      ensures |picks| == if Unsynced(store.results) < 50 then Unsynced(store.results) else 50
      ensures reports == ReportsOf(store.results, picks, deviceId)
    {
      var rows;
      picks, rows := store.ListUnsyncedResults(50);
      reports := [];
      for i := 0 to |rows|
        invariant reports == seq(i, j requires 0 <= j < i => ReportOf(rows[j], deviceId))
      {
        reports := reports + [ReportOf(rows[i], deviceId)];
      }
    }
  }

  // ---- Progress of the synchronisation ----

  function Min(a: nat, b: nat): nat { if a < b then a else b }

  /** Acknowledging a batch clears at least the batch. */
  lemma BatchCleared(results: seq<Result>, picks: seq<nat>, ids: seq<string>)
    requires UnsyncedBatch(results, BATCH, picks)
    requires forall i | 0 <= i < |picks| :: results[picks[i]].commandId in ids
    ensures Unsynced(MarkAllSynced(results, ids)) + Min(BATCH, Unsynced(results)) <= Unsynced(results)
  {
    var marked := MarkAllSynced(results, ids);
    var before, after := UnsyncedAt(results), UnsyncedAt(marked);
    var batch := set i | 0 <= i < |picks| :: picks[i];
    MarkAllLength(results, ids);
    forall n | n in after ensures n in before && n !in batch {
      MarkAllAt(results, ids, n);
    }
    assert after <= before - batch;
    assert batch <= before;
    DistinctCount(picks, batch);
    UnsyncedIsCount(results);
    UnsyncedIsCount(marked);
    SubsetSize(after, before - batch);
  }

  lemma {:induction false} MarkAllLength(results: seq<Result>, ids: seq<string>)
    ensures |MarkAllSynced(results, ids)| == |results|
  {
    if ids != [] { MarkAllLength(results, ids[..|ids| - 1]); }
  }

  lemma SubsetSize<T>(a: set<T>, b: set<T>)
    requires a <= b
    ensures |a| <= |b|
  {
    assert b == a + (b - a);
  }

  /** The clock readings of one round, call by call. */
  datatype Clocks = Clocks(save: nat -> int, mark: nat -> int, enqueue: nat -> int)

  lemma AllKept(reports: seq<RelayDb.Report>, clock: nat -> int, i: nat)
    requires i < |reports|
    ensures reports[i].commandId in RelayDb.CommandIds(RelayDb.Kept(reports, {}, clock))
  {
    var kept := RelayDb.Kept(reports, {}, clock);
    RelayDb.KeptIff(reports, {}, clock, RelayDb.Stamped(reports[i], clock(i)));
    var k :| 0 <= k < |kept| && kept[k] == RelayDb.Stamped(reports[i], clock(i));
    assert RelayDb.CommandIds(kept)[k] == reports[i].commandId;
  }

  /** One reconnection on which no message is lost and no save fails: request, response and acknowledgement. */
  method SyncRound(client: Client, relay: RelayStore.Store, clocks: Clocks)
    modifies client.store, client.worker, relay
    ensures Unsynced(client.store.results) + Min(BATCH, Unsynced(old(client.store.results)))
      <= Unsynced(old(client.store.results))
    ensures |client.store.results| == |old(client.store.results)|
    ensures forall i | 0 <= i < |old(client.store.results)| && old(client.store.results)[i].synced ::
              client.store.results[i].synced
    // The relay's queue is handed over as its rows say; what the agent knew stays as it was.
    ensures forall id | RelayDb.PendingFor(old(relay.Value()), client.deviceId, id) ::
              HandedOver(old(relay.commands)[id], relay.commands, old(client.store.commands), client.store.commands, id)
    ensures forall id | id in old(client.store.commands) ::
              id in client.store.commands && client.store.commands[id] == old(client.store.commands)[id]
  {
    ghost var results, known := client.store.results, client.store.Value();
    ghost var before := relay.Value();
    var picks, reports := client.PerformSync();
    ghost var saves := RelayDb.Kept(reports, {}, clocks.save);
    ghost var saved := RelayDb.SaveAll(before, saves);
    var acked, pending := relay.HandleSyncReq(client.deviceId, reports, {}, clocks.save, clocks.mark);
    ListedKnown(saved, client.deviceId, clocks.mark);
    var commands := CommandsFor(relay, pending);
    client.HandleSyncResp(acked, commands, clocks.enqueue);
    forall i | 0 <= i < |picks| ensures results[picks[i]].commandId in acked {
      AllKept(reports, clocks.save, i);
    }
    BatchCleared(results, picks, acked);
    MarkAllLength(results, acked);
    forall i | 0 <= i < |results| && results[i].synced ensures client.store.results[i].synced {
      MarkAllAt(results, acked, i);
    }
    AllHanded(before, saves, client.deviceId, clocks, commands, known);
  }

  /** A command has an outcome at the relay, or is at the agent, as the row says unless known before. */
  predicate HandedOver(row: RelayDb.Command, after: map<string, RelayDb.Command>, known: map<string, Command>,
                       stored: map<string, Command>, id: string)
  {
    && id in after
    && (|| after[id].status.Rank() == 2
        || (id in stored && (id !in known ==> stored[id].payload == Json(row.command, row.timeoutSec))))
  }

  /** The list holds the rows of these keys, in that order, each with its text and time limit. */
  predicate Lists(db: RelayDb.Db, pending: seq<Key>, commands: seq<(string, Payload)>) {
    && |commands| == |pending|
    && forall i | 0 <= i < |pending| ::
         && pending[i].id in db.commands && commands[i].0 == pending[i].id
         && commands[i].1 == Json(db.commands[pending[i].id].command, db.commands[pending[i].id].timeoutSec)
  }

  /** The commands of a SYNC_RESP, in the order of the listing. */
  method CommandsFor(relay: RelayStore.Store, pending: seq<Key>) returns (commands: seq<(string, Payload)>)
    requires forall i | 0 <= i < |pending| :: pending[i].id in relay.commands
    ensures Lists(relay.Value(), pending, commands)
  {
    commands := [];
    for i := 0 to |pending|
      invariant Lists(relay.Value(), pending[..i], commands)
    {
      var c := relay.commands[pending[i].id];
      commands := commands + [(pending[i].id, Json(c.command, c.timeoutSec))];
    }
    assert pending[..|pending|] == pending;
  }

  /** What is listed is there, and being marked changes nothing else about it. */
  lemma ListedKnown(db: RelayDb.Db, d: string, clock: nat -> int)
    ensures var keys := Sorted(RelayDb.PendingKeys(db, d));
            var after := RelayDb.MarkAll(db, keys, clock);
            forall i | 0 <= i < |keys| :: keys[i].id in db.commands && keys[i].id in after.commands
    ensures forall id | id in db.commands ::
              var after := RelayDb.MarkAll(db, Sorted(RelayDb.PendingKeys(db, d)), clock);
              && id in after.commands && after.commands[id].command == db.commands[id].command
              && after.commands[id].timeoutSec == db.commands[id].timeoutSec
              && (db.commands[id].status.Rank() == 2 ==> after.commands[id].status == db.commands[id].status)
  {
    var keys := Sorted(RelayDb.PendingKeys(db, d));
    SortedLists(RelayDb.PendingKeys(db, d));
    forall id ensures id in db.commands ==>
                        var after := RelayDb.MarkAll(db, keys, clock);
                        && id in after.commands && after.commands[id].command == db.commands[id].command
                        && after.commands[id].timeoutSec == db.commands[id].timeoutSec
                        && (db.commands[id].status.Rank() == 2 ==> after.commands[id].status == db.commands[id].status)
    {
      RelayDb.MarkAllCommand(db, keys, clock, id);
    }
    forall i | 0 <= i < |keys| ensures keys[i].id in db.commands {
      assert keys[i] in RelayDb.PendingKeys(db, d);
    }
  }

  lemma Handed(before: RelayDb.Db, saves: seq<RelayDb.Stamped>, d: string, clocks: Clocks,
               commands: seq<(string, Payload)>,
               known: Db, id: string)
    requires RelayDb.PendingFor(before, d, id)
    requires var saved := RelayDb.SaveAll(before, saves);
             var pending := Sorted(RelayDb.PendingKeys(saved, d));
             var after := RelayDb.MarkAll(saved, pending, clocks.mark);
             Lists(after, pending, commands)
    ensures var saved := RelayDb.SaveAll(before, saves);
            var after := RelayDb.MarkAll(saved, Sorted(RelayDb.PendingKeys(saved, d)), clocks.mark);
            HandedOver(before.commands[id], after.commands, known.commands,
                       EnqueueAll(known, commands, clocks.enqueue).commands, id)
  {
    var saved := RelayDb.SaveAll(before, saves);
    var keys := RelayDb.PendingKeys(saved, d);
    RelayDb.SaveAllCommand(before, saves, id);
    ListedKnown(saved, d, clocks.mark);
    if saved.commands[id].status.Rank() != 2 {
      RelayDb.PendingKeyIff(saved, d, Key(saved.commands[id].createdAt, id));
      SortedLists(keys);
      var i :| 0 <= i < |Sorted(keys)| && Sorted(keys)[i] == Key(saved.commands[id].createdAt, id);
      assert commands[i].0 == id;
      EnqueueAllRow(known, commands, clocks.enqueue, id);
    }
  }

  lemma AllHanded(before: RelayDb.Db, saves: seq<RelayDb.Stamped>, d: string, clocks: Clocks,
                  commands: seq<(string, Payload)>, known: Db)
    requires var saved := RelayDb.SaveAll(before, saves);
             var pending := Sorted(RelayDb.PendingKeys(saved, d));
             Lists(RelayDb.MarkAll(saved, pending, clocks.mark), pending, commands)
    ensures var stored := EnqueueAll(known, commands, clocks.enqueue).commands;
            forall id | id in known.commands :: id in stored && stored[id] == known.commands[id]
    ensures var saved := RelayDb.SaveAll(before, saves);
            var after := RelayDb.MarkAll(saved, Sorted(RelayDb.PendingKeys(saved, d)), clocks.mark);
            forall id | RelayDb.PendingFor(before, d, id) ::
              HandedOver(before.commands[id], after.commands, known.commands,
                         EnqueueAll(known, commands, clocks.enqueue).commands, id)
  {
    var stored := EnqueueAll(known, commands, clocks.enqueue).commands;
    forall id | id in known.commands ensures id in stored && stored[id] == known.commands[id] {
      EnqueueAllRow(known, commands, clocks.enqueue, id);
    }
    var saved := RelayDb.SaveAll(before, saves);
    var after := RelayDb.MarkAll(saved, Sorted(RelayDb.PendingKeys(saved, d)), clocks.mark);
    forall id | RelayDb.PendingFor(before, d, id)
      ensures HandedOver(before.commands[id], after.commands, known.commands, stored, id)
    {
      Handed(before, saves, d, clocks, commands, known, id);
    }
  }

  /** With no new results, k lossless reconnections leave at most n - 50k results unsynced. */
  method SyncRounds(client: Client, relay: RelayStore.Store, k: nat, clocks: nat -> Clocks)
    modifies client.store, client.worker, relay
    ensures Unsynced(client.store.results) <= Unsynced(old(client.store.results))
         - Min(BATCH * k, Unsynced(old(client.store.results)))
    ensures BATCH * k >= Unsynced(old(client.store.results)) ==> Unsynced(client.store.results) == 0
  {
    ghost var n := Unsynced(client.store.results);
    for i := 0 to k
      invariant Unsynced(client.store.results) <= n - Min(BATCH * i, n)
    {
      SyncRound(client, relay, clocks(i));
    }
  }
}
