/** The open database: each method carries out one effect of AgentDb in place. */
module AgentStore {
  import opened Ordering
  import opened AgentDb

  class Store {
    var commands: map<string, Command>
    var results: seq<Result>

    function Value(): Db
      reads this
    {
      Db(commands, results)
    }

    constructor (db: Db)
      ensures Value() == db
    {
      commands, results := db.commands, db.results;
    }

    method EnqueueWithID(id: string, p: Payload, now: int)
      modifies this
      ensures Value() == EnqueueWithId(old(Value()), id, p, now)
    {
      if id !in commands {
        commands := commands[id := Command(p, Pending, now, 0)];
      }
    }

    /** The claim transaction: select the oldest eligible row, then mark it EXECUTING. */
    method ClaimNext(maxAttempts: nat) returns (id: Option<string>)
      modifies this
      ensures (Value(), id) == AgentDb.ClaimNext(old(Value()), maxAttempts)
    {
      var keys := ClaimableKeys(Value(), maxAttempts);
      if keys == {} {
        return None;
      }
      var k := FindLeast(keys);
      LeastUnique(k, Least(keys), keys);
      ClaimableKeyIff(Value(), maxAttempts, k);
      var c := commands[k.id];
      commands := commands[k.id := c.(status := Executing, attempts := c.attempts + 1)];
      id := Some(k.id);
    }

    method Complete(id: string, status: Status)
      modifies this
      ensures Value() == SetStatus(old(Value()), id, status)
    {
      if id in commands {
        commands := commands[id := commands[id].(status := status)];
      }
    }

    method Requeue(id: string)
      modifies this
      ensures Value() == SetStatus(old(Value()), id, Pending)
    {
      if id in commands {
        commands := commands[id := commands[id].(status := Pending)];
      }
    }

    method SaveResult(r: Result, uuid: string, now: int) returns (ok: bool)
      modifies this
      ensures (Value(), ok) == AgentDb.SaveResult(old(Value()), r, uuid, now)
    {
      var row := Stored(r, uuid, now);
      ok := row.commandId in commands;
      for i := 0 to |results|
        invariant unchanged(this)
        invariant ok <==> row.commandId in commands
                          && forall n | 0 <= n < i :: results[n].resultId != row.resultId
      {
        if results[i].resultId == row.resultId {
          ok := false;
        }
      }
      if ok {
        results := results + [row];
      }
    }

    method RecoverStale(maxAttempts: nat) returns (n: nat)
      modifies this
      ensures Value() == AgentDb.RecoverStale(old(Value()), maxAttempts)
      ensures n == |set id | id in old(commands) && old(commands)[id].status.Executing?|
    {
      var stale := set id | id in commands && commands[id].status.Executing?;
      n := |stale|;
      var rest := stale;
      while rest != {}
        invariant rest <= stale && commands.Keys == old(commands).Keys && results == old(results)
        invariant forall id | id in commands ::
          commands[id] == if id in rest then old(commands)[id] else RecoveredRow(old(commands)[id], maxAttempts)
        decreases |rest|
      {
        var id :| id in rest;
        commands := commands[id := RecoveredRow(commands[id], maxAttempts)];
        rest := rest - {id};
      }
      assert commands == AgentDb.RecoverStale(old(Value()), maxAttempts).commands;
    }

    /** Every row of the command is updated, whatever result the acknowledgement was for. */
    method MarkResultSynced(commandId: string)
      modifies this
      ensures Value() == old(Value()).(results := MarkSynced(old(results), commandId))
    {
      for i := 0 to |results|
        invariant |results| == |old(results)| && commands == old(commands)
        invariant forall n | 0 <= n < i :: results[n] == MarkSynced(old(results), commandId)[n]
        invariant forall n | i <= n < |results| :: results[n] == old(results)[n]
      {
        if results[i].commandId == commandId {
          results := results[i := results[i].(synced := true)];
        }
      }
      assert results == MarkSynced(old(results), commandId);
    }

    /** The oldest unsynced rows, up to the limit (100 when the caller gives none). */
    method ListUnsyncedResults(limit: int) returns (picks: seq<nat>, rows: seq<Result>)
      ensures UnsyncedBatch(results, if limit <= 0 then 100 else limit, picks)
      ensures |rows| == |picks| && forall i | 0 <= i < |picks| :: rows[i] == results[picks[i]]
    {
      var cap := if limit <= 0 then 100 else limit;
      var rest := UnsyncedAt(results);
      picks, rows := [], [];
      while rest != {} && |picks| < cap
        invariant |picks| <= cap && OldestFirst(results, picks)
        invariant forall n :: n in rest <==> n in UnsyncedAt(results) && n !in picks
        invariant |rows| == |picks| && forall i | 0 <= i < |picks| :: rows[i] == results[picks[i]]
        decreases |rest|
      {
        var k := OldestAt(rest);
        OldestFirstExtend(results, picks, k);
        picks, rows, rest := picks + [k], rows + [results[k]], rest - {k};
      }
      UnsyncedIsCount(results);
      DistinctCount(picks, UnsyncedAt(results));
    }

    method OldestAt(s: set<nat>) returns (k: nat)
      requires s != {} && forall n | n in s :: n < |results|
      ensures k in s && forall n | n in s :: results[k].executedAt <= results[n].executedAt
    {
      k :| k in s;
      var rest := s - {k};
      while rest != {}
        invariant rest <= s && k in s
        invariant forall n | n in s && n !in rest :: results[k].executedAt <= results[n].executedAt
        decreases |rest|
      {
        var n :| n in rest;
        if results[n].executedAt < results[k].executedAt {
          k := n;
        }
        rest := rest - {n};
      }
    }
  }
}
