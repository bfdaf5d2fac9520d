/**
 The agent's durable queue (tables CommandQueue and ResultQueue).

 `Db` is the content of the database file. The functions on `Db` are the effect of each store
 call, which SQLite runs as one atomic step.
 */
module AgentDb {
  import opened Ordering

  datatype Status = Pending | Executing | Completed | Failed {
    predicate Terminal() { Completed? || Failed? }
  }

  /** The JSON text of a payload either decodes or it does not. */
  datatype Payload = Json(command: string, timeoutSec: int) | Malformed(raw: string)

  datatype Command = Command(payload: Payload, status: Status, createdAt: int, attempts: nat)

  datatype Result = Result(resultId: string, commandId: string, stdout: string, stderr: string,
                           exitCode: int, executedAt: int, synced: bool)

  /** CommandId is the primary key of the command table; results keep insertion order. */
  datatype Db = Db(commands: map<string, Command>, results: seq<Result>)

  // ---- Queries ----

  /** Rows selected by `Status = PENDING AND Attempts < maxAttempts`. */
  predicate Claimable(db: Db, maxAttempts: nat, id: string) {
    id in db.commands && db.commands[id].status.Pending? && db.commands[id].attempts < maxAttempts
  }

  function KeyOf(db: Db, id: string): Key
    requires id in db.commands
  {
    Key(db.commands[id].createdAt, id)
  }

  function ClaimableKeys(db: Db, maxAttempts: nat): set<Key> {
    set id | id in db.commands && Claimable(db, maxAttempts, id) :: KeyOf(db, id)
  }

  lemma ClaimableKeyIff(db: Db, maxAttempts: nat, k: Key)
    ensures k in ClaimableKeys(db, maxAttempts)
        <==> Claimable(db, maxAttempts, k.id) && k == KeyOf(db, k.id)
  {
  }

  ghost predicate HasResultId(db: Db, resultId: string) {
    exists i | 0 <= i < |db.results| :: db.results[i].resultId == resultId
  }

  /** How many result rows a command has. */
  function ResultsOf(results: seq<Result>, id: string): nat {
    if results == [] then 0
    else ResultsOf(results[..|results| - 1], id) + (if results[|results| - 1].commandId == id then 1 else 0)
  }

  function Unsynced(results: seq<Result>): nat {
    if results == [] then 0
    else Unsynced(results[..|results| - 1]) + (if results[|results| - 1].synced then 0 else 1)
  }

  /**
   What `WHERE Synced = 0 ORDER BY ExecutedAt ASC LIMIT n` may return: distinct unsynced rows, given
   here by their positions, as many as the limit allows, oldest first, none older left behind.
   The order of rows of the same second is not fixed.
   */
  ghost predicate UnsyncedBatch(results: seq<Result>, limit: nat, picks: seq<nat>) {
    && OldestFirst(results, picks)
    && |picks| == (if Unsynced(results) < limit then Unsynced(results) else limit)
  }

  ghost predicate OldestFirst(results: seq<Result>, picks: seq<nat>) {
    && (forall i | 0 <= i < |picks| :: picks[i] in UnsyncedAt(results))
    && (forall i, j | 0 <= i < j < |picks| ::
          picks[i] != picks[j] && results[picks[i]].executedAt <= results[picks[j]].executedAt)
    && (forall i, n | 0 <= i < |picks| && n in UnsyncedAt(results) && n !in picks ::
          results[picks[i]].executedAt <= results[n].executedAt)
  }

  lemma OldestFirstExtend(results: seq<Result>, picks: seq<nat>, k: nat)
    requires OldestFirst(results, picks)
    requires k in UnsyncedAt(results) && k !in picks
    requires forall n | n in UnsyncedAt(results) && n !in picks :: results[k].executedAt <= results[n].executedAt
    ensures OldestFirst(results, picks + [k])
  {
  }

  function UnsyncedAt(results: seq<Result>): set<nat> {
    set i: nat | i < |results| && !results[i].synced
  }

  // ---- Effects of the store calls ----

  /** INSERT ... ON CONFLICT(CommandId) DO NOTHING. */
  function EnqueueWithId(db: Db, id: string, p: Payload, now: int): Db {
    if id in db.commands then db
    else db.(commands := db.commands[id := Command(p, Pending, now, 0)])
  }

  function Claim(db: Db, id: string): Db
    requires id in db.commands
  {
    var c := db.commands[id];
    db.(commands := db.commands[id := c.(status := Executing, attempts := c.attempts + 1)])
  }

  ghost function ClaimNext(db: Db, maxAttempts: nat): (r: (Db, Option<string>))
    ensures r.1.None? ==> r.0 == db && forall id :: !Claimable(db, maxAttempts, id)
    ensures r.1.Some? ==> Claimable(db, maxAttempts, r.1.value) && r.0 == Claim(db, r.1.value)
  {
    assert forall id | Claimable(db, maxAttempts, id) :: KeyOf(db, id) in ClaimableKeys(db, maxAttempts);
    var keys := ClaimableKeys(db, maxAttempts);
    if keys == {} then (db, None)
    else
      var id := Least(keys).id;
      (Claim(db, id), Some(id))
  }

  /** The claimed row is the oldest claimable one, and among those of its second the one with the least id. */
  lemma ClaimsOldest(db: Db, maxAttempts: nat, j: string)
    requires Claimable(db, maxAttempts, j) && ClaimNext(db, maxAttempts).1 != Some(j)
    ensures ClaimNext(db, maxAttempts).1.Some?
    ensures var c, d := db.commands[ClaimNext(db, maxAttempts).1.value], db.commands[j];
            || c.createdAt < d.createdAt
            || (c.createdAt == d.createdAt && exists n :: PartsAt(ClaimNext(db, maxAttempts).1.value, j, n))
  {
    var keys := ClaimableKeys(db, maxAttempts);
    assert KeyOf(db, j) in keys;
    var k := Least(keys);
    ClaimableKeyIff(db, maxAttempts, k);
    assert Lt(k, KeyOf(db, j));
    TextLtIff(k.id, j);
  }

  /** UPDATE ... SET Status = ? WHERE CommandId = ?, with no guard on the previous status. */
  function SetStatus(db: Db, id: string, status: Status): Db {
    if id in db.commands then db.(commands := db.commands[id := db.commands[id].(status := status)]) else db
  }

  /** The row SaveResult writes: a missing id or time is filled in and Synced starts at 0. */
  function Stored(r: Result, uuid: string, now: int): Result {
    r.(resultId := if r.resultId == "" then uuid else r.resultId,
       executedAt := if r.executedAt == 0 then now else r.executedAt,
       synced := false)
  }

  /** Refused by the foreign key on CommandId or the primary key on ResultId. */
  ghost function SaveResult(db: Db, r: Result, uuid: string, now: int): (Db, bool) {
    var row := Stored(r, uuid, now);
    if row.commandId !in db.commands || HasResultId(db, row.resultId) then (db, false)
    else (db.(results := db.results + [row]), true)
  }

  /** A result is taken just when its command is known and its id is new; it becomes the last row. */
  lemma SavedIff(db: Db, r: Result, uuid: string, now: int)
    ensures var id := if r.resultId == "" then uuid else r.resultId;
            var at := if r.executedAt == 0 then now else r.executedAt;
            var (after, ok) := SaveResult(db, r, uuid, now);
            && (ok <==> r.commandId in db.commands && forall i | 0 <= i < |db.results| :: db.results[i].resultId != id)
            && after.commands == db.commands
            && after.results
               == db.results + (if ok then [r.(resultId := id, synced := false, executedAt := at)] else [])
  {
  }

  function RecoveredRow(c: Command, maxAttempts: nat): Command {
    if !c.status.Executing? then c
    else c.(status := if c.attempts >= maxAttempts then Failed else Pending)
  }

  function RecoverStale(db: Db, maxAttempts: nat): Db {
    db.(commands := map id | id in db.commands :: RecoveredRow(db.commands[id], maxAttempts))
  }

  /** Acknowledgements are per CommandId: every result of the command becomes synced. */
  function MarkSynced(results: seq<Result>, commandId: string): seq<Result> {
    seq(|results|, i requires 0 <= i < |results| =>
      if results[i].commandId == commandId then results[i].(synced := true) else results[i])
  }

  // ---- Counting ----

  lemma {:induction false} UnsyncedIsCount(results: seq<Result>)
    ensures |UnsyncedAt(results)| == Unsynced(results)
  {
    if results != [] {
      var n := |results| - 1;
      var init := results[..n];
      UnsyncedIsCount(init);
      if results[n].synced {
        assert UnsyncedAt(results) == UnsyncedAt(init);
      } else {
        assert UnsyncedAt(results) == UnsyncedAt(init) + {n};
      }
    }
  }

  lemma {:induction false} DistinctCount(picks: seq<nat>, s: set<nat>)
    requires forall i, j | 0 <= i < j < |picks| :: picks[i] != picks[j]
    requires forall i | 0 <= i < |picks| :: picks[i] in s
    ensures |picks| <= |s|
    ensures |picks| == |s| <==> forall n | n in s :: n in picks
    decreases |picks|
  {
    if picks == [] {
      if s != {} { assert exists n :: n in s && n !in picks; }
    } else {
      var k := picks[|picks| - 1];
      var init := picks[..|picks| - 1];
      assert picks == init + [k];
      DistinctCount(init, s - {k});
      assert forall n :: n in picks <==> n in init || n == k;
    }
  }
}
