/**
 * The `room`, `hash_config`, `user_hash` and `room_log_line` tables as one value, and what each
 * statement or transaction of the room layer does to them.
 */
module RoomDb {
  import opened Wrappers

  datatype Status = Idle | Queued | Running | Fetching | Completed | Failed | Cancelled | Errored

  predicate IsActive(s: Option<Status>) {
    s == Some(Queued) || s == Some(Running) || s == Some(Fetching)
  }

  predicate IsTerminal(s: Option<Status>) {
    s == Some(Cancelled) || s == Some(Completed) || s == Some(Failed) || s == Some(Errored)
  }

  datatype Room = Room(
    status: Option<Status>, triggeredBy: string, closedReason: Option<string>, lastOutcome: Option<Status>)

  /** A `hash_config` row with the users its `user_hash` rows link to it. */
  datatype Config = Config(roomId: Option<nat>, users: set<string>)

  datatype Db = Db(
    configs: map<string, Config>, rooms: map<nat, Room>, nextRoomId: nat, logs: map<string, seq<string>>)

  const USER_CANCELLED := "user_cancelled"
  const CONFIG_DELETED := "config_deleted"
  const PROCESS_RESTARTED := "process_restarted"
  const RESTARTED_LINE := "Server restarted during sync"

  /** The room a config links to, if the link and the row exist. */
  function LinkedRoom(db: Db, hash: string): Option<nat> {
    if hash in db.configs && db.configs[hash].roomId.Some? && db.configs[hash].roomId.value in db.rooms
    then db.configs[hash].roomId else None
  }

  function RoomStatus(db: Db, hash: string): Option<Status> {
    match LinkedRoom(db, hash)
    case None => None
    case Some(roomId) => if roomId in db.rooms then db.rooms[roomId].status else None
  }

  function LogLines(db: Db, hash: string): seq<string> {
    if hash in db.logs then db.logs[hash] else []
  }

  /** `UPDATE room ... WHERE id = roomId`: nothing happens without the row. */
  function PutRoom(db: Db, roomId: nat, room: Room): Db {
    if roomId in db.rooms then db.(rooms := db.rooms[roomId := room]) else db
  }

  function SetStatus(db: Db, roomId: nat, status: Status): Db {
    if roomId in db.rooms then PutRoom(db, roomId, db.rooms[roomId].(status := Some(status))) else db
  }

  function TerminalToLastOutcome(status: Status): Option<Status> {
    if IsTerminal(Some(status)) then Some(status) else None
  }

  function CloseRoom(db: Db, roomId: nat, status: Status, reason: string): Db {
    if roomId !in db.rooms then db
    else
      var room := db.rooms[roomId];
      var outcome := TerminalToLastOutcome(status);
      PutRoom(db, roomId, room.(status := Some(status), closedReason := Some(reason),
                                lastOutcome := if outcome.Some? then outcome else room.lastOutcome))
  }

  function FinalizeRun(db: Db, roomId: nat): Db {
    if roomId !in db.rooms then db
    else PutRoom(db, roomId, db.rooms[roomId].(status := Some(Idle), closedReason := None, lastOutcome := Some(Completed)))
  }

  function ResetToIdle(db: Db, roomId: nat, clearReason: bool): Db {
    if roomId !in db.rooms then db
    else
      var room := db.rooms[roomId];
      PutRoom(db, roomId, room.(status := Some(Idle), closedReason := if clearReason then None else room.closedReason))
  }

  function RecycleToQueued(db: Db, roomId: nat, user: string): Db {
    if roomId !in db.rooms then db
    else PutRoom(db, roomId, db.rooms[roomId].(status := Some(Queued), triggeredBy := user, closedReason := None))
  }

  /** A new idle room, linked to the config. */
  function InsertLinkedRoom(db: Db, hash: string, user: string): Db
    requires hash in db.configs
  {
    db.(rooms := db.rooms[db.nextRoomId := Room(Some(Idle), user, None, None)],
        nextRoomId := db.nextRoomId + 1,
        configs := db.configs[hash := db.configs[hash].(roomId := Some(db.nextRoomId))])
  }

  datatype TryQueueResult = RoomQueued(roomId: nat) | ActiveSync | ConfigMissing

  function TryQueueRoom(db: Db, hash: string, user: string): (Db, TryQueueResult) {
    if hash !in db.configs then (db, ConfigMissing)
    else
      match LinkedRoom(db, hash)
      case None =>
        var db1 := InsertLinkedRoom(db, hash, user);
        (RecycleToQueued(db1, db.nextRoomId, user), RoomQueued(db.nextRoomId))
      case Some(roomId) =>
        if IsActive(RoomStatus(db, hash)) then (db, ActiveSync)
        else (RecycleToQueued(db, roomId, user), RoomQueued(roomId))
  }

  /** Closes the hash's linked room only while it is still `queued`. */
  function CancelQueuedRoom(db: Db, hash: string, reason: string): Db {
    match LinkedRoom(db, hash)
    case None => db
    case Some(roomId) =>
      if RoomStatus(db, hash) == Some(Queued) then CloseRoom(db, roomId, Cancelled, reason) else db
  }

  function MaybeResetTerminal(db: Db, hash: string): Db {
    match LinkedRoom(db, hash)
    case None => db
    case Some(roomId) =>
      if roomId in db.rooms && IsTerminal(db.rooms[roomId].status) then
        var keep := db.rooms[roomId].closedReason.Some? && db.rooms[roomId].closedReason.value != "";
        ResetToIdle(db, roomId, !keep)
      else db
  }

  /** Reconcile after a worker reported success: closes the run if the room still looks active. */
  function ReconcileSuccess(db: Db, hash: string, roomId: nat): Db {
    if LinkedRoom(db, hash).Some? && IsActive(RoomStatus(db, hash)) then FinalizeRun(db, roomId) else db
  }

  function ClearLogs(db: Db, hash: string): Db {
    db.(logs := db.logs[hash := []])
  }

  function AppendLog(db: Db, hash: string, line: string): Db {
    db.(logs := db.logs[hash := LogLines(db, hash) + [line]])
  }

  /** Creates the config and its room when missing, then links the user. */
  function UpsertConfig(db: Db, hash: string, user: string): Db {
    var db1 := if hash in db.configs then db else db.(configs := db.configs[hash := Config(None, {})]);
    var db2 := if LinkedRoom(db1, hash).None? then InsertLinkedRoom(db1, hash, user) else db1;
    db2.(configs := db2.configs[hash := db2.configs[hash].(users := db2.configs[hash].users + {user})])
  }

  function UnlinkUser(db: Db, hash: string, user: string): Db {
    if hash in db.configs
    then db.(configs := db.configs[hash := db.configs[hash].(users := db.configs[hash].users - {user})])
    else db
  }

  /** `DELETE FROM room`: the foreign key clears every link to the row. */
  function DeleteRoom(db: Db, roomId: nat): Db {
    db.(rooms := db.rooms - {roomId},
        configs := map h | h in db.configs ::
          if db.configs[h].roomId == Some(roomId) then db.configs[h].(roomId := None) else db.configs[h])
  }

  function DeleteConfigCascade(db: Db, hash: string): Db {
    var db1 := if hash in db.configs && db.configs[hash].roomId.Some?
               then DeleteRoom(db, db.configs[hash].roomId.value) else db;
    db1.(configs := db1.configs - {hash}, logs := db1.logs - {hash})
  }

  // The startup sweep

  datatype LinkedRow = LinkedRow(hash: string, roomId: nat, status: Option<Status>)

  ghost function LinkedRoomIds(db: Db): set<nat> {
    set h | h in db.configs && db.configs[h].roomId.Some? :: db.configs[h].roomId.value
  }

  ghost function DeleteOrphans(db: Db): Db {
    db.(rooms := map r | r in db.rooms && r in LinkedRoomIds(db) :: db.rooms[r])
  }

  /** The join listing hashes with a room; its order is the database's choice. */
  ghost predicate ListsLinkedRooms(db: Db, rows: seq<LinkedRow>) {
    && (forall i, j :: 0 <= i < j < |rows| ==> rows[i].hash != rows[j].hash)
    && (forall row | row in rows ::
          LinkedRoom(db, row.hash) == Some(row.roomId) && row.status == db.rooms[row.roomId].status)
    && (forall h | LinkedRoom(db, h).Some? :: exists row :: row in rows && row.hash == h)
  }

  function FailOne(db: Db, row: LinkedRow): Db {
    if IsActive(row.status) then
      MaybeResetTerminal(
        AppendLog(CloseRoom(db, row.roomId, Failed, PROCESS_RESTARTED), row.hash, RESTARTED_LINE), row.hash)
    else db
  }

  function ActiveCount(rows: seq<LinkedRow>): nat {
    if rows == [] then 0
    else ActiveCount(rows[..|rows| - 1]) + if IsActive(rows[|rows| - 1].status) then 1 else 0
  }

  function FailActive(db: Db, rows: seq<LinkedRow>): Db {
    if rows == [] then db else FailOne(FailActive(db, rows[..|rows| - 1]), rows[|rows| - 1])
  }

  function ResetOne(db: Db, row: LinkedRow): Db {
    if IsTerminal(row.status) then MaybeResetTerminal(db, row.hash) else db
  }

  function ResetTerminals(db: Db, rows: seq<LinkedRow>): Db {
    if rows == [] then db else ResetOne(ResetTerminals(db, rows[..|rows| - 1]), rows[|rows| - 1])
  }

  ghost function Sweep(db: Db, rows: seq<LinkedRow>): Db {
    ResetTerminals(FailActive(DeleteOrphans(db), rows), rows)
  }
}
