/** The startup sweep: what it leaves behind, from any tables whose links point at rooms. */
module RoomSweep {
  import opened Wrappers
  import opened RoomDb

  /** `hash_config.room_id` is a foreign key. */
  ghost predicate ForeignKeyOk(db: Db) {
    forall h | h in db.configs && db.configs[h].roomId.Some? :: db.configs[h].roomId.value in db.rooms
  }

  ghost function RoomIds(rows: seq<LinkedRow>): set<nat> {
    set row | row in rows :: row.roomId
  }

  ghost function ActiveHashes(rows: seq<LinkedRow>): set<string> {
    set row | row in rows && IsActive(row.status) :: row.hash
  }

  ghost function FailedRoom(room: Room): Room {
    room.(status := Some(Idle), closedReason := Some(PROCESS_RESTARTED), lastOutcome := Some(Failed))
  }

  ghost function ResetRoom(room: Room): Room {
    if IsTerminal(room.status)
    then room.(status := Some(Idle), closedReason := if room.closedReason == Some("") then None else room.closedReason)
    else room
  }

  /** What the sweep should make of one linked room. */
  ghost function SweptRoom(room: Room): Room {
    if IsActive(room.status) then FailedRoom(room) else ResetRoom(room)
  }

  ghost predicate RowsMatch(db: Db, rows: seq<LinkedRow>) {
    forall row | row in rows ::
      LinkedRoom(db, row.hash) == Some(row.roomId) && row.status == db.rooms[row.roomId].status
  }

  lemma FailOneEffect(db: Db, row: LinkedRow, before: Room)
    requires LinkedRoom(db, row.hash) == Some(row.roomId) && IsActive(row.status)
    requires db.rooms[row.roomId] == before || db.rooms[row.roomId] == FailedRoom(before)
    ensures var d := FailOne(db, row);
            && d.configs == db.configs && d.nextRoomId == db.nextRoomId
            && d.rooms == db.rooms[row.roomId := FailedRoom(before)]
            && d.logs == db.logs[row.hash := LogLines(db, row.hash) + [RESTARTED_LINE]]
  {
    var closed := CloseRoom(db, row.roomId, Failed, PROCESS_RESTARTED);
    var logged := AppendLog(closed, row.hash, RESTARTED_LINE);
    assert LinkedRoom(logged, row.hash) == Some(row.roomId);
    assert logged.rooms[row.roomId].closedReason == Some(PROCESS_RESTARTED);
  }

  lemma SplitLast(rows: seq<LinkedRow>)
    requires rows != []
    ensures rows == rows[..|rows| - 1] + [rows[|rows| - 1]]
    ensures RoomIds(rows) == RoomIds(rows[..|rows| - 1]) + {rows[|rows| - 1].roomId}
    ensures ActiveHashes(rows) == ActiveHashes(rows[..|rows| - 1])
                                  + (if IsActive(rows[|rows| - 1].status) then {rows[|rows| - 1].hash} else {})
    ensures rows[|rows| - 1] in rows
  {
    var init, last := rows[..|rows| - 1], rows[|rows| - 1];
    assert rows == init + [last];
    forall r
      ensures r in RoomIds(rows) <==> r in RoomIds(init) + {last.roomId}
    {
      assert last in rows;
    }
  }

  /** `d` is `db` with the active rooms among `ids` failed. */
  ghost predicate RoomsFailed(db: Db, d: Db, ids: set<nat>) {
    && d.configs == db.configs && d.nextRoomId == db.nextRoomId && d.rooms.Keys == db.rooms.Keys
    && forall r | r in db.rooms ::
         d.rooms[r] == if r in ids && IsActive(db.rooms[r].status) then FailedRoom(db.rooms[r]) else db.rooms[r]
  }

  /** `d` has one more log line for each of the hashes. */
  ghost predicate LinesAdded(db: Db, d: Db, hashes: set<string>) {
    forall h :: LogLines(d, h) == LogLines(db, h) + if h in hashes then [RESTARTED_LINE] else []
  }

  lemma FailRoom(db: Db, d: Db, ids: set<nat>, row: LinkedRow)
    requires LinkedRoom(db, row.hash) == Some(row.roomId) && row.status == db.rooms[row.roomId].status
    requires RoomsFailed(db, d, ids)
    ensures RoomsFailed(db, FailOne(d, row), ids + {row.roomId})
  {
    assert LinkedRoom(d, row.hash) == Some(row.roomId);
    if IsActive(row.status) {
      FailOneEffect(d, row, db.rooms[row.roomId]);
    }
  }

  lemma FailLine(db: Db, d: Db, ids: set<nat>, hashes: set<string>, row: LinkedRow)
    requires LinkedRoom(db, row.hash) == Some(row.roomId) && row.status == db.rooms[row.roomId].status
    requires RoomsFailed(db, d, ids) && LinesAdded(db, d, hashes) && row.hash !in hashes
    ensures LinesAdded(db, FailOne(d, row), hashes + if IsActive(row.status) then {row.hash} else {})
  {
    assert LinkedRoom(d, row.hash) == Some(row.roomId);
    if IsActive(row.status) {
      FailOneEffect(d, row, db.rooms[row.roomId]);
    }
  }

  /** The first loop fails every active room it lists, once per hash in the logs. */
  lemma {:induction false} FailActiveEffect(db: Db, rows: seq<LinkedRow>)
    requires RowsMatch(db, rows)
    requires forall i, j :: 0 <= i < j < |rows| ==> rows[i].hash != rows[j].hash
    ensures RoomsFailed(db, FailActive(db, rows), RoomIds(rows))
    ensures LinesAdded(db, FailActive(db, rows), ActiveHashes(rows))
  {
    if rows == [] {
    } else {
      var init, last := rows[..|rows| - 1], rows[|rows| - 1];
      SplitLast(rows);
      assert forall row | row in init :: row in rows;
      FailActiveEffect(db, init);
      assert last.hash !in ActiveHashes(init) by {
        assert forall i :: 0 <= i < |init| ==> rows[i].hash != last.hash;
      }
      FailRoom(db, FailActive(db, init), RoomIds(init), last);
      FailLine(db, FailActive(db, init), RoomIds(init), ActiveHashes(init), last);
    }
  }

  lemma {:induction false} NothingToFail(db: Db, rows: seq<LinkedRow>)
    requires forall row | row in rows :: !IsActive(row.status)
    ensures FailActive(db, rows) == db
  {
    if rows == [] {
    } else {
      SplitLast(rows);
      NothingToFail(db, rows[..|rows| - 1]);
    }
  }

  lemma {:induction false} NothingToReset(db: Db, rows: seq<LinkedRow>)
    requires forall row | row in rows :: !IsTerminal(row.status)
    ensures ResetTerminals(db, rows) == db
  {
    if rows == [] {
    } else {
      SplitLast(rows);
      NothingToReset(db, rows[..|rows| - 1]);
    }
  }

  lemma ResetOneEffect(db: Db, row: LinkedRow)
    requires LinkedRoom(db, row.hash) == Some(row.roomId)
    ensures ResetOne(db, row) == if IsTerminal(row.status)
                                 then db.(rooms := db.rooms[row.roomId := ResetRoom(db.rooms[row.roomId])]) else db
  {
    if IsTerminal(row.status) && !IsTerminal(db.rooms[row.roomId].status) {
      assert db.rooms[row.roomId := ResetRoom(db.rooms[row.roomId])] == db.rooms;
    }
  }

  ghost predicate ListedTerminal(rows: seq<LinkedRow>, r: nat) {
    exists row :: row in rows && row.roomId == r && IsTerminal(row.status)
  }

  /** The second loop resets every room that was terminal when listed. */
  lemma {:induction false} ResetTerminalsEffect(db: Db, rows: seq<LinkedRow>)
    requires forall row | row in rows :: LinkedRoom(db, row.hash) == Some(row.roomId)
    ensures var d := ResetTerminals(db, rows);
            && d == db.(rooms := d.rooms) && d.rooms.Keys == db.rooms.Keys
            && (forall r | r in db.rooms ::
                  d.rooms[r] == if ListedTerminal(rows, r) then ResetRoom(db.rooms[r]) else db.rooms[r])
  {
    if rows == [] {
    } else {
      var init, last := rows[..|rows| - 1], rows[|rows| - 1];
      SplitLast(rows);
      assert forall row | row in init :: row in rows;
      ResetTerminalsEffect(db, init);
      var d := ResetTerminals(db, init);
      assert LinkedRoom(db, last.hash) == Some(last.roomId);
      assert LinkedRoom(d, last.hash) == Some(last.roomId);
      ResetOneEffect(d, last);
      forall r | r in db.rooms
        ensures ListedTerminal(rows, r) <==> ListedTerminal(init, r) || (last.roomId == r && IsTerminal(last.status))
      {
        if ListedTerminal(rows, r) {
          var row :| row in rows && row.roomId == r && IsTerminal(row.status);
          assert row in init || row == last;
        }
      }
    }
  }

  /** Deleting orphans leaves every link in place. */
  lemma LinksSurvive(db: Db, h: string)
    requires ForeignKeyOk(db)
    ensures LinkedRoom(DeleteOrphans(db), h) == LinkedRoom(db, h)
    ensures RoomStatus(DeleteOrphans(db), h) == RoomStatus(db, h)
    ensures LinkedRoom(db, h).Some? ==> LinkedRoom(db, h).value in LinkedRoomIds(db)
  {
  }

  lemma ListedRow(db: Db, rows: seq<LinkedRow>, row: LinkedRow)
    requires ForeignKeyOk(db) && ListsLinkedRooms(DeleteOrphans(db), rows) && row in rows
    ensures LinkedRoom(db, row.hash) == Some(row.roomId) && row.status == RoomStatus(db, row.hash)
    ensures row.roomId in LinkedRoomIds(db) && row.status == db.rooms[row.roomId].status
  {
    LinksSurvive(db, row.hash);
    assert LinkedRoom(DeleteOrphans(db), row.hash) == Some(row.roomId);
  }

  lemma LinkedIsListed(db: Db, rows: seq<LinkedRow>, h: string)
    requires ForeignKeyOk(db) && ListsLinkedRooms(DeleteOrphans(db), rows) && LinkedRoom(db, h).Some?
    ensures exists row :: row in rows && row.hash == h && row.roomId == LinkedRoom(db, h).value
  {
    LinksSurvive(db, h);
    var row :| row in rows && row.hash == h;
    ListedRow(db, rows, row);
  }

  lemma ListedRooms(db: Db, rows: seq<LinkedRow>)
    requires ForeignKeyOk(db) && ListsLinkedRooms(DeleteOrphans(db), rows)
    ensures RoomIds(rows) == LinkedRoomIds(db) == DeleteOrphans(db).rooms.Keys
  {
    forall r | r in LinkedRoomIds(db)
      ensures r in RoomIds(rows)
    {
      var h :| h in db.configs && db.configs[h].roomId == Some(r);
      LinkedIsListed(db, rows, h);
    }
    forall row | row in rows
      ensures row.roomId in LinkedRoomIds(db)
    {
      ListedRow(db, rows, row);
    }
  }

  lemma ListedActive(db: Db, rows: seq<LinkedRow>)
    requires ForeignKeyOk(db) && ListsLinkedRooms(DeleteOrphans(db), rows)
    ensures forall h :: h in ActiveHashes(rows) <==> LinkedRoom(db, h).Some? && IsActive(RoomStatus(db, h))
  {
    forall h
      ensures h in ActiveHashes(rows) <==> LinkedRoom(db, h).Some? && IsActive(RoomStatus(db, h))
    {
      if h in ActiveHashes(rows) {
        var row :| row in rows && row.hash == h && IsActive(row.status);
        ListedRow(db, rows, row);
      }
      if LinkedRoom(db, h).Some? {
        LinkedIsListed(db, rows, h);
        var row :| row in rows && row.hash == h;
        ListedRow(db, rows, row);
      }
    }
  }

  lemma ListedTerminals(db: Db, rows: seq<LinkedRow>)
    requires ForeignKeyOk(db) && ListsLinkedRooms(DeleteOrphans(db), rows)
    ensures forall r | r in LinkedRoomIds(db) :: ListedTerminal(rows, r) <==> IsTerminal(db.rooms[r].status)
  {
    forall r | r in LinkedRoomIds(db)
      ensures ListedTerminal(rows, r) <==> IsTerminal(db.rooms[r].status)
    {
      if ListedTerminal(rows, r) {
        var row :| row in rows && row.roomId == r && IsTerminal(row.status);
        ListedRow(db, rows, row);
      }
      var h :| h in db.configs && db.configs[h].roomId == Some(r);
      LinkedIsListed(db, rows, h);
      var row :| row in rows && row.hash == h && row.roomId == r;
      ListedRow(db, rows, row);
    }
  }

  /** What the sweep should leave: linked rooms only, each swept, one line per failed run. */
  ghost predicate Swept(db: Db, d: Db) {
    && d.configs == db.configs && d.nextRoomId == db.nextRoomId
    && d.rooms.Keys == LinkedRoomIds(db) <= db.rooms.Keys
    && (forall r | r in d.rooms :: d.rooms[r] == SweptRoom(db.rooms[r]))
    && (forall h :: LogLines(d, h) == LogLines(db, h) + if IsActive(RoomStatus(db, h)) then [RESTARTED_LINE] else [])
  }

  lemma SweptRooms(db: Db, d: Db, rows: seq<LinkedRow>)
    requires ForeignKeyOk(db) && ListsLinkedRooms(DeleteOrphans(db), rows)
    requires RoomsFailed(DeleteOrphans(db), d, RoomIds(rows))
    ensures var e := ResetTerminals(d, rows);
            && e == d.(rooms := e.rooms) && e.rooms.Keys == LinkedRoomIds(db)
            && forall r | r in e.rooms :: e.rooms[r] == SweptRoom(db.rooms[r])
  {
    ListedRooms(db, rows);
    ListedTerminals(db, rows);
    forall row | row in rows
      ensures LinkedRoom(d, row.hash) == Some(row.roomId)
    {
      assert LinkedRoom(DeleteOrphans(db), row.hash) == Some(row.roomId);
    }
    ResetTerminalsEffect(d, rows);
  }

  /**
   * From any tables the sweep drops every orphan room, closes every active room as failed with
   * one more log line, takes every terminal room back to idle, and leaves the rest alone.
   */
  lemma SweepEffect(db: Db, rows: seq<LinkedRow>)
    requires ForeignKeyOk(db) && ListsLinkedRooms(DeleteOrphans(db), rows)
    ensures Swept(db, Sweep(db, rows))
  {
    var d0 := DeleteOrphans(db);
    ListedRooms(db, rows);
    ListedActive(db, rows);
    FailActiveEffect(d0, rows);
    var d1 := FailActive(d0, rows);
    SweptRooms(db, d1, rows);
    SweptLines(db, d1, rows);
  }

  lemma SweptLines(db: Db, d: Db, rows: seq<LinkedRow>)
    requires LinesAdded(DeleteOrphans(db), d, ActiveHashes(rows))
    requires forall h :: h in ActiveHashes(rows) <==> LinkedRoom(db, h).Some? && IsActive(RoomStatus(db, h))
    ensures forall h :: LogLines(d, h) == LogLines(db, h) + if IsActive(RoomStatus(db, h)) then [RESTARTED_LINE] else []
  {
    forall h
      ensures LogLines(d, h) == LogLines(db, h) + if IsActive(RoomStatus(db, h)) then [RESTARTED_LINE] else []
    {
      assert LogLines(DeleteOrphans(db), h) == LogLines(db, h);
    }
  }

  ghost predicate AllSettled(db: Db) {
    forall r | r in db.rooms :: !IsActive(db.rooms[r].status) && !IsTerminal(db.rooms[r].status)
  }

  lemma SweepOfSettled(db: Db, rows: seq<LinkedRow>)
    requires AllSettled(db) && db.rooms.Keys == LinkedRoomIds(db)
    requires ListsLinkedRooms(DeleteOrphans(db), rows)
    ensures Sweep(db, rows) == db
  {
    assert DeleteOrphans(db).rooms == db.rooms;
    forall row | row in rows
      ensures !IsActive(row.status) && !IsTerminal(row.status)
    {
      assert LinkedRoom(db, row.hash) == Some(row.roomId);
    }
    NothingToFail(db, rows);
    NothingToReset(db, rows);
  }

  /** After a sweep no room is active or terminal, and sweeping again changes nothing. */
  lemma SweepConverges(db: Db, rows: seq<LinkedRow>, rowsAgain: seq<LinkedRow>)
    requires ForeignKeyOk(db) && ListsLinkedRooms(DeleteOrphans(db), rows)
    requires ListsLinkedRooms(DeleteOrphans(Sweep(db, rows)), rowsAgain)
    ensures AllSettled(Sweep(db, rows))
    ensures Sweep(Sweep(db, rows), rowsAgain) == Sweep(db, rows)
  {
    var d := Sweep(db, rows);
    SweepEffect(db, rows);
    assert LinkedRoomIds(d) == LinkedRoomIds(db);
    forall r | r in d.rooms
      ensures !IsActive(d.rooms[r].status) && !IsTerminal(d.rooms[r].status)
    {
      assert d.rooms[r] == SweptRoom(db.rooms[r]);
    }
    SweepOfSettled(d, rowsAgain);
  }
}
