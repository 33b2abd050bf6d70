// What an error's row (container/storage.ts) says after any run, told from the
// calls alone.
module ErrorContents {
  import opened Wrappers
  import opened Text
  import opened Sorting
  import opened ErrorStore

  // Call `k` stored an error of this instance and hash, and the instance has not
  // been cleared since.
  predicate Counts(ops: seq<Op>, k: nat, instanceId: string, errorHash: string) {
    && k < |ops| && ops[k].Store? && ops[k].ok && ops[k].instanceId == instanceId && ops[k].errorHash == errorHash
    && forall j :: k < j < |ops| && ops[j].Clear? && ops[j].ok ==> ops[j].instanceId != instanceId
  }

  ghost predicate IsFirst(ops: seq<Op>, k: nat, instanceId: string, errorHash: string) {
    Counts(ops, k, instanceId, errorHash) && forall j: nat :: j < k ==> !Counts(ops, j, instanceId, errorHash)
  }

  ghost predicate IsLatest(ops: seq<Op>, k: nat, instanceId: string, errorHash: string) {
    Counts(ops, k, instanceId, errorHash) && forall j: nat :: k < j ==> !Counts(ops, j, instanceId, errorHash)
  }

  // The row comes from the first such call; its time and raw output from the
  // latest.
  ghost predicate Tells(r: Row, first: Op, latest: Op)
    requires first.Store? && latest.Store?
  {
    && r.instanceId == first.instanceId && r.errorHash == first.errorHash
    && r.processId == first.processId && r.level == first.error.level && r.message == first.error.message
    && r.timestamp == latest.error.timestamp && r.rawOutput == latest.error.rawOutput
  }

  predicate Hits(op: Op, instanceId: string, errorHash: string) {
    op.Store? && op.ok && op.instanceId == instanceId && op.errorHash == errorHash
  }

  predicate Clears(op: Op, instanceId: string) {
    op.Clear? && op.ok && op.instanceId == instanceId
  }

  lemma CountsStep(ops: seq<Op>, k: nat, instanceId: string, errorHash: string)
    requires ops != []
    ensures Counts(ops, k, instanceId, errorHash) <==>
      if k == |ops| - 1 then Hits(Last(ops), instanceId, errorHash)
      else Counts(Init(ops), k, instanceId, errorHash) && !Clears(Last(ops), instanceId)
  {
    var before := Init(ops);
    assert forall j :: 0 <= j < |before| ==> before[j] == ops[j];
  }

  function RowOf(rows: seq<Row>, instanceId: string, errorHash: string): Option<Row> {
    match FindRow(rows, instanceId, errorHash)
    case None => None
    case Some(i) => Some(rows[i])
  }

  lemma StoredRow(t: Table, inst: string, process: string, e: SimpleError, h: string, i: string, g: string)
    ensures
      var was, now := RowOf(t.rows, i, g), RowOf(Stored(t, inst, process, e, h).rows, i, g);
      if i == inst && g == h then
        && now.Some? && now.value.instanceId == i && now.value.errorHash == g
        && now.value.timestamp == e.timestamp && now.value.rawOutput == e.rawOutput
        && now.value.processId == (if was.Some? then was.value.processId else process)
        && now.value.level == (if was.Some? then was.value.level else e.level)
        && now.value.message == (if was.Some? then was.value.message else e.message)
      else now == was
  {
    match FindRow(t.rows, inst, h)
    case Some(k) =>
      var r := t.rows[k].(count := t.rows[k].count + 1, timestamp := e.timestamp, rawOutput := e.rawOutput);
      FindUpdated(t.rows, k, r, i, g);
    case None =>
      FindPushed(t.rows, Row(t.nextId, inst, process, h, e.timestamp, e.level, e.message, e.rawOutput, 1), i, g);
  }

  lemma {:induction false} ClearedRow(rows: seq<Row>, cleared: string, i: string, g: string)
    ensures RowOf(Without(rows, cleared), i, g) == if i == cleared then None else RowOf(rows, i, g)
  {
    if rows != [] {
      ClearedRow(rows[1..], cleared, i, g);
      var rest := Without(rows[1..], cleared);
      assert ([rows[0]] + rest)[1..] == rest;
    }
  }

  ghost predicate TellsOf(ops: seq<Op>, row: Option<Row>, instanceId: string, errorHash: string) {
    && (row.None? <==> forall k: nat :: !Counts(ops, k, instanceId, errorHash))
    && (row.Some? ==>
          exists first: nat, latest: nat ::
            && IsFirst(ops, first, instanceId, errorHash) && IsLatest(ops, latest, instanceId, errorHash)
            && Tells(row.value, ops[first], ops[latest]))
  }

  lemma CountsIn(ops: seq<Op>, instanceId: string, errorHash: string)
    requires ops != []
    ensures forall k: nat :: Counts(Init(ops), k, instanceId, errorHash) ==>
      k < |ops| - 1 && Init(ops)[k] == ops[k] && ops[k].Store?
    ensures forall k: nat :: Counts(ops, k, instanceId, errorHash) <==>
      if k == |ops| - 1 then Hits(Last(ops), instanceId, errorHash)
      else Counts(Init(ops), k, instanceId, errorHash) && !Clears(Last(ops), instanceId)
  {
    forall k: nat ensures Counts(ops, k, instanceId, errorHash) <==>
      if k == |ops| - 1 then Hits(Last(ops), instanceId, errorHash)
      else Counts(Init(ops), k, instanceId, errorHash) && !Clears(Last(ops), instanceId)
    {
      CountsStep(ops, k, instanceId, errorHash);
    }
  }

  // The row after a store of this error.
  ghost predicate Merged(was: Option<Row>, op: Op, now: Row)
    requires op.Store?
  {
    && now.timestamp == op.error.timestamp && now.rawOutput == op.error.rawOutput
    && now.instanceId == op.instanceId && now.errorHash == op.errorHash
    && now.processId == (if was.Some? then was.value.processId else op.processId)
    && now.level == (if was.Some? then was.value.level else op.error.level)
    && now.message == (if was.Some? then was.value.message else op.error.message)
  }

  lemma TellsHit(ops: seq<Op>, was: Option<Row>, now: Row, instanceId: string, errorHash: string)
    requires ops != [] && TellsOf(Init(ops), was, instanceId, errorHash)
    requires Hits(Last(ops), instanceId, errorHash) && Merged(was, Last(ops), now)
    ensures TellsOf(ops, Some(now), instanceId, errorHash)
  {
    CountsIn(ops, instanceId, errorHash);
    hide Counts;
    var n := |ops| - 1;
    assert IsLatest(ops, n, instanceId, errorHash);
    if was.None? {
      assert IsFirst(ops, n, instanceId, errorHash) && Tells(now, ops[n], ops[n]);
    } else {
      var first: nat, latest: nat :|
        && IsFirst(Init(ops), first, instanceId, errorHash) && IsLatest(Init(ops), latest, instanceId, errorHash)
        && Tells(was.value, Init(ops)[first], Init(ops)[latest]);
      assert IsFirst(ops, first, instanceId, errorHash) && Tells(now, ops[first], ops[n]);
    }
  }

  lemma TellsKept(ops: seq<Op>, row: Option<Row>, instanceId: string, errorHash: string)
    requires ops != [] && TellsOf(Init(ops), row, instanceId, errorHash)
    requires !Hits(Last(ops), instanceId, errorHash)
    ensures TellsOf(ops, if Clears(Last(ops), instanceId) then None else row, instanceId, errorHash)
  {
    CountsIn(ops, instanceId, errorHash);
    hide Counts, Hits, Clears;
    if !Clears(Last(ops), instanceId) && row.Some? {
      var first: nat, latest: nat :|
        && IsFirst(Init(ops), first, instanceId, errorHash) && IsLatest(Init(ops), latest, instanceId, errorHash)
        && Tells(row.value, Init(ops)[first], Init(ops)[latest]);
      assert IsFirst(ops, first, instanceId, errorHash) && IsLatest(ops, latest, instanceId, errorHash);
      assert Tells(row.value, ops[first], ops[latest]);
    }
  }

  // After any run: an error has a row exactly when it was stored since its
  // instance's last clear. Its process, level and message are those of the first
  // such store, its time and raw output those of the latest.
  lemma {:induction false} RowTells(ops: seq<Op>, instanceId: string, errorHash: string)
    ensures TellsOf(ops, RowOf(After(ops).rows, instanceId, errorHash), instanceId, errorHash)
  {
    if ops != [] {
      var t := After(Init(ops));
      RowTells(Init(ops), instanceId, errorHash);
      match Last(ops) {
        case Store(inst, process, e, h, ok) => StoredRow(t, inst, process, e, h, instanceId, errorHash);
        case Clear(inst, ok) => ClearedRow(t.rows, inst, instanceId, errorHash);
      }
      hide RowOf, TellsOf, Stored, Without;
      var was, now := RowOf(t.rows, instanceId, errorHash), RowOf(After(ops).rows, instanceId, errorHash);
      if Hits(Last(ops), instanceId, errorHash) {
        TellsHit(ops, was, now.value, instanceId, errorHash);
      } else {
        TellsKept(ops, was, instanceId, errorHash);
      }
    }
  }

  ghost predicate IdsInOrder(t: Table) {
    && (forall i, j :: 0 <= i < j < |t.rows| ==> t.rows[i].id < t.rows[j].id)
    && (forall i :: 0 <= i < |t.rows| ==> 1 <= t.rows[i].id < t.nextId)
  }

  lemma {:induction false} IdsFiltered(rows: seq<Row>, inst: string, bound: nat)
    requires forall i, j :: 0 <= i < j < |rows| ==> rows[i].id < rows[j].id
    requires forall i :: 0 <= i < |rows| ==> 1 <= rows[i].id < bound
    ensures IdsInOrder(Table(Without(rows, inst), bound))
  {
    if rows != [] {
      IdsFiltered(rows[1..], inst, bound);
      FilterMembers(rows[1..], NotOf(inst));
      var rest := Without(rows[1..], inst);
      forall i | 0 <= i < |rest| ensures rows[0].id < rest[i].id {
        assert rest[i] in rows[1..];
      }
    }
  }

  lemma StoredIds(t: Table, inst: string, process: string, e: SimpleError, h: string)
    requires IdsInOrder(t) && t.nextId >= 1
    ensures IdsInOrder(Stored(t, inst, process, e, h)) && Stored(t, inst, process, e, h).nextId >= 1
  {
    hide FindRow;
  }

  lemma IdsOf(t: Table)
    requires IdsInOrder(t)
    ensures forall i, j :: 0 <= i < j < |t.rows| ==> t.rows[i].id < t.rows[j].id
    ensures forall i :: 0 <= i < |t.rows| ==> 1 <= t.rows[i].id < t.nextId
  {
  }

  // Row ids are never given twice.
  lemma {:induction false} IdsIncrease(ops: seq<Op>)
    ensures IdsInOrder(After(ops)) && After(ops).nextId >= 1
  {
    if ops != [] {
      IdsIncrease(Init(ops));
      hide IdsInOrder, Stored;
      match Last(ops)
      case Store(inst, process, e, h, ok) => StoredIds(After(Init(ops)), inst, process, e, h);
      case Clear(inst, ok) =>
        IdsOf(After(Init(ops)));
        IdsFiltered(After(Init(ops)).rows, inst, After(Init(ops)).nextId);
    }
  }

  // ------------------------------------------------------------------
  // The summary's levels
  // ------------------------------------------------------------------

  // The occurrences in the rows of one level.
  function OfLevel(rows: seq<Row>, level: nat): nat {
    if rows == [] then 0 else OfLevel(Init(rows), level) + if Last(rows).level == level then Last(rows).count else 0
  }

  lemma {:induction false} LevelOfGroups(rows: seq<Row>, level: nat)
    ensures LevelTotal(seq(|rows|, i requires 0 <= i < |rows| => Group(rows[i].errorHash, rows[i].level, rows[i].count)), level)
         == OfLevel(rows, level)
  {
    if rows != [] {
      var groups := seq(|rows|, i requires 0 <= i < |rows| => Group(rows[i].errorHash, rows[i].level, rows[i].count));
      var before := Init(rows);
      LevelOfGroups(before, level);
      assert Init(groups) == seq(|before|, i requires 0 <= i < |before| => Group(before[i].errorHash, before[i].level, before[i].count));
    }
  }

  // What a summary reports for a level after any run: the occurrences in the
  // instance's rows of that level.
  lemma LevelsExactly(ops: seq<Op>, instanceId: string, level: nat)
    ensures LevelTotal(Deduplicated(OfInstance(After(ops).rows, instanceId)), level)
         == OfLevel(OfInstance(After(ops).rows, instanceId), level)
  {
    var rows := OfInstance(After(ops).rows, instanceId);
    CountsConserve(ops, instanceId, "");
    OfInstanceDistinct(After(ops).rows, instanceId);
    GroupsAreRows(rows);
    LevelOfGroups(rows, level);
  }
}
