// LogStorage (container/storage.ts): rows numbered by a counter kept in memory,
// stored in all-or-nothing batches, read back in pages newest first.
module LogStore {
  import opened Wrappers
  import opened Text
  import opened Sorting

  datatype ProcessLog = ProcessLog(instanceId: string, processId: string, level: string, message: string, stream: string)

  // A row of process_logs.
  datatype Row = Row(log: ProcessLog, timestamp: int, sequence: nat)

  // The table and the counter in memory.
  datatype Store = Store(rows: seq<Row>, counter: nat)

  // The answers of SQLite during one transaction. The insert with number `i`
  // goes through when inserts(i) holds and its number is not taken.
  datatype Answers = Answers(begin: bool, inserts: nat -> bool, commit: bool)

  // ------------------------------------------------------------------
  // The statements
  // ------------------------------------------------------------------

  // MAX(sequence), or 0 for an empty table.
  function MaxSequence(rows: seq<Row>): (m: nat)
    ensures forall i :: 0 <= i < |rows| ==> rows[i].sequence <= m
    ensures rows != [] ==> exists i :: 0 <= i < |rows| && rows[i].sequence == m
    ensures rows == [] ==> m == 0
  {
    if rows == [] then 0
    else
      var m := MaxSequence(Init(rows));
      if Last(rows).sequence >= m then Last(rows).sequence else m
  }

  // The UNIQUE constraint of the column.
  predicate Taken(rows: seq<Row>, sequence: nat) {
    exists i :: 0 <= i < |rows| && rows[i].sequence == sequence
  }

  // storeLog: the counter moves even when the insert fails.
  function Append(s: Store, log: ProcessLog, now: int, ok: bool): Store {
    if ok && !Taken(s.rows, s.counter) then Store(s.rows + [Row(log, now, s.counter)], s.counter + 1)
    else s.(counter := s.counter + 1)
  }

  predicate Inserted(s: Store, ok: bool) {
    ok && !Taken(s.rows, s.counter)
  }

  // The loop inside the transaction, from log `i` on; it stops at the first
  // failure.
  function InsertFrom(s: Store, logs: seq<ProcessLog>, now: int, inserts: nat -> bool, i: nat): (r: (Store, bool))
    requires i <= |logs|
    ensures r.0.counter >= s.counter
    decreases |logs| - i
  {
    if i == |logs| then (s, true)
    else if Inserted(s, inserts(i)) then InsertFrom(Append(s, logs[i], now, inserts(i)), logs, now, inserts, i + 1)
    else (Append(s, logs[i], now, inserts(i)), false)
  }

  predicate Committed(s: Store, logs: seq<ProcessLog>, now: int, answers: Answers) {
    answers.begin && answers.commit && InsertFrom(s, logs, now, answers.inserts, 0).1
  }

  // A rollback restores the table, not the counter.
  function Batch(s: Store, logs: seq<ProcessLog>, now: int, answers: Answers): Store {
    if !answers.begin then s
    else if Committed(s, logs, now, answers) then InsertFrom(s, logs, now, answers.inserts, 0).0
    else s.(counter := InsertFrom(s, logs, now, answers.inserts, 0).0.counter)
  }

  function NotOf(instanceId: string): Row -> bool {
    (r: Row) => r.log.instanceId != instanceId
  }

  function Of(instanceId: string): Row -> bool {
    (r: Row) => r.log.instanceId == instanceId
  }

  function Since(cutoff: int): Row -> bool {
    (r: Row) => r.timestamp >= cutoff
  }

  function Newer(): (Row, Row) -> bool {
    (a: Row, b: Row) => a.sequence >= b.sequence
  }

  // LIMIT and OFFSET as SQLite reads them: a negative limit is none, a negative
  // offset is 0.
  function Window(rows: seq<Row>, limit: int, offset: int): seq<Row> {
    var from := if offset < 0 then 0 else if offset > |rows| then |rows| else offset;
    if limit < 0 || limit > |rows| - from then rows[from..] else rows[from..from + limit]
  }

  // `value || default` for a number that may be missing.
  function OrElse(value: Option<int>, default: int): int {
    if value.Some? && value.value != 0 then value.value else default
  }

  datatype Page = Page(logs: seq<Row>, lastSequence: nat, hasMore: bool, totalCount: nat)

  function Selected(rows: seq<Row>, instanceId: string): seq<Row> {
    Sort(Filter(rows, Of(instanceId)), Newer())
  }

  function GetPage(rows: seq<Row>, instanceId: string, limit: Option<int>, offset: Option<int>): Page {
    var logs := Window(Selected(rows, instanceId), OrElse(limit, 100), OrElse(offset, 0));
    var totalCount := |Filter(rows, Of(instanceId))|;
    Page(logs, MaxSequence(logs), OrElse(offset, 0) + |logs| < totalCount, totalCount)
  }

  class LogStorage {
    var rows: seq<Row>
    var sequenceCounter: nat

    function Contents(): Store
      reads this
    {
      Store(rows, sequenceCounter)
    }

    // Opening the database, new or left by an earlier run.
    constructor (rows: seq<Row>)
      ensures Contents() == Store(rows, MaxSequence(rows) + 1)
    {
      this.rows := rows;
      this.sequenceCounter := MaxSequence(rows) + 1;
    }

    method StoreLog(log: ProcessLog, now: int, ok: bool) returns (r: Option<nat>)
      modifies this
      ensures Contents() == Append(old(Contents()), log, now, ok)
      ensures r == if Inserted(old(Contents()), ok) then Some(old(sequenceCounter)) else None
    {
      var sequence := sequenceCounter;
      sequenceCounter := sequenceCounter + 1;
      if !ok || Taken(rows, sequence) { return None; }
      rows := rows + [Row(log, now, sequence)];
      return Some(sequence);
    }

    // On success the batch is in the table in its order under the next numbers;
    // on failure the table is untouched.
    method StoreLogs(logs: seq<ProcessLog>, now: int, answers: Answers) returns (r: Option<seq<nat>>)
      modifies this
      ensures Contents() == Batch(old(Contents()), logs, now, answers)
      ensures r.Some? <==> Committed(old(Contents()), logs, now, answers)
      ensures r.Some? ==> r.value == seq(|logs|, i requires 0 <= i => old(sequenceCounter) + i)
    {
      if !answers.begin { return None; }
      var saved := rows;
      ghost var was := Contents();
      var sequences: seq<nat> := [];
      var i := 0;
      while i < |logs|
        invariant 0 <= i <= |logs|
        invariant InsertFrom(was, logs, now, answers.inserts, 0) == InsertFrom(Contents(), logs, now, answers.inserts, i)
        invariant sequenceCounter == was.counter + i
        invariant sequences == seq(i, j requires 0 <= j => was.counter + j)
      {
        var result := StoreLog(logs[i], now, answers.inserts(i));
        if result.None? {
          rows := saved;
          return None;
        }
        sequences := sequences + [result.value];
        i := i + 1;
      }
      if !answers.commit {
        rows := saved;
        return None;
      }
      return Some(sequences);
    }

    method GetLogs(instanceId: string, limit: Option<int>, offset: Option<int>) returns (p: Page)
      ensures p == GetPage(rows, instanceId, limit, offset)
    {
      var logs := Window(Selected(rows, instanceId), OrElse(limit, 100), OrElse(offset, 0));
      var totalCount := |Filter(rows, Of(instanceId))|;
      var lastSequence := if |logs| > 0 then MaxSequence(logs) else 0;
      var hasMore := OrElse(offset, 0) + |logs| < totalCount;
      return Page(logs, lastSequence, hasMore, totalCount);
    }

    method ClearLogs(instanceId: string, ok: bool) returns (clearedCount: Option<nat>)
      modifies this
      ensures Contents() == After(old(Contents()), Clear(instanceId, ok))
      ensures clearedCount == if ok then Some(|old(rows)| - |rows|) else None
    {
      if !ok { return None; }
      FilterSplit(rows, instanceId);
      clearedCount := Some(|Filter(rows, Of(instanceId))|);
      rows := Filter(rows, NotOf(instanceId));
    }

    method CleanupOldLogs(cutoff: int, ok: bool) returns (changes: Option<nat>)
      modifies this
      ensures Contents() == After(old(Contents()), Cleanup(cutoff, ok))
      ensures changes == if ok then Some(|old(rows)| - |rows|) else None
    {
      if !ok { return None; }
      FilterMembers(rows, Since(cutoff));
      changes := Some(|rows| - |Filter(rows, Since(cutoff))|);
      rows := Filter(rows, Since(cutoff));
    }

    method Reopen()
      modifies this
      ensures Contents() == After(old(Contents()), Open)
    {
      sequenceCounter := MaxSequence(rows) + 1;
    }
  }

  lemma {:induction false} FilterSplit(rows: seq<Row>, instanceId: string)
    ensures |Filter(rows, Of(instanceId))| + |Filter(rows, NotOf(instanceId))| == |rows|
  {
    if rows != [] {
      FilterSplit(rows[1..], instanceId);
    }
  }

  // ------------------------------------------------------------------
  // Runs
  // ------------------------------------------------------------------

  datatype Op =
    | StoreBatch(logs: seq<ProcessLog>, now: int, answers: Answers)
    | Clear(instanceId: string, ok: bool)
    | Cleanup(cutoff: int, ok: bool)
    | Open

  function After(s: Store, op: Op): Store {
    match op
    case StoreBatch(logs, now, answers) => Batch(s, logs, now, answers)
    case Clear(instanceId, ok) => if ok then s.(rows := Filter(s.rows, NotOf(instanceId))) else s
    case Cleanup(cutoff, ok) => if ok then s.(rows := Filter(s.rows, Since(cutoff))) else s
    case Open => s.(counter := MaxSequence(s.rows) + 1)
  }

  function Run(s: Store, ops: seq<Op>): Store {
    if ops == [] then s else After(Run(s, Init(ops)), Last(ops))
  }

  // Row order is number order, and the counter is ahead of the table.
  ghost predicate Ordered(s: Store) {
    && Sorted(s.rows, Older())
    && s.counter >= 1
    && (forall i :: 0 <= i < |s.rows| ==> 1 <= s.rows[i].sequence < s.counter)
  }

  function Older(): (Row, Row) -> bool {
    (a: Row, b: Row) => a.sequence < b.sequence
  }

  // Rows that a batch adds.
  function Numbered(logs: seq<ProcessLog>, now: int, first: nat): seq<Row> {
    seq(|logs|, i requires 0 <= i < |logs| => Row(logs[i], now, first + i))
  }

  // In an ordered store the UNIQUE constraint never fires.
  lemma InsertOrdered(s: Store, log: ProcessLog, now: int, ok: bool)
    requires Ordered(s)
    ensures Ordered(Append(s, log, now, ok))
    ensures Inserted(s, ok) <==> ok
  {
  }

  lemma {:induction false} InsertFromEffect(s: Store, logs: seq<ProcessLog>, now: int, inserts: nat -> bool, i: nat)
    requires i <= |logs| && Ordered(s)
    ensures
      var (t, done) := InsertFrom(s, logs, now, inserts, i);
      && Ordered(t)
      && (done <==> forall j :: i <= j < |logs| ==> inserts(j))
      && (done ==> t == Store(s.rows + Numbered(logs[i..], now, s.counter), s.counter + (|logs| - i)))
      && (!done ==> s.counter < t.counter <= s.counter + (|logs| - i) && !inserts(i + (t.counter - s.counter) - 1)
                    && forall j :: i <= j < i + (t.counter - s.counter) - 1 ==> inserts(j))
    decreases |logs| - i
  {
    if i == |logs| {
      assert s.rows + Numbered(logs[i..], now, s.counter) == s.rows;
    } else {
      InsertOrdered(s, logs[i], now, inserts(i));
      if inserts(i) {
        var next := Append(s, logs[i], now, true);
        InsertFromEffect(next, logs, now, inserts, i + 1);
        var row := Row(logs[i], now, s.counter);
        assert Numbered(logs[i..], now, s.counter) == [row] + Numbered(logs[i + 1..], now, s.counter + 1);
        assert (s.rows + [row]) + Numbered(logs[i + 1..], now, s.counter + 1)
            == s.rows + Numbered(logs[i..], now, s.counter);
      }
    }
  }

  // All or nothing: the batch goes in, in order and under consecutive numbers,
  // exactly when every statement succeeds. Otherwise only the counter moves, to
  // just past the insert that failed.
  lemma BatchEffect(s: Store, logs: seq<ProcessLog>, now: int, answers: Answers)
    requires Ordered(s)
    ensures Committed(s, logs, now, answers)
            <==> answers.begin && answers.commit && forall i :: 0 <= i < |logs| ==> answers.inserts(i)
    ensures Committed(s, logs, now, answers) ==>
              Batch(s, logs, now, answers) == Store(s.rows + Numbered(logs, now, s.counter), s.counter + |logs|)
    ensures !Committed(s, logs, now, answers) ==>
              && Batch(s, logs, now, answers).rows == s.rows
              && s.counter <= Batch(s, logs, now, answers).counter <= s.counter + |logs|
  {
    InsertFromEffect(s, logs, now, answers.inserts, 0);
    assert logs[0..] == logs;
  }

  lemma FilterOrdered(s: Store, p: Row -> bool)
    requires Ordered(s)
    ensures Ordered(s.(rows := Filter(s.rows, p)))
  {
    FilterSorted(s.rows, p, Older());
    FilterMembers(s.rows, p);
    var kept := Filter(s.rows, p);
    forall i | 0 <= i < |kept| ensures 1 <= kept[i].sequence < s.counter {
      assert kept[i] in s.rows;
    }
  }

  lemma OrderedStep(s: Store, op: Op)
    requires Ordered(s)
    ensures Ordered(After(s, op))
  {
    match op
    case StoreBatch(logs, now, answers) =>
      InsertFromEffect(s, logs, now, answers.inserts, 0);
    case Clear(instanceId, ok) =>
      FilterOrdered(s, NotOf(instanceId));
    case Cleanup(cutoff, ok) =>
      FilterOrdered(s, Since(cutoff));
    case Open =>
  }

  // Numbers are unique and increase with insertion order in every reachable
  // table, across failed batches, clears, retention deletes and reopening.
  lemma {:induction false} OrderedRun(ops: seq<Op>)
    ensures Ordered(Run(Store([], 1), ops))
  {
    if ops != [] {
      OrderedRun(Init(ops));
      OrderedStep(Run(Store([], 1), Init(ops)), Last(ops));
    }
  }

  // ------------------------------------------------------------------
  // Every number ever given out
  // ------------------------------------------------------------------

  function Given(s: Store, op: Op): seq<nat> {
    if op.StoreBatch? && Committed(s, op.logs, op.now, op.answers) then
      seq(|op.logs|, i requires 0 <= i => s.counter + i)
    else []
  }

  function Issued(s: Store, ops: seq<Op>): seq<nat> {
    if ops == [] then [] else Issued(s, Init(ops)) + Given(Run(s, Init(ops)), Last(ops))
  }

  ghost predicate Increasing(s: seq<nat>) {
    forall i, j :: 0 <= i < j < |s| ==> s[i] < s[j]
  }

  // The database is reopened only while the last log stored is in the table.
  predicate Tight(s: Store, ops: seq<Op>) {
    if ops == [] then true
    else
      && Tight(s, Init(ops))
      && (Last(ops).Open? ==> LastKept(Run(s, Init(ops)), Issued(s, Init(ops))))
  }

  predicate LastKept(s: Store, issued: seq<nat>) {
    issued == [] || Taken(s.rows, Last(issued))
  }

  ghost predicate Ahead(s: Store, issued: seq<nat>) {
    Increasing(issued) && forall i :: 0 <= i < |issued| ==> issued[i] < s.counter
  }

  // Every number in the table was given out, and numbers start at 1.
  ghost predicate Traced(s: Store, issued: seq<nat>) {
    && Ordered(s)
    && (forall i :: 0 <= i < |issued| ==> issued[i] >= 1)
    && (forall i :: 0 <= i < |s.rows| ==> s.rows[i].sequence in issued)
  }

  // Reopening keeps the next number above every earlier one exactly when the
  // last log stored is still in the table.
  lemma ReopenExactly(s: Store, issued: seq<nat>)
    requires Traced(s, issued) && Increasing(issued)
    ensures Ahead(After(s, Open), issued) <==> LastKept(s, issued)
  {
    var m := MaxSequence(s.rows);
    if issued != [] {
      assert issued[|issued| - 1] == Last(issued);
      if s.rows != [] {
        var k :| 0 <= k < |s.rows| && s.rows[k].sequence == m;
        assert m in issued;
        assert m <= Last(issued);
      }
      if Ahead(After(s, Open), issued) {
        assert Last(issued) < m + 1;
        assert 0 <= Last(issued);
      }
    }
  }

  lemma TracedStep(s: Store, issued: seq<nat>, op: Op)
    requires Traced(s, issued)
    ensures Traced(After(s, op), issued + Given(s, op))
    ensures Ahead(s, issued) && !op.Open? ==> Ahead(After(s, op), issued + Given(s, op))
  {
    OrderedStep(s, op);
    var t, all := After(s, op), issued + Given(s, op);
    match op
    case StoreBatch(logs, now, answers) =>
      BatchEffect(s, logs, now, answers);
      if Committed(s, logs, now, answers) {
        forall i | 0 <= i < |t.rows| ensures t.rows[i].sequence in all {
          if i >= |s.rows| {
            assert all[|issued| + (i - |s.rows|)] == t.rows[i].sequence;
          }
        }
      }
    case Clear(instanceId, ok) =>
      KeptTraced(s.rows, NotOf(instanceId), issued);
    case Cleanup(cutoff, ok) =>
      KeptTraced(s.rows, Since(cutoff), issued);
    case Open =>
  }

  lemma KeptTraced(rows: seq<Row>, p: Row -> bool, issued: seq<nat>)
    requires forall i :: 0 <= i < |rows| ==> rows[i].sequence in issued
    ensures forall i :: 0 <= i < |Filter(rows, p)| ==> Filter(rows, p)[i].sequence in issued
  {
    FilterMembers(rows, p);
    forall i | 0 <= i < |Filter(rows, p)| ensures Filter(rows, p)[i].sequence in issued {
      assert Filter(rows, p)[i] in rows;
    }
  }

  // No number is given out twice, and later logs get higher ones, in every run
  // that reopens only while the last log stored is in the table.
  lemma {:induction false} IssuedIncrease(ops: seq<Op>)
    requires Tight(Store([], 1), ops)
    ensures Increasing(Issued(Store([], 1), ops))
    ensures Ahead(Run(Store([], 1), ops), Issued(Store([], 1), ops))
    ensures Traced(Run(Store([], 1), ops), Issued(Store([], 1), ops))
  {
    if ops != [] {
      var s, issued := Run(Store([], 1), Init(ops)), Issued(Store([], 1), Init(ops));
      IssuedIncrease(Init(ops));
      TracedStep(s, issued, Last(ops));
      if Last(ops).Open? {
        ReopenExactly(s, issued);
        assert issued + [] == issued;
      }
    }
  }

  // Otherwise a number can come back: the log it first named was deleted before
  // the database was reopened.
  lemma NumberReused(log: ProcessLog, now: int)
    ensures
      var good := Answers(true, (i: nat) => true, true);
      var ops := [StoreBatch([log], now, good), Clear(log.instanceId, true), Open, StoreBatch([log], now, good)];
      Issued(Store([], 1), ops) == [1, 1]
  {
    var good := Answers(true, (i: nat) => true, true);
    var one, clear := StoreBatch([log], now, good), Clear(log.instanceId, true);
    var s1 := Store([Row(log, now, 1)], 2);
    assert Run(Store([], 1), []) == Store([], 1);
    BatchEffect(Store([], 1), [log], now, good);
    assert After(Store([], 1), one) == s1;
    assert Init([one]) == [] && Last([one]) == one;
    assert Run(Store([], 1), [one]) == s1;
    assert Init([one, clear]) == [one];
    assert Filter(s1.rows, NotOf(log.instanceId)) == [];
    assert Run(Store([], 1), [one, clear]) == Store([], 2);
    assert Init([one, clear, Open]) == [one, clear];
    assert Run(Store([], 1), [one, clear, Open]) == Store([], 1);
    assert Init([one, clear, Open, one]) == [one, clear, Open];
    assert Given(Store([], 1), one) == [1];
    assert Issued(Store([], 1), [one]) == [1];
    assert Issued(Store([], 1), [one, clear]) == [1];
    assert Issued(Store([], 1), [one, clear, Open]) == [1];
  }

  // ------------------------------------------------------------------
  // Paging
  // ------------------------------------------------------------------

  function NewestFirst(rows: seq<Row>): (r: seq<Row>)
    ensures |r| == |rows|
  {
    if rows == [] then [] else [Last(rows)] + NewestFirst(Init(rows))
  }

  lemma {:induction false} NewestFirstMultiset(rows: seq<Row>)
    ensures multiset(NewestFirst(rows)) == multiset(rows)
  {
    if rows != [] {
      NewestFirstMultiset(Init(rows));
      assert rows == Init(rows) + [Last(rows)];
    }
  }

  lemma {:induction false} NewestFirstAt(rows: seq<Row>, i: nat)
    requires i < |rows|
    ensures NewestFirst(rows)[i] == rows[|rows| - 1 - i]
  {
    if i > 0 {
      NewestFirstAt(Init(rows), i - 1);
    }
  }

  lemma NewestFirstSorted(rows: seq<Row>)
    requires Sorted(rows, Older())
    ensures Sorted(NewestFirst(rows), Newer())
  {
    var r := NewestFirst(rows);
    forall i, j | 0 <= i < j < |r| ensures Newer()(r[i], r[j]) {
      NewestFirstAt(rows, i);
      NewestFirstAt(rows, j);
      assert Older()(rows[|rows| - 1 - j], rows[|rows| - 1 - i]);
    }
  }

  lemma NewestFirstStrict(rows: seq<Row>)
    requires Sorted(rows, Older())
    ensures Strict(NewestFirst(rows), Newer())
  {
    var r := NewestFirst(rows);
    forall i, j | 0 <= i < |r| && 0 <= j < |r| && Newer()(r[i], r[j]) && Newer()(r[j], r[i]) ensures r[i] == r[j] {
      NewestFirstAt(rows, i);
      NewestFirstAt(rows, j);
      assert i == j;
    }
  }

  // What ORDER BY sequence DESC returns: the instance's logs, last stored first.
  lemma SelectedNewestFirst(s: Store, instanceId: string)
    requires Ordered(s)
    ensures Selected(s.rows, instanceId) == NewestFirst(Filter(s.rows, Of(instanceId)))
  {
    var f := Filter(s.rows, Of(instanceId));
    var a, b := Selected(s.rows, instanceId), NewestFirst(f);
    FilterSorted(s.rows, Of(instanceId), Older());
    NewestFirstMultiset(f);
    NewestFirstSorted(f);
    NewestFirstStrict(f);
    SortMultiset(f, Newer());
    SortSorted(f, Newer());
    SortedUnique(b, a, Newer());
  }

  // A client that steps by the number of logs returned until hasMore is false.
  function Paged(rows: seq<Row>, instanceId: string, limit: Option<int>, offset: nat): seq<Row>
    decreases |Filter(rows, Of(instanceId))| - offset
  {
    var p := GetPage(rows, instanceId, limit, Some(offset));
    SortMultiset(Filter(rows, Of(instanceId)), Newer());
    if p.hasMore then p.logs + Paged(rows, instanceId, limit, offset + |p.logs|) else p.logs
  }

  lemma WindowAt(rows: seq<Row>, limit: int, offset: nat)
    requires offset <= |rows| && limit != 0
    ensures offset + |Window(rows, limit, offset)| <= |rows|
    ensures Window(rows, limit, offset) == rows[offset..offset + |Window(rows, limit, offset)|]
    ensures offset < |rows| ==> Window(rows, limit, offset) != []
    ensures limit > 0 ==> |Window(rows, limit, offset)| == if limit < |rows| - offset then limit else |rows| - offset
  {
  }

  // One page, in terms of everything selected.
  lemma GetPageAt(rows: seq<Row>, instanceId: string, limit: Option<int>, offset: nat)
    requires offset <= |Selected(rows, instanceId)|
    ensures
      var p := GetPage(rows, instanceId, limit, Some(offset));
      var all := Selected(rows, instanceId);
      && |Filter(rows, Of(instanceId))| == |all|
      && offset + |p.logs| <= |all|
      && p.logs == all[offset..offset + |p.logs|]
      && (p.hasMore <==> offset + |p.logs| < |all|)
      && (p.hasMore ==> p.logs != [])
  {
    SortMultiset(Filter(rows, Of(instanceId)), Newer());
    WindowAt(Selected(rows, instanceId), OrElse(limit, 100), offset);
    hide Sort, Filter, Window;
  }

  lemma {:induction false} PagedFrom(rows: seq<Row>, instanceId: string, limit: Option<int>, offset: nat)
    requires offset <= |Selected(rows, instanceId)|
    ensures Paged(rows, instanceId, limit, offset) == Selected(rows, instanceId)[offset..]
    decreases |Filter(rows, Of(instanceId))| - offset
  {
    hide Filter, GetPage, Selected;
    GetPageAt(rows, instanceId, limit, offset);
    var all := Selected(rows, instanceId);
    var p := GetPage(rows, instanceId, limit, Some(offset));
    var n := |p.logs|;
    if p.hasMore {
      PagedFrom(rows, instanceId, limit, offset + n);
      assert all[offset..offset + n] + all[offset + n..] == all[offset..];
    } else {
      assert all[offset..offset + n] == all[offset..];
    }
  }

  // On an unchanging table every log of the instance is visited exactly once,
  // newest first, whatever the limit.
  lemma PagingComplete(s: Store, instanceId: string, limit: Option<int>)
    requires Ordered(s)
    ensures Paged(s.rows, instanceId, limit, 0) == NewestFirst(Filter(s.rows, Of(instanceId)))
  {
    PagedFrom(s.rows, instanceId, limit, 0);
    SelectedNewestFirst(s, instanceId);
    assert Selected(s.rows, instanceId)[0..] == Selected(s.rows, instanceId);
  }

  lemma SelectedSorted(s: Store, instanceId: string)
    ensures Sorted(Selected(s.rows, instanceId), Newer())
  {
    SortSorted(Filter(s.rows, Of(instanceId)), Newer());
  }

  // The sequence number of a page's first log is its largest.
  lemma MaxIsFirst(rows: seq<Row>, instanceId: string, limit: Option<int>, offset: nat)
    requires offset <= |Selected(rows, instanceId)| && Sorted(Selected(rows, instanceId), Newer())
    ensures
      var p := GetPage(rows, instanceId, limit, Some(offset));
      p.lastSequence == (if p.logs == [] then 0 else p.logs[0].sequence)
  {
    hide Filter, Selected, Window;
    GetPageAt(rows, instanceId, limit, offset);
  }

  lemma FullPage(rows: seq<Row>, instanceId: string, limit: int, offset: nat)
    requires limit > 0 && offset <= |Selected(rows, instanceId)|
    ensures
      var p := GetPage(rows, instanceId, Some(limit), Some(offset));
      var n := |Selected(rows, instanceId)|;
      && p.totalCount == n
      && |p.logs| == (if limit < n - offset then limit else n - offset)
      && (p.hasMore <==> offset + limit < n)
  {
    hide Filter, Selected, Window, MaxSequence;
    GetPageAt(rows, instanceId, Some(limit), offset);
    WindowAt(Selected(rows, instanceId), limit, offset);
  }

  // A page of a positive limit is full unless the logs run out, the cursor names
  // its first log, and hasMore says whether an older log is left.
  lemma PageFacts(s: Store, instanceId: string, limit: int, offset: nat)
    requires Ordered(s) && limit > 0 && offset <= |Filter(s.rows, Of(instanceId))|
    ensures
      var p := GetPage(s.rows, instanceId, Some(limit), Some(offset));
      var all := NewestFirst(Filter(s.rows, Of(instanceId)));
      && p.totalCount == |all|
      && |p.logs| == (if limit < |all| - offset then limit else |all| - offset)
      && p.logs == all[offset..offset + |p.logs|]
      && (p.hasMore <==> offset + limit < |all|)
      && p.lastSequence == (if p.logs == [] then 0 else p.logs[0].sequence)
  {
    hide *;
    SelectedNewestFirst(s, instanceId);
    SelectedSorted(s, instanceId);
    FullPage(s.rows, instanceId, limit, offset);
    MaxIsFirst(s.rows, instanceId, Some(limit), offset);
    GetPageAt(s.rows, instanceId, Some(limit), offset);
  }

  lemma {:induction false} NewestFirstAppend(a: seq<Row>, b: seq<Row>)
    ensures NewestFirst(a + b) == NewestFirst(b) + NewestFirst(a)
  {
    if b == [] {
      assert a + b == a;
    } else {
      assert Init(a + b) == a + Init(b) && Last(a + b) == Last(b);
      NewestFirstAppend(a, Init(b));
      assert [Last(b)] + (NewestFirst(Init(b)) + NewestFirst(a)) == ([Last(b)] + NewestFirst(Init(b))) + NewestFirst(a);
    }
  }

  // Logs stored between two page requests only push the rest back: a client can
  // see logs again, and misses none.
  lemma StoringShiftsPages(s: Store, more: seq<Row>, counter: nat, instanceId: string, offset: nat)
    requires Ordered(s) && Ordered(Store(s.rows + more, counter))
    requires offset <= |Selected(s.rows, instanceId)|
    ensures
      var k := |Filter(more, Of(instanceId))|;
      var all := Selected(s.rows + more, instanceId);
      offset + k <= |all| && all[offset + k..] == Selected(s.rows, instanceId)[offset..]
  {
    var t := Store(s.rows + more, counter);
    SelectedNewestFirst(s, instanceId);
    SelectedNewestFirst(t, instanceId);
    FilterAppend(s.rows, more, Of(instanceId));
    hide Filter, NewestFirst, Selected, Ordered;
    NewestFirstAppend(Filter(s.rows, Of(instanceId)), Filter(more, Of(instanceId)));
  }
}
