// ErrorStorage (container/storage.ts): errors stored once per instance and
// hash, with an occurrence count.
module ErrorStore {
  import opened Wrappers
  import opened Text
  import opened Sorting

  datatype SimpleError = SimpleError(timestamp: string, level: nat, message: string, rawOutput: string)

  // A row of simple_errors.
  datatype Row = Row(
    id: nat, instanceId: string, processId: string, errorHash: string, timestamp: string, level: nat,
    message: string, rawOutput: string, count: nat)

  datatype Table = Table(rows: seq<Row>, nextId: nat)

  // ------------------------------------------------------------------
  // The hash
  // ------------------------------------------------------------------

  // What is fed to the digest: the cleaned message, then the level. Digest and
  // cleaning are arbitrary functions.
  function HashInput(cleaned: string, level: nat): string {
    cleaned + Decimal(level)
  }

  // The last digits of level `j` are level `i`, and the digits before them end
  // the message `a`.
  predicate Overlaps(a: string, i: nat, b: string, j: nat) {
    var k := |Decimal(j)| - |Decimal(i)|;
    k >= 0 && Decimal(j)[k..] == Decimal(i) && a == b + Decimal(j)[..k]
  }

  // Nothing separates message and level: two errors are hashed alike exactly when
  // one's level begins with digits that end the other's message. In particular,
  // with levels of the same number of digits, exactly when they are the same.
  lemma HashInputExactly(a: string, i: nat, b: string, j: nat)
    ensures HashInput(a, i) == HashInput(b, j) <==> Overlaps(a, i, b, j) || Overlaps(b, j, a, i)
    ensures |Decimal(i)| == |Decimal(j)| ==> (HashInput(a, i) == HashInput(b, j) <==> a == b && i == j)
  {
    if |Decimal(i)| <= |Decimal(j)| {
      SuffixExactly(a, Decimal(i), b, Decimal(j));
    }
    if |Decimal(j)| <= |Decimal(i)| {
      SuffixExactly(b, Decimal(j), a, Decimal(i));
    }
    hide Decimal;
    if |Decimal(i)| == |Decimal(j)| && HashInput(a, i) == HashInput(b, j) {
      assert Decimal(j)[0..] == Decimal(j) && b + Decimal(j)[..0] == b;
      DecimalInjective(i, j);
    }
  }

  // Two strings cut in two places.
  lemma SuffixExactly(a: string, x: string, b: string, y: string)
    requires |x| <= |y|
    ensures a + x == b + y <==> y[|y| - |x|..] == x && a == b + y[..|y| - |x|]
  {
    var k := |y| - |x|;
    assert b + y == (b + y[..k]) + y[k..];
    if a + x == b + y {
      assert |a| == |b + y[..k]|;
      assert a == (a + x)[..|a|] && x == (a + x)[|a|..];
    }
  }

  // It happens, between messages that cleaning leaves alone and levels that are
  // reported as errors.
  lemma LevelsShareHashInput()
    ensures HashInput("oops1", 50) == HashInput("oops", 150)
  {
    assert Decimal(1) == "1" && Decimal(5) == "5";
    assert Decimal(50) == Decimal(5) + "0" && Decimal(15) == Decimal(1) + "5" && Decimal(150) == Decimal(15) + "0";
    assert "oops1" + "50" == "oops" + "150";
  }

  // ------------------------------------------------------------------
  // The statements
  // ------------------------------------------------------------------

  predicate Matches(r: Row, instanceId: string, errorHash: string) {
    r.instanceId == instanceId && r.errorHash == errorHash
  }

  // The row an error belongs to. (The query orders by timestamp and takes one;
  // there is at most one.)
  function FindRow(rows: seq<Row>, instanceId: string, errorHash: string): (r: Option<nat>)
    ensures r.Some? ==> r.value < |rows| && Matches(rows[r.value], instanceId, errorHash)
    ensures r.None? ==> forall i :: 0 <= i < |rows| ==> !Matches(rows[i], instanceId, errorHash)
  {
    if rows == [] then None
    else if Matches(rows[0], instanceId, errorHash) then Some(0)
    else match FindRow(rows[1..], instanceId, errorHash)
      case None => None
      case Some(i) => Some(i + 1)
  }

  function Stored(t: Table, instanceId: string, processId: string, e: SimpleError, errorHash: string): Table {
    match FindRow(t.rows, instanceId, errorHash)
    case Some(i) =>
      var r := t.rows[i];
      t.(rows := t.rows[i := r.(count := r.count + 1, timestamp := e.timestamp, rawOutput := e.rawOutput)])
    case None =>
      Table(t.rows + [Row(t.nextId, instanceId, processId, errorHash, e.timestamp, e.level, e.message, e.rawOutput, 1)],
            t.nextId + 1)
  }

  function Of(instanceId: string): Row -> bool {
    (r: Row) => r.instanceId == instanceId
  }

  function NotOf(instanceId: string): Row -> bool {
    (r: Row) => r.instanceId != instanceId
  }

  function Without(rows: seq<Row>, instanceId: string): seq<Row> {
    Filter(rows, NotOf(instanceId))
  }

  function OfInstance(rows: seq<Row>, instanceId: string): seq<Row> {
    Filter(rows, Of(instanceId))
  }

  // GROUP BY error_hash with SUM(occurrence_count), in order of first rows.
  datatype Group = Group(errorHash: string, level: nat, occurrences: nat)

  function AddToGroups(groups: seq<Group>, r: Row): seq<Group> {
    if groups == [] then [Group(r.errorHash, r.level, r.count)]
    else if groups[0].errorHash == r.errorHash then
      [groups[0].(occurrences := groups[0].occurrences + r.count)] + groups[1..]
    else [groups[0]] + AddToGroups(groups[1..], r)
  }

  function Deduplicated(rows: seq<Row>): seq<Group> {
    if rows == [] then [] else AddToGroups(Deduplicated(Init(rows)), Last(rows))
  }

  datatype Summary = Summary(totalErrors: nat, uniqueErrors: nat, repeatedErrors: int, errorsByLevel: map<nat, nat>)

  class ErrorStorage {
    var table: Table
    const digest: string -> string
    const clean: string -> string

    constructor (digest: string -> string, clean: string -> string)
      ensures table == Table([], 1) && this.digest == digest && this.clean == clean
    {
      table := Table([], 1);
      this.digest := digest;
      this.clean := clean;
    }

    function Hash(e: SimpleError): string {
      digest(HashInput(clean(e.message), e.level))
    }

    // One call; `ok` is false when a statement throws, and then nothing has
    // been written.
    method StoreOnce(instanceId: string, processId: string, e: SimpleError, ok: bool) returns (success: bool)
      modifies this
      ensures success == ok
      ensures table == if ok then Stored(old(table), instanceId, processId, e, Hash(e)) else old(table)
    {
      if !ok { return false; }
      var errorHash := Hash(e);
      var existing := FindRow(table.rows, instanceId, errorHash);
      if existing.Some? {
        var i := existing.value;
        var r := table.rows[i];
        table := table.(rows := table.rows[i := r.(count := r.count + 1, timestamp := e.timestamp, rawOutput := e.rawOutput)]);
      } else {
        var r := Row(table.nextId, instanceId, processId, errorHash, e.timestamp, e.level, e.message, e.rawOutput, 1);
        table := Table(table.rows + [r], table.nextId + 1);
      }
      return true;
    }

    // storeError through retryOperation: at most three calls, and an error that
    // is stored is stored once.
    method StoreError(instanceId: string, processId: string, e: SimpleError, answers: nat -> bool)
      returns (success: bool, calls: nat)
      modifies this
      ensures 1 <= calls <= 3
      ensures success <==> answers(0) || answers(1) || answers(2)
      ensures forall i :: 0 <= i < calls - 1 ==> !answers(i)
      ensures success ==> answers(calls - 1)
      ensures table == if success then Stored(old(table), instanceId, processId, e, Hash(e)) else old(table)
    {
      var attempt := 0;
      success := StoreOnce(instanceId, processId, e, answers(0));
      while !success && attempt < 2
        invariant 0 <= attempt <= 2
        invariant forall i :: 0 <= i < attempt ==> !answers(i)
        invariant success == answers(attempt)
        invariant table == if success then Stored(old(table), instanceId, processId, e, Hash(e)) else old(table)
      {
        attempt := attempt + 1;
        success := StoreOnce(instanceId, processId, e, answers(attempt));
      }
      calls := attempt + 1;
      assert !success ==> attempt == 2;
      assert attempt == 0 || attempt == 1 || attempt == 2;
    }

    method ClearErrors(instanceId: string, ok: bool) returns (cleared: Option<nat>)
      modifies this
      ensures table == if ok then old(table).(rows := Without(old(table).rows, instanceId)) else old(table)
      ensures cleared == if ok then Some(|OfInstance(old(table).rows, instanceId)|) else None
    {
      if !ok { return None; }
      cleared := Some(|OfInstance(table.rows, instanceId)|);
      table := table.(rows := Without(table.rows, instanceId));
    }

    method GetErrorSummary(instanceId: string) returns (s: Summary)
      ensures s.totalErrors == Total(OfInstance(table.rows, instanceId))
      ensures s.uniqueErrors == |Deduplicated(OfInstance(table.rows, instanceId))|
      ensures s.repeatedErrors == s.totalErrors - s.uniqueErrors
      ensures forall level :: At(s.errorsByLevel, level) == LevelTotal(Deduplicated(OfInstance(table.rows, instanceId)), level)
      ensures SumValues(s.errorsByLevel) == s.totalErrors
    {
      hide Deduplicated, SumValues, OfInstance, Total, LevelTotal, At, LevelMap, Hashes, GroupTotal;
      var errors := Deduplicated(OfInstance(table.rows, instanceId));
      SummaryFacts(OfInstance(table.rows, instanceId));
      NoGroups();
      if |errors| == 0 {
        return Summary(0, 0, 0, map[]);
      }
      var errorsByLevel: map<nat, nat> := map[];
      var uniqueHashes: set<string> := {};
      var totalOccurrences := 0;
      var i := 0;
      while i < |errors|
        invariant 0 <= i <= |errors|
        invariant errorsByLevel == LevelMap(errors[..i])
        invariant uniqueHashes == Hashes(errors[..i])
        invariant totalOccurrences == GroupTotal(errors[..i])
      {
        var error := errors[i];
        assert errors[..i + 1] == errors[..i] + [error];
        NextGroup(errors[..i], error);
        errorsByLevel := errorsByLevel[error.level := At(errorsByLevel, error.level) + error.occurrences];
        uniqueHashes := uniqueHashes + {error.errorHash};
        totalOccurrences := totalOccurrences + error.occurrences;
        i := i + 1;
      }
      assert errors[..i] == errors;
      return Summary(totalOccurrences, |uniqueHashes|, totalOccurrences - |errors|, errorsByLevel);
    }
  }

  // What the summary loop accumulates.
  function LevelMap(groups: seq<Group>): map<nat, nat> {
    if groups == [] then map[]
    else
      var m := LevelMap(Init(groups));
      m[Last(groups).level := At(m, Last(groups).level) + Last(groups).occurrences]
  }

  function Hashes(groups: seq<Group>): set<string> {
    if groups == [] then {} else Hashes(Init(groups)) + {Last(groups).errorHash}
  }

  lemma NoGroups()
    ensures LevelMap([]) == map[] && Hashes([]) == {} && GroupTotal([]) == 0
    ensures forall level :: LevelTotal([], level) == 0 && At(map[], level) == 0
  {
  }

  lemma NextGroup(groups: seq<Group>, g: Group)
    ensures LevelMap(groups + [g]) == LevelMap(groups)[g.level := At(LevelMap(groups), g.level) + g.occurrences]
    ensures Hashes(groups + [g]) == Hashes(groups) + {g.errorHash}
    ensures GroupTotal(groups + [g]) == GroupTotal(groups) + g.occurrences
  {
    assert Init(groups + [g]) == groups && Last(groups + [g]) == g;
  }

  lemma {:induction false} LevelMapFacts(groups: seq<Group>)
    ensures forall level :: At(LevelMap(groups), level) == LevelTotal(groups, level)
    ensures SumValues(LevelMap(groups)) == GroupTotal(groups)
  {
    if groups != [] {
      LevelMapFacts(Init(groups));
      SumUpdate(LevelMap(Init(groups)), Last(groups).level, Last(groups).occurrences);
    }
  }

  lemma {:induction false} HashesFacts(groups: seq<Group>)
    requires DistinctHashes(groups)
    ensures |Hashes(groups)| == |groups|
    ensures forall h :: h in Hashes(groups) <==> exists i :: 0 <= i < |groups| && groups[i].errorHash == h
  {
    if groups != [] {
      var before := Init(groups);
      HashesFacts(before);
      assert forall i :: 0 <= i < |before| ==> before[i] == groups[i];
      assert Last(groups).errorHash !in Hashes(before);
    }
  }

  lemma SummaryFacts(rows: seq<Row>)
    ensures
      var groups := Deduplicated(rows);
      && GroupTotal(groups) == Total(rows)
      && |Hashes(groups)| == |groups|
      && (forall level :: At(LevelMap(groups), level) == LevelTotal(groups, level))
      && SumValues(LevelMap(groups)) == GroupTotal(groups)
      && SumValues(map[]) == 0
  {
    GroupsConserve(rows);
    GroupsDistinct(rows);
    LevelMapFacts(Deduplicated(rows));
    HashesFacts(Deduplicated(rows));
  }

  // ------------------------------------------------------------------
  // Sums
  // ------------------------------------------------------------------

  function Total(rows: seq<Row>): nat {
    if rows == [] then 0 else Total(Init(rows)) + Last(rows).count
  }

  function GroupTotal(groups: seq<Group>): nat {
    if groups == [] then 0 else GroupTotal(Init(groups)) + Last(groups).occurrences
  }

  function LevelTotal(groups: seq<Group>, level: nat): nat {
    if groups == [] then 0
    else LevelTotal(Init(groups), level) + (if Last(groups).level == level then Last(groups).occurrences else 0)
  }

  function At(m: map<nat, nat>, level: nat): nat {
    if level in m then m[level] else 0
  }

  ghost function SumValues(m: map<nat, nat>): nat {
    if m == map[] then 0
    else
      var k :| k in m;
      m[k] + SumValues(m - {k})
  }

  lemma {:induction false} SumRemove(m: map<nat, nat>, k: nat)
    requires k in m
    ensures SumValues(m) == m[k] + SumValues(m - {k})
    decreases |m|
  {
    var j :| j in m && SumValues(m) == m[j] + SumValues(m - {j});
    if j != k {
      SumRemove(m - {j}, k);
      SumRemove(m - {k}, j);
      assert m - {j} - {k} == m - {k} - {j};
    }
  }

  lemma SumUpdate(m: map<nat, nat>, k: nat, n: nat)
    ensures SumValues(m[k := At(m, k) + n]) == SumValues(m) + n
  {
    var u := m[k := At(m, k) + n];
    SumRemove(u, k);
    if k in m {
      SumRemove(m, k);
      assert u - {k} == m - {k};
    } else {
      assert u - {k} == m;
    }
  }

  lemma {:induction false} GroupTotalCons(g: Group, groups: seq<Group>)
    ensures GroupTotal([g] + groups) == g.occurrences + GroupTotal(groups)
  {
    if groups == [] {
      assert [g] + groups == [g] && Init([g]) == [];
    } else {
      assert Init([g] + groups) == [g] + Init(groups) && Last([g] + groups) == Last(groups);
      GroupTotalCons(g, Init(groups));
    }
  }

  lemma {:induction false} AddConserves(groups: seq<Group>, r: Row)
    ensures GroupTotal(AddToGroups(groups, r)) == GroupTotal(groups) + r.count
  {
    if groups == [] {
      assert Init([Group(r.errorHash, r.level, r.count)]) == [];
    } else {
      assert groups == [groups[0]] + groups[1..];
      GroupTotalCons(groups[0], groups[1..]);
      if groups[0].errorHash == r.errorHash {
        GroupTotalCons(groups[0].(occurrences := groups[0].occurrences + r.count), groups[1..]);
      } else {
        AddConserves(groups[1..], r);
        GroupTotalCons(groups[0], AddToGroups(groups[1..], r));
      }
    }
  }

  // Grouping loses no occurrence.
  lemma {:induction false} GroupsConserve(rows: seq<Row>)
    ensures GroupTotal(Deduplicated(rows)) == Total(rows)
  {
    if rows != [] {
      GroupsConserve(Init(rows));
      AddConserves(Deduplicated(Init(rows)), Last(rows));
    }
  }

  ghost predicate DistinctHashes(groups: seq<Group>) {
    forall i, j :: 0 <= i < j < |groups| ==> groups[i].errorHash != groups[j].errorHash
  }

  lemma {:induction false} AddDistinct(groups: seq<Group>, r: Row)
    requires DistinctHashes(groups)
    ensures DistinctHashes(AddToGroups(groups, r))
    ensures forall i :: 0 <= i < |AddToGroups(groups, r)| ==>
      AddToGroups(groups, r)[i].errorHash == r.errorHash || exists j :: 0 <= j < |groups| && groups[j].errorHash == AddToGroups(groups, r)[i].errorHash
  {
    if groups != [] && groups[0].errorHash != r.errorHash {
      AddDistinct(groups[1..], r);
    }
  }

  lemma {:induction false} GroupsDistinct(rows: seq<Row>)
    ensures DistinctHashes(Deduplicated(rows))
  {
    if rows != [] {
      GroupsDistinct(Init(rows));
      AddDistinct(Deduplicated(Init(rows)), Last(rows));
    }
  }

  // ------------------------------------------------------------------
  // Runs
  // ------------------------------------------------------------------

  // A call and whether it succeeded.
  datatype Op =
    | Store(instanceId: string, processId: string, error: SimpleError, errorHash: string, ok: bool)
    | Clear(instanceId: string, ok: bool)

  function After(ops: seq<Op>): Table {
    if ops == [] then Table([], 1)
    else
      var t := After(Init(ops));
      match Last(ops)
      case Store(inst, process, e, h, ok) => if ok then Stored(t, inst, process, e, h) else t
      case Clear(inst, ok) => if ok then t.(rows := Without(t.rows, inst)) else t
  }

  // Successful stores of a hash for an instance since its last clear.
  function Successes(ops: seq<Op>, instanceId: string, errorHash: string): nat {
    if ops == [] then 0
    else match Last(ops)
      case Store(inst, _, _, h, ok) =>
        Successes(Init(ops), instanceId, errorHash) + (if ok && inst == instanceId && h == errorHash then 1 else 0)
      case Clear(inst, ok) => if ok && inst == instanceId then 0 else Successes(Init(ops), instanceId, errorHash)
  }

  function AllSuccesses(ops: seq<Op>, instanceId: string): nat {
    if ops == [] then 0
    else match Last(ops)
      case Store(inst, _, _, _, ok) => AllSuccesses(Init(ops), instanceId) + (if ok && inst == instanceId then 1 else 0)
      case Clear(inst, ok) => if ok && inst == instanceId then 0 else AllSuccesses(Init(ops), instanceId)
  }

  // At most one row for each instance and hash.
  ghost predicate OneRowEach(rows: seq<Row>) {
    forall i, j :: 0 <= i < j < |rows| ==> !Matches(rows[j], rows[i].instanceId, rows[i].errorHash)
  }

  // The count in the row for an instance and hash.
  function CountOf(rows: seq<Row>, instanceId: string, errorHash: string): nat {
    match FindRow(rows, instanceId, errorHash)
    case None => 0
    case Some(i) => rows[i].count
  }

  lemma {:induction false} FindUpdated(rows: seq<Row>, i: nat, r: Row, instanceId: string, errorHash: string)
    requires i < |rows| && r.instanceId == rows[i].instanceId && r.errorHash == rows[i].errorHash
    ensures FindRow(rows[i := r], instanceId, errorHash) == FindRow(rows, instanceId, errorHash)
  {
    if i > 0 {
      assert rows[i := r][1..] == rows[1..][i - 1 := r];
      FindUpdated(rows[1..], i - 1, r, instanceId, errorHash);
    } else {
      assert rows[i := r][1..] == rows[1..];
    }
  }

  lemma {:induction false} FindPushed(rows: seq<Row>, r: Row, instanceId: string, errorHash: string)
    ensures FindRow(rows + [r], instanceId, errorHash) ==
      if FindRow(rows, instanceId, errorHash).Some? then FindRow(rows, instanceId, errorHash)
      else if Matches(r, instanceId, errorHash) then Some(|rows|) else None
  {
    if rows == [] {
      assert rows + [r] == [r] && [r][1..] == [];
    } else {
      assert (rows + [r])[0] == rows[0] && (rows + [r])[1..] == rows[1..] + [r];
      FindPushed(rows[1..], r, instanceId, errorHash);
    }
  }

  lemma StoredCounts(t: Table, inst: string, process: string, e: SimpleError, h: string, i: string, g: string)
    requires OneRowEach(t.rows)
    ensures OneRowEach(Stored(t, inst, process, e, h).rows)
    ensures CountOf(Stored(t, inst, process, e, h).rows, i, g) == CountOf(t.rows, i, g) + (if i == inst && g == h then 1 else 0)
  {
    match FindRow(t.rows, inst, h)
    case Some(k) =>
      var r := t.rows[k].(count := t.rows[k].count + 1, timestamp := e.timestamp, rawOutput := e.rawOutput);
      FindUpdated(t.rows, k, r, i, g);
    case None =>
      FindPushed(t.rows, Row(t.nextId, inst, process, h, e.timestamp, e.level, e.message, e.rawOutput, 1), i, g);
  }

  lemma {:induction false} WithoutRows(rows: seq<Row>, inst: string)
    requires OneRowEach(rows)
    ensures OneRowEach(Without(rows, inst))
  {
    if rows != [] {
      var rest := Without(rows[1..], inst);
      WithoutRows(rows[1..], inst);
      FilterMembers(rows[1..], NotOf(inst));
      forall k | 0 <= k < |rest| ensures !Matches(rest[k], rows[0].instanceId, rows[0].errorHash) {
        assert rest[k] in rows[1..];
      }
    }
  }

  lemma {:induction false} WithoutFinds(rows: seq<Row>, cleared: string, i: string, g: string)
    requires i != cleared
    ensures CountOf(Without(rows, cleared), i, g) == CountOf(rows, i, g)
  {
    if rows != [] {
      WithoutFinds(rows[1..], cleared, i, g);
      var rest := Without(rows[1..], cleared);
      assert ([rows[0]] + rest)[1..] == rest;
    }
  }

  lemma WithoutCounts(rows: seq<Row>, inst: string, i: string, g: string)
    requires OneRowEach(rows)
    ensures OneRowEach(Without(rows, inst))
    ensures CountOf(Without(rows, inst), i, g) == if i == inst then 0 else CountOf(rows, i, g)
  {
    WithoutRows(rows, inst);
    if i != inst {
      WithoutFinds(rows, inst, i, g);
    } else {
      FilterMembers(rows, NotOf(inst));
      var rest := Without(rows, inst);
      assert forall k :: 0 <= k < |rest| ==> rest[k] in rest;
    }
  }

  // In every run of storeError and clearErrors there is at most one row for
  // each instance and hash, and its count is the number of successful stores
  // since the instance's last clear.
  lemma {:induction false} CountsConserve(ops: seq<Op>, instanceId: string, errorHash: string)
    ensures OneRowEach(After(ops).rows)
    ensures CountOf(After(ops).rows, instanceId, errorHash) == Successes(ops, instanceId, errorHash)
  {
    if ops != [] {
      CountsConserve(Init(ops), instanceId, errorHash);
      var t := After(Init(ops));
      match Last(ops)
      case Store(inst, process, e, h, ok) => StoredCounts(t, inst, process, e, h, instanceId, errorHash);
      case Clear(inst, ok) => WithoutCounts(t.rows, inst, instanceId, errorHash);
    }
  }

  lemma {:induction false} TotalCons(r: Row, rows: seq<Row>)
    ensures Total([r] + rows) == r.count + Total(rows)
  {
    if rows == [] {
      assert [r] + rows == [r] && Init([r]) == [];
    } else {
      assert Init([r] + rows) == [r] + Init(rows) && Last([r] + rows) == Last(rows);
      TotalCons(r, Init(rows));
    }
  }

  lemma {:induction false} TotalUpdated(rows: seq<Row>, i: nat, r: Row, inst: string)
    requires i < |rows| && r.instanceId == rows[i].instanceId && r.count == rows[i].count + 1
    ensures Total(OfInstance(rows[i := r], inst)) == Total(OfInstance(rows, inst)) + (if r.instanceId == inst then 1 else 0)
  {
    var rest := OfInstance(rows[1..], inst);
    TotalCons(rows[0], rest);
    if i > 0 {
      assert rows[i := r][1..] == rows[1..][i - 1 := r];
      TotalUpdated(rows[1..], i - 1, r, inst);
      TotalCons(rows[0], OfInstance(rows[1..][i - 1 := r], inst));
    } else {
      assert rows[i := r][1..] == rows[1..];
      TotalCons(r, rest);
    }
  }

  lemma {:induction false} TotalWithout(rows: seq<Row>, cleared: string, inst: string)
    ensures OfInstance(Without(rows, cleared), inst) == if cleared == inst then [] else OfInstance(rows, inst)
  {
    if rows != [] {
      TotalWithout(rows[1..], cleared, inst);
      var rest := Without(rows[1..], cleared);
      assert ([rows[0]] + rest)[1..] == rest;
    }
  }

  // The occurrences that getErrorSummary reports for an instance are all
  // successful stores since its last clear.
  lemma {:induction false} TotalConserves(ops: seq<Op>, instanceId: string)
    ensures Total(OfInstance(After(ops).rows, instanceId)) == AllSuccesses(ops, instanceId)
  {
    if ops != [] {
      TotalConserves(Init(ops), instanceId);
      var t := After(Init(ops));
      match Last(ops)
      case Store(inst, process, e, h, ok) =>
        match FindRow(t.rows, inst, h) {
          case Some(k) =>
            var r := t.rows[k].(count := t.rows[k].count + 1, timestamp := e.timestamp, rawOutput := e.rawOutput);
            TotalUpdated(t.rows, k, r, instanceId);
          case None =>
            var r := Row(t.nextId, inst, process, h, e.timestamp, e.level, e.message, e.rawOutput, 1);
            FilterLast(t.rows, r, Of(instanceId));
        }
      case Clear(inst, ok) => TotalWithout(t.rows, inst, instanceId);
    }
  }

  // With one row each, grouping merges nothing: the unique errors of a summary
  // are the rows of the instance.
  lemma {:induction false} GroupsAreRows(rows: seq<Row>)
    requires forall i, j :: 0 <= i < j < |rows| ==> rows[i].errorHash != rows[j].errorHash
    ensures Deduplicated(rows) == seq(|rows|, i requires 0 <= i < |rows| => Group(rows[i].errorHash, rows[i].level, rows[i].count))
  {
    if rows != [] {
      GroupsAreRows(Init(rows));
      AddNew(Deduplicated(Init(rows)), Last(rows));
    }
  }

  lemma {:induction false} AddNew(groups: seq<Group>, r: Row)
    requires forall i :: 0 <= i < |groups| ==> groups[i].errorHash != r.errorHash
    ensures AddToGroups(groups, r) == groups + [Group(r.errorHash, r.level, r.count)]
  {
    if groups != [] {
      AddNew(groups[1..], r);
      assert groups == [groups[0]] + groups[1..];
    }
  }

  lemma {:induction false} OfInstanceDistinct(rows: seq<Row>, inst: string)
    requires OneRowEach(rows)
    ensures forall i :: 0 <= i < |OfInstance(rows, inst)| ==> OfInstance(rows, inst)[i] in rows && OfInstance(rows, inst)[i].instanceId == inst
    ensures forall i, j :: 0 <= i < j < |OfInstance(rows, inst)| ==> OfInstance(rows, inst)[i].errorHash != OfInstance(rows, inst)[j].errorHash
  {
    if rows != [] {
      OfInstanceDistinct(rows[1..], inst);
      var rest := OfInstance(rows[1..], inst);
      if rows[0].instanceId == inst {
        forall k | 0 <= k < |rest| ensures rest[k].errorHash != rows[0].errorHash {
          var j :| 0 <= j < |rows[1..]| && rows[1..][j] == rest[k];
          assert !Matches(rows[j + 1], rows[0].instanceId, rows[0].errorHash);
        }
      }
    }
  }

  lemma UniqueErrorsAreRows(ops: seq<Op>, instanceId: string)
    ensures |Deduplicated(OfInstance(After(ops).rows, instanceId))| == |OfInstance(After(ops).rows, instanceId)|
  {
    CountsConserve(ops, instanceId, "");
    OfInstanceDistinct(After(ops).rows, instanceId);
    GroupsAreRows(OfInstance(After(ops).rows, instanceId));
  }
}
