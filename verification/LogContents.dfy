// What the log table of container/storage.ts holds after any run, told from the
// calls alone.
module LogContents {
  import opened Wrappers
  import opened Text
  import opened Sorting
  import opened LogStore

  const FRESH := Store([], 1)

  // Call `k` stored the log of this row: a batch all of whose statements succeed.
  ghost predicate StoredBy(ops: seq<Op>, k: nat, r: Row) {
    && k < |ops| && ops[k].StoreBatch?
    && ops[k].answers.begin && ops[k].answers.commit
    && (forall i :: 0 <= i < |ops[k].logs| ==> ops[k].answers.inserts(i))
    && exists i :: 0 <= i < |ops[k].logs| && r == Row(ops[k].logs[i], ops[k].now, Run(FRESH, ops[..k]).counter + i)
  }

  // A call that leaves the row: it clears another instance, or the row is not
  // older than the cutoff.
  predicate Spares(op: Op, r: Row) {
    match op
    case Clear(instanceId, ok) => ok ==> instanceId != r.log.instanceId
    case Cleanup(cutoff, ok) => ok ==> r.timestamp >= cutoff
    case _ => true
  }

  ghost predicate Lives(ops: seq<Op>, k: nat, r: Row) {
    StoredBy(ops, k, r) && forall j :: k < j < |ops| ==> Spares(ops[j], r)
  }

  lemma BatchRows(s: Store, op: Op, r: Row)
    requires Ordered(s) && op.StoreBatch?
    ensures r in After(s, op).rows <==>
      || r in s.rows
      || (&& op.answers.begin && op.answers.commit && (forall i :: 0 <= i < |op.logs| ==> op.answers.inserts(i))
          && exists i :: 0 <= i < |op.logs| && r == Row(op.logs[i], op.now, s.counter + i))
  {
    BatchEffect(s, op.logs, op.now, op.answers);
    if Committed(s, op.logs, op.now, op.answers) {
      var added := Numbered(op.logs, op.now, s.counter);
      assert forall i :: 0 <= i < |op.logs| ==> added[i] == Row(op.logs[i], op.now, s.counter + i);
      assert r in After(s, op).rows <==> r in s.rows || r in added;
    }
  }

  lemma OtherRows(s: Store, op: Op, r: Row)
    requires !op.StoreBatch?
    ensures r in After(s, op).rows <==> r in s.rows && Spares(op, r)
  {
    match op
    case Clear(instanceId, ok) => FilterMembers(s.rows, NotOf(instanceId));
    case Cleanup(cutoff, ok) => FilterMembers(s.rows, Since(cutoff));
    case Open =>
  }

  lemma LivesStep(ops: seq<Op>, r: Row)
    requires ops != []
    ensures (exists k: nat :: Lives(ops, k, r)) <==>
      StoredBy(ops, |ops| - 1, r) || (Spares(Last(ops), r) && exists k: nat :: Lives(Init(ops), k, r))
  {
    var n, before := |ops| - 1, Init(ops);
    forall k: nat | k < n ensures StoredBy(before, k, r) <==> StoredBy(ops, k, r) {
      assert before[..k] == ops[..k] && before[k] == ops[k];
    }
    hide StoredBy;
    assert forall k: nat :: Lives(before, k, r) && Spares(Last(ops), r) ==> Lives(ops, k, r) by {
      assert forall k: nat :: StoredBy(before, k, r) ==> k < n by { StoredEarlier(before, r); }
    }
    StoredEarlier(ops, r);
    forall k: nat | Lives(ops, k, r) ensures k == n || (Spares(Last(ops), r) && Lives(before, k, r)) {
      if k < n {
        assert forall j :: k < j < n ==> before[j] == ops[j];
      }
    }
    if StoredBy(ops, n, r) {
      assert Lives(ops, n, r);
    }
  }

  lemma StoredEarlier(ops: seq<Op>, r: Row)
    ensures forall k: nat :: StoredBy(ops, k, r) ==> k < |ops|
  {
  }

  // After any run a row is in the table exactly when a call stored it and none
  // since then cleared its instance or dropped it as too old.
  lemma {:induction false} RowLives(ops: seq<Op>, r: Row)
    ensures r in Run(FRESH, ops).rows <==> exists k: nat :: Lives(ops, k, r)
  {
    if ops != [] {
      var s := Run(FRESH, Init(ops));
      RowLives(Init(ops), r);
      OrderedRun(Init(ops));
      LivesStep(ops, r);
      var op := Last(ops);
      assert ops[..|ops| - 1] == Init(ops);
      hide Run, Lives, After;
      if op.StoreBatch? {
        BatchRows(s, op, r);
        assert Spares(op, r);
      } else {
        OtherRows(s, op, r);
        assert !StoredBy(ops, |ops| - 1, r);
      }
    }
  }

  // ------------------------------------------------------------------
  // Single calls
  // ------------------------------------------------------------------

  // One log: it is added exactly when its statement succeeds, and its number is
  // used up either way.
  lemma AppendExactly(ops: seq<Op>, log: ProcessLog, now: int, ok: bool)
    ensures
      var s := Run(FRESH, ops);
      var t := Append(s, log, now, ok);
      t.counter == s.counter + 1 && t.rows == if ok then s.rows + [Row(log, now, s.counter)] else s.rows
  {
    OrderedRun(ops);
    InsertOrdered(Run(FRESH, ops), log, now, ok);
  }

  // What a failed batch costs: the numbers up to the insert that failed.
  lemma FailedBatch(s: Store, logs: seq<ProcessLog>, now: int, answers: Answers, k: nat)
    requires Ordered(s) && k <= |logs| && forall i :: 0 <= i < k ==> answers.inserts(i)
    requires k < |logs| ==> !answers.inserts(k)
    requires !(answers.begin && answers.commit && k == |logs|)
    ensures
      var t := Batch(s, logs, now, answers);
      && t.rows == s.rows
      && t.counter == s.counter + if !answers.begin then 0 else if k < |logs| then k + 1 else |logs|
  {
    BatchEffect(s, logs, now, answers);
    InsertFromEffect(s, logs, now, answers.inserts, 0);
  }

  // The values a client leaves out.
  lemma PageDefaults(rows: seq<Row>, instanceId: string, offset: nat)
    ensures GetPage(rows, instanceId, None, None) == GetPage(rows, instanceId, Some(100), Some(0))
    ensures GetPage(rows, instanceId, Some(0), Some(offset)) == GetPage(rows, instanceId, Some(100), Some(offset))
    ensures offset <= |Selected(rows, instanceId)| ==>
              GetPage(rows, instanceId, Some(-1), Some(offset)).logs == Selected(rows, instanceId)[offset..]
  {
  }

  // What the pages are made of: the logs of the instance, no others.
  lemma SelectedExactly(rows: seq<Row>, instanceId: string, r: Row)
    ensures r in Selected(rows, instanceId) <==> r in rows && r.log.instanceId == instanceId
  {
    var own := Filter(rows, Of(instanceId));
    FilterMembers(rows, Of(instanceId));
    SortMultiset(own, Newer());
    assert r in own <==> r in multiset(own);
    assert r in Selected(rows, instanceId) <==> r in multiset(Selected(rows, instanceId));
  }
}
