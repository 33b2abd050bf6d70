// MigrationTester (debug-tools/migration_tester.py): deduplicate conversation
// messages, sort them by the time in their ids, drop internal memos from long
// conversations.
module Migration {
  import opened Wrappers
  import opened Text
  import opened Sorting

  const MIN_MESSAGES_FOR_CLEANUP: nat := 25

  // A string, or anything else through json.dumps.
  datatype Content = Plain(text: string) | Dumped(json: string)

  // A missing field is None; `rest` stands for the other fields.
  datatype Message = Message(conversationId: Option<string>, role: Option<string>, content: Option<Content>, rest: string)

  datatype MigrationResult = MigrationResult(
    originalCount: nat, deduplicatedCount: nat, finalCount: nat, duplicatesRemoved: int, oldMessagesRemoved: nat,
    uniqueConversationIds: set<string>, finalMessages: seq<Message>)

  // ------------------------------------------------------------------
  // One message
  // ------------------------------------------------------------------

  function ContentString(m: Message): string {
    match m.content
    case None => ""
    case Some(Plain(text)) => text
    case Some(Dumped(json)) => json
  }

  function Role(m: Message): string {
    if m.role.Some? then m.role.value else "unknown"
  }

  function Take(s: string, n: nat): string {
    if |s| <= n then s else s[..n]
  }

  predicate HasId(m: Message) {
    m.conversationId.Some? && m.conversationId.value != ""
  }

  function Id(m: Message): string {
    if m.conversationId.Some? then m.conversationId.value else ""
  }

  // extract_timestamp_from_id, for any reading of decimal strings.
  function Timestamp(id: string, toInt: string -> Option<int>): int {
    if "conv-" <= id && |Split(id, '-')| >= 2 then
      var n := toInt(Split(id, '-')[1]);
      if n.Some? then n.value else 0
    else 0
  }

  // What a message is deduplicated by.
  function Key(m: Message): string {
    if HasId(m) then Id(m) else Role(m) + "_" + Take(ContentString(m), 100) + "_" + "0"
  }

  predicate Contains(s: string, sub: string) {
    exists i :: 0 <= i <= |s| && sub <= s[i..]
  }

  predicate IsMemo(m: Message) {
    Contains(ContentString(m), "**<Internal Memo>**") || Contains(ContentString(m), "Project Updates:")
  }

  ghost predicate Holds(s: string, sub: string) {
    exists before: string, after: string :: s == before + sub + after
  }

  lemma ContainsExactly(s: string, sub: string)
    ensures Contains(s, sub) <==> Holds(s, sub)
  {
    if i :| 0 <= i <= |s| && sub <= s[i..] {
      assert s == s[..i] + sub + s[i + |sub|..];
    }
    if before: string, after: string :| s == before + sub + after {
      assert s[|before|..] == sub + after;
    }
  }

  // A memo is a message whose text, or whose JSON, holds one of the two markers.
  lemma MemoExactly(m: Message)
    ensures IsMemo(m) <==>
      && m.content.Some?
      && match m.content.value
         case Plain(text) => Holds(text, "**<Internal Memo>**") || Holds(text, "Project Updates:")
         case Dumped(json) => Holds(json, "**<Internal Memo>**") || Holds(json, "Project Updates:")
  {
    ContainsExactly(ContentString(m), "**<Internal Memo>**");
    ContainsExactly(ContentString(m), "Project Updates:");
    hide Holds;
    assert m.content.None? ==> !IsMemo(m);
  }

  function ByTime(toInt: string -> Option<int>): (Message, Message) -> bool {
    (a: Message, b: Message) => Timestamp(Id(a), toInt) <= Timestamp(Id(b), toInt)
  }

  // The id format `conv-{timestamp}-{random}` is read back.
  lemma TimestampOfId(t: nat, random: string, toInt: string -> Option<int>)
    requires toInt(Decimal(t)) == Some(t)
    ensures Timestamp("conv-" + Decimal(t) + "-" + random, toInt) == t
  {
    var id := "conv-" + Decimal(t) + "-" + random;
    DecimalNoDash(t);
    hide Decimal;
    SplitAt(Decimal(t), random, '-');
    assert "conv" + ['-'] == "conv-";
    assert id == "conv" + ['-'] + (Decimal(t) + ['-'] + random);
    SplitAt("conv", Decimal(t) + ['-'] + random, '-');
    assert id[..5] == "conv-";
  }

  // A missing random part does not matter; other ids and unreadable times are 0,
  // so they sort first.
  lemma TimestampOtherwise(id: string, t: nat, toInt: string -> Option<int>)
    ensures toInt(Decimal(t)) == Some(t) ==> Timestamp("conv-" + Decimal(t), toInt) == t
    ensures !("conv-" <= id) ==> Timestamp(id, toInt) == 0
    ensures (forall s :: toInt(s) == None) ==> Timestamp(id, toInt) == 0
  {
    DecimalNoDash(t);
    hide Decimal;
    SplitAt(Decimal(t), "", '-');
    assert "conv" + ['-'] + Decimal(t) == "conv-" + Decimal(t);
    SplitAt("conv", Decimal(t), '-');
    assert ("conv-" + Decimal(t))[..5] == "conv-";
  }

  // What makes two messages without an id duplicates, given the same role: their
  // first 100 characters.
  lemma MadeUpKeyExactly(a: Message, b: Message)
    requires !HasId(a) && !HasId(b) && Role(a) == Role(b)
    ensures
      var s, t := ContentString(a), ContentString(b);
      Key(a) == Key(b) <==>
        && (|s| == |t| || (|s| >= 100 && |t| >= 100))
        && forall i :: 0 <= i < 100 && i < |s| && i < |t| ==> s[i] == t[i]
  {
    var s, t := ContentString(a), ContentString(b);
    var x, y, r := Take(s, 100), Take(t, 100), Role(a) + "_";
    assert Key(a) == r + (x + "_0") && Key(b) == r + (y + "_0") by {
      assert Role(a) + "_" + x + "_" + "0" == r + (x + "_0");
      assert Role(b) + "_" + y + "_" + "0" == r + (y + "_0");
    }
    if Key(a) == Key(b) {
      assert |x| == |y|;
      assert x == (r + (x + "_0"))[|r|..|r| + |x|] && y == (r + (y + "_0"))[|r|..|r| + |y|];
      assert x == y;
      forall i | 0 <= i < 100 && i < |s| && i < |t| ensures s[i] == t[i] {
        assert x[i] == y[i];
      }
    } else {
      assert x != y;
    }
  }

  lemma {:induction false} DecimalNoDash(n: nat)
    ensures '-' !in Decimal(n)
  {
    if n >= 10 {
      DecimalNoDash(n / 10);
    }
  }

  // ------------------------------------------------------------------
  // The algorithm
  // ------------------------------------------------------------------

  ghost predicate KeySeen(ms: seq<Message>, key: string) {
    exists i :: 0 <= i < |ms| && Key(ms[i]) == key
  }

  ghost function Dedupe(ms: seq<Message>): seq<Message> {
    if ms == [] then []
    else if KeySeen(Init(ms), Key(Last(ms))) then Dedupe(Init(ms))
    else Dedupe(Init(ms)) + [Last(ms)]
  }

  function Real(): Message -> bool {
    (m: Message) => !IsMemo(m)
  }

  function Cleaned(ms: seq<Message>): seq<Message> {
    if |ms| > MIN_MESSAGES_FOR_CLEANUP then Filter(ms, Real()) else ms
  }

  ghost function Migrated(ms: seq<Message>, toInt: string -> Option<int>): seq<Message> {
    Cleaned(Sort(Dedupe(ms), ByTime(toInt)))
  }

  ghost function Ids(ms: seq<Message>): set<string> {
    set i | 0 <= i < |ms| && HasId(ms[i]) :: Id(ms[i])
  }

  // Every message is in the result, or was removed as a duplicate, or as a memo.
  method ApplyMigrationAlgorithm(messages: seq<Message>, toInt: string -> Option<int>) returns (r: MigrationResult)
    ensures r.finalMessages == Migrated(messages, toInt)
    ensures r.originalCount == |messages| && r.finalCount == |r.finalMessages|
    ensures r.deduplicatedCount == |Dedupe(messages)|
    ensures r.originalCount == r.finalCount + r.duplicatesRemoved + r.oldMessagesRemoved
    ensures r.duplicatesRemoved >= 0
    ensures r.uniqueConversationIds == Ids(Dedupe(messages))
  {
    var seen: set<string> := {};
    var unique: seq<Message> := [];
    var i := 0;
    while i < |messages|
      invariant 0 <= i <= |messages|
      invariant unique == Dedupe(messages[..i]) && |unique| <= i
      invariant forall key :: key in seen <==> KeySeen(messages[..i], key)
    {
      var message := messages[i];
      var key := Key(message);
      var before := messages[..i];
      assert messages[..i + 1] == before + [message];
      assert Init(messages[..i + 1]) == before && Last(messages[..i + 1]) == message;
      SeenStep(before, message);
      if key !in seen {
        seen := seen + {key};
        unique := unique + [message];
      }
      i := i + 1;
    }
    assert messages[..i] == messages;
    var sorted := Sort(unique, ByTime(toInt));
    SortMultiset(unique, ByTime(toInt));
    var final, memosRemoved := sorted, 0;
    if |sorted| > MIN_MESSAGES_FOR_CLEANUP {
      var kept, memos := Partition(sorted);
      final, memosRemoved := kept, |memos|;
    }
    var ids := UniqueIds(sorted);
    SameIds(sorted, unique);
    return MigrationResult(|messages|, |unique|, |final|, |messages| - |unique|, memosRemoved, ids, final);
  }

  lemma SeenStep(before: seq<Message>, m: Message)
    ensures forall key :: KeySeen(before + [m], key) <==> KeySeen(before, key) || key == Key(m)
  {
    var all := before + [m];
    assert forall i :: 0 <= i < |before| ==> all[i] == before[i];
    assert all[|before|] == m;
  }

  lemma SameIds(a: seq<Message>, b: seq<Message>)
    requires multiset(a) == multiset(b)
    ensures Ids(a) == Ids(b)
  {
    forall i | 0 <= i < |a| ensures a[i] in b {
      assert a[i] in multiset(b);
    }
    forall i | 0 <= i < |b| ensures b[i] in a {
      assert b[i] in multiset(a);
    }
  }

  // The filtering loop.
  method Partition(ms: seq<Message>) returns (kept: seq<Message>, memos: seq<Message>)
    ensures kept == Filter(ms, Real())
    ensures memos == Filter(ms, IsMemo)
    ensures |kept| + |memos| == |ms|
  {
    hide Filter, IsMemo;
    FilterNone([], Real());
    FilterNone([], IsMemo);
    kept, memos := [], [];
    var i := 0;
    while i < |ms|
      invariant 0 <= i <= |ms|
      invariant kept == Filter(ms[..i], Real()) && memos == Filter(ms[..i], IsMemo)
      invariant |kept| + |memos| == i
    {
      assert ms[..i + 1] == ms[..i] + [ms[i]];
      FilterLast(ms[..i], ms[i], Real());
      FilterLast(ms[..i], ms[i], IsMemo);
      if IsMemo(ms[i]) {
        memos := memos + [ms[i]];
      } else {
        kept := kept + [ms[i]];
      }
      i := i + 1;
    }
    assert ms[..i] == ms;
  }

  method UniqueIds(ms: seq<Message>) returns (ids: set<string>)
    ensures ids == Ids(ms)
  {
    ids := {};
    for i := 0 to |ms|
      invariant ids == Ids(ms[..i])
    {
      assert forall j :: 0 <= j < i ==> ms[..i + 1][j] == ms[..i][j];
      assert ms[..i + 1][i] == ms[i];
      if HasId(ms[i]) {
        ids := ids + {Id(ms[i])};
      }
    }
    assert ms[..|ms|] == ms;
  }

  // ------------------------------------------------------------------
  // Deduplication
  // ------------------------------------------------------------------

  // Position `i` holds the first message with its key.
  ghost predicate First(ms: seq<Message>, i: int) {
    0 <= i < |ms| && forall j :: 0 <= j < i ==> Key(ms[j]) != Key(ms[i])
  }

  ghost predicate DistinctKeys(ms: seq<Message>) {
    DistinctBy(ms, Key)
  }

  // The positions of first messages, in order.
  ghost function Firsts(ms: seq<Message>): seq<nat> {
    if ms == [] then []
    else if KeySeen(Init(ms), Key(Last(ms))) then Firsts(Init(ms))
    else Firsts(Init(ms)) + [|ms| - 1]
  }

  lemma FirstInit(ms: seq<Message>)
    requires ms != []
    ensures forall i :: i < |ms| - 1 ==> (First(ms, i) <==> First(Init(ms), i))
    ensures First(ms, |ms| - 1) <==> !KeySeen(Init(ms), Key(Last(ms)))
  {
    assert forall i :: 0 <= i < |ms| - 1 ==> Init(ms)[i] == ms[i];
    hide Key;
  }

  lemma {:induction false} FirstsAreFirst(ms: seq<Message>, k: nat)
    requires k < |Firsts(ms)|
    ensures First(ms, Firsts(ms)[k])
  {
    if k < |Firsts(Init(ms))| {
      FirstsAreFirst(Init(ms), k);
    }
    FirstInit(ms);
  }

  lemma {:induction false} FirstIsListed(ms: seq<Message>, i: nat)
    requires First(ms, i)
    ensures i in Firsts(ms)
  {
    FirstInit(ms);
    if i < |ms| - 1 {
      FirstIsListed(Init(ms), i);
    }
  }

  lemma {:induction false} FirstsIncrease(ms: seq<Message>)
    ensures forall k, l :: 0 <= k < l < |Firsts(ms)| ==> Firsts(ms)[k] < Firsts(ms)[l]
    ensures forall k :: 0 <= k < |Firsts(ms)| ==> Firsts(ms)[k] < |ms|
  {
    if ms != [] {
      FirstsIncrease(Init(ms));
      hide KeySeen;
    }
  }

  lemma {:induction false} FirstsValues(ms: seq<Message>)
    ensures |Firsts(ms)| == |Dedupe(ms)|
    ensures forall k :: 0 <= k < |Firsts(ms)| ==> Firsts(ms)[k] < |ms| && Dedupe(ms)[k] == ms[Firsts(ms)[k]]
  {
    if ms != [] {
      FirstsValues(Init(ms));
      assert forall i :: 0 <= i < |ms| - 1 ==> Init(ms)[i] == ms[i];
      hide Key, KeySeen;
    }
  }

  // Deduplication keeps exactly the first message of each key, in input order.
  lemma DedupeFirsts(ms: seq<Message>)
    ensures |Firsts(ms)| == |Dedupe(ms)|
    ensures forall k :: 0 <= k < |Firsts(ms)| ==> First(ms, Firsts(ms)[k]) && Dedupe(ms)[k] == ms[Firsts(ms)[k]]
    ensures forall k, l :: 0 <= k < l < |Firsts(ms)| ==> Firsts(ms)[k] < Firsts(ms)[l]
    ensures forall i :: First(ms, i) ==> i in Firsts(ms)
  {
    FirstsIncrease(ms);
    FirstsValues(ms);
    forall k | 0 <= k < |Firsts(ms)| ensures First(ms, Firsts(ms)[k]) {
      FirstsAreFirst(ms, k);
    }
    forall i | First(ms, i) ensures i in Firsts(ms) {
      FirstIsListed(ms, i);
    }
  }

  lemma DedupeDistinct(ms: seq<Message>)
    ensures DistinctKeys(Dedupe(ms))
  {
    DedupeFirsts(ms);
    var at := Firsts(ms);
    forall k, l | 0 <= k < l < |at| ensures Key(Dedupe(ms)[k]) != Key(Dedupe(ms)[l]) {
      assert First(ms, at[l]) && at[k] < at[l];
    }
  }

  lemma {:induction false} DedupeFixed(ms: seq<Message>)
    requires DistinctKeys(ms)
    ensures Dedupe(ms) == ms
  {
    if ms != [] {
      var before := Init(ms);
      assert forall i :: 0 <= i < |before| ==> before[i] == ms[i];
      DedupeFixed(before);
      assert !KeySeen(before, Key(Last(ms)));
      assert ms == before + [Last(ms)];
    }
  }

  // ------------------------------------------------------------------
  // The result is in order, and final
  // ------------------------------------------------------------------

  // The result has no key twice and is ordered by time.
  lemma MigratedOrdered(ms: seq<Message>, toInt: string -> Option<int>)
    ensures DistinctKeys(Migrated(ms, toInt))
    ensures Sorted(Migrated(ms, toInt), ByTime(toInt))
  {
    var u := Dedupe(ms);
    var s := Sort(u, ByTime(toInt));
    DedupeDistinct(ms);
    SortMultiset(u, ByTime(toInt));
    SortSorted(u, ByTime(toInt));
    DistinctPermuted(u, s, Key);
    DistinctFiltered(s, Real(), Key);
    FilterSorted(s, Real(), ByTime(toInt));
  }

  // Migrating twice is migrating once.
  lemma MigrationIdempotent(ms: seq<Message>, toInt: string -> Option<int>)
    ensures Migrated(Migrated(ms, toInt), toInt) == Migrated(ms, toInt)
  {
    var f := Migrated(ms, toInt);
    MigratedOrdered(ms, toInt);
    DedupeFixed(f);
    SortFixed(f, ByTime(toInt));
    CleanedTwice(Sort(Dedupe(ms), ByTime(toInt)));
  }

  lemma CleanedTwice(ms: seq<Message>)
    ensures Cleaned(Cleaned(ms)) == Cleaned(ms)
  {
    if |ms| > MIN_MESSAGES_FOR_CLEANUP {
      FilterMembers(ms, Real());
      FilterAll(Filter(ms, Real()), Real());
    }
  }

  // ------------------------------------------------------------------
  // What survives, and in which order
  // ------------------------------------------------------------------

  // A message is in the result exactly when it is the first of its key and, in
  // a long conversation, no memo.
  lemma SurvivesExactly(ms: seq<Message>, toInt: string -> Option<int>, m: Message)
    ensures m in Migrated(ms, toInt)
            <==> (exists i :: First(ms, i) && ms[i] == m) && (|Dedupe(ms)| <= MIN_MESSAGES_FOR_CLEANUP || !IsMemo(m))
  {
    var u := Dedupe(ms);
    var s := Sort(u, ByTime(toInt));
    SortMultiset(u, ByTime(toInt));
    assert m in s <==> m in multiset(s);
    assert m in u <==> m in multiset(u);
    FilterMembers(s, Real());
    DedupeMembers(ms, m);
    hide First, Sort, Dedupe, IsMemo;
  }

  lemma DedupeMembers(ms: seq<Message>, m: Message)
    ensures m in Dedupe(ms) <==> exists i :: First(ms, i) && ms[i] == m
  {
    var u := Dedupe(ms);
    DedupeFirsts(ms);
    hide First, Dedupe, Firsts;
    if m in u {
      var k :| 0 <= k < |u| && u[k] == m;
      assert First(ms, Firsts(ms)[k]);
    }
    if i :| 0 <= i < |ms| && First(ms, i) && ms[i] == m {
      var k :| 0 <= k < |Firsts(ms)| && Firsts(ms)[k] == i;
      assert u[k] == m;
    }
  }

  lemma {:induction false} InsertFiltered<T(!new)>(x: T, s: seq<T>, p: T -> bool, leq: (T, T) -> bool)
    requires TotalPreorder(leq) && Sorted(s, leq)
    ensures Filter(Insert(x, s, leq), p) == if p(x) then Insert(x, Filter(s, p), leq) else Filter(s, p)
  {
    if s == [] || leq(x, s[0]) {
      assert ([x] + s)[1..] == s;
      FilterMembers(s, p);
      var f := Filter(s, p);
      if f != [] {
        assert f[0] in s;
        assert leq(x, f[0]);
      }
    } else {
      var rest := Insert(x, s[1..], leq);
      assert ([s[0]] + rest)[1..] == rest;
      InsertFiltered(x, s[1..], p, leq);
      if p(s[0]) {
        assert ([s[0]] + Filter(s[1..], p))[1..] == Filter(s[1..], p);
      }
    }
  }

  // Filtering a stably sorted sequence is sorting the filtered one.
  lemma {:induction false} FilterOfSort<T(!new)>(s: seq<T>, p: T -> bool, leq: (T, T) -> bool)
    requires TotalPreorder(leq)
    ensures Filter(Sort(s, leq), p) == Sort(Filter(s, p), leq)
  {
    if s != [] {
      FilterOfSort(s[1..], p, leq);
      SortSorted(s[1..], leq);
      InsertFiltered(s[0], Sort(s[1..], leq), p, leq);
      if p(s[0]) {
        assert ([s[0]] + Filter(s[1..], p))[1..] == Filter(s[1..], p);
      }
    }
  }

  // The first messages of each key, in input order, without memos when there are
  // too many.
  ghost function Kept(ms: seq<Message>): seq<Message> {
    Cleaned(Dedupe(ms))
  }

  // The result is the kept messages rearranged, and messages of the same time
  // stay in input order.
  lemma TiesInInputOrder(ms: seq<Message>, toInt: string -> Option<int>, z: Message)
    ensures multiset(Migrated(ms, toInt)) == multiset(Kept(ms))
    ensures Filter(Migrated(ms, toInt), Rank(z, ByTime(toInt))) == Filter(Kept(ms), Rank(z, ByTime(toInt)))
  {
    SortMultiset(Dedupe(ms), ByTime(toInt));
    FilterOfSort(Dedupe(ms), Real(), ByTime(toInt));
    assert Migrated(ms, toInt) == Sort(Kept(ms), ByTime(toInt));
    SortMultiset(Kept(ms), ByTime(toInt));
    SortStable(Kept(ms), z, ByTime(toInt));
  }

  // ------------------------------------------------------------------
  // Keys made up for messages without an id
  // ------------------------------------------------------------------

  // A conversation id of the input is reported exactly when the first message
  // with that key is one that carries it.
  lemma IdReportedExactly(ms: seq<Message>, i: nat)
    requires First(ms, i)
    ensures Key(ms[i]) in Ids(Dedupe(ms)) <==> HasId(ms[i])
  {
    DedupeFirsts(ms);
    var u := Dedupe(ms);
    var k :| 0 <= k < |Firsts(ms)| && Firsts(ms)[k] == i;
    if Key(ms[i]) in Ids(u) {
      var l :| 0 <= l < |u| && HasId(u[l]) && Id(u[l]) == Key(ms[i]);
      DedupeDistinct(ms);
      assert Key(u[l]) == Key(u[k]);
      assert l == k;
    }
  }

  // A message without an id can displace one whose id looks like its made-up key.
  lemma MadeUpKeyDisplaces()
    ensures
      var a := Message(None, Some("user"), Some(Plain("hello")), "a");
      var b := Message(Some("user_hello_0"), Some("user"), Some(Plain("something else")), "b");
      Dedupe([a, b]) == [a]
  {
    var a := Message(None, Some("user"), Some(Plain("hello")), "a");
    var b := Message(Some("user_hello_0"), Some("user"), Some(Plain("something else")), "b");
    assert Key(a) == "user" + "_" + "hello" + "_" + "0";
    assert Key(a) == Key(b);
    assert Init([a, b]) == [a] && Init([a]) == [];
    assert [a][0] == a;
    assert KeySeen([a], Key(b));
    assert !KeySeen([], Key(a));
    assert Dedupe([a]) == Dedupe([]) + [a];
    assert Dedupe([a, b]) == Dedupe([a]);
  }
}
