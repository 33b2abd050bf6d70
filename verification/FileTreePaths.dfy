// How buildFileTree (sdk/src/session.ts) reads a path: what its segments are,
// and what they say about a file's place.
module FileTreePaths {
  import opened Text
  import opened Sorting
  import opened FileTree

  lemma {:induction false} NonEmptyAppend(a: seq<string>, b: seq<string>)
    ensures NonEmpty(a + b) == NonEmpty(a) + NonEmpty(b)
  {
    if a == [] {
      assert a + b == b;
    } else {
      assert (a + b)[0] == a[0] && (a + b)[1..] == a[1..] + b;
      NonEmptyAppend(a[1..], b);
    }
  }

  lemma {:induction false} NonEmptyFrom(parts: seq<string>)
    ensures forall x :: x in NonEmpty(parts) <==> x in parts && x != ""
  {
    if parts != [] {
      NonEmptyFrom(parts[1..]);
      assert parts == [parts[0]] + parts[1..];
    }
  }

  // No segment is empty or holds a slash.
  lemma SegmentsClean(p: string)
    ensures forall i :: 0 <= i < |Segments(p)| ==> Segments(p)[i] != "" && '/' !in Segments(p)[i]
  {
    SplitParts(p, '/');
    NonEmptyFrom(Split(p, '/'));
    forall i | 0 <= i < |Segments(p)| ensures '/' !in Segments(p)[i] {
      assert Segments(p)[i] in NonEmpty(Split(p, '/'));
    }
  }

  lemma PrependAppend(c: char, a: seq<string>, b: seq<string>, sep: char)
    requires a != []
    ensures Prepend(c, a + b, sep) == Prepend(c, a, sep) + b
  {
    assert (a + b)[0] == a[0] && (a + b)[1..] == a[1..] + b;
    if c == sep {
      assert [""] + (a + b) == ([""] + a) + b;
    } else {
      assert [[c] + a[0]] + (a[1..] + b) == ([[c] + a[0]] + a[1..]) + b;
    }
  }

  lemma {:induction false} SplitSlash(a: string, b: string)
    ensures Split(a + ['/'] + b, '/') == Split(a, '/') + Split(b, '/')
  {
    var s := a + ['/'] + b;
    if a == "" {
      assert s[0] == '/' && s[1..] == b;
    } else {
      assert s[0] == a[0] && s[1..] == a[1..] + ['/'] + b;
      SplitSlash(a[1..], b);
      PrependAppend(a[0], Split(a[1..], '/'), Split(b, '/'), '/');
    }
  }

  // A slash ends the segments before it and begins those behind it; so leading,
  // trailing and doubled slashes do not matter.
  lemma SegmentsAppend(a: string, b: string)
    ensures Segments(a + "/" + b) == Segments(a) + Segments(b)
  {
    SplitSlash(a, b);
    NonEmptyAppend(Split(a, '/'), Split(b, '/'));
  }

  lemma OneSegment(part: string)
    requires '/' !in part
    ensures Segments(part) == if part == "" then [] else [part]
  {
    SplitAt(part, "", '/');
    hide Split;
    assert [part][1..] == [] && NonEmpty([]) == [];
    assert NonEmpty([part]) == if part == "" then [] else [part] + [];
  }

  // Joining names and splitting again gives the names.
  lemma {:induction false} SegmentsJoin(parts: seq<string>)
    requires forall i :: 0 <= i < |parts| ==> parts[i] != "" && '/' !in parts[i]
    ensures Segments(Join(parts, "/")) == parts
  {
    hide Segments;
    if parts == [] {
      OneSegment("");
    } else {
      OneSegment(parts[0]);
      if |parts| > 1 {
        SegmentsJoin(parts[1..]);
        SegmentsAppend(parts[0], Join(parts[1..], "/"));
      }
      assert [parts[0]] + parts[1..] == parts;
    }
  }

  // ------------------------------------------------------------------
  // Depth
  // ------------------------------------------------------------------

  // How many runs of characters other than the slash a path has, counted at
  // their ends.
  function Runs(p: string): nat {
    if p == "" then 0
    else Runs(p[1..]) + if p[0] != '/' && (|p| == 1 || p[1] == '/') then 1 else 0
  }

  lemma {:induction false} SegmentsAreRuns(p: string)
    ensures |Segments(p)| == Runs(p)
  {
    if p == "" {
      OneSegment("");
    } else {
      var rest := Split(p[1..], '/');
      SegmentsAreRuns(p[1..]);
      FirstPart(p[1..]);
      assert rest == [rest[0]] + rest[1..];
      NonEmptyAppend([rest[0]], rest[1..]);
      assert [rest[0]][1..] == [] && [[p[0]] + rest[0]][1..] == [];
      if p[0] == '/' {
        assert ([""] + rest)[1..] == rest;
      } else {
        NonEmptyAppend([[p[0]] + rest[0]], rest[1..]);
      }
    }
  }

  lemma FirstPart(s: string)
    ensures Split(s, '/')[0] == "" <==> s == "" || s[0] == '/'
  {
  }

  // The files `depth` directories below.
  function FilesAt(nodes: seq<Node>, depth: nat): multiset<string> {
    if nodes == [] then multiset{}
    else FileAt(nodes[0], depth) + FilesAt(nodes[1..], depth)
  }

  function FileAt(n: Node, depth: nat): multiset<string> {
    match n
    case FileNode(_, path) => if depth == 0 then multiset{path} else multiset{}
    case DirNode(_, _, children) => if depth == 0 then multiset{} else FilesAt(children, depth - 1)
  }

  lemma {:induction false} DepthOfPlace(nodes: seq<Node>, above: seq<string>, leq: (string, string) -> bool, k: nat, p: string)
    requires forall i :: 0 <= i < |nodes| ==> OneInPlace(nodes[i], above, leq)
    ensures FilesAt(nodes, k)[p] == if |Segments(p)| == |above| + k + 1 then Paths(nodes)[p] else 0
    decreases nodes
  {
    if nodes != [] {
      DepthOfNode(nodes[0], above, leq, k, p);
      hide Segments, OneInPlace;
      DepthOfPlace(nodes[1..], above, leq, k, p);
    }
  }

  lemma {:induction false} DepthOfNode(n: Node, above: seq<string>, leq: (string, string) -> bool, k: nat, p: string)
    requires OneInPlace(n, above, leq)
    ensures FileAt(n, k)[p] == if |Segments(p)| == |above| + k + 1 then Own(n)[p] else 0
    decreases n
  {
    hide Segments, Join;
    match n
    case FileNode(name, path) =>
    case DirNode(name, path, children) =>
      if k > 0 {
        DepthOfPlace(children, above + [name], leq, k - 1, p);
      } else {
        NoShortPath(children, above + [name], leq, p);
      }
  }

  // Below `above` every path has more segments than `above`.
  lemma {:induction false} NoShortPath(nodes: seq<Node>, above: seq<string>, leq: (string, string) -> bool, p: string)
    requires forall i :: 0 <= i < |nodes| ==> OneInPlace(nodes[i], above, leq)
    ensures |Segments(p)| <= |above| ==> Paths(nodes)[p] == 0
    decreases nodes
  {
    if nodes != [] {
      NoShortNode(nodes[0], above, leq, p);
      hide Segments, OneInPlace;
      NoShortPath(nodes[1..], above, leq, p);
    }
  }

  lemma {:induction false} NoShortNode(n: Node, above: seq<string>, leq: (string, string) -> bool, p: string)
    requires OneInPlace(n, above, leq)
    ensures |Segments(p)| <= |above| ==> Own(n)[p] == 0
    decreases n
  {
    hide Segments, Join;
    match n
    case FileNode(name, path) =>
    case DirNode(name, path, children) => NoShortPath(children, above + [name], leq, p);
  }

  lemma {:induction false} FilterCount(s: seq<string>, keep: string -> bool, x: string)
    ensures multiset(Filter(s, keep))[x] == if keep(x) then multiset(s)[x] else 0
  {
    if s != [] {
      FilterCount(s[1..], keep, x);
      assert s == [s[0]] + s[1..];
    }
  }

  // A file is `depth` directories down exactly when its path has depth + 1 names
  // between its slashes, and each input path is there as often as it was given.
  lemma FilesAtDepth(paths: seq<string>, leq: (string, string) -> bool, depth: nat, p: string)
    requires TotalPreorder(leq)
    ensures FilesAt(Tree(paths, leq), depth)[p] == if Runs(p) == depth + 1 then multiset(paths)[p] else 0
  {
    TreeInPlace(paths, leq);
    TreeExact(paths, leq);
    SegmentsAreRuns(p);
    DepthOfPlace(Tree(paths, leq), [], leq, depth, p);
    FilterCount(paths, (q: string) => Segments(q) != [], p);
    hide Segments, Tree, FilesAt;
  }
}
