// Strings as sequences of characters: the trimming, splitting and joining that
// the JavaScript sources rely on, and the laws the other modules need.
module Text {

  // The characters removed by String.prototype.trim: white space and line
  // terminators.
  predicate IsSpace(c: char) {
    || c == '\t' || c == '\n' || c == '\U{000B}' || c == '\U{000C}' || c == '\r' || c == ' '
    || c == '\U{00A0}' || c == '\U{1680}' || '\U{2000}' <= c <= '\U{200A}'
    || c == '\U{2028}' || c == '\U{2029}' || c == '\U{202F}' || c == '\U{205F}'
    || c == '\U{3000}' || c == '\U{FEFF}'
  }

  function TrimStart(s: string): string {
    if s != "" && IsSpace(s[0]) then TrimStart(s[1..]) else s
  }

  function TrimEnd(s: string): string {
    if s != "" && IsSpace(s[|s| - 1]) then TrimEnd(s[..|s| - 1]) else s
  }

  function Trim(s: string): string {
    TrimEnd(TrimStart(s))
  }

  lemma {:induction false} TrimStartFacts(s: string)
    ensures |TrimStart(s)| <= |s| && TrimStart(s) == s[|s| - |TrimStart(s)|..]
    ensures TrimStart(s) != "" ==> !IsSpace(TrimStart(s)[0])
  {
    if s != "" && IsSpace(s[0]) {
      TrimStartFacts(s[1..]);
    }
  }

  lemma {:induction false} TrimEndFacts(s: string)
    ensures TrimEnd(s) <= s
    ensures TrimEnd(s) != "" ==> !IsSpace(TrimEnd(s)[|TrimEnd(s)| - 1])
  {
    if s != "" && IsSpace(s[|s| - 1]) {
      TrimEndFacts(s[..|s| - 1]);
    }
  }

  // What trim leaves begins and ends with other characters, all from `s`.
  lemma TrimFacts(s: string)
    ensures Trim(s) != "" ==> !IsSpace(Trim(s)[0]) && !IsSpace(Trim(s)[|Trim(s)| - 1])
    ensures forall c :: c !in s ==> c !in Trim(s)
  {
    TrimStartFacts(s);
    TrimEndFacts(TrimStart(s));
    hide TrimStart, TrimEnd;
    assert Trim(s) != "" ==> Trim(s)[0] == TrimStart(s)[0];
  }

  // A string that neither begins nor ends with white space is its own trim.
  lemma TrimFixed(s: string)
    requires s != "" && !IsSpace(s[0]) && !IsSpace(s[|s| - 1])
    ensures Trim(s) == s
  {
  }

  predicate Blank(s: string) {
    forall i :: 0 <= i < |s| ==> IsSpace(s[i])
  }

  lemma {:induction false} TrimStartBlank(a: string, b: string)
    requires Blank(a)
    ensures TrimStart(a + b) == TrimStart(b)
  {
    if a == "" {
      assert a + b == b;
    } else {
      assert (a + b)[0] == a[0] && (a + b)[1..] == a[1..] + b;
      TrimStartBlank(a[1..], b);
    }
  }

  lemma {:induction false} TrimStartText(a: string, b: string)
    requires !Blank(a)
    ensures TrimStart(a) != "" && TrimStart(a + b) == TrimStart(a) + b
  {
    assert (a + b)[0] == a[0] && (a + b)[1..] == a[1..] + b;
    if IsSpace(a[0]) {
      assert !Blank(a[1..]) by {
        var i :| 0 <= i < |a| && !IsSpace(a[i]);
        assert a[1..][i - 1] == a[i];
      }
      TrimStartText(a[1..], b);
    }
  }

  lemma {:induction false} TrimEndBlank(a: string, b: string)
    requires Blank(b)
    ensures TrimEnd(a + b) == TrimEnd(a)
  {
    if b == "" {
      assert a + b == a;
    } else {
      assert (a + b)[..|a + b| - 1] == a + b[..|b| - 1];
      TrimEndBlank(a, b[..|b| - 1]);
    }
  }

  // Only white space trims to nothing.
  lemma TrimBlank(s: string)
    ensures Trim(s) == "" <==> Blank(s)
  {
    assert s + "" == s;
    if Blank(s) {
      TrimStartBlank(s, "");
    } else {
      TrimStartText(s, "");
      TrimStartFacts(s);
      TrimEndKeeps(TrimStart(s));
    }
  }

  lemma {:induction false} TrimEndKeeps(s: string)
    requires s != "" && !IsSpace(s[0])
    ensures TrimEnd(s) != ""
  {
    if IsSpace(s[|s| - 1]) {
      TrimEndKeeps(s[..|s| - 1]);
    }
  }

  // White space beside a text does not matter to its trim.
  lemma TrimBeside(a: string, b: string)
    ensures Trim(a) == "" ==> Trim(a + b) == Trim(b)
    ensures Trim(b) == "" ==> Trim(a + b) == Trim(a)
  {
    TrimBlank(a);
    TrimBlank(b);
    if Blank(a) {
      TrimStartBlank(a, b);
    } else {
      TrimStartText(a, b);
      if Blank(b) {
        TrimEndBlank(TrimStart(a), b);
      }
    }
  }

  // String.prototype.split with a one-character separator: never empty.
  function Split(s: string, sep: char): (parts: seq<string>)
    ensures |parts| > 0
  {
    if s == "" then [""]
    else
      Prepend(s[0], Split(s[1..], sep), sep)
  }

  function Join(parts: seq<string>, sep: string): string {
    if parts == [] then ""
    else if |parts| == 1 then parts[0]
    else parts[0] + sep + Join(parts[1..], sep)
  }

  function Init<T>(s: seq<T>): seq<T>
    requires |s| > 0
  {
    s[..|s| - 1]
  }

  function Last<T>(s: seq<T>): T
    requires |s| > 0
  {
    s[|s| - 1]
  }

  function Concat(parts: seq<string>): string {
    if parts == [] then "" else parts[0] + Concat(parts[1..])
  }

  // The parts of a non-empty string in terms of those of its tail.
  function Prepend(c: char, rest: seq<string>, sep: char): seq<string>
    requires |rest| > 0
  {
    if c == sep then [""] + rest else [[c] + rest[0]] + rest[1..]
  }

  lemma PrependResume(c: char, rest: seq<string>, more: seq<string>, sep: char)
    requires |rest| > 0 && |more| > 0
    ensures |rest| > 1 ==> Prepend(c, Init(rest) + more, sep) == Init(Prepend(c, rest, sep)) + more
    ensures |rest| == 1 && c == sep ==> Prepend(c, more, sep) == Init(Prepend(c, rest, sep)) + more
    ensures |rest| > 1 || c == sep ==> Last(Prepend(c, rest, sep)) == Last(rest)
  {
    if c == sep {
      InitAfter("", rest, more);
    } else if |rest| > 1 {
      InitAfter([c] + rest[0], rest[1..], more);
      InitTail(rest, more);
    }
  }

  lemma InitAfter(first: string, rest: seq<string>, more: seq<string>)
    requires |rest| > 0
    ensures Init([first] + rest) + more == [first] + (Init(rest) + more)
    ensures Last([first] + rest) == Last(rest)
  {
    assert Init([first] + rest) == [first] + Init(rest);
  }

  lemma InitTail(rest: seq<string>, more: seq<string>)
    requires |rest| > 1
    ensures (Init(rest) + more)[0] == rest[0] && (Init(rest) + more)[1..] == Init(rest[1..]) + more
  {
    assert Init(rest) == [rest[0]] + Init(rest[1..]);
    assert ([rest[0]] + Init(rest[1..])) + more == [rest[0]] + (Init(rest[1..]) + more);
  }

  // Splitting can be resumed: only the last, still open part of `a` is needed
  // to split `a + b`.
  lemma {:induction false} SplitResume(a: string, b: string, sep: char)
    ensures Split(a + b, sep) == Init(Split(a, sep)) + Split(Last(Split(a, sep)) + b, sep)
    decreases |a|
  {
    if a == "" {
      assert a + b == b;
    } else {
      var rest := Split(a[1..], sep);
      var more := Split(Last(rest) + b, sep);
      assert Split(a[1..] + b, sep) == Init(rest) + more by { SplitResume(a[1..], b, sep); }
      assert (a + b)[0] == a[0] && (a + b)[1..] == a[1..] + b;
      assert Split(a, sep) == Prepend(a[0], rest, sep);
      assert Split(a + b, sep) == Prepend(a[0], Init(rest) + more, sep);
      PrependResume(a[0], rest, more, sep);
      if |rest| == 1 {
        assert Init(rest) + more == more;
        if a[0] != sep {
          var joined := ([a[0]] + rest[0]) + b;
          assert joined[0] == a[0] && joined[1..] == rest[0] + b;
        }
      }
    }
  }

  // No part contains the separator.
  lemma {:induction false} SplitParts(s: string, sep: char)
    ensures forall i :: 0 <= i < |Split(s, sep)| ==> sep !in Split(s, sep)[i]
  {
    if s != "" {
      SplitParts(s[1..], sep);
    }
  }

  // Text before a separator is a part of its own.
  lemma {:induction false} SplitAt(a: string, b: string, sep: char)
    requires sep !in a
    ensures Split(a, sep) == [a]
    ensures Split(a + [sep] + b, sep) == [a] + Split(b, sep)
  {
    if a == "" {
      assert (a + [sep] + b)[1..] == b;
    } else {
      SplitAt(a[1..], b, sep);
      assert a == [a[0]] + a[1..];
      assert (a + [sep] + b)[1..] == a[1..] + [sep] + b;
    }
  }

  // Text without separators extends the first part.
  lemma {:induction false} SplitGlue(a: string, b: string, sep: char)
    requires sep !in a
    ensures Split(a + b, sep) == [a + Split(b, sep)[0]] + Split(b, sep)[1..]
  {
    if a == "" {
      assert a + b == b && a + Split(b, sep)[0] == Split(b, sep)[0];
    } else {
      assert (a + b)[1..] == a[1..] + b;
      SplitGlue(a[1..], b, sep);
      assert [a[0]] + (a[1..] + Split(b, sep)[0]) == a + Split(b, sep)[0];
    }
  }

  // Joining the parts of a split with the separator gives the string back.
  lemma {:induction false} JoinSplit(s: string, sep: char)
    ensures Join(Split(s, sep), [sep]) == s
  {
    if s != "" {
      JoinSplit(s[1..], sep);
    }
  }

  lemma {:induction false} ConcatAppend(a: seq<string>, b: seq<string>)
    ensures Concat(a + b) == Concat(a) + Concat(b)
  {
    if a == [] {
      assert a + b == b;
    } else {
      assert (a + b)[1..] == a[1..] + b;
      ConcatAppend(a[1..], b);
    }
  }

  function Digit(d: nat): char
    requires d < 10
  {
    "0123456789"[d]
  }

  // Number.prototype.toString for a natural number.
  function Decimal(n: nat): (s: string)
    ensures |s| > 0
  {
    if n < 10 then [Digit(n)] else Decimal(n / 10) + [Digit(n % 10)]
  }

  lemma {:induction false} DecimalInjective(m: nat, n: nat)
    requires Decimal(m) == Decimal(n)
    ensures m == n
  {
    var a, b := Decimal(m), Decimal(n);
    assert a[|a| - 1] == Digit(m % 10) && b[|b| - 1] == Digit(n % 10);
    if m >= 10 && n >= 10 {
      assert a[..|a| - 1] == Decimal(m / 10) && b[..|b| - 1] == Decimal(n / 10);
      DecimalInjective(m / 10, n / 10);
    }
  }
}
