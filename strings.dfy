/** The JavaScript string operations the core relies on (`split`, `join`,
    `indexOf`, `startsWith`, `endsWith`, `trim`, `toLowerCase` and the
    relational operators on strings), written once over `seq<char>`. */
module Strings {
  import opened Wrappers

  /** `sep` occurs in `s` starting at index `j`. */
  predicate OccursAt(s: string, sep: string, j: int) {
    0 <= j && j + |sep| <= |s| && s[j..j + |sep|] == sep
  }

  /** `s.includes(t)` */
  predicate Contains(s: string, t: string) {
    exists j | 0 <= j <= |s| :: OccursAt(s, t, j)
  }

  predicate StartsWith(s: string, prefix: string) {
    prefix <= s
  }

  predicate EndsWith(s: string, suffix: string) {
    |suffix| <= |s| && s[|s| - |suffix|..] == suffix
  }

  /** First occurrence of `sep` in `s` at or after index `k`. */
  function IndexFrom(s: string, sep: string, k: nat): (r: Option<nat>)
    decreases |s| - k
    ensures r.Some? ==> k <= r.value && OccursAt(s, sep, r.value)
    ensures r.Some? ==> forall j :: k <= j < r.value ==> !OccursAt(s, sep, j)
    ensures r.None? ==> forall j :: k <= j ==> !OccursAt(s, sep, j)
  {
    if k + |sep| > |s| then None
    else if s[k..k + |sep|] == sep then Some(k)
    else IndexFrom(s, sep, k + 1)
  }

  /** `s.indexOf(sep)`, with -1 as `None`. */
  function IndexOf(s: string, sep: string): (r: Option<nat>)
    ensures r.Some? <==> Contains(s, sep)
    ensures r.Some? ==> OccursAt(s, sep, r.value)
    ensures r.Some? ==> forall j :: 0 <= j < r.value ==> !OccursAt(s, sep, j)
  {
    IndexFrom(s, sep, 0)
  }

  /** `s.split(sep)` for a non-empty separator: the pieces between the
      successive leftmost occurrences of `sep`. */
  function Split(s: string, sep: string): (parts: seq<string>)
    requires |sep| > 0
    ensures |parts| >= 1
    decreases |s|
  {
    match IndexOf(s, sep)
    case None => [s]
    case Some(i) => [s[..i]] + Split(s[i + |sep|..], sep)
  }

  /** `parts.join(sep)` */
  function Join(parts: seq<string>, sep: string): string {
    if |parts| == 0 then ""
    else if |parts| == 1 then parts[0]
    else parts[0] + sep + Join(parts[1..], sep)
  }

  /** Joining the pieces of a split with the same separator gives back the
      original string. */
  lemma {:induction false} JoinSplit(s: string, sep: string)
    requires |sep| > 0
    ensures Join(Split(s, sep), sep) == s
    decreases |s|
  {
    if IndexOf(s, sep).Some? {
      var i := IndexOf(s, sep).value;
      var rest := s[i + |sep|..];
      SplitAt(s, sep, i);
      JoinSplit(rest, sep);
      JoinCons(s[..i], Split(rest, sep), sep);
    }
  }

  /** Where the first separator is, the split is the text before it
      followed by the split of the text after it. */
  lemma SplitAt(s: string, sep: string, i: nat)
    requires |sep| > 0 && IndexOf(s, sep) == Some(i)
    ensures Split(s, sep) == [s[..i]] + Split(s[i + |sep|..], sep)
    ensures s == s[..i] + sep + s[i + |sep|..]
  {
    var j := i + |sep|;
    assert OccursAt(s, sep, i);
    assert s[..j] == s[..i] + s[i..j];
    assert s == s[..j] + s[j..];
  }

  lemma OccursInPrefix(s: string, sep: string, i: nat, j: int)
    requires i <= |s| && OccursAt(s[..i], sep, j)
    ensures OccursAt(s, sep, j)
  {
    assert s[..i][j..j + |sep|] == s[j..j + |sep|];
  }

  /** No piece of a split contains the separator. */
  lemma {:induction false} SplitPiecesFree(s: string, sep: string)
    requires |sep| > 0
    ensures forall p :: p in Split(s, sep) ==> !Contains(p, sep)
    decreases |s|
  {
    match IndexOf(s, sep)
    case None =>
    case Some(i) =>
      SplitPiecesFree(s[i + |sep|..], sep);
      if Contains(s[..i], sep) {
        var j :| OccursAt(s[..i], sep, j);
        OccursInPrefix(s, sep, i, j);
      }
  }

  /** For a one-character separator, containing it is membership. */
  lemma ContainsChar(s: string, c: char)
    ensures Contains(s, [c]) <==> c in s
  {
    if Contains(s, [c]) {
      var j :| 0 <= j <= |s| && OccursAt(s, [c], j);
      assert s[j..j + 1][0] == s[j];
    }
    if c in s {
      var j :| 0 <= j < |s| && s[j] == c;
      assert s[j..j + 1] == [c];
      assert OccursAt(s, [c], j);
    }
  }

  /** Splitting on a one-character separator: `a + [c] + b`, where `a` holds
      no `c`, gives `a` followed by the pieces of `b`. */
  lemma SplitCons(a: string, c: char, b: string)
    requires c !in a
    ensures Split(a + [c] + b, [c]) == [a] + Split(b, [c])
  {
    var s := a + [c] + b;
    assert OccursAt(s, [c], |a|);
    forall j | 0 <= j < |a| ensures !OccursAt(s, [c], j) {
      assert s[j..j + 1][0] == a[j];
    }
    var i := IndexOf(s, [c]).value;
    assert s[..i] == a;
    assert s[i + 1..] == b;
  }

  /** Splitting a string without the separator gives that string alone. */
  lemma SplitNone(s: string, c: char)
    requires c !in s
    ensures Split(s, [c]) == [s]
  {
    ContainsChar(s, c);
  }

  /** A one-character split of a join of pieces that hold no separator gives
      back the pieces. */
  lemma {:induction false} SplitJoin(parts: seq<string>, c: char)
    requires |parts| >= 1
    requires forall p :: p in parts ==> c !in p
    ensures Split(Join(parts, [c]), [c]) == parts
  {
    if |parts| == 1 {
      SplitNone(parts[0], c);
    } else {
      SplitJoin(parts[1..], c);
      SplitCons(parts[0], c, Join(parts[1..], [c]));
      assert parts == [parts[0]] + parts[1..];
    }
  }

  /** The string with every `c` replaced by `repl` (`s.split(c).join(repl)`,
      `s.replace(/c/g, repl)`). */
  function ReplaceChar(s: string, c: char, repl: string): (r: string)
    ensures c !in repl ==> c !in r
    ensures |repl| <= 1 ==> |r| <= |s|
  {
    if s == [] then []
    else (if s[0] == c then repl else [s[0]]) + ReplaceChar(s[1..], c, repl)
  }

  /** `s.split(c).join(repl)` is the character replacement. */
  lemma {:induction false} SplitJoinIsReplace(s: string, c: char, repl: string)
    ensures Join(Split(s, [c]), repl) == ReplaceChar(s, c, repl)
    decreases |s|
  {
    if c !in s {
      SplitNone(s, c);
      ReplaceCharNone(s, c, repl);
    } else {
      var a, b := FirstOccurrence(s, c);
      SplitJoinIsReplace(b, c, repl);
      SplitJoinIsReplaceStep(a, c, b, repl);
    }
  }

  lemma SplitJoinIsReplaceStep(a: string, c: char, b: string, repl: string)
    requires c !in a
    requires Join(Split(b, [c]), repl) == ReplaceChar(b, c, repl)
    ensures Join(Split(a + [c] + b, [c]), repl) == ReplaceChar(a + [c] + b, c, repl)
  {
    var rb := ReplaceChar(b, c, repl);
    SplitJoinCons(a, c, b, repl);
    ReplaceCharCons(a, c, b, repl);
    Concat3(a, repl, rb);
  }

  /** The left side of the step: the first piece, then the joined rest. */
  lemma SplitJoinCons(a: string, c: char, b: string, repl: string)
    requires c !in a
    ensures Join(Split(a + [c] + b, [c]), repl) == a + repl + Join(Split(b, [c]), repl)
  {
    SplitCons(a, c, b);
    JoinCons(a, Split(b, [c]), repl);
  }

  /** The right side of the step: `a` unchanged, then `repl`, then the rest
      replaced. */
  lemma ReplaceCharCons(a: string, c: char, b: string, repl: string)
    requires c !in a
    ensures ReplaceChar(a + [c] + b, c, repl) == a + (repl + ReplaceChar(b, c, repl))
  {
    ReplaceCharNone(a, c, repl);
    ReplaceCharHead(c, b, repl);
    assert a + [c] + b == a + ([c] + b);
    ReplaceCharAppend(a, [c] + b, c, repl);
  }

  lemma Concat3(a: string, b: string, c: string)
    ensures (a + b) + c == a + (b + c)
  {
  }

  lemma ReplaceCharHead(c: char, b: string, repl: string)
    ensures ReplaceChar([c] + b, c, repl) == repl + ReplaceChar(b, c, repl)
  {
    assert ([c] + b)[0] == c && ([c] + b)[1..] == b;
  }

  /** Cuts `s` at its first `c`. */
  lemma FirstOccurrence(s: string, c: char) returns (a: string, b: string)
    requires c in s
    ensures s == a + [c] + b && c !in a
  {
    ContainsChar(s, c);
    var i := IndexOf(s, [c]).value;
    assert s[i..i + 1] == [c];
    a, b := s[..i], s[i + 1..];
    forall j | 0 <= j < i ensures a[j] != c {
      assert !OccursAt(s, [c], j);
      assert s[j..j + 1] == [s[j]];
    }
    assert s == a + [c] + b;
  }

  lemma JoinCons(x: string, rest: seq<string>, sep: string)
    requires |rest| >= 1
    ensures Join([x] + rest, sep) == x + sep + Join(rest, sep)
  {
    assert ([x] + rest)[1..] == rest;
  }

  lemma {:induction false} ReplaceCharNone(s: string, c: char, repl: string)
    requires c !in s
    ensures ReplaceChar(s, c, repl) == s
  {
    if s != [] {
      ReplaceCharNone(s[1..], c, repl);
    }
  }

  lemma {:induction false} ReplaceCharAppend(a: string, b: string, c: char, repl: string)
    ensures ReplaceChar(a + b, c, repl) == ReplaceChar(a, c, repl) + ReplaceChar(b, c, repl)
  {
    if a != [] {
      ReplaceCharAppend(a[1..], b, c, repl);
      assert (a + b)[1..] == a[1..] + b;
    } else {
      assert a + b == b;
    }
  }

  /** A character absent from the text and from the replacement is absent
      from the result. */
  lemma {:induction false} ReplaceCharKeepsOut(s: string, c: char, repl: string, d: char)
    requires d !in s && d !in repl
    ensures d !in ReplaceChar(s, c, repl)
  {
    if s != [] {
      ReplaceCharKeepsOut(s[1..], c, repl, d);
    }
  }

  /** A character absent from every piece and from the separator is absent
      from the join. */
  lemma {:induction false} JoinKeepsOut(parts: seq<string>, sep: string, d: char)
    requires d !in sep
    requires forall p :: p in parts ==> d !in p
    ensures d !in Join(parts, sep)
  {
    if |parts| > 1 {
      JoinKeepsOut(parts[1..], sep, d);
    }
  }

  /** Splitting on a one-character separator gives one piece more than
      there are separators (`s.split(c).length`). */
  lemma {:induction false} SplitCount(s: string, c: char)
    ensures |Split(s, [c])| == multiset(s)[c] + 1
    decreases |s|
  {
    if c !in s {
      SplitNone(s, c);
    } else {
      var a, b := FirstOccurrence(s, c);
      SplitCons(a, c, b);
      SplitCount(b, c);
      assert multiset(a)[c] == 0;
    }
  }

  /** `s` with every `c` removed (`s.replace(/c/g, "")`). */
  function RemoveChar(s: string, c: char): (r: string)
    ensures c !in r
    ensures |r| <= |s|
  {
    ReplaceChar(s, c, "")
  }

  /** ASCII letters are lowered; other characters are left as they are. */
  function LowerChar(c: char): char {
    if 'A' <= c <= 'Z' then (c as int + 32) as char else c
  }

  /** `s.toLowerCase()`, on ASCII letters. */
  function Lower(s: string): (r: string)
    ensures |r| == |s| && forall i :: 0 <= i < |s| ==> r[i] == LowerChar(s[i])
  {
    seq(|s|, i requires 0 <= i < |s| => LowerChar(s[i]))
  }

  /** The characters `String.prototype.trim` removes, restricted to ASCII
      white space, the no-break space and the byte-order mark. */
  predicate IsSpace(c: char) {
    c == ' ' || c == '\t' || c == '\n' || c == '\r' || c == '\U{B}' || c == '\U{C}'
    || c == '\U{A0}' || c == '\U{FEFF}'
  }

  /** The number of white-space characters `s` starts with. */
  function Leading(s: string): (n: nat)
    ensures n <= |s| && forall k :: 0 <= k < n ==> IsSpace(s[k])
    ensures n < |s| ==> !IsSpace(s[n])
  {
    if s == [] || !IsSpace(s[0]) then 0 else 1 + Leading(s[1..])
  }

  /** The number of white-space characters `s` ends with. */
  function Trailing(s: string): (n: nat)
    ensures n <= |s| && forall k :: |s| - n <= k < |s| ==> IsSpace(s[k])
    ensures n < |s| ==> !IsSpace(s[|s| - n - 1])
  {
    if s == [] || !IsSpace(s[|s| - 1]) then 0 else 1 + Trailing(s[..|s| - 1])
  }

  /** `s.trim()`: `s` without the white space at either end. */
  function Trim(s: string): (r: string)
    ensures Leading(s) + |r| <= |s| && r == s[Leading(s)..Leading(s) + |r|]
    ensures r != [] ==> !IsSpace(r[0]) && !IsSpace(r[|r| - 1])
    ensures forall k :: 0 <= k < Leading(s) || Leading(s) + |r| <= k < |s| ==> IsSpace(s[k])
  {
    var t := s[Leading(s)..];
    t[..|t| - Trailing(t)]
  }

  /** String order in the manner of JavaScript's `a < b`: lexicographic
      order on characters, a proper prefix coming first. Characters are
      compared by Unicode scalar value, where JavaScript compares UTF-16
      code units; the two orders differ only between characters above
      U+FFFF and those from U+E000 to U+FFFF. */
  predicate LexLess(a: string, b: string)
    decreases |a|
  {
    if a == [] then b != []
    else if b == [] then false
    else if a[0] != b[0] then a[0] < b[0]
    else LexLess(a[1..], b[1..])
  }

  lemma {:induction false} LexLessIrreflexive(a: string)
    ensures !LexLess(a, a)
    decreases |a|
  {
    if a != [] {
      LexLessIrreflexive(a[1..]);
    }
  }

  lemma {:induction false} LexLessAsymmetric(a: string, b: string)
    ensures LexLess(a, b) ==> !LexLess(b, a)
    decreases |a|
  {
    if a != [] && b != [] && a[0] == b[0] {
      LexLessAsymmetric(a[1..], b[1..]);
    }
  }

  lemma {:induction false} LexLessTotal(a: string, b: string)
    ensures a != b ==> LexLess(a, b) || LexLess(b, a)
    decreases |a|
  {
    if a != [] && b != [] && a[0] == b[0] {
      LexLessTotal(a[1..], b[1..]);
      if a[1..] == b[1..] {
        assert a == [a[0]] + a[1..] && b == [b[0]] + b[1..];
      }
    }
  }

  lemma {:induction false} LexLessTransitive(a: string, b: string, c: string)
    ensures LexLess(a, b) && LexLess(b, c) ==> LexLess(a, c)
    decreases |a|
  {
    if a != [] && b != [] && c != [] && a[0] == b[0] && b[0] == c[0] {
      LexLessTransitive(a[1..], b[1..], c[1..]);
    }
  }

  /** The decimal digits of `n`, as a template literal renders a whole
      number. */
  function NatText(n: nat): (s: string)
    ensures |s| >= 1 && forall c :: c in s ==> '0' <= c <= '9'
  {
    if n < 10 then [(48 + n) as char] else NatText(n / 10) + [(48 + n % 10) as char]
  }
}
