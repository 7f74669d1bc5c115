/**
 * The part of `java.lang.String`, `Character`, `Integer` and
 * `java.io.BufferedReader` that the quiz server and its clients rely on,
 * stated over Dafny strings.
 *
 * Character classes and case mapping are the ASCII part of Java's Unicode
 * tables. A Dafny `char` is a Unicode scalar value, so a string here never
 * holds a lone surrogate.
 */
module Text {
  import opened Wrappers

  type String = seq<char>

  /** Range of a Java `int`. */
  const MinInt: int := -0x8000_0000
  const MaxInt: int := 0x7FFF_FFFF

  // ---------------------------------------------------------------- chars

  /** Characters that `String.trim` removes: every code point up to U+0020. */
  predicate IsTrimmable(c: char) { c <= ' ' }

  /** `Character.isWhitespace`, ASCII part. */
  predicate IsWhitespace(c: char) {
    c == ' ' || ('\t' <= c <= '\r') || ('\U{1C}' <= c <= '\U{1F}')
  }

  /** `Character.isDigit`, ASCII part. */
  predicate IsDigit(c: char) { '0' <= c <= '9' }

  /** `Character.isLetter`, ASCII part. */
  predicate IsLetter(c: char) { ('a' <= c <= 'z') || ('A' <= c <= 'Z') }

  /** `Character.isLetterOrDigit`. */
  predicate IsLetterOrDigit(c: char) { IsLetter(c) || IsDigit(c) }

  /** `Character.toUpperCase`, ASCII part. */
  function UpperChar(c: char): (u: char)
    ensures 'a' <= c <= 'z' ==> u as int == c as int - 32
    ensures !('a' <= c <= 'z') ==> u == c
  {
    if 'a' <= c <= 'z' then (c as int - 32) as char else c
  }

  /** `Character.toLowerCase`, ASCII part. */
  function LowerChar(c: char): (l: char)
    ensures 'A' <= c <= 'Z' ==> l as int == c as int + 32
    ensures !('A' <= c <= 'Z') ==> l == c
  {
    if 'A' <= c <= 'Z' then (c as int + 32) as char else c
  }

  /** `String.toUpperCase` (character by character). */
  function ToUpper(s: String): (r: String)
    ensures |r| == |s|
    ensures forall i :: 0 <= i < |s| ==> r[i] == UpperChar(s[i])
  {
    seq(|s|, i requires 0 <= i < |s| => UpperChar(s[i]))
  }

  /** `String.toLowerCase` (character by character). */
  function ToLower(s: String): (r: String)
    ensures |r| == |s|
    ensures forall i :: 0 <= i < |s| ==> r[i] == LowerChar(s[i])
  {
    seq(|s|, i requires 0 <= i < |s| => LowerChar(s[i]))
  }

  lemma {:induction false} ToLowerAppend(a: String, b: String)
    ensures ToLower(a + b) == ToLower(a) + ToLower(b)
  {
    assert ToLower(a + b) == ToLower(a) + ToLower(b);
  }

  // ---------------------------------------------------------------- trim

  function TrimLeft(s: String): (r: String)
    ensures |r| <= |s|
    ensures r == [] || !IsTrimmable(r[0])
    ensures forall i :: 0 <= i < |s| - |r| ==> IsTrimmable(s[i])
  {
    if s != [] && IsTrimmable(s[0]) then TrimLeft(s[1..]) else s
  }

  function TrimRight(s: String): (r: String)
    ensures |r| <= |s|
    ensures r == [] || !IsTrimmable(r[|r| - 1])
    ensures forall i :: |r| <= i < |s| ==> IsTrimmable(s[i])
  {
    if s != [] && IsTrimmable(s[|s| - 1]) then TrimRight(s[..|s| - 1]) else s
  }

  /** What `TrimLeft` keeps is a suffix of its input. */
  lemma {:induction false} TrimLeftSuffix(s: String)
    ensures TrimLeft(s) == s[|s| - |TrimLeft(s)|..]
    decreases |s|
  {
    if s != [] && IsTrimmable(s[0]) {
      TrimLeftSuffix(s[1..]);
    }
  }

  /** What `TrimRight` keeps is a prefix of its input. */
  lemma {:induction false} TrimRightPrefix(s: String)
    ensures TrimRight(s) == s[..|TrimRight(s)|]
    decreases |s|
  {
    if s != [] && IsTrimmable(s[|s| - 1]) {
      TrimRightPrefix(s[..|s| - 1]);
    }
  }

  /** `String.trim`: drop leading and trailing characters up to U+0020. */
  function Trim(s: String): (r: String)
    ensures r == [] || (!IsTrimmable(r[0]) && !IsTrimmable(r[|r| - 1]))
    ensures |r| <= |s|
  {
    var l := TrimLeft(s);
    TrimRightPrefix(l);
    TrimRight(l)
  }

  /** A string with no trimmable character at either end. */
  predicate IsTrimmed(s: String) {
    s == [] || (!IsTrimmable(s[0]) && !IsTrimmable(s[|s| - 1]))
  }

  lemma {:induction false} TrimIdentity(s: String)
    requires IsTrimmed(s)
    ensures Trim(s) == s
  {
  }

  lemma {:induction false} TrimOfTrimmed(s: String)
    ensures IsTrimmed(Trim(s))
  {
  }

  /** Trimming removes nothing but trimmable characters, so a string of
      only trimmable characters trims to the empty string and back. */
  lemma {:induction false} TrimEmpty(s: String)
    ensures Trim(s) == [] <==> forall i :: 0 <= i < |s| ==> IsTrimmable(s[i])
  {
    var l := TrimLeft(s);
    TrimLeftSuffix(s);
  }

  lemma {:induction false} TrimLeadingSpace(s: String)
    ensures Trim(" " + s) == Trim(s)
  {
    assert (" " + s)[1..] == s;
  }

  // ------------------------------------------------------------- searching

  /** `String.indexOf(char)`: the first position of `c`, or -1. */
  function IndexOf(s: String, c: char): (k: int)
    ensures -1 <= k < |s|
    ensures k >= 0 ==> s[k] == c
    ensures forall i :: 0 <= i < |s| && (k < 0 || i < k) ==> s[i] != c
  {
    if s == [] then -1
    else if s[0] == c then 0
    else
      var k := IndexOf(s[1..], c);
      if k < 0 then -1 else k + 1
  }

  lemma {:induction false} IndexOfNone(s: String, c: char)
    ensures IndexOf(s, c) == -1 <==> c !in s
  {
    if IndexOf(s, c) >= 0 {
      assert s[IndexOf(s, c)] == c;
    }
  }

  /** The first occurrence is the only position with `c` and nothing before it. */
  lemma {:induction false} IndexOfUnique(s: String, c: char, j: int)
    requires 0 <= j < |s| && s[j] == c && c !in s[..j]
    ensures IndexOf(s, c) == j
  {
  }

  lemma {:induction false} IndexOfAppend(a: String, b: String, c: char)
    requires c !in a
    ensures IndexOf(a + b, c) == if c in b then |a| + IndexOf(b, c) else -1
  {
    if c in b {
      var j := IndexOf(b, c);
      assert (a + b)[|a| + j] == c;
      assert (a + b)[..|a| + j] == a + b[..j];
      IndexOfUnique(a + b, c, |a| + j);
    } else {
      assert c !in a + b;
    }
  }

  lemma {:induction false} IndexOfPrefix(a: String, b: String, c: char)
    requires c in a
    ensures IndexOf(a + b, c) == IndexOf(a, c)
  {
    var j := IndexOf(a, c);
    assert (a + b)[..j] == a[..j];
    IndexOfUnique(a + b, c, j);
  }

  /** `String.indexOf(char, fromIndex)`: a negative start counts as 0. */
  function IndexOfFrom(s: String, c: char, from: int): (k: int)
    ensures -1 <= k < |s|
    ensures k >= 0 ==> k >= from && s[k] == c
    decreases |s| - from
  {
    if from < 0 then IndexOfFrom(s, c, 0)
    else if from >= |s| then -1
    else if s[from] == c then from
    else IndexOfFrom(s, c, from + 1)
  }

  /** The position found is the first one at or after the start. */
  lemma {:induction false} IndexOfFromFirst(s: String, c: char, from: int)
    ensures var k := IndexOfFrom(s, c, from);
      forall i :: 0 <= i < |s| && from <= i && (k < 0 || i < k) ==> s[i] != c
    decreases |s| - from
  {
    if from < 0 {
      IndexOfFromFirst(s, c, 0);
    } else if from < |s| && s[from] != c {
      IndexOfFromFirst(s, c, from + 1);
    }
  }

  /** The first `c` at or after `from` is at `at` when `at` holds one and
      nothing between does. */
  lemma {:induction false} IndexOfFromAt(s: String, c: char, from: nat, at: nat)
    requires from <= at < |s| && s[at] == c
    requires forall i :: from <= i < at ==> s[i] != c
    ensures IndexOfFrom(s, c, from) == at
    decreases at - from
  {
    if from < at {
      IndexOfFromAt(s, c, from + 1, at);
    }
  }

  /** `pat` occurs in `s` starting at position `i`. */
  predicate OccursAt(s: String, pat: String, i: int) {
    0 <= i && i + |pat| <= |s| && s[i..i + |pat|] == pat
  }

  /** `String.indexOf(String)`: the first position of `pat`, or -1. */
  function IndexOfSeq(s: String, pat: String): (k: int)
    ensures -1 <= k <= |s|
    ensures k >= 0 ==> OccursAt(s, pat, k)
  {
    IndexOfSeqFrom(s, pat, 0)
  }

  function IndexOfSeqFrom(s: String, pat: String, i: nat): (k: int)
    requires i <= |s| + 1
    ensures -1 <= k <= |s|
    ensures k >= 0 ==> i <= k && OccursAt(s, pat, k)
    decreases |s| + 1 - i
  {
    if i + |pat| > |s| then -1
    else if OccursAt(s, pat, i) then i
    else IndexOfSeqFrom(s, pat, i + 1)
  }

  /** The position found is the first occurrence, and -1 means there is none. */
  lemma {:induction false} IndexOfSeqFirst(s: String, pat: String, i: nat)
    requires i <= |s| + 1
    ensures var k := IndexOfSeqFrom(s, pat, i);
      forall j :: i <= j && (k < 0 || j < k) ==> !OccursAt(s, pat, j)
    decreases |s| + 1 - i
  {
    if i + |pat| <= |s| && !OccursAt(s, pat, i) {
      IndexOfSeqFirst(s, pat, i + 1);
    }
  }

  /** The first occurrence from `i` on is at `at` when there is none before it. */
  lemma {:induction false} IndexOfSeqAt(s: String, pat: String, i: nat, at: nat)
    requires i <= at && OccursAt(s, pat, at)
    requires forall j :: i <= j < at ==> !OccursAt(s, pat, j)
    ensures IndexOfSeqFrom(s, pat, i) == at
    decreases at - i
  {
    if i < at {
      IndexOfSeqAt(s, pat, i + 1, at);
    }
  }

  /** `String.startsWith`. */
  predicate StartsWith(s: String, p: String) {
    |p| <= |s| && s[..|p|] == p
  }

  lemma {:induction false} StartsWithConcat(p: String, rest: String)
    ensures StartsWith(p + rest, p)
  {
    assert (p + rest)[..|p|] == p;
  }

  /** A text keeps its prefix when more text is appended. */
  lemma {:induction false} StartsWithExtend(s: String, p: String, x: String)
    requires StartsWith(s, p)
    ensures StartsWith(s + x, p)
  {
    assert (s + x)[..|p|] == s[..|p|];
  }

  /** Five separator-terminated lines, written out. */
  lemma {:induction false} TerminatedFive(a: String, b: String, c: String, d: String, e: String, sep: char)
    ensures Terminated([a, b, c, d, e], sep) ==
      a + [sep] + (b + [sep] + (c + [sep] + (d + [sep] + (e + [sep] + []))))
  {
    TerminatedCons(e, [], sep);
    TerminatedCons(d, [e], sep);
    TerminatedCons(c, [d, e], sep);
    TerminatedCons(b, [c, d, e], sep);
    TerminatedCons(a, [b, c, d, e], sep);
    assert [a] + [b, c, d, e] == [a, b, c, d, e];
  }

  lemma {:induction false} TerminatedCons(x: String, xs: seq<String>, sep: char)
    ensures Terminated([x] + xs, sep) == x + [sep] + Terminated(xs, sep)
  {
    assert ([x] + xs)[1..] == xs;
  }

  /** Eleven pieces concatenated from the left, regrouped into five
      terminated lines. */
  lemma {:induction false} RegroupFiveLines<T>(h: seq<T>, p: seq<T>, n: seq<T>, a: seq<T>, b: seq<T>, c: seq<T>, d: seq<T>)
    ensures h + p + n + a + n + b + n + c + n + d + n == (h + p) + n + (a + n + (b + n + (c + n + (d + n + []))))
  {
  }

  /** A string that differs from `p` at some position of `p` does not start with it. */
  lemma {:induction false} DifferentAt(s: String, p: String, i: nat)
    requires i < |s| && i < |p| && s[i] != p[i]
    ensures !StartsWith(s, p)
  {
    if |p| <= |s| {
      assert s[..|p|][i] == s[i];
    }
  }

  // -------------------------------------------------------------- splitting

  /** Every piece of `s` between occurrences of `d`, empty pieces included. */
  function Pieces(s: String, d: char): (r: seq<String>)
    ensures |r| >= 1
    decreases |s|
  {
    var k := IndexOf(s, d);
    if k < 0 then [s] else [s[..k]] + Pieces(s[k + 1..], d)
  }

  /** Cutting `a + [d] + b` at the separator: the pieces of `a`, then those
      of `b`, when `d` does not occur in `a`. */
  lemma {:induction false} PiecesCons(a: String, b: String, d: char)
    requires d !in a
    ensures Pieces(a + [d] + b, d) == [a] + Pieces(b, d)
  {
    var s := a + [d] + b;
    IndexOfAppend(a, [d] + b, d);
    assert s == a + ([d] + b);
    assert s[..|a|] == a;
    assert s[|a| + 1..] == b;
  }

  lemma {:induction false} PiecesNone(s: String, d: char)
    requires d !in s
    ensures Pieces(s, d) == [s]
  {
  }

  /** The lines `xs`, each followed by `d`. */
  function Terminated(xs: seq<String>, d: char): String {
    if xs == [] then [] else xs[0] + [d] + Terminated(xs[1..], d)
  }

  /** Cutting separator-terminated lines gives the lines back, then one
      empty piece after the last separator. */
  lemma {:induction false} PiecesTerminated(xs: seq<String>, d: char)
    requires forall i :: 0 <= i < |xs| ==> d !in xs[i]
    ensures Pieces(Terminated(xs, d), d) == xs + [[]]
  {
    if xs == [] {
      PiecesNone([], d);
    } else {
      var rest := Terminated(xs[1..], d);
      PiecesTerminated(xs[1..], d);
      PiecesCons(xs[0], rest, d);
      ConsAppend(xs, []);
    }
  }

  lemma {:induction false} ConsAppend<T>(xs: seq<T>, y: T)
    requires xs != []
    ensures [xs[0]] + (xs[1..] + [y]) == xs + [y]
  {
  }

  function DropTrailingEmpty(xs: seq<String>): (r: seq<String>)
    ensures |r| <= |xs| && r == xs[..|r|]
    ensures r == [] || r[|r| - 1] != []
  {
    if xs != [] && xs[|xs| - 1] == [] then DropTrailingEmpty(xs[..|xs| - 1]) else xs
  }

  /** `String.split(regex)` for a regex that is one ordinary character:
      the pieces between separators, trailing empty pieces removed; a string
      without the separator is returned whole (so "" gives [""]). */
  function Split(s: String, d: char): (r: seq<String>)
    ensures |r| <= |Pieces(s, d)|
  {
    if d !in s then [s] else DropTrailingEmpty(Pieces(s, d))
  }

  /** `String.split(regex, limit)` for a positive limit: at most `limit`
      pieces, the last holding the rest of the input, nothing removed. */
  function SplitLimit(s: String, d: char, limit: nat): (r: seq<String>)
    requires limit >= 1
    ensures 1 <= |r| <= limit
    decreases limit
  {
    if limit == 1 || d !in s then [s]
    else
      var k := IndexOf(s, d);
      [s[..k]] + SplitLimit(s[k + 1..], d, limit - 1)
  }

  /** Strings joined with a separator between neighbours. */
  function Join(xs: seq<String>, sep: char): String
    decreases |xs|
  {
    if |xs| == 0 then []
    else if |xs| == 1 then xs[0]
    else xs[0] + [sep] + Join(xs[1..], sep)
  }

  /** Appending one more string, as the `if (i > 0) append(sep)` loops do. */
  lemma {:induction false} JoinSnoc(xs: seq<String>, y: String, sep: char)
    requires xs != []
    ensures Join(xs + [y], sep) == Join(xs, sep) + [sep] + y
    decreases |xs|
  {
    var ys := xs + [y];
    assert ys[0] == xs[0];
    if |xs| == 1 {
      assert ys[1..] == [y];
    } else {
      assert ys[1..] == xs[1..] + [y];
      JoinSnoc(xs[1..], y, sep);
      assert Join(ys, sep) == xs[0] + [sep] + (Join(xs[1..], sep) + [sep] + y);
    }
  }

  /** Cutting a join at its separator gives the strings back, when none of
      them contains the separator. */
  lemma {:induction false} PiecesJoin(xs: seq<String>, d: char)
    requires xs != []
    requires forall i :: 0 <= i < |xs| ==> d !in xs[i]
    ensures Pieces(Join(xs, d), d) == xs
    decreases |xs|
  {
    if |xs| == 1 {
      PiecesNone(xs[0], d);
      SingletonSeq(xs);
    } else {
      PiecesJoin(xs[1..], d);
      PiecesCons(xs[0], Join(xs[1..], d), d);
      ConsTail(xs);
    }
  }

  /** `split` undoes a join of at least two separator-free strings whose
      last one is not empty (so no trailing piece is dropped). */
  lemma {:induction false} SplitJoin(xs: seq<String>, d: char)
    requires |xs| >= 2 && xs[|xs| - 1] != []
    requires forall i :: 0 <= i < |xs| ==> d !in xs[i]
    ensures Split(Join(xs, d), d) == xs
  {
    var s := Join(xs, d);
    PiecesJoin(xs, d);
    assert s[|xs[0]|] == d;
  }

  /** Three separator-free strings, the last not empty, joined by the
      separator split back into the three. */
  lemma {:induction false} SplitThree(a: String, b: String, c: String, d: char)
    requires d !in a && d !in b && d !in c && c != []
    ensures Split(a + [d] + (b + [d] + c), d) == [a, b, c]
  {
    var line := a + [d] + (b + [d] + c);
    PiecesCons(a, b + [d] + c, d);
    PiecesCons(b, c, d);
    PiecesNone(c, d);
    assert line[|a|] == d;
    var pieces: seq<String> := [a, b, c];
    assert [a] + ([b] + [c]) == pieces;
    assert DropTrailingEmpty(pieces) == pieces;
  }

  /** Joined pieces followed by a separator and one more separator-free
      string split back into the pieces, plus that string when it is not
      empty. */
  lemma {:induction false} SplitJoinExtra(xs: seq<String>, extra: String, d: char)
    requires xs != [] && xs[|xs| - 1] != []
    requires forall i :: 0 <= i < |xs| ==> d !in xs[i]
    requires d !in extra
    ensures Split(Join(xs, d) + [d] + extra, d) == xs + (if extra == [] then [] else [extra])
  {
    var ys := xs + [extra];
    JoinSnoc(xs, extra, d);
    assert forall i :: 0 <= i < |ys| ==> d !in ys[i] by {
      forall i | 0 <= i < |ys| ensures d !in ys[i] {
        if i < |xs| { assert ys[i] == xs[i]; } else { assert ys[i] == extra; }
      }
    }
    PiecesJoin(ys, d);
    var line := Join(xs, d) + [d] + extra;
    assert line[|Join(xs, d)|] == d;
    assert d in line;
    if extra == [] {
      AppendInit(xs, [extra]);
      AppendEmpty(xs);
      assert DropTrailingEmpty(ys) == xs;
    } else {
      assert ys[|ys| - 1] != [];
      assert DropTrailingEmpty(ys) == ys;
    }
  }

  /** A character in none of the strings, nor the separator, is not in their join. */
  lemma {:induction false} JoinFree(xs: seq<String>, sep: char, c: char)
    requires c != sep && forall i :: 0 <= i < |xs| ==> c !in xs[i]
    ensures c !in Join(xs, sep)
    decreases |xs|
  {
    if |xs| > 1 {
      JoinFree(xs[1..], sep, c);
    }
  }

  lemma {:induction false} SingletonSeq<T>(xs: seq<T>)
    requires |xs| == 1
    ensures [xs[0]] == xs
  {
  }

  lemma {:induction false} TakeSnoc<T>(xs: seq<T>, i: nat)
    requires i < |xs|
    ensures xs[..i + 1] == xs[..i] + [xs[i]]
  {
  }

  lemma {:induction false} TakeAll<T>(xs: seq<T>)
    ensures xs[..|xs|] == xs
  {
  }

  lemma {:induction false} ConsTail<T>(xs: seq<T>)
    requires xs != []
    ensures [xs[0]] + xs[1..] == xs
  {
  }

  lemma {:induction false} AppendInit<T>(a: seq<T>, b: seq<T>)
    requires b != []
    ensures (a + b)[..|a + b| - 1] == a + b[..|b| - 1]
    ensures (a + b)[|a + b| - 1] == b[|b| - 1]
  {
  }

  lemma {:induction false} AppendAssoc<T>(x: seq<T>, y: seq<T>, z: seq<T>)
    ensures (x + y) + z == x + (y + z)
  {
  }

  lemma {:induction false} InSnoc<T>(x: T, xs: seq<T>, y: T)
    ensures x in xs + [y] <==> x in xs || x == y
  {
  }

  lemma {:induction false} AppendEmpty<T>(a: seq<T>)
    ensures a + [] == a
  {
  }

  lemma {:induction false} InitLast<T>(xs: seq<T>)
    requires xs != []
    ensures xs[..|xs| - 1] + [xs[|xs| - 1]] == xs
  {
  }

  lemma {:induction false} SliceInit<T>(xs: seq<T>, lo: nat, hi: nat)
    requires lo < hi <= |xs|
    ensures xs[lo..hi][..hi - lo - 1] == xs[lo..hi - 1]
    ensures xs[lo..hi][hi - lo - 1] == xs[hi - 1]
  {
  }

  lemma {:induction false} SliceEmpty<T>(xs: seq<T>, lo: nat)
    requires lo <= |xs|
    ensures xs[lo..lo] == []
  {}

  lemma {:induction false} SliceIndex<T>(xs: seq<T>, lo: nat, j: nat)
    requires lo + j < |xs|
    ensures xs[lo..][j] == xs[lo + j]
  {}

  lemma {:induction false} SliceAppend<T>(a: seq<T>, b: seq<T>, lo: nat)
    requires lo <= |a|
    ensures (a + b)[lo..] == a[lo..] + b
  {}

  /** `f` applied to every element, in order. */
  function Map<A, B>(f: A -> B, xs: seq<A>): (r: seq<B>)
    ensures |r| == |xs|
    decreases |xs|
  {
    if xs == [] then [] else Map(f, xs[..|xs| - 1]) + [f(xs[|xs| - 1])]
  }

  lemma {:induction false} MapIndex<A, B>(f: A -> B, xs: seq<A>, i: nat)
    requires i < |xs|
    ensures Map(f, xs)[i] == f(xs[i])
    decreases |xs|
  {
    if i < |xs| - 1 {
      MapIndex(f, xs[..|xs| - 1], i);
    }
  }

  lemma {:induction false} MapAppend<A, B>(f: A -> B, a: seq<A>, b: seq<A>)
    ensures Map(f, a + b) == Map(f, a) + Map(f, b)
    decreases |b|
  {
    if b == [] {
      AppendEmpty(a);
      AppendEmpty(Map(f, a));
    } else {
      AppendInit(a, b);
      MapAppend(f, a, b[..|b| - 1]);
      AppendAssoc(Map(f, a), Map(f, b[..|b| - 1]), [f(b[|b| - 1])]);
    }
  }

  lemma {:induction false} AppendIndex<T>(a: seq<T>, b: seq<T>, i: nat)
    requires i < |a| + |b|
    ensures (a + b)[i] == if i < |a| then a[i] else b[i - |a|]
  {}

  lemma {:induction false} TakeIndex<T>(xs: seq<T>, n: nat, i: nat)
    requires i < n <= |xs|
    ensures xs[..n][i] == xs[i]
  {}

  lemma {:induction false} DropFirst<T>(x: T, xs: seq<T>)
    ensures ([x] + xs)[1..] == xs
  {
  }

  lemma {:induction false} SixFields<T>(a: T, b: T, c: T, d: T, e: T, f: T, rest: seq<T>)
    ensures var xs := [a, b, c, d, e, f] + rest;
      && |xs| == 6 + |rest| && xs[0] == a && xs[1] == b && xs[2] == c
      && xs[3] == d && xs[4] == e && xs[5] == f
  {
  }

  lemma {:induction false} ConsSix<T>(x: T, ys: seq<T>)
    requires |ys| == 6
    ensures [x] + ys == [x, ys[0], ys[1], ys[2], ys[3], ys[4], ys[5]]
  {
  }

  // ------------------------------------------------------- decimal numbers

  function DigitChar(d: nat): (c: char)
    requires d < 10
    ensures IsDigit(c)
  {
    ('0' as int + d) as char
  }

  function DigitValue(c: char): nat
    requires IsDigit(c)
  {
    c as int - '0' as int
  }

  predicate AllDigits(s: String) {
    forall i :: 0 <= i < |s| ==> IsDigit(s[i])
  }

  /** `Integer.toString` of a non-negative value. */
  function NatToString(n: nat): (r: String)
    ensures |r| >= 1 && AllDigits(r)
    decreases n
  {
    if n < 10 then [DigitChar(n)] else NatToString(n / 10) + [DigitChar(n % 10)]
  }

  /** `Integer.toString`, and what `StringBuilder.append(int)` writes. */
  function IntToString(i: int): (r: String)
    ensures |r| >= 1
  {
    if i < 0 then "-" + NatToString(-i) else NatToString(i)
  }

  /** The value of a string of decimal digits. */
  function DigitsValue(s: String): nat
    requires AllDigits(s)
  {
    if s == [] then 0 else DigitsValue(s[..|s| - 1]) * 10 + DigitValue(s[|s| - 1])
  }

  /** `Integer.parseInt`: an optional sign, then one or more digits, within
      the `int` range; anything else is a `NumberFormatException` (None). */
  function ParseInt(s: String): (r: Option<int>)
    ensures r.Some? ==> MinInt <= r.value <= MaxInt
  {
    if s == [] then None
    else if s[0] == '-' || s[0] == '+' then
      if |s| == 1 || !AllDigits(s[1..]) then None
      else
        var v: int := if s[0] == '-' then -(DigitsValue(s[1..]) as int) else DigitsValue(s[1..]);
        if MinInt <= v <= MaxInt then Some(v) else None
    else if !AllDigits(s) then None
    else
      var v := DigitsValue(s);
      if v <= MaxInt then Some(v) else None
  }

  lemma {:induction false} DigitsOfNat(n: nat)
    ensures DigitsValue(NatToString(n)) == n
    decreases n
  {
    var s := NatToString(n);
    if n >= 10 {
      DigitsOfNat(n / 10);
      assert s[..|s| - 1] == NatToString(n / 10);
    }
  }

  /** A decimal numeral is its own trimmed form. */
  lemma {:induction false} NatTrimmed(n: nat)
    ensures IsTrimmed(NatToString(n)) && Trim(NatToString(n)) == NatToString(n)
  {
    DigitsNoBreak(NatToString(n));
    TrimIdentity(NatToString(n));
  }

  /** Printing a Java `int` and parsing it back gives the same value. */
  lemma {:induction false} IntRoundTrip(i: int)
    requires MinInt <= i <= MaxInt
    ensures ParseInt(IntToString(i)) == Some(i)
  {
    if i < 0 {
      DigitsOfNat(-i);
      assert IntToString(i)[1..] == NatToString(-i);
    } else {
      DigitsOfNat(i);
    }
  }

  /** Different numbers print differently. */
  lemma {:induction false} NatToStringInjective(a: nat, b: nat)
    requires NatToString(a) == NatToString(b)
    ensures a == b
  {
    DigitsOfNat(a);
    DigitsOfNat(b);
  }

  // ------------------------------------------------------------------ UTF-8

  /** Number of bytes UTF-8 uses for one scalar value. */
  function Utf8Width(c: char): nat {
    if c as int < 0x80 then 1
    else if c as int < 0x800 then 2
    else if c as int < 0x1_0000 then 3
    else 4
  }

  /** Length of `s.getBytes("UTF-8")`. */
  function Utf8Length(s: String): nat {
    if s == [] then 0 else Utf8Width(s[0]) + Utf8Length(s[1..])
  }

  predicate IsAscii(s: String) {
    forall i :: 0 <= i < |s| ==> s[i] as int < 0x80
  }

  /** The byte length equals the char count exactly for ASCII text, and is
      never smaller. */
  lemma {:induction false} Utf8LengthVsChars(s: String)
    ensures |s| <= Utf8Length(s) <= 4 * |s|
    ensures Utf8Length(s) == |s| <==> IsAscii(s)
  {
    if s != [] {
      Utf8LengthVsChars(s[1..]);
      assert IsAscii(s) <==> s[0] as int < 0x80 && IsAscii(s[1..]);
    }
  }

  // ------------------------------------------------------------- replacing

  /** `String.replace(target, replacement)`: left to right, non-overlapping. */
  function Replace(s: String, t: String, r: String): String
    requires |t| > 0
    decreases |s|
  {
    if |s| < |t| then s
    else if s[..|t|] == t then r + Replace(s[|t|..], t, r)
    else [s[0]] + Replace(s[1..], t, r)
  }

  lemma {:induction false} ReplaceAbsent(s: String, t: String, r: String)
    requires |t| > 0 && t[0] !in s
    ensures Replace(s, t, r) == s
    decreases |s|
  {
    if |s| >= |t| {
      assert s[..|t|][0] == s[0];
      ReplaceAbsent(s[1..], t, r);
    }
  }

  /** A character in neither the input nor the replacement is not in the output. */
  lemma {:induction false} ReplaceKeepsOut(s: String, t: String, r: String, c: char)
    requires |t| > 0 && c !in s && c !in r
    ensures c !in Replace(s, t, r)
    decreases |s|
  {
    if |s| >= |t| {
      if s[..|t|] == t {
        ReplaceKeepsOut(s[|t|..], t, r, c);
      } else {
        ReplaceKeepsOut(s[1..], t, r, c);
      }
    }
  }

  /** Replacing a single character removes every occurrence of it. */
  lemma {:induction false} ReplaceRemoves(s: String, c: char, r: String)
    requires c !in r
    ensures c !in Replace(s, [c], r)
    decreases |s|
  {
    if |s| >= 1 {
      if s[..1] == [c] {
        ReplaceRemoves(s[1..], c, r);
      } else {
        assert s[0] != c;
        ReplaceRemoves(s[1..], c, r);
      }
    }
  }

  /** Replacing distributes over concatenation when no occurrence of a
      target of at most two characters can straddle the cut. */
  lemma {:induction false} ReplaceConcat(a: String, b: String, t: String, r: String)
    requires 1 <= |t| <= 2
    requires |t| == 2 && a != [] ==> a[|a| - 1] != t[0]
    ensures Replace(a + b, t, r) == Replace(a, t, r) + Replace(b, t, r)
    decreases |a|
  {
    if a == [] {
      assert a + b == b;
    } else if |a| < |t| {
      ReplaceShort(a, b, t, r);
    } else if a[..|t|] == t {
      var x := Replace(a[|t|..], t, r);
      var y := Replace(b, t, r);
      calc {
        Replace(a + b, t, r);
        { ReplaceHead(a, b, t, r); }
        r + Replace(a[|t|..] + b, t, r);
        { ReplaceConcat(a[|t|..], b, t, r); }
        r + (x + y);
        (r + x) + y;
        { ReplaceHead(a, b, t, r); }
        Replace(a, t, r) + y;
      }
    } else {
      var x := Replace(a[1..], t, r);
      var y := Replace(b, t, r);
      calc {
        Replace(a + b, t, r);
        { ReplaceSkip(a, b, t, r); }
        [a[0]] + Replace(a[1..] + b, t, r);
        { ReplaceConcat(a[1..], b, t, r); }
        [a[0]] + (x + y);
        ([a[0]] + x) + y;
        { ReplaceSkip(a, b, t, r); }
        Replace(a, t, r) + y;
      }
    }
  }

  /** A one-character `a` in front of a two-character target cannot start a match. */
  lemma {:induction false} ReplaceShort(a: String, b: String, t: String, r: String)
    requires |a| == 1 && |t| == 2 && a[0] != t[0]
    ensures Replace(a + b, t, r) == a + Replace(b, t, r)
  {
    var s := a + b;
    if |s| >= |t| {
      assert s[..|t|][0] == a[0];
      assert s[1..] == b;
    }
  }

  lemma {:induction false} ReplaceHead(a: String, b: String, t: String, r: String)
    requires 1 <= |t| <= |a| && a[..|t|] == t
    ensures Replace(a + b, t, r) == r + Replace(a[|t|..] + b, t, r)
    ensures Replace(a, t, r) == r + Replace(a[|t|..], t, r)
  {
    assert (a + b)[..|t|] == t;
    assert (a + b)[|t|..] == a[|t|..] + b;
  }

  lemma {:induction false} ReplaceSkip(a: String, b: String, t: String, r: String)
    requires 1 <= |t| <= |a| && a[..|t|] != t
    ensures Replace(a + b, t, r) == [a[0]] + Replace(a[1..] + b, t, r)
    ensures Replace(a, t, r) == [a[0]] + Replace(a[1..], t, r)
  {
    assert (a + b)[..|t|] == a[..|t|];
    assert (a + b)[1..] == a[1..] + b;
  }

  // ---------------------------------------------------------------- padding

  /** `String.format("%-w s")`: left-justified, padded with spaces to `w`. */
  function PadRight(s: String, w: nat): (r: String)
    ensures |r| == if |s| >= w then |s| else w
    ensures r[..|s|] == s
    ensures forall i :: |s| <= i < |r| ==> r[i] == ' '
  {
    if |s| >= w then s else s + seq(w - |s|, _ => ' ')
  }

  // ------------------------------------------------------------ line reading

  /** A line break as `BufferedReader.readLine` understands it. */
  predicate IsBreak(c: char) { c == '\n' || c == '\r' }

  predicate NoBreak(s: String) { forall i :: 0 <= i < |s| ==> !IsBreak(s[i]) }

  lemma {:induction false} NoBreakConcat(a: String, b: String)
    requires NoBreak(a) && NoBreak(b)
    ensures NoBreak(a + b)
  {
    assert forall i :: 0 <= i < |a + b| ==> (a + b)[i] == if i < |a| then a[i] else b[i - |a|];
  }

  lemma {:induction false} DigitsNoBreak(s: String)
    requires AllDigits(s)
    ensures NoBreak(s) && ' ' !in s && IsTrimmed(s)
  {
    assert forall i :: 0 <= i < |s| ==> IsDigit(s[i]);
  }

  lemma {:induction false} NoBreakNoNewline(s: String)
    requires NoBreak(s)
    ensures '\n' !in s
  {
    assert forall i :: 0 <= i < |s| ==> s[i] != '\n';
  }


  /** The text up to the first line break, and what follows the break
      ("\n", "\r" or "\r\n"). */
  function CutLine(s: String): (r: (String, String))
    ensures NoBreak(r.0)
    ensures |r.0| + |r.1| <= |s|
    ensures r.0 == s[..|r.0|]
    decreases |s|
  {
    if s == [] then ([], [])
    else if s[0] == '\n' then ([], s[1..])
    else if s[0] == '\r' then ([], if |s| > 1 && s[1] == '\n' then s[2..] else s[1..])
    else
      var (l, rest) := CutLine(s[1..]);
      ([s[0]] + l, rest)
  }

  /** `BufferedReader.readLine` over the unread input: None at end of stream. */
  function ReadLine(s: String): (r: Option<(String, String)>)
    ensures r.None? <==> s == []
    ensures r.Some? ==> |r.value.1| < |s|
  {
    if s == [] then None else Some(CutLine(s))
  }

  lemma {:induction false} CutLineCrLf(l: String, rest: String)
    requires NoBreak(l)
    ensures CutLine(l + "\r\n" + rest) == (l, rest)
    decreases |l|
  {
    var s := l + "\r\n" + rest;
    if l == [] {
      assert s == "\r\n" + rest;
      assert s[2..] == rest;
    } else {
      assert s[0] == l[0] && !IsBreak(l[0]);
      assert s[1..] == l[1..] + "\r\n" + rest;
      CutLineCrLf(l[1..], rest);
      assert [l[0]] + l[1..] == l;
    }
  }

  /** A line ended by CR LF reads back as itself. */
  lemma {:induction false} ReadLineCrLf(l: String, rest: String)
    requires NoBreak(l)
    ensures ReadLine(l + "\r\n" + rest) == Some((l, rest))
  {
    CutLineCrLf(l, rest);
  }
}
