/** Text operations the components share: concatenation of pieces, splitting
    on a separator character the way JavaScript's `String.prototype.split`
    does, and lines each terminated by a separator. */
module Strings {

  import opened Results

  /** The pieces, concatenated in order. */
  function Concat(pieces: seq<string>): string
  {
    if |pieces| == 0 then "" else Concat(pieces[..|pieces| - 1]) + pieces[|pieces| - 1]
  }

  lemma {:induction false} ConcatAppend(a: seq<string>, b: seq<string>)
    ensures Concat(a + b) == Concat(a) + Concat(b)
    decreases |b|
  {
    if |b| == 0 {
      assert a + b == a;
    } else {
      assert (a + b)[..|a + b| - 1] == a + b[..|b| - 1];
      ConcatAppend(a, b[..|b| - 1]);
    }
  }

  /** The concatenation of the first `i` pieces is a prefix of the
      concatenation of the first `j`, for `i <= j`. */
  lemma ConcatPrefixGrows(pieces: seq<string>, i: nat, j: nat)
    requires i <= j <= |pieces|
    ensures Concat(pieces[..i]) <= Concat(pieces[..j])
  {
    assert pieces[..j] == pieces[..i] + pieces[i..j];
    ConcatAppend(pieces[..i], pieces[i..j]);
  }

  /** The parts joined back together with `sep` between neighbours. */
  function Join(parts: seq<string>, sep: char): string
  {
    if |parts| == 0 then ""
    else if |parts| == 1 then parts[0]
    else parts[0] + [sep] + Join(parts[1..], sep)
  }

  /** JavaScript's `s.split(sep)` for a one-character separator: the maximal
      separator-free runs of `s`, always at least one (possibly empty). */
  function Split(s: string, sep: char): (parts: seq<string>)
    ensures |parts| >= 1
    ensures forall k :: 0 <= k < |parts| ==> sep !in parts[k]
    ensures Join(parts, sep) == s
    decreases |s|
  {
    if |s| == 0 then [""]
    else if s[0] == sep then [""] + Split(s[1..], sep)
    else
      var rest := Split(s[1..], sep);
      assert rest == [rest[0]] + rest[1..];
      [[s[0]] + rest[0]] + rest[1..]
  }

  /** Splitting is the inverse of joining separator-free parts. */
  lemma {:induction false} SplitJoin(parts: seq<string>, sep: char)
    requires |parts| >= 1
    requires forall k :: 0 <= k < |parts| ==> sep !in parts[k]
    ensures Split(Join(parts, sep), sep) == parts
    decreases |parts|, |parts[0]|
  {
    if |parts| == 1 {
      SplitFree(parts[0], sep);
    } else if |parts[0]| == 0 {
      SplitJoin(parts[1..], sep);
      assert Join(parts, sep) == [sep] + Join(parts[1..], sep);
      assert parts == [""] + parts[1..];
    } else {
      var tail := [parts[0][1..]] + parts[1..];
      assert Join(parts, sep) == [parts[0][0]] + Join(tail, sep);
      SplitJoin(tail, sep);
      assert parts[0] == [parts[0][0]] + parts[0][1..];
    }
  }

  /** Text without the separator splits into itself alone. */
  lemma SplitFree(s: string, sep: char)
    requires sep !in s
    ensures Split(s, sep) == [s]
  {
  }

  /** Every line followed by its terminator `sep`, concatenated. */
  function Terminated(lines: seq<string>, sep: char): string
  {
    if |lines| == 0 then "" else lines[0] + [sep] + Terminated(lines[1..], sep)
  }

  lemma {:induction false} TerminatedAppend(a: seq<string>, b: seq<string>, sep: char)
    ensures Terminated(a + b, sep) == Terminated(a, sep) + Terminated(b, sep)
    decreases |a|
  {
    if |a| > 0 {
      assert (a + b)[1..] == a[1..] + b;
      TerminatedAppend(a[1..], b, sep);
    } else {
      assert a + b == b;
    }
  }

  /** Joined parts are the terminated lines before the last part, then the
      last part. */
  lemma {:induction false} JoinAsTerminated(parts: seq<string>, sep: char)
    requires |parts| >= 1
    ensures Join(parts, sep) == Terminated(parts[..|parts| - 1], sep) + parts[|parts| - 1]
    decreases |parts|
  {
    if |parts| > 1 {
      JoinAsTerminated(parts[1..], sep);
      assert parts[1..][..|parts[1..]| - 1] == parts[..|parts| - 1][1..];
    }
  }

  /** A text has at most one reading as separator-free terminated lines
      followed by a separator-free remainder. */
  lemma {:induction false} TerminatedUnique(a: seq<string>, ra: string, b: seq<string>, rb: string, sep: char)
    requires forall k :: 0 <= k < |a| ==> sep !in a[k]
    requires forall k :: 0 <= k < |b| ==> sep !in b[k]
    requires sep !in ra && sep !in rb
    requires Terminated(a, sep) + ra == Terminated(b, sep) + rb
    ensures a == b && ra == rb
    decreases |a|
  {
    var s := Terminated(a, sep) + ra;
    if |a| == 0 && |b| > 0 {
      SeparatorInTerminated(b, rb, sep);
      assert false;
    } else if |a| > 0 && |b| == 0 {
      SeparatorInTerminated(a, ra, sep);
      assert false;
    } else if |a| > 0 {
      var ta := Terminated(a[1..], sep) + ra;
      var tb := Terminated(b[1..], sep) + rb;
      assert s == a[0] + [sep] + ta;
      assert s == b[0] + [sep] + tb;
      FirstSeparator(a[0], ta, sep);
      FirstSeparator(b[0], tb, sep);
      assert a[0] == s[..|a[0]|] && ta == s[|a[0]| + 1..];
      assert b[0] == s[..|b[0]|] && tb == s[|b[0]| + 1..];
      TerminatedUnique(a[1..], ra, b[1..], rb, sep);
      assert a == [a[0]] + a[1..] && b == [b[0]] + b[1..];
    } else {
      assert s == ra;
    }
  }

  lemma SeparatorInTerminated(lines: seq<string>, rest: string, sep: char)
    requires |lines| > 0
    ensures sep in Terminated(lines, sep) + rest
  {
  }

  /** In `line + [sep] + rest` with a separator-free `line`, the first
      separator sits right after `line`. */
  lemma FirstSeparator(line: string, rest: string, sep: char)
    requires sep !in line
    ensures FirstIndexOf(line + [sep] + rest, sep) == |line|
  {
    var s := line + [sep] + rest;
    assert forall k :: 0 <= k < |line| ==> s[k] == line[k];
    FirstIndexOfIs(s, sep, |line|);
  }

  /** Index of the first `c` in `s`, or `|s|` when there is none. */
  function FirstIndexOf(s: string, c: char): (i: nat)
    ensures i <= |s|
    ensures i < |s| ==> s[i] == c
    ensures forall k :: 0 <= k < i ==> s[k] != c
  {
    if |s| == 0 then 0
    else if s[0] == c then 0
    else 1 + FirstIndexOf(s[1..], c)
  }

  lemma FirstIndexOfIs(s: string, c: char, i: nat)
    requires i < |s| && s[i] == c
    requires forall k :: 0 <= k < i ==> s[k] != c
    ensures FirstIndexOf(s, c) == i
  {
  }

  /** Splits at the first `sep`: the text before it and, when there is one,
      the text after it. */
  function SplitFirst(s: string, sep: char): (r: (string, Option<string>))
    ensures sep !in r.0
    ensures r.1.None? ==> r.0 == s
    ensures r.1.Some? ==> s == r.0 + [sep] + r.1.value
  {
    var i := FirstIndexOf(s, sep);
    if i == |s| then (s, None) else
      assert s == s[..i] + [sep] + s[i + 1..];
      (s[..i], Some(s[i + 1..]))
  }

  lemma SplitFirstAt(a: string, b: string, sep: char)
    requires sep !in a
    ensures SplitFirst(a + [sep] + b, sep) == (a, Some(b))
  {
    FirstSeparator(a, b, sep);
    var s := a + [sep] + b;
    assert s[..|a|] == a && s[|a| + 1..] == b;
  }
}
