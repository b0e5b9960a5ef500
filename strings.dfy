/** JavaScript's `String.prototype.split` and `Array.prototype.join` with a
    one-character separator, and the array-slot assignment the domain code
    performs on their results. */
module Strings {

  /** `s.split(sep)`: the pieces between separators, always at least one
      (`"".split(".")` is `[""]`). */
  function Split(s: string, sep: char): (parts: seq<string>)
    ensures |parts| >= 1
    decreases |s|
  {
    if s == [] then [[]]
    else
      var rest := Split(s[1..], sep);
      if s[0] == sep then [[]] + rest
      else [[s[0]] + rest[0]] + rest[1..]
  }

  /** No piece of a split holds the separator, and joining the pieces gives
      back the string. */
  lemma {:induction false} SplitPieces(s: string, sep: char)
    ensures forall i :: 0 <= i < |Split(s, sep)| ==> sep !in Split(s, sep)[i]
    ensures Join(Split(s, sep), sep) == s
    decreases |s|
  {
    if s != [] {
      SplitPieces(s[1..], sep);
      var rest := Split(s[1..], sep);
      if s[0] == sep {
        assert ([[]] + rest)[1..] == rest;
      } else {
        var parts := [[s[0]] + rest[0]] + rest[1..];
        assert parts[1..] == rest[1..];
        assert s == [s[0]] + s[1..];
      }
    }
  }

  /** `parts.join(sep)` (`[].join(sep)` is the empty string). */
  function Join(parts: seq<string>, sep: char): string
  {
    if |parts| == 0 then []
    else if |parts| == 1 then parts[0]
    else parts[0] + [sep] + Join(parts[1..], sep)
  }

  /** `a[i] = v` on a JavaScript array: overwrites slot `i`, or appends when
      `i` is the current length. */
  function SetSlot(parts: seq<string>, i: nat, v: string): (r: seq<string>)
    requires i <= |parts|
    ensures |r| == if i < |parts| then |parts| else |parts| + 1
    ensures r[i] == v
    ensures forall j :: 0 <= j < |parts| && j != i ==> r[j] == parts[j]
  {
    if i < |parts| then parts[i := v] else parts + [v]
  }

  /** Splitting on a separator absent from the first piece `a` glues `a` to
      the first piece of the rest. */
  lemma {:induction false} SplitAfterPlain(a: string, b: string, sep: char)
    requires sep !in a
    ensures Split(a + b, sep) == [a + Split(b, sep)[0]] + Split(b, sep)[1..]
    decreases |a|
  {
    if a != [] {
      var s := a + b;
      assert s[0] == a[0] && s[0] != sep;
      assert s[1..] == a[1..] + b;
      SplitAfterPlain(a[1..], b, sep);
      var rest := Split(s[1..], sep);
      assert rest[0] == a[1..] + Split(b, sep)[0];
      assert rest[1..] == Split(b, sep)[1..];
      assert [a[0]] + rest[0] == a + Split(b, sep)[0];
      assert s != [];
      assert Split(s, sep) == [[s[0]] + rest[0]] + rest[1..];
    } else {
      var parts := Split(b, sep);
      assert a + b == b && a + parts[0] == parts[0];
      assert [parts[0]] + parts[1..] == parts;
    }
  }

  /** A string without the separator is a single piece. */
  lemma SplitPlain(a: string, sep: char)
    requires sep !in a
    ensures Split(a, sep) == [a]
  {
    SplitAfterPlain(a, [], sep);
    assert a + [] == a;
  }

  /** A separator after a separator-free `a` ends the first piece. */
  lemma SplitAt(a: string, b: string, sep: char)
    requires sep !in a
    ensures Split(a + [sep] + b, sep) == [a] + Split(b, sep)
  {
    var c := [sep] + b;
    assert a + [sep] + b == a + c;
    SplitAfterPlain(a, c, sep);
    assert c[0] == sep && c[1..] == b;
    assert Split(c, sep) == [[]] + Split(b, sep);
    assert a + Split(c, sep)[0] == a;
  }

  /** Split undoes Join whenever no piece holds the separator. */
  lemma {:induction false} SplitJoin(parts: seq<string>, sep: char)
    requires |parts| >= 1
    requires forall i :: 0 <= i < |parts| ==> sep !in parts[i]
    ensures Split(Join(parts, sep), sep) == parts
  {
    if |parts| == 1 {
      SplitPlain(parts[0], sep);
    } else {
      SplitJoin(parts[1..], sep);
      SplitAt(parts[0], Join(parts[1..], sep), sep);
      assert [parts[0]] + parts[1..] == parts;
    }
  }

  /** The text after the first piece of a join: empty, or the separator and
      the join of the remaining pieces. */
  function JoinTail(parts: seq<string>, sep: char): string
    requires |parts| >= 1
  {
    if |parts| == 1 then [] else [sep] + Join(parts[1..], sep)
  }

  /** Replacing the first piece only replaces the text before the first
      separator. */
  lemma JoinFirst(parts: seq<string>, x: string, sep: char)
    requires |parts| >= 1
    ensures Join(parts, sep) == parts[0] + JoinTail(parts, sep)
    ensures Join(parts[0 := x], sep) == x + JoinTail(parts, sep)
  {
    if |parts| > 1 {
      assert parts[0 := x][1..] == parts[1..];
    }
  }

  /** Replacing the second piece only replaces the text between the first
      and the second separator. */
  lemma JoinSecond(parts: seq<string>, x: string, sep: char)
    requires |parts| >= 2
    ensures Join(parts[1 := x], sep) == parts[0] + [sep] + x + JoinTail(parts[1..], sep)
    ensures JoinTail(parts, sep) == [sep] + parts[1] + JoinTail(parts[1..], sep)
  {
    JoinFirst(parts[1..], x, sep);
    assert parts[1 := x][1..] == parts[1..][0 := x];
  }

  /** Joins of two and of three pieces, spelled out. */
  lemma JoinSmall(parts: seq<string>, sep: char)
    ensures |parts| == 2 ==> Join(parts, sep) == parts[0] + [sep] + parts[1]
    ensures |parts| == 3 ==> Join(parts, sep) == parts[0] + [sep] + parts[1] + [sep] + parts[2]
  {
    if |parts| == 3 {
      assert parts[1..][1..] == [parts[2]];
    }
  }
}
