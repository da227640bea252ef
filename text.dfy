/**
 * The two .NET string operations the tag parser relies on: String.Split with a
 * single separator character (every piece is kept, empty ones included) and
 * String.Trim (leading and trailing white space removed).
 */
module Text {

  /** The characters for which .NET's Char.IsWhiteSpace holds, which are the ones String.Trim removes. */
  const WhiteSpaceChars: set<char> :=
    {'\t', '\n', '\U{B}', '\U{C}', '\r', ' ', '\U{85}', '\U{A0}', '\U{1680}',
     '\U{2000}', '\U{2001}', '\U{2002}', '\U{2003}', '\U{2004}', '\U{2005}',
     '\U{2006}', '\U{2007}', '\U{2008}', '\U{2009}', '\U{200A}',
     '\U{2028}', '\U{2029}', '\U{202F}', '\U{205F}', '\U{3000}'}

  predicate IsWhiteSpace(c: char)
  {
    c in WhiteSpaceChars
  }

  ghost predicate AllWhiteSpace(s: string)
  {
    forall i :: 0 <= i < |s| ==> IsWhiteSpace(s[i])
  }

  /** Neither the first nor the last character of s is white space. */
  ghost predicate Trimmed(s: string)
  {
    s == [] || (!IsWhiteSpace(s[0]) && !IsWhiteSpace(s[|s| - 1]))
  }

  /**
   * String.Trim: s with its leading and trailing white space removed. Removing
   * one white-space character from either end at a time gives the same result
   * as removing all leading and then all trailing ones.
   */
  function Trim(s: string): string
    decreases |s|
  {
    if s != [] && IsWhiteSpace(s[0]) then Trim(s[1..])
    else if s != [] && IsWhiteSpace(s[|s| - 1]) then Trim(s[..|s| - 1])
    else s
  }

  /** The trimmed string is no longer than the input and has no white space at either end. */
  lemma {:induction false} TrimTrims(s: string)
    ensures |Trim(s)| <= |s|
    ensures Trimmed(Trim(s))
    decreases |s|
  {
    if s != [] && IsWhiteSpace(s[0]) {
      TrimTrims(s[1..]);
    } else if s != [] && IsWhiteSpace(s[|s| - 1]) {
      TrimTrims(s[..|s| - 1]);
    }
  }

  /** What Trim keeps is a piece of s with only white space before and after it. */
  lemma {:induction false} TrimIsInfix(s: string) returns (before: string, after: string)
    ensures s == before + Trim(s) + after
    ensures AllWhiteSpace(before) && AllWhiteSpace(after)
    decreases |s|
  {
    var r := Trim(s);
    if s != [] && IsWhiteSpace(s[0]) {
      var t := s[1..];
      assert r == Trim(t);
      var b, a := TrimIsInfix(t);
      before, after := [s[0]] + b, a;
      assert s == [s[0]] + t;
      WhiteSpaceAppend([s[0]], b);
    } else if s != [] && IsWhiteSpace(s[|s| - 1]) {
      var t := s[..|s| - 1];
      assert r == Trim(t);
      var b, a := TrimIsInfix(t);
      before, after := b, a + [s[|s| - 1]];
      assert s == t + [s[|s| - 1]];
      WhiteSpaceAppend(a, [s[|s| - 1]]);
    } else {
      before, after := [], [];
      assert s == [] + r + [];
    }
  }

  lemma WhiteSpaceAppend(a: string, b: string)
    requires AllWhiteSpace(a) && AllWhiteSpace(b)
    ensures AllWhiteSpace(a + b)
  {
    assert forall i :: 0 <= i < |a + b| ==> (a + b)[i] == if i < |a| then a[i] else b[i - |a|];
  }

  /** Trim only removes characters: whatever it keeps was in s. */
  lemma {:induction false} TrimKeeps(s: string, c: char)
    ensures c in Trim(s) ==> c in s
    decreases |s|
  {
    if s != [] && IsWhiteSpace(s[0]) {
      TrimKeeps(s[1..], c);
    } else if s != [] && IsWhiteSpace(s[|s| - 1]) {
      TrimKeeps(s[..|s| - 1], c);
    }
  }

  /**
   * Trim recovers the core of any string padded with white space on both
   * sides, so the properties of Trim's contract and TrimIsInfix determine its
   * result.
   */
  lemma {:induction false} TrimOfPadded(before: string, m: string, after: string)
    requires AllWhiteSpace(before) && AllWhiteSpace(after) && Trimmed(m)
    ensures Trim(before + m + after) == m
    decreases |before| + |after|
  {
    var s := before + m + after;
    if before != [] {
      assert s[0] == before[0];
      assert s[1..] == before[1..] + m + after;
      TrimOfPadded(before[1..], m, after);
    } else if after != [] {
      assert s == m + after;
      if m == [] {
        assert s[0] == after[0];
        assert s[1..] == [] + [] + after[1..];
        TrimOfPadded([], [], after[1..]);
      } else {
        assert s[0] == m[0] && s[|s| - 1] == after[|after| - 1];
        assert s[..|s| - 1] == [] + m + after[..|after| - 1];
        TrimOfPadded([], m, after[..|after| - 1]);
      }
    } else {
      assert s == m;
    }
  }

  /** Trim is idempotent: a trimmed string has nothing left to trim. */
  lemma TrimIdempotent(s: string)
    ensures Trim(Trim(s)) == Trim(s)
  {
    var r := Trim(s);
    TrimTrims(s);
    assert [] + r + [] == r;
    TrimOfPadded([], r, []);
  }

  /** The number of occurrences of c in s. */
  function Count(s: string, c: char): (n: nat)
    ensures n == 0 <==> c !in s
    ensures n <= |s|
  {
    if s == [] then 0
    else (if s[0] == c then 1 else 0) + Count(s[1..], c)
  }

  /** The pieces joined back together with sep between consecutive ones (String.Join). */
  function Join(parts: seq<string>, sep: char): string
  {
    if parts == [] then []
    else if |parts| == 1 then parts[0]
    else parts[0] + [sep] + Join(parts[1..], sep)
  }

  /** String.Split(sep): the pieces of s between occurrences of sep, empty pieces included. */
  function Split(s: string, sep: char): (parts: seq<string>)
    ensures |parts| >= 1
  {
    if s == [] then [[]]
    else
      var rest := Split(s[1..], sep);
      if s[0] == sep then [[]] + rest else [[s[0]] + rest[0]] + rest[1..]
  }

  /** There is one piece more than there are separators, and no piece contains sep. */
  lemma {:induction false} SplitPieces(s: string, sep: char)
    ensures |Split(s, sep)| == Count(s, sep) + 1
    ensures forall i :: 0 <= i < |Split(s, sep)| ==> sep !in Split(s, sep)[i]
  {
    if s != [] {
      var rest := Split(s[1..], sep);
      SplitPieces(s[1..], sep);
      if s[0] != sep {
        var parts := Split(s, sep);
        assert parts == [[s[0]] + rest[0]] + rest[1..];
        forall i | 0 <= i < |parts| ensures sep !in parts[i] {
          if i > 0 { assert parts[i] == rest[i]; }
        }
      }
    }
  }

  /** Joining the pieces of a split with the separator gives the string back. */
  lemma {:induction false} JoinSplit(s: string, sep: char)
    ensures Join(Split(s, sep), sep) == s
  {
    if s != [] {
      var rest := Split(s[1..], sep);
      JoinSplit(s[1..], sep);
      assert s == [s[0]] + s[1..];
      if s[0] != sep {
        var parts := [[s[0]] + rest[0]] + rest[1..];
        assert parts[1..] == rest[1..];
        if |rest| > 1 {
          assert Join(rest, sep) == rest[0] + [sep] + Join(rest[1..], sep);
          assert Join(parts, sep) == ([s[0]] + rest[0]) + [sep] + Join(rest[1..], sep);
        }
      }
    }
  }

  /** Splitting a string whose first piece is a (free of sep) puts a in front of the first piece of the rest. */
  lemma {:induction false} SplitPrefix(a: string, t: string, sep: char)
    requires sep !in a
    ensures Split(a + t, sep) == [a + Split(t, sep)[0]] + Split(t, sep)[1..]
  {
    var st := Split(t, sep);
    if a != [] {
      var u := a + t;
      assert u[1..] == a[1..] + t;
      assert u[0] == a[0] && u[0] != sep;
      SplitPrefix(a[1..], t, sep);
      var rest := Split(u[1..], sep);
      assert rest == [a[1..] + st[0]] + st[1..];
      assert Split(u, sep) == [[a[0]] + rest[0]] + rest[1..];
      assert a == [a[0]] + a[1..];
      assert [a[0]] + (a[1..] + st[0]) == ([a[0]] + a[1..]) + st[0];
    } else {
      assert a + t == t;
      assert a + st[0] == st[0];
      assert st == [st[0]] + st[1..];
    }
  }

  /** Split undoes Join when no piece contains the separator. */
  lemma {:induction false} SplitJoin(parts: seq<string>, sep: char)
    requires |parts| >= 1
    requires forall i :: 0 <= i < |parts| ==> sep !in parts[i]
    ensures Split(Join(parts, sep), sep) == parts
  {
    if |parts| == 1 {
      SplitPrefix(parts[0], [], sep);
      assert parts[0] + [] == parts[0];
    } else {
      var tail := Join(parts[1..], sep);
      SplitJoin(parts[1..], sep);
      assert parts[0] + [sep] + tail == parts[0] + ([sep] + tail);
      SplitPrefix(parts[0], [sep] + tail, sep);
      assert ([sep] + tail)[1..] == tail;
      assert Split([sep] + tail, sep) == [[]] + parts[1..];
      assert parts[0] + [] == parts[0];
      assert parts == [parts[0]] + parts[1..];
    }
  }
}
