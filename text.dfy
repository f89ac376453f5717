/**
 * The JavaScript string operations the core relies on, stated on `seq<char>`:
 * `Array.prototype.join`, `String.prototype.split` with a string separator,
 * `replace` with a string pattern (first occurrence only), the regular
 * expressions `/;+$/g` and `/,/gi`, `slice(0, -2)`, `trim` and `toLowerCase`.
 */
module Text {

  /** `parts.join(sep)`. */
  function Join(parts: seq<string>, sep: string): string
    decreases |parts|
  {
    if |parts| == 0 then ""
    else if |parts| == 1 then parts[0]
    else parts[0] + sep + Join(parts[1..], sep)
  }

  /** Joining one more part at the end puts one separator before it. */
  lemma {:induction false} JoinSnoc(parts: seq<string>, x: string, sep: string)
    requires |parts| > 0
    ensures Join(parts + [x], sep) == Join(parts, sep) + sep + x
    decreases |parts|
  {
    if |parts| == 1 {
      assert parts + [x] == [parts[0], x];
      assert [parts[0], x][1..] == [x];
    } else {
      assert (parts + [x])[1..] == parts[1..] + [x];
      JoinSnoc(parts[1..], x, sep);
    }
  }

  /** `s.slice(0, -2)`: the last two characters cut off, or "" when there are fewer than two. */
  function DropLastTwo(s: string): (r: string)
    ensures |s| >= 2 ==> s == r + s[|s| - 2..]
    ensures |s| < 2 ==> r == ""
  {
    if |s| >= 2 then s[..|s| - 2] else ""
  }

  /** `s.replace(/c+$/g, '')` for one character `c`: the trailing run of `c` is removed. */
  function StripTrailing(s: string, c: char): (r: string)
    ensures |r| <= |s| && r == s[..|r|]
    ensures |r| == 0 || r[|r| - 1] != c
    ensures forall i :: |r| <= i < |s| ==> s[i] == c
    decreases |s|
  {
    if |s| > 0 && s[|s| - 1] == c then StripTrailing(s[..|s| - 1], c) else s
  }

  /** The index of the first `c` in `s`, or -1, as `indexOf` answers it. */
  function IndexOf(s: string, c: char): (k: int)
    ensures -1 <= k < |s|
    ensures k == -1 <==> c !in s
    ensures k >= 0 ==> s[k] == c && c !in s[..k]
    decreases |s|
  {
    if |s| == 0 then -1
    else if s[0] == c then 0
    else
      var k := IndexOf(s[1..], c);
      assert s[1..][..k + 1] == s[1..k + 2] by { }
      if k < 0 then -1 else k + 1
  }

  /** `s.replace(a, b)` with a one-character string pattern: only the FIRST `a` becomes `b`. */
  function ReplaceFirst(s: string, a: char, b: char): (r: string)
    ensures |r| == |s|
    ensures IndexOf(s, a) == -1 ==> r == s
    ensures IndexOf(s, a) >= 0 ==> r == s[IndexOf(s, a) := b]
    decreases |s|
  {
    if |s| == 0 then s
    else if s[0] == a then [b] + s[1..]
    else [s[0]] + ReplaceFirst(s[1..], a, b)
  }

  /** `s.replace(a, '')` with a one-character pattern: the first `a` is removed. */
  function RemoveFirst(s: string, a: char): (r: string)
    ensures |r| == (if a in s then |s| - 1 else |s|)
    decreases |s|
  {
    if |s| == 0 then s
    else if s[0] == a then s[1..]
    else [s[0]] + RemoveFirst(s[1..], a)
  }

  /** Without an `a` nothing is removed; otherwise exactly the character at the first `a`. */
  lemma {:induction false} RemoveFirstSlices(s: string, a: char)
    ensures a !in s ==> RemoveFirst(s, a) == s
    ensures a in s ==> RemoveFirst(s, a) == s[..IndexOf(s, a)] + s[IndexOf(s, a) + 1..]
    decreases |s|
  {
    if |s| > 0 && s[0] != a {
      var t := s[1..];
      RemoveFirstSlices(t, a);
      assert s == [s[0]] + t;
      if a in s {
        assert a in t;
        var k := IndexOf(t, a);
        assert IndexOf(s, a) == k + 1;
        assert s[..k + 1] == [s[0]] + t[..k];
        assert s[k + 2..] == t[k + 1..];
      }
    }
  }

  /** `s.replace(/a/g, b)` for one character: every `a` becomes `b`. */
  function ReplaceAll(s: string, a: char, b: char): (r: string)
    ensures |r| == |s|
    ensures forall i :: 0 <= i < |s| ==> r[i] == (if s[i] == a then b else s[i])
    decreases |s|
  {
    if |s| == 0 then s
    else [if s[0] == a then b else s[0]] + ReplaceAll(s[1..], a, b)
  }

  /** Replacing every `a` works piece by piece over a concatenation. */
  lemma ReplaceAllAppend(x: string, y: string, a: char, b: char)
    ensures ReplaceAll(x + y, a, b) == ReplaceAll(x, a, b) + ReplaceAll(y, a, b)
  {
    var l := ReplaceAll(x + y, a, b);
    var r := ReplaceAll(x, a, b) + ReplaceAll(y, a, b);
    assert |l| == |r|;
    forall i | 0 <= i < |l|
      ensures l[i] == r[i]
    {
      if i < |x| {
        assert (x + y)[i] == x[i];
      } else {
        assert (x + y)[i] == y[i - |x|];
      }
    }
  }

  /** A string without `a` is left as it is. */
  lemma ReplaceAllAbsent(x: string, a: char, b: char)
    requires a !in x
    ensures ReplaceAll(x, a, b) == x
  {
    var r := ReplaceAll(x, a, b);
    assert forall i :: 0 <= i < |x| ==> r[i] == x[i];
  }

  /** The first index at which `sep` occurs in `s`, or -1. */
  function Find(s: string, sep: string): (k: int)
    requires |sep| > 0
    ensures -1 <= k
    ensures k >= 0 ==> k + |sep| <= |s| && s[k..k + |sep|] == sep
    decreases |s|
  {
    if |s| < |sep| then -1
    else if s[..|sep|] == sep then 0
    else
      var k := Find(s[1..], sep);
      if k < 0 then -1 else k + 1
  }

  /** `s.split(sep)` for a non-empty string separator. */
  function Split(s: string, sep: string): (parts: seq<string>)
    requires |sep| > 0
    ensures |parts| >= 1
    decreases |s|
  {
    var k := Find(s, sep);
    if k < 0 then [s] else [s[..k]] + Split(s[k + |sep|..], sep)
  }

  lemma JoinCons(a: string, tail: seq<string>, sep: string)
    requires |tail| >= 1
    ensures Join([a] + tail, sep) == a + sep + Join(tail, sep)
  {
    assert ([a] + tail)[1..] == tail;
  }

  /** The first occurrence of a one-character separator is right after a prefix free of it. */
  lemma {:induction false} FindAfter(x: string, y: string, c: char)
    requires c !in x
    ensures Find(x + [c] + y, [c]) == |x|
    decreases |x|
  {
    var s := x + [c] + y;
    if |x| == 0 {
      assert s[..1] == [c];
    } else {
      assert s[..1] == [x[0]] && x[0] != c;
      assert s[1..] == x[1..] + [c] + y;
      FindAfter(x[1..], y, c);
    }
  }

  lemma {:induction false} FindNone(x: string, c: char)
    requires c !in x
    ensures Find(x, [c]) == -1
  {
    FindChar(x, c);
  }

  /** Joining parts free of a one-character separator and splitting again gives the parts back. */
  lemma {:induction false} SplitJoin(parts: seq<string>, c: char)
    requires |parts| > 0
    requires forall p :: p in parts ==> c !in p
    ensures Split(Join(parts, [c]), [c]) == parts
    decreases |parts|
  {
    if |parts| == 1 {
      FindNone(parts[0], c);
    } else {
      var rest := parts[1..];
      assert forall p :: p in rest ==> p in parts;
      var j := Join(rest, [c]);
      assert Join(parts, [c]) == parts[0] + [c] + j;
      SplitAfter(parts[0], j, c);
      SplitJoin(rest, c);
      assert parts == [parts[0]] + rest;
    }
  }

  /** Splitting at a first separator right after a prefix free of it. */
  lemma SplitAfter(x: string, y: string, c: char)
    requires c !in x
    ensures Split(x + [c] + y, [c]) == [x] + Split(y, [c])
  {
    FindAfter(x, y, c);
    var s := x + [c] + y;
    assert s[..|x|] == x;
    assert s[|x| + 1..] == y;
  }

  /** Joining a concatenation puts one separator between the two joins. */
  lemma {:induction false} JoinAppend(a: seq<string>, b: seq<string>, sep: string)
    requires |a| > 0 && |b| > 0
    ensures Join(a + b, sep) == Join(a, sep) + sep + Join(b, sep)
    decreases |a|
  {
    if |a| == 1 {
      assert a + b == [a[0]] + b;
      JoinCons(a[0], b, sep);
    } else {
      assert a + b == [a[0]] + (a[1..] + b);
      JoinCons(a[0], a[1..] + b, sep);
      JoinAppend(a[1..], b, sep);
      JoinCons(a[0], a[1..], sep);
      assert a == [a[0]] + a[1..];
    }
  }

  /** Splitting and joining with the same separator gives back the string. */
  lemma {:induction false} JoinSplit(s: string, sep: string)
    requires |sep| > 0
    ensures Join(Split(s, sep), sep) == s
    decreases |s|
  {
    var k := Find(s, sep);
    if k >= 0 {
      var rest := s[k + |sep|..];
      var tail := Split(rest, sep);
      assert Split(s, sep) == [s[..k]] + tail;
      JoinCons(s[..k], tail, sep);
      JoinSplit(rest, sep);
      SliceAround(s, k, |sep|);
    }
  }

  lemma SliceAround(s: string, k: nat, n: nat)
    requires k + n <= |s|
    ensures s == s[..k] + s[k..k + n] + s[k + n..]
  {
  }

  /** A one-character separator splits a string into two or more pieces exactly when it occurs in it. */
  lemma {:induction false} SplitCharCount(s: string, c: char)
    ensures |Split(s, [c])| >= 2 <==> c in s
  {
    FindChar(s, c);
  }

  lemma {:induction false} FindChar(s: string, c: char)
    ensures Find(s, [c]) >= 0 <==> c in s
    decreases |s|
  {
    if |s| >= 1 && s[..1] != [c] {
      FindChar(s[1..], c);
      assert s == [s[0]] + s[1..];
      assert s[0] != c by { assert s[..1] == [s[0]]; }
    } else if |s| >= 1 {
      assert s[0] == s[..1][0];
    }
  }

  /** The characters `String.prototype.trim` removes: ECMAScript white space and line terminators. */
  predicate IsSpace(c: char)
  {
    var n := c as int;
    n == 0x09 || n == 0x0A || n == 0x0B || n == 0x0C || n == 0x0D || n == 0x20 ||
    n == 0xA0 || n == 0x1680 || (0x2000 <= n <= 0x200A) || n == 0x2028 || n == 0x2029 ||
    n == 0x202F || n == 0x205F || n == 0x3000 || n == 0xFEFF
  }

  function TrimStart(s: string): (r: string)
    ensures |r| <= |s|
    ensures |r| == 0 || !IsSpace(r[0])
    decreases |s|
  {
    if |s| > 0 && IsSpace(s[0]) then TrimStart(s[1..]) else s
  }

  function TrimEnd(s: string): (r: string)
    ensures |r| <= |s|
    ensures |r| == 0 || !IsSpace(r[|r| - 1])
    decreases |s|
  {
    if |s| > 0 && IsSpace(s[|s| - 1]) then TrimEnd(s[..|s| - 1]) else s
  }

  /** `TrimStart` removes a prefix made of white space and keeps the rest. */
  lemma {:induction false} TrimStartSuffix(s: string)
    ensures TrimStart(s) == s[|s| - |TrimStart(s)|..]
    ensures forall i :: 0 <= i < |s| - |TrimStart(s)| ==> IsSpace(s[i])
    decreases |s|
  {
    if |s| > 0 && IsSpace(s[0]) {
      TrimStartSuffix(s[1..]);
    }
  }

  /** `TrimEnd` removes a suffix made of white space and keeps the rest. */
  lemma {:induction false} TrimEndPrefix(s: string)
    ensures TrimEnd(s) == s[..|TrimEnd(s)|]
    ensures forall i :: |TrimEnd(s)| <= i < |s| ==> IsSpace(s[i])
    decreases |s|
  {
    if |s| > 0 && IsSpace(s[|s| - 1]) {
      TrimEndPrefix(s[..|s| - 1]);
    }
  }

  /** `s.trim()`: neither end of the result is white space, and it is a contiguous part of `s`. */
  function Trim(s: string): (r: string)
    ensures |r| <= |s|
    ensures |r| == 0 || (!IsSpace(r[0]) && !IsSpace(r[|r| - 1]))
  {
    var t := TrimStart(s);
    TrimEndPrefix(t);
    TrimEnd(t)
  }

  /** What `Trim` keeps is the slice of `s` after the leading white space. */
  lemma TrimSlice(s: string)
    ensures var a := |s| - |TrimStart(s)|;
      a + |Trim(s)| <= |s| && Trim(s) == s[a..a + |Trim(s)|]
  {
    var t := TrimStart(s);
    TrimStartSuffix(s);
    TrimEndPrefix(t);
    var a := |s| - |t|;
    assert Trim(s) == t[..|Trim(s)|];
    assert t[..|Trim(s)|] == s[a..a + |Trim(s)|];
  }

  /** `toLowerCase` on the ASCII letters. */
  function AsciiLower(s: string): (r: string)
    ensures |r| == |s|
    ensures forall i :: 0 <= i < |s| ==> r[i] == (if 'A' <= s[i] <= 'Z' then (s[i] as int + 32) as char else s[i])
    decreases |s|
  {
    if |s| == 0 then s
    else [if 'A' <= s[0] <= 'Z' then (s[0] as int + 32) as char else s[0]] + AsciiLower(s[1..])
  }

  /** The number of occurrences of `c` in `s`. */
  function Count(s: string, c: char): nat
    decreases |s|
  {
    if |s| == 0 then 0 else (if s[0] == c then 1 else 0) + Count(s[1..], c)
  }

  lemma {:induction false} CountAppend(a: string, b: string, c: char)
    ensures Count(a + b, c) == Count(a, c) + Count(b, c)
    decreases |a|
  {
    if |a| > 0 {
      assert (a + b)[1..] == a[1..] + b;
      CountAppend(a[1..], b, c);
    } else {
      assert a + b == b;
    }
  }

  /** Replacing the first `a` by `b` removes exactly one `a` when there is one, and no other character is touched. */
  lemma {:induction false} ReplaceFirstCount(s: string, a: char, b: char, c: char)
    requires a != b && c != b && c != a
    ensures Count(ReplaceFirst(s, a, b), a) == (if a in s then Count(s, a) - 1 else Count(s, a))
    ensures Count(ReplaceFirst(s, a, b), c) == Count(s, c)
    decreases |s|
  {
    if |s| > 0 {
      var r := ReplaceFirst(s, a, b);
      if s[0] == a {
        assert r == [b] + s[1..];
        assert r[1..] == s[1..];
      } else {
        ReplaceFirstCount(s[1..], a, b, c);
        assert r == [s[0]] + ReplaceFirst(s[1..], a, b);
        assert r[1..] == ReplaceFirst(s[1..], a, b);
        assert a in s <==> a in s[1..] by { assert s == [s[0]] + s[1..]; }
      }
    }
  }

  /** The first `a` is the one after a prefix free of `a`. */
  lemma {:induction false} ReplaceFirstAt(x: string, y: string, a: char, b: char)
    requires a !in x
    ensures ReplaceFirst(x + [a] + y, a, b) == x + [b] + y
    decreases |x|
  {
    if |x| > 0 {
      assert (x + [a] + y)[1..] == x[1..] + [a] + y;
      ReplaceFirstAt(x[1..], y, a, b);
      assert x == [x[0]] + x[1..];
    } else {
      assert x + [a] + y == [a] + y;
    }
  }
}
