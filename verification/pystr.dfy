/**
 The few pieces of Python's string and `os.path` behaviour the backend relies on:
 `str.lower`, `str.endswith`, `str.rfind` and `posixpath.splitext`.
 */
module PyStr {

  /** Lower-cases one character. Only the ASCII letters are mapped. */
  function LowerChar(c: char): char
  {
    if 'A' <= c <= 'Z' then (c as int + 32) as char else c
  }

  /** `s.lower()`, character by character. */
  function Lower(s: string): (r: string)
    ensures |r| == |s|
  {
    seq(|s|, i requires 0 <= i < |s| => LowerChar(s[i]))
  }

  /** Each character of `s.lower()` is the lower-cased character at the same position. */
  lemma LowerAt(s: string, i: int)
    requires 0 <= i < |s|
    ensures Lower(s)[i] == LowerChar(s[i])
  {
  }

  /** Lower-casing produces a dot exactly from a dot. */
  lemma LowerCharDot(c: char)
    ensures LowerChar(c) == '.' <==> c == '.'
  {
  }

  /** `s.endswith(suffix)`. */
  predicate EndsWith(s: string, suffix: string)
  {
    |suffix| <= |s| && s[|s| - |suffix|..] == suffix
  }

  /** `s.endswith(suffixes)` for a tuple of suffixes. */
  predicate EndsWithAny(s: string, suffixes: seq<string>)
  {
    exists k :: 0 <= k < |suffixes| && EndsWith(s, suffixes[k])
  }

  /** `EndsWith(Lower(s), suffix)` character by character. */
  lemma LowerEndsWithAt(s: string, suffix: string)
    requires EndsWith(Lower(s), suffix)
    ensures |suffix| <= |s|
    ensures forall j :: 0 <= j < |suffix| ==> LowerChar(s[|s| - |suffix| + j]) == suffix[j]
  {
    var low := Lower(s);
    forall j | 0 <= j < |suffix|
      ensures LowerChar(s[|s| - |suffix| + j]) == suffix[j]
    {
      assert low[|s| - |suffix|..][j] == suffix[j];
      LowerAt(s, |s| - |suffix| + j);
    }
  }

  /** The lower-cased tail of `s` from `i` is `t` when it is so character by character. */
  lemma LowerOfTail(s: string, i: int, t: string)
    requires 0 <= i <= |s| && |t| == |s| - i
    requires forall k :: 0 <= k < |t| ==> LowerChar(s[i + k]) == t[k]
    ensures Lower(s[i..]) == t
  {
    var tail := s[i..];
    forall k | 0 <= k < |tail|
      ensures Lower(tail)[k] == t[k]
    {
      LowerAt(tail, k);
    }
  }

  /** Text with a dot at `i` ends, lower-cased, in that dot and the lower-cased rest. */
  lemma EndsWithDotExtension(s: string, i: int)
    requires 0 <= i < |s| && s[i] == '.'
    ensures EndsWith(Lower(s), "." + Lower(s[i + 1..]))
  {
    var t := "." + Lower(s[i + 1..]);
    forall k | 0 <= k < |t|
      ensures Lower(s)[i..][k] == t[k]
    {
      LowerAt(s, i + k);
      if k > 0 {
        LowerAt(s[i + 1..], k - 1);
      }
    }
  }

  /**
   `s.rfind(c)`: the index of the last occurrence of `c` in `s`, or -1 when
   `c` does not occur at all.
   */
  function RFind(s: string, c: char): (r: int)
    ensures -1 <= r < |s|
    ensures 0 <= r ==> s[r] == c
    ensures forall j :: r < j < |s| ==> s[j] != c
  {
    if |s| == 0 then -1
    else if s[|s| - 1] == c then |s| - 1
    else
      var r := RFind(s[..|s| - 1], c);
      assert forall j :: r < j < |s| - 1 ==> s[j] == s[..|s| - 1][j];
      r
  }

  /** `rfind` gives -1 exactly when the character is absent. */
  lemma RFindAbsent(s: string, c: char)
    ensures RFind(s, c) == -1 <==> c !in s
  {
    if RFind(s, c) >= 0 {
      assert s[RFind(s, c)] == c;
    }
  }

  /** The last occurrence is the only occurrence with no later occurrence. */
  lemma RFindIsUnique(s: string, c: char, i: int)
    requires 0 <= i < |s| && s[i] == c
    requires forall j :: i < j < |s| ==> s[j] != c
    ensures RFind(s, c) == i
  {
  }

  /** Appending text that does not contain `c` leaves the last occurrence of `c` where it was. */
  lemma RFindAppend(a: string, b: string, c: char)
    requires c !in b
    ensures RFind(a + b, c) == RFind(a, c)
  {
    var r := RFind(a, c);
    forall j | r < j < |a + b|
      ensures (a + b)[j] != c
    {
      if j < |a| {
        assert (a + b)[j] == a[j];
      } else {
        assert (a + b)[j] == b[j - |a|];
      }
    }
    if 0 <= r {
      assert (a + b)[r] == a[r];
      RFindIsUnique(a + b, c, r);
    }
  }

  /**
   The scan `splitext` makes over the base name before the last dot: true
   when every character of `p[lo..hi]` is a dot.
   */
  predicate OnlyDots(p: string, lo: int, hi: int)
    requires 0 <= lo <= hi <= |p|
    decreases hi - lo
  {
    lo == hi || (p[lo] == '.' && OnlyDots(p, lo + 1, hi))
  }

  /** The scan succeeds exactly when no character in the range is anything but a dot. */
  lemma {:induction false} OnlyDotsMeaning(p: string, lo: int, hi: int)
    requires 0 <= lo <= hi <= |p|
    ensures OnlyDots(p, lo, hi) <==> forall k :: lo <= k < hi ==> p[k] == '.'
    decreases hi - lo
  {
    if lo < hi {
      OnlyDotsMeaning(p, lo + 1, hi);
    }
  }

  /** The two halves `os.path.splitext` returns. */
  datatype PathParts = PathParts(root: string, ext: string)

  /**
   `posixpath.splitext(p)`: the extension starts at the last dot of the last
   path component, unless everything before that dot in the component is a
   dot (so ".png" and "..png" have no extension).
   */
  function SplitExt(p: string): (r: PathParts)
    ensures r.root + r.ext == p
    ensures r.ext == [] || r.ext[0] == '.'
    ensures forall i :: 0 < i < |r.ext| ==> r.ext[i] != '.' && r.ext[i] != '/'
  {
    var sep := RFind(p, '/');
    var dot := RFind(p, '.');
    if dot > sep && !OnlyDots(p, sep + 1, dot) then
      PathParts(p[..dot], p[dot..])
    else
      PathParts(p, "")
  }

  /**
   `splitext` finds an extension exactly when some non-dot character lies
   between the last slash and the last dot, and then cuts at the last dot.
   */
  lemma SplitExtMeaning(p: string)
    ensures SplitExt(p).ext != [] <==> exists k :: RFind(p, '/') < k < RFind(p, '.') && p[k] != '.'
    ensures SplitExt(p).ext != [] ==> SplitExt(p).root == p[..RFind(p, '.')]
  {
    var sep := RFind(p, '/');
    var dot := RFind(p, '.');
    if dot > sep && !OnlyDots(p, sep + 1, dot) {
      assert SplitExt(p) == PathParts(p[..dot], p[dot..]);
      OnlyDotsMeaning(p, sep + 1, dot);
    } else {
      assert SplitExt(p).ext == [];
      if dot > sep {
        OnlyDotsMeaning(p, sep + 1, dot);
      }
    }
  }

  /** `splitext` splits at the last dot when some non-dot follows the last slash and precedes that dot. */
  lemma SplitExtAt(p: string, k: int)
    requires RFind(p, '/') < k < RFind(p, '.') && p[k] != '.'
    ensures SplitExt(p) == PathParts(p[..RFind(p, '.')], p[RFind(p, '.')..])
  {
    SplitExtMeaning(p);
  }
}
