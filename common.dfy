/** Failure-carrying results for the Python exceptions the core can raise. */
module Wrappers {

  datatype Option<+T> = None | Some(value: T)

  /** The Python exceptions that the modelled code can raise on its own. */
  datatype PyError = ZeroDivisionError | IndexError

  datatype Result<+T> = Success(value: T) | Failure(error: PyError)
}

/** Sequence helpers: Python slicing, distinctness, first-occurrence dedup, sums. */
module Seqs {

  function Min(a: int, b: int): int { if a <= b then a else b }
  function Max(a: int, b: int): int { if a >= b then a else b }

  function Elems<T>(s: seq<T>): set<T> { set x | x in s }

  predicate Distinct<T(==)>(s: seq<T>) {
    forall i, j :: 0 <= i < j < |s| ==> s[i] != s[j]
  }

  /** Python's normalisation of a slice bound against a sequence of length n. */
  function SliceBound(i: int, n: nat): (b: nat)
    ensures b <= n
    ensures 0 <= i <= n ==> b == i
  {
    if i < 0 then Max(0, n + i) else Min(i, n)
  }

  /** Python's `s[a:b]` for any integers a and b. */
  function Slice<T>(s: seq<T>, a: int, b: int): (r: seq<T>)
    ensures |r| <= |s|
    ensures 0 <= a <= b <= |s| ==> r == s[a..b]
  {
    var lo, hi := SliceBound(a, |s|), SliceBound(b, |s|);
    if lo < hi then s[lo..hi] else []
  }

  /** Python's `s[:k]` for any integer k. */
  function Take<T>(s: seq<T>, k: int): (r: seq<T>)
    ensures |r| <= |s| && r == s[..|r|]
    ensures 0 <= k ==> |r| == Min(k, |s|)
  {
    s[..SliceBound(k, |s|)]
  }

  /** A prefix keeps distinctness and holds only elements of the whole. */
  lemma TakeDistinct<T>(s: seq<T>, k: int)
    requires Distinct(s)
    ensures Distinct(Take(s, k))
    ensures forall x :: x in Take(s, k) ==> x in s
  {
    var r := Take(s, k);
    assert forall i :: 0 <= i < |r| ==> r[i] == s[i];
  }

  /** The list built by `for x in s: if x not in seen: out.append(x); seen.add(x)`. */
  function FirstOccurrences<T(==)>(s: seq<T>): seq<T>
  {
    if s == [] then []
    else
      var d := FirstOccurrences(s[..|s| - 1]);
      if s[|s| - 1] in d then d else d + [s[|s| - 1]]
  }

  /** First index of x in s. */
  function IndexOf<T(==)>(s: seq<T>, x: T): (i: nat)
    requires x in s
    ensures i < |s| && s[i] == x
    ensures forall j :: 0 <= j < i ==> s[j] != x
  {
    if s[0] == x then 0 else 1 + IndexOf(s[1..], x)
  }

  function Sum(xs: seq<real>): real
  {
    if xs == [] then 0.0 else Sum(xs[..|xs| - 1]) + xs[|xs| - 1]
  }

  /** The contiguous ids `list(range(a, b))`. */
  function Range(a: int, b: int): (r: seq<int>)
    ensures |r| == if a <= b then b - a else 0
    ensures forall i :: 0 <= i < |r| ==> r[i] == a + i
    decreases b - a
  {
    if a >= b then [] else [a] + Range(a + 1, b)
  }

  lemma {:induction false} DistinctCard<T>(s: seq<T>)
    requires Distinct(s)
    ensures |Elems(s)| == |s|
  {
    if s != [] {
      var p := s[..|s| - 1];
      DistinctCard(p);
      assert Elems(s) == Elems(p) + {s[|s| - 1]};
      assert s[|s| - 1] !in Elems(p);
    }
  }

  lemma {:induction false} ElemsCard<T>(s: seq<T>)
    ensures |Elems(s)| <= |s|
  {
    if s != [] {
      var p := s[..|s| - 1];
      ElemsCard(p);
      assert Elems(s) == Elems(p) + {s[|s| - 1]};
    }
  }

  lemma {:induction false} SubsetCard<T>(a: set<T>, b: set<T>)
    requires a <= b
    ensures |a| <= |b|
    decreases b
  {
    if a != {} {
      var x :| x in a;
      SubsetCard(a - {x}, b - {x});
    }
  }

  /** In a sequence without repeats, an element does not occur before its own position. */
  lemma DistinctNotBefore<T>(s: seq<T>, n: nat)
    requires Distinct(s) && 0 < n <= |s|
    ensures s[n - 1] !in s[..n - 1]
    ensures s[n - 1] !in Elems(s[..n - 1])
  {
  }

  /** `list(s)` for a set: its elements once each, in an order Python does not specify. */
  method ListOfSet<T>(s: set<T>) returns (l: seq<T>)
    ensures Distinct(l) && Elems(l) == s
  {
    l := [];
    var rest := s;
    while rest != {}
      invariant Distinct(l) && Elems(l) + rest == s && Elems(l) !! rest
      decreases |rest|
    {
      var x :| x in rest;
      l := l + [x];
      rest := rest - {x};
    }
  }

  lemma ElemsAppend<T>(a: seq<T>, b: seq<T>)
    ensures Elems(a + b) == Elems(a) + Elems(b)
  {
  }

  /** Dedup keeps every element exactly once and nothing else. */
  lemma {:induction false} FirstOccurrencesSpec<T>(s: seq<T>)
    ensures Distinct(FirstOccurrences(s))
    ensures Elems(FirstOccurrences(s)) == Elems(s)
    ensures |FirstOccurrences(s)| <= |s|
  {
    if s != [] {
      var p := s[..|s| - 1];
      FirstOccurrencesSpec(p);
      assert s == p + [s[|s| - 1]];
      ElemsAppend(p, [s[|s| - 1]]);
    }
  }

  /** Dedup is the identity exactly on sequences without repeats. */
  lemma {:induction false} FirstOccurrencesIdentityIff<T>(s: seq<T>)
    ensures FirstOccurrences(s) == s <==> Distinct(s)
  {
    FirstOccurrencesSpec(s);
    if s != [] {
      var p := s[..|s| - 1];
      FirstOccurrencesIdentityIff(p);
      FirstOccurrencesSpec(p);
      if Distinct(s) {
        assert Distinct(p);
        assert s[|s| - 1] !in p;
      } else if FirstOccurrences(s) == s {
        assert false;
      }
    }
  }

  /** Dedup of a longer list extends the dedup of its prefix. */
  lemma {:induction false} FirstOccurrencesPrefix<T>(s: seq<T>, n: nat)
    requires n <= |s|
    ensures FirstOccurrences(s[..n]) <= FirstOccurrences(s)
    decreases |s| - n
  {
    if n < |s| {
      FirstOccurrencesPrefix(s, n + 1);
      assert s[..n + 1][..n] == s[..n];
    } else {
      assert s[..n] == s;
    }
  }

  /** Dedup lists the elements in the order of their first occurrence in the input. */
  lemma {:induction false} FirstOccurrencesOrdered<T>(s: seq<T>)
    ensures forall i, j :: 0 <= i < j < |FirstOccurrences(s)| ==>
      FirstOccurrences(s)[i] in s && FirstOccurrences(s)[j] in s &&
      IndexOf(s, FirstOccurrences(s)[i]) < IndexOf(s, FirstOccurrences(s)[j])
  {
    FirstOccurrencesSpec(s);
    if s != [] {
      var p, x := s[..|s| - 1], s[|s| - 1];
      FirstOccurrencesOrdered(p);
      FirstOccurrencesSpec(p);
      var d := FirstOccurrences(p);
      assert s == p + [x];
      forall y | y in p ensures IndexOf(s, y) == IndexOf(p, y) {
        IndexOfPrefix(p, [x], y);
      }
      if x !in d {
        assert x !in Elems(p);
        assert IndexOf(s, x) == |p|;
        forall i | 0 <= i < |d| ensures d[i] in p && IndexOf(s, d[i]) < |p| {
          assert d[i] in Elems(d);
        }
      }
    }
  }

  lemma {:induction false} IndexOfPrefix<T>(a: seq<T>, b: seq<T>, y: T)
    requires y in a
    ensures IndexOf(a + b, y) == IndexOf(a, y)
  {
    if a[0] != y {
      IndexOfPrefix(a[1..], b, y);
      assert (a + b)[1..] == a[1..] + b;
    }
  }

  lemma {:induction false} SumAppend(a: seq<real>, b: seq<real>)
    ensures Sum(a + b) == Sum(a) + Sum(b)
  {
    if b != [] {
      var b' := b[..|b| - 1];
      SumAppend(a, b');
      assert (a + b)[..|a + b| - 1] == a + b';
    } else {
      assert a + b == a;
    }
  }

  /** A sum of n values each within [lo, hi] lies within [n*lo, n*hi]. */
  lemma {:induction false} SumBounds(xs: seq<real>, lo: real, hi: real)
    requires forall i :: 0 <= i < |xs| ==> lo <= xs[i] <= hi
    ensures |xs| as real * lo <= Sum(xs) <= |xs| as real * hi
  {
    if xs != [] {
      SumBounds(xs[..|xs| - 1], lo, hi);
    }
  }
}

/** Character and string helpers standing in for Python's str methods. */
module Text {
  import opened Seqs

  /**
   * The ASCII characters that argument-less `str.split()` and `str.strip()` treat as
   * whitespace: space, tab, line feed, carriage return, vertical tab, form feed and the
   * four separators U+001C to U+001F.
   */
  predicate IsSpace(c: char) {
    c == ' ' || c == '\t' || c == '\n' || c == '\r' || c == '\U{000B}' || c == '\U{000C}' ||
    ('\U{001C}' <= c <= '\U{001F}')
  }

  /** `str.lower()` on one character: ASCII case folding only. */
  function LowerChar(c: char): char {
    if 'A' <= c <= 'Z' then (c as int + 32) as char else c
  }

  function Lower(s: string): (r: string)
    ensures |r| == |s|
    ensures forall i :: 0 <= i < |s| ==> r[i] == LowerChar(s[i])
  {
    if s == [] then [] else [LowerChar(s[0])] + Lower(s[1..])
  }

  /** The number of whitespace characters at the start of s. */
  function LeadingSpaces(s: string): (n: nat)
    ensures n <= |s|
    ensures forall i :: 0 <= i < n ==> IsSpace(s[i])
    ensures n < |s| ==> !IsSpace(s[n])
  {
    if s != [] && IsSpace(s[0]) then 1 + LeadingSpaces(s[1..]) else 0
  }

  /** `s.lstrip()`: a suffix of s that removes only whitespace. */
  function StripLeft(s: string): (r: string)
    ensures |r| <= |s| && r == s[|s| - |r|..]
    ensures forall i :: 0 <= i < |s| - |r| ==> IsSpace(s[i])
    ensures r == [] || !IsSpace(r[0])
  {
    if s != [] && IsSpace(s[0]) then
      var t := s[1..];
      var r := StripLeft(t);
      assert t[|t| - |r|..] == s[|s| - |r|..];
      assert forall i :: 1 <= i < |s| - |r| ==> s[i] == t[i - 1];
      r
    else s
  }

  /** `s.rstrip()`: a prefix of s that removes only whitespace. */
  function StripRight(s: string): (r: string)
    ensures |r| <= |s| && r == s[..|r|]
    ensures forall i :: |r| <= i < |s| ==> IsSpace(s[i])
    ensures r == [] || !IsSpace(r[|r| - 1])
  {
    if s != [] && IsSpace(s[|s| - 1]) then StripRight(s[..|s| - 1]) else s
  }

  /** `s.strip()`: `s.lstrip().rstrip()`, with the leading whitespace counted rather than peeled one by one. */
  function Strip(s: string): (r: string)
    ensures |r| <= |s|
    ensures r == [] || (!IsSpace(r[0]) && !IsSpace(r[|r| - 1]))
  {
    StripRight(s[LeadingSpaces(s)..])
  }

  /**
   * `str.strip()` removes the whitespace at the two ends and nothing else: the result is the
   * slice of s that starts after the leading whitespace, and everything after it is whitespace.
   * With Strip's own ensures (the result neither starts nor ends with whitespace) this fixes
   * the result on every string.
   */
  lemma StripSpec(s: string)
    ensures var a, r := LeadingSpaces(s), Strip(s);
      && a + |r| <= |s|
      && r == s[a..a + |r|]
      && (forall i :: 0 <= i < a ==> IsSpace(s[i]))
      && (forall i :: a + |r| <= i < |s| ==> IsSpace(s[i]))
  {
    var a := LeadingSpaces(s);
    var t := s[a..];
    var r := StripRight(t);
    assert r == t[..|r|];
    assert forall i :: a + |r| <= i < |s| ==> s[i] == t[i - a];
  }

  /** Both ways of removing leading whitespace agree. */
  lemma {:induction false} StripLeftDrops(s: string)
    ensures StripLeft(s) == s[LeadingSpaces(s)..]
  {
    if s != [] && IsSpace(s[0]) {
      StripLeftDrops(s[1..]);
    }
  }

  /** A string without whitespace is one word. */
  lemma SplitWord(u: string)
    requires u != [] && forall i :: 0 <= i < |u| ==> !IsSpace(u[i])
    ensures Split(u) == [u]
  {
    assert WordLength(u) == |u|;
    assert StripLeft(u) == u;
    assert u[..|u|] == u && u[|u|..] == [];
  }

  /** Any whitespace character ends the word before it: `(u + c + v).split()` is `[u] + v.split()`. */
  lemma SplitAtSpace(u: string, c: char, v: string)
    requires u != [] && forall i :: 0 <= i < |u| ==> !IsSpace(u[i])
    requires IsSpace(c)
    ensures Split(u + [c] + v) == [u] + Split(v)
  {
    var s := u + [c] + v;
    assert s[|u|] == c;
    assert WordLength(s) == |u|;
    assert StripLeft(s) == s;
    assert s[..|u|] == u && s[|u|..] == [c] + v;
    assert StripLeft([c] + v) == StripLeft(v) by {
      assert ([c] + v)[1..] == v;
    }
  }

  /** Leading whitespace adds no word: `(c + v).split()` is `v.split()`. */
  lemma SplitLeadingSpace(c: char, v: string)
    requires IsSpace(c)
    ensures Split([c] + v) == Split(v)
  {
    assert ([c] + v)[1..] == v;
    assert StripLeft([c] + v) == StripLeft(v);
  }

  /**
   * The empty string has no words. With SplitLeadingSpace, SplitWord and SplitAtSpace this
   * fixes `Split` on every string: by its first character, then on a shorter rest.
   */
  lemma SplitEmpty()
    ensures Split([]) == []
  {
    assert StripLeft([]) == [];
  }

  /** Information separators are stripped at either end: `"\x1ca\x1f".strip()` is `"a"`. */
  lemma StripRemovesSeparators()
    ensures Strip(['\U{001C}', 'a', '\U{001F}']) == ['a']
  {
    var t := ['\U{001C}', 'a', '\U{001F}'];
    assert LeadingSpaces(t) == 1 by {
      assert LeadingSpaces(t[1..]) == 0;
    }
    assert t[1..] == ['a', '\U{001F}'];
    assert StripRight(['a', '\U{001F}']) == ['a'] by {
      assert ['a', '\U{001F}'][..1] == ['a'];
    }
  }

  /** Stripping twice is stripping once. */
  lemma StripIdempotent(s: string)
    ensures Strip(Strip(s)) == Strip(s)
  {
    var r := Strip(s);
    assert StripLeft(r) == r;
    assert StripRight(r) == r;
  }

  /** Length of the leading run of non-whitespace characters. */
  function WordLength(s: string): (n: nat)
    ensures n <= |s|
    ensures forall i :: 0 <= i < n ==> !IsSpace(s[i])
    ensures n < |s| ==> IsSpace(s[n])
  {
    if s == [] || IsSpace(s[0]) then 0 else 1 + WordLength(s[1..])
  }

  /** `s.split()` with no separator: maximal runs of non-whitespace. */
  function Split(s: string): (r: seq<string>)
    ensures forall w :: w in r ==> w != [] && forall c :: c in w ==> !IsSpace(c)
    decreases |s|
  {
    var t := StripLeft(s);
    if t == [] then []
    else
      var n := WordLength(t);
      var w := t[..n];
      assert forall c :: c in w ==> !IsSpace(c) by {
        forall c | c in w ensures !IsSpace(c) {
          var i :| 0 <= i < n && w[i] == c;
          assert t[i] == c;
        }
      }
      [w] + Split(t[n..])
  }

  /** Every character of a needle that occurs appears in the haystack. */
  lemma ContainsChars(haystack: string, needle: string, c: char)
    requires Contains(haystack, needle) && c in needle
    ensures c in haystack
  {
    var i :| 0 <= i <= |haystack| - |needle| && needle <= haystack[i..];
    var j :| 0 <= j < |needle| && needle[j] == c;
    assert haystack[i + j] == c;
  }

  /** `sep.join(parts)`. */
  function Join(parts: seq<string>, sep: string): string
  {
    if parts == [] then ""
    else if |parts| == 1 then parts[0]
    else parts[0] + sep + Join(parts[1..], sep)
  }

  /** `sep.join(parts)` starts with the first part, ends with the last and adds one separator per gap to the length. */
  lemma {:induction false} JoinShape(parts: seq<string>, sep: string)
    requires parts != []
    ensures parts[0] <= Join(parts, sep)
    ensures |Join(parts, sep)| >= |parts[|parts| - 1]|
    ensures Join(parts, sep)[|Join(parts, sep)| - |parts[|parts| - 1]|..] == parts[|parts| - 1]
    ensures |Join(parts, sep)| == TotalLength(parts) + (|parts| - 1) * |sep|
  {
    if |parts| > 1 {
      JoinShape(parts[1..], sep);
      assert parts[1..][|parts[1..]| - 1] == parts[|parts| - 1];
      TotalLengthFirst(parts);
      var j := Join(parts, sep);
      assert j == parts[0] + sep + Join(parts[1..], sep);
      assert j[..|parts[0]|] == parts[0];
    }
  }

  /** Splitting the parts anywhere splits the join there, at exactly one separator. */
  lemma {:induction false} JoinSplit(parts: seq<string>, sep: string, i: nat)
    requires 0 < i < |parts|
    ensures Join(parts, sep) == Join(parts[..i], sep) + sep + Join(parts[i..], sep)
  {
    if i > 1 {
      var tail := parts[1..];
      JoinSplit(tail, sep, i - 1);
      assert tail[..i - 1] == parts[..i][1..];
      assert tail[i - 1..] == parts[i..];
      assert parts[..i][0] == parts[0];
    } else {
      assert parts[..1] == [parts[0]];
    }
  }

  /** Joining non-empty parts gives "" only when there are no parts. */
  lemma JoinEmptyIff(parts: seq<string>, sep: string)
    requires forall i :: 0 <= i < |parts| ==> parts[i] != []
    ensures Join(parts, sep) == [] <==> parts == []
  {
    if parts != [] {
      JoinShape(parts, sep);
    }
  }

  /** The sum of the lengths of some strings. */
  function TotalLength(parts: seq<string>): nat {
    if parts == [] then 0 else TotalLength(parts[..|parts| - 1]) + |parts[|parts| - 1]|
  }

  lemma {:induction false} TotalLengthFirst(parts: seq<string>)
    requires parts != []
    ensures TotalLength(parts) == |parts[0]| + TotalLength(parts[1..])
  {
    if |parts| > 1 {
      var p := parts[..|parts| - 1];
      TotalLengthFirst(p);
      assert p[1..] == parts[1..][..|parts[1..]| - 1];
    }
  }

  /** The string built by `s += part` for each part in turn. */
  function Concat(parts: seq<string>): (r: string)
    ensures |r| == TotalLength(parts)
  {
    if parts == [] then "" else Concat(parts[..|parts| - 1]) + parts[|parts| - 1]
  }

  /** Part i comes right after the parts before it, and the rest follows. */
  lemma {:induction false} ConcatPrefix(parts: seq<string>, i: nat)
    requires i < |parts|
    ensures Concat(parts[..i + 1]) == Concat(parts[..i]) + parts[i]
    ensures Concat(parts[..i]) + parts[i] <= Concat(parts)
    decreases |parts| - i
  {
    assert parts[..i + 1][..i] == parts[..i];
    if i + 1 < |parts| {
      ConcatPrefix(parts, i + 1);
    } else {
      assert parts[..i + 1] == parts;
    }
  }

  /** Concatenating non-empty parts gives the empty string only for no parts. */
  lemma {:induction false} ConcatEmptyIff(parts: seq<string>)
    requires forall i :: 0 <= i < |parts| ==> parts[i] != []
    ensures Concat(parts) == [] <==> parts == []
  {
    if parts != [] {
      assert |Concat(parts)| >= |parts[|parts| - 1]|;
    }
  }

  /** `for i, x in enumerate(xs)`: the text `block(i, x)` of every element, numbered by position. */
  function Numbered<T>(xs: seq<T>, block: (nat, T) -> string): (r: seq<string>)
    ensures |r| == |xs|
    ensures forall i :: 0 <= i < |xs| ==> r[i] == block(i, xs[i])
  {
    seq(|xs|, i requires 0 <= i < |xs| => block(i, xs[i]))
  }

  /** Block i follows, with nothing in between, the blocks of the elements before it. */
  lemma NumberedInOrder<T>(xs: seq<T>, block: (nat, T) -> string, i: nat)
    requires i < |xs|
    ensures Concat(Numbered(xs, block)[..i]) + block(i, xs[i]) <= Concat(Numbered(xs, block))
  {
    ConcatPrefix(Numbered(xs, block), i);
  }

  /** Non-empty blocks concatenate to the empty string only when there are no elements. */
  lemma NumberedEmptyIff<T>(xs: seq<T>, block: (nat, T) -> string)
    requires forall i :: 0 <= i < |xs| ==> block(i, xs[i]) != []
    ensures Concat(Numbered(xs, block)) == [] <==> xs == []
  {
    ConcatEmptyIff(Numbered(xs, block));
  }

  /**
   * A template with two slots, `p + x + m + y + s`: when one slot holds the same text in
   * two fillings that give the same result, the other slot does too.
   */
  lemma TwoSlotsInjective(p: string, x1: string, x2: string, m: string, y1: string, y2: string, s: string)
    requires p + x1 + m + y1 + s == p + x2 + m + y2 + s
    requires x1 == x2 || y1 == y2
    ensures x1 == x2 && y1 == y2
  {
    var r := p + x1 + m + y1 + s;
    assert |x1| + |y1| == |x2| + |y2|;
    assert r[|p|..|p| + |x1|] == x1;
    assert (p + x2 + m + y2 + s)[|p|..|p| + |x2|] == x2;
    assert r[|p| + |x1| + |m|..|p| + |x1| + |m| + |y1|] == y1;
    assert (p + x2 + m + y2 + s)[|p| + |x2| + |m|..|p| + |x2| + |m| + |y2|] == y2;
  }

  /** Python's `needle in haystack` on strings: the needle starts at some position. */
  predicate Contains(haystack: string, needle: string) {
    exists i :: 0 <= i <= |haystack| - |needle| && needle <= haystack[i..]
  }

  /** A string occurs at either end of any string it is joined to. */
  lemma ContainsSelf(s: string, t: string)
    ensures Contains(s + t, s) && Contains(t + s, s)
  {
    assert s <= (s + t)[0..];
    assert s <= (t + s)[|t|..];
  }

  function DigitChar(d: nat): (c: char)
    requires d < 10
    ensures '0' <= c <= '9'
  {
    ['0', '1', '2', '3', '4', '5', '6', '7', '8', '9'][d]
  }

  /** `str(n)` for a natural number: its decimal digits. */
  function NatToString(n: nat): (r: string)
    ensures 1 <= |r|
    ensures forall i :: 0 <= i < |r| ==> '0' <= r[i] <= '9'
    ensures n < 10 <==> |r| == 1
  {
    if n < 10 then [DigitChar(n)] else NatToString(n / 10) + [DigitChar(n % 10)]
  }

  /** `str(n)` for any integer. */
  function IntToString(n: int): (r: string)
    ensures r != []
    ensures n < 0 <==> r[0] == '-'
  {
    if n < 0 then "-" + NatToString(-n) else NatToString(n)
  }

  /** Different numbers print differently. */
  lemma {:induction false} NatToStringInjective(a: nat, b: nat)
    requires NatToString(a) == NatToString(b)
    ensures a == b
  {
    if a >= 10 && b >= 10 {
      var sa, sb := NatToString(a), NatToString(b);
      assert sa[|sa| - 1] == DigitChar(a % 10) && sb[|sb| - 1] == DigitChar(b % 10);
      assert sa[..|sa| - 1] == NatToString(a / 10);
      assert sb[..|sb| - 1] == NatToString(b / 10);
      NatToStringInjective(a / 10, b / 10);
    }
  }

  /** Different integers print differently. */
  lemma IntToStringInjective(a: int, b: int)
    requires IntToString(a) == IntToString(b)
    ensures a == b
  {
    if a < 0 && b < 0 {
      assert NatToString(-a) == IntToString(a)[1..];
      assert NatToString(-b) == IntToString(b)[1..];
      NatToStringInjective(-a, -b);
    } else if 0 <= a && 0 <= b {
      NatToStringInjective(a, b);
    }
  }
}
