/** Shared vocabulary: optional values, the two runtimes' notions of
    whitespace and upper case, and the sequence helpers that several
    components use (de-duplication in first-occurrence order, filtering out
    a set of values). */
module Common {

  datatype Option<T> = None | Some(value: T)

  /** The runtime whose string library is being modelled: the TypeScript
      front end or the Python pipeline. Their whitespace sets differ. */
  datatype Runtime = JavaScript | Python

  /** An inclusive range of code points. */
  datatype CodeRange = CodeRange(lo: int, hi: int)

  predicate InRanges(n: int, ranges: seq<CodeRange>)
    decreases |ranges|
  {
    ranges != [] && (ranges[0].lo <= n <= ranges[0].hi || InRanges(n, ranges[1..]))
  }

  /** The whitespace characters beyond ASCII that JavaScript's `\s` and
      `String.prototype.trim` recognise. */
  const JsWideSpaces: seq<CodeRange> := [CodeRange(0xA0, 0xA0), CodeRange(0x1680, 0x1680),
    CodeRange(0x2000, 0x200A), CodeRange(0x2028, 0x2029), CodeRange(0x202F, 0x202F),
    CodeRange(0x205F, 0x205F), CodeRange(0x3000, 0x3000), CodeRange(0xFEFF, 0xFEFF)]

  /** The whitespace characters beyond ASCII that Python's `str.isspace`
      (and so `str.strip()`) recognises. */
  const PyWideSpaces: seq<CodeRange> := [CodeRange(0x85, 0x85), CodeRange(0xA0, 0xA0),
    CodeRange(0x1680, 0x1680), CodeRange(0x2000, 0x200A), CodeRange(0x2028, 0x2029),
    CodeRange(0x202F, 0x202F), CodeRange(0x205F, 0x205F), CodeRange(0x3000, 0x3000)]

  /** Whitespace as JavaScript sees it: tab to carriage return, the space,
      and the wide characters above. */
  predicate IsJsSpace(c: char) {
    var n := c as int;
    if n < 128 then n == 32 || 9 <= n <= 13 else InRanges(n, JsWideSpaces)
  }

  /** Whitespace as Python sees it: as JavaScript's ASCII set plus the four
      information separators 0x1C to 0x1F, and the wide characters above. */
  predicate IsPySpace(c: char) {
    var n := c as int;
    if n < 128 then n == 32 || 9 <= n <= 13 || 0x1C <= n <= 0x1F else InRanges(n, PyWideSpaces)
  }

  predicate IsSpace(rt: Runtime, c: char) {
    match rt
    case JavaScript => IsJsSpace(c)
    case Python => IsPySpace(c)
  }

  /** Every character of `s` is whitespace. */
  predicate AllSpace(rt: Runtime, s: string) {
    forall i :: 0 <= i < |s| ==> IsSpace(rt, s[i])
  }

  /** Line terminators: the characters JavaScript's regular-expression `.` does not match. */
  predicate IsLineTerminator(c: char) {
    var n := c as int;
    n == 10 || n == 13 || n == 0x2028 || n == 0x2029
  }

  predicate IsDigit(c: char) {
    '0' <= c <= '9'
  }

  /** Upper-casing of one character, restricted to ASCII letters. */
  function UpperChar(c: char): (u: char)
    ensures 'a' <= c <= 'z' ==> u as int == c as int - 32
    ensures !('a' <= c <= 'z') ==> u == c
    ensures !('a' <= u <= 'z')
  {
    if 'a' <= c <= 'z' then (c as int - 32) as char else c
  }

  /** `toUpperCase()` / `upper()`, restricted to ASCII letters. */
  function Upper(s: string): (r: string)
    ensures |r| == |s|
    ensures forall i :: 0 <= i < |s| ==> r[i] == UpperChar(s[i])
  {
    seq(|s|, i requires 0 <= i < |s| => UpperChar(s[i]))
  }

  predicate IsUpperCased(s: string) {
    forall i :: 0 <= i < |s| ==> !('a' <= s[i] <= 'z')
  }

  lemma UpperIsUpperCased(s: string)
    ensures IsUpperCased(Upper(s))
    ensures Upper(Upper(s)) == Upper(s)
  {
  }

  /** An upper-cased string equals its own upper-casing. */
  lemma UpperCasedFixed(s: string)
    requires IsUpperCased(s)
    ensures Upper(s) == s
  {
  }

  /** The end of the run of whitespace that starts at `p` (a regular
      expression's `\s*`, or the scan of a left trim). */
  function SkipSpaces(rt: Runtime, s: string, p: nat): (q: nat)
    requires p <= |s|
    ensures p <= q <= |s|
    ensures AllSpace(rt, s[p..q])
    ensures q < |s| ==> !IsSpace(rt, s[q])
    decreases |s| - p
  {
    if p < |s| && IsSpace(rt, s[p]) then
      var q := SkipSpaces(rt, s, p + 1);
      assert s[p..q] == [s[p]] + s[p + 1..q];
      q
    else p
  }

  /** The start of the run of whitespace that ends at `q`, not going below
      `lo` (the scan of a right trim). */
  function SkipSpacesBack(rt: Runtime, s: string, lo: nat, q: nat): (p: nat)
    requires lo <= q <= |s|
    ensures lo <= p <= q
    ensures AllSpace(rt, s[p..q])
    ensures lo < p ==> !IsSpace(rt, s[p - 1])
    decreases q
  {
    if lo < q && IsSpace(rt, s[q - 1]) then
      var p := SkipSpacesBack(rt, s, lo, q - 1);
      assert s[p..q] == s[p..q - 1] + [s[q - 1]];
      p
    else q
  }

  /** JavaScript's `trim()` and Python's `strip()`: drop the leading
      whitespace, then the trailing whitespace of what is left. */
  function Trim(rt: Runtime, s: string): (r: string)
  {
    var a := SkipSpaces(rt, s, 0);
    s[a..SkipSpacesBack(rt, s, a, |s|)]
  }

  /** What trimming removes is whitespace on both sides. */
  lemma TrimIsSlice(rt: Runtime, s: string)
    ensures exists a, b :: 0 <= a <= b <= |s| && Trim(rt, s) == s[a..b] && AllSpace(rt, s[..a]) && AllSpace(rt, s[b..])
  {
    var a := SkipSpaces(rt, s, 0);
    var b := SkipSpacesBack(rt, s, a, |s|);
    assert s[..a] == s[0..a];
    assert s[b..] == s[b..|s|];
    assert Trim(rt, s) == s[a..b] && AllSpace(rt, s[..a]) && AllSpace(rt, s[b..]);
  }

  /** What trimming keeps starts and ends with a non-space character. */
  lemma TrimEnds(rt: Runtime, s: string)
    ensures Trim(rt, s) != [] ==> !IsSpace(rt, Trim(rt, s)[0]) && !IsSpace(rt, Trim(rt, s)[|Trim(rt, s)| - 1])
  {
    var a := SkipSpaces(rt, s, 0);
    var b := SkipSpacesBack(rt, s, a, |s|);
    var t := Trim(rt, s);
    assert t == s[a..b];
    if a < b {
      assert t[0] == s[a] && t[|t| - 1] == s[b - 1];
    }
  }

  /** A text that neither starts nor ends with whitespace is its own trimming. */
  lemma TrimUnchanged(rt: Runtime, s: string)
    requires s != [] && !IsSpace(rt, s[0]) && !IsSpace(rt, s[|s| - 1])
    ensures Trim(rt, s) == s
  {
    assert SkipSpaces(rt, s, 0) == 0;
    assert SkipSpacesBack(rt, s, 0, |s|) == |s|;
  }

  /** Trimming twice is trimming once. */
  lemma TrimIdempotent(rt: Runtime, s: string)
    ensures Trim(rt, Trim(rt, s)) == Trim(rt, s)
  {
    TrimEnds(rt, s);
    if Trim(rt, s) != [] {
      TrimUnchanged(rt, Trim(rt, s));
    }
  }

  /** De-duplication that keeps the first occurrence of every element, in
      order (a JavaScript `Set` built from a list, or the "if x not in seen:
      append" loop in Python). Defined by appending one element at a time. */
  function FirstOccurrences<T(==)>(s: seq<T>): (r: seq<T>)
    decreases |s|
  {
    if s == [] then []
    else
      var p := FirstOccurrences(s[..|s| - 1]);
      if s[|s| - 1] in p then p else p + [s[|s| - 1]]
  }

  predicate NoDuplicates<T(==)>(s: seq<T>) {
    forall i, j :: 0 <= i < j < |s| ==> s[i] != s[j]
  }

  /** The de-duplicated list holds each element of the input exactly once. */
  lemma {:induction false} FirstOccurrencesMembers<T>(s: seq<T>)
    ensures NoDuplicates(FirstOccurrences(s))
    ensures forall x :: x in FirstOccurrences(s) <==> x in s
    decreases |s|
  {
    if s != [] {
      var init := s[..|s| - 1];
      FirstOccurrencesMembers(init);
      assert s == init + [s[|s| - 1]];
    }
  }

  /** Order: de-duplicating a prefix of the input gives a prefix of the
      de-duplicated input, so elements keep the order of their first
      occurrences. */
  lemma {:induction false} FirstOccurrencesPrefix<T>(s: seq<T>, k: nat)
    requires k <= |s|
    ensures |FirstOccurrences(s[..k])| <= |FirstOccurrences(s)|
    ensures FirstOccurrences(s)[..|FirstOccurrences(s[..k])|] == FirstOccurrences(s[..k])
    decreases |s| - k
  {
    if k < |s| {
      var init := s[..|s| - 1];
      FirstOccurrencesPrefix(init, k);
      assert init[..k] == s[..k];
      assert s[..|s|] == s;
    } else {
      assert s[..k] == s;
    }
  }

  /** A list without duplicates is its own de-duplication. */
  lemma {:induction false} FirstOccurrencesOfDistinct<T>(s: seq<T>)
    requires NoDuplicates(s)
    ensures FirstOccurrences(s) == s
    decreases |s|
  {
    if s != [] {
      var init := s[..|s| - 1];
      FirstOccurrencesOfDistinct(init);
      FirstOccurrencesMembers(init);
      assert s[|s| - 1] !in init;
      assert init + [s[|s| - 1]] == s;
    }
  }

  /** `s.filter(x => !drop.has(x))`: removes every element in `drop`,
      keeping the others in order. */
  function RemoveAll<T(==)>(s: seq<T>, drop: set<T>): (r: seq<T>)
    ensures |r| <= |s|
    decreases |s|
  {
    if s == [] then [] else (if s[0] in drop then [] else [s[0]]) + RemoveAll(s[1..], drop)
  }

  /** Filtering keeps exactly the elements outside `drop` ... */
  lemma {:induction false} RemoveAllMembers<T>(s: seq<T>, drop: set<T>)
    ensures forall x :: x in RemoveAll(s, drop) <==> x in s && x !in drop
    decreases |s|
  {
    if s != [] {
      RemoveAllMembers(s[1..], drop);
      assert s == [s[0]] + s[1..];
    }
  }

  /** ... as many times as they occur in `s` ... */
  lemma {:induction false} RemoveAllCounts<T>(s: seq<T>, drop: set<T>, x: T)
    ensures multiset(RemoveAll(s, drop))[x] == if x in drop then 0 else multiset(s)[x]
    decreases |s|
  {
    if s != [] {
      var head := if s[0] in drop then [] else [s[0]];
      RemoveAllCounts(s[1..], drop, x);
      assert s == [s[0]] + s[1..];
      assert multiset(s) == multiset([s[0]]) + multiset(s[1..]);
      assert multiset(RemoveAll(s, drop)) == multiset(head) + multiset(RemoveAll(s[1..], drop));
    }
  }

  /** ... and distributes over concatenation, so it preserves their relative order. */
  lemma {:induction false} RemoveAllAppend<T>(s: seq<T>, t: seq<T>, drop: set<T>)
    ensures RemoveAll(s + t, drop) == RemoveAll(s, drop) + RemoveAll(t, drop)
    decreases |s|
  {
    if s != [] {
      var head := if s[0] in drop then [] else [s[0]];
      RemoveAllAppend(s[1..], t, drop);
      assert (s + t)[0] == s[0];
      assert (s + t)[1..] == s[1..] + t;
      assert RemoveAll(s + t, drop) == head + RemoveAll(s[1..] + t, drop);
      assert RemoveAll(s, drop) == head + RemoveAll(s[1..], drop);
    } else {
      assert s + t == t;
    }
  }

  /** Removing nothing that occurs in `s` leaves `s` unchanged. */
  lemma {:induction false} RemoveAllNone<T>(s: seq<T>, drop: set<T>)
    requires forall x :: x in s ==> x !in drop
    ensures RemoveAll(s, drop) == s
    decreases |s|
  {
    if s != [] {
      RemoveAllNone(s[1..], drop);
    }
  }

  /** Removing every element that occurs in `s` leaves nothing. */
  lemma {:induction false} RemoveAllEverything<T>(s: seq<T>, drop: set<T>)
    requires forall x :: x in s ==> x in drop
    ensures RemoveAll(s, drop) == []
    decreases |s|
  {
    if s != [] {
      assert s[0] in s;
      RemoveAllEverything(s[1..], drop);
    }
  }

  /** `s.filter(x => keep.has(x))`: the elements of `s` that lie in `keep`, in order. */
  function KeepOnly<T(==)>(s: seq<T>, keep: set<T>): (r: seq<T>)
    ensures |r| <= |s|
    decreases |s|
  {
    if s == [] then [] else (if s[0] in keep then [s[0]] else []) + KeepOnly(s[1..], keep)
  }

  lemma {:induction false} KeepOnlyMembers<T>(s: seq<T>, keep: set<T>)
    ensures forall x :: x in KeepOnly(s, keep) <==> x in s && x in keep
    ensures KeepOnly(s, keep) == [] <==> forall i :: 0 <= i < |s| ==> s[i] !in keep
    decreases |s|
  {
    if s != [] {
      KeepOnlyMembers(s[1..], keep);
      assert s == [s[0]] + s[1..];
    }
  }

  /** Filtering distributes over concatenation, so the kept elements stay in
      their original order. */
  lemma {:induction false} KeepOnlyAppend<T>(s: seq<T>, t: seq<T>, keep: set<T>)
    ensures KeepOnly(s + t, keep) == KeepOnly(s, keep) + KeepOnly(t, keep)
    decreases |s|
  {
    if s != [] {
      var head := if s[0] in keep then [s[0]] else [];
      KeepOnlyAppend(s[1..], t, keep);
      assert (s + t)[0] == s[0];
      assert (s + t)[1..] == s[1..] + t;
      assert KeepOnly(s + t, keep) == head + KeepOnly(s[1..] + t, keep);
      assert KeepOnly(s, keep) == head + KeepOnly(s[1..], keep);
    } else {
      assert s + t == t;
    }
  }

  /** Every kept value occurs as often as in the input; every other value
      does not occur at all. */
  lemma {:induction false} KeepOnlyCount<T>(s: seq<T>, keep: set<T>, x: T)
    ensures multiset(KeepOnly(s, keep))[x] == if x in keep then multiset(s)[x] else 0
    decreases |s|
  {
    if s != [] {
      KeepOnlyCount(s[1..], keep, x);
      assert s == [s[0]] + s[1..];
      assert multiset(s) == multiset([s[0]]) + multiset(s[1..]);
      var head := if s[0] in keep then [s[0]] else [];
      assert KeepOnly(s, keep) == head + KeepOnly(s[1..], keep);
      assert multiset(KeepOnly(s, keep)) == multiset(head) + multiset(KeepOnly(s[1..], keep));
    }
  }
}
