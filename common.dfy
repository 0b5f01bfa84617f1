/**
 * Value types and sequence/string helpers shared by the modules of the model.
 * Strings follow JavaScript only as far as the application uses them: ASCII
 * case mapping, `includes` as substring search, `trim() === ""` as blankness.
 */
module Common {

  /** JavaScript's `null`/`undefined` versus a present value. */
  datatype Option<+T> = None | Some(value: T) {
    function GetOr(default: T): T {
      if Some? then value else default
    }
  }

  datatype Result<+T, +E> = Success(value: T) | Failure(error: E)

  /** The outcome of an awaited HTTP call: the promise rejected (axios rejects
      on a network error and on every non-2xx status) or it resolved with a body. */
  datatype Fetch<+T> = Threw(error: string) | Responded(body: T)

  /** A JavaScript string used with `||`: absent and "" are both falsy. */
  predicate Truthy(s: Option<string>) {
    s.Some? && s.value != ""
  }

  /** `a || b` on two optional strings. */
  function OrString(a: Option<string>, b: Option<string>): Option<string> {
    if Truthy(a) then a else b
  }

  // ---------------------------------------------------------------- characters

  predicate IsUpper(c: char) { 'A' <= c <= 'Z' }
  predicate IsLower(c: char) { 'a' <= c <= 'z' }
  predicate IsDigit(c: char) { '0' <= c <= '9' }

  /** The characters `String.prototype.trim` removes. */
  predicate IsSpace(c: char) {
    || c == ' ' || c == '\t' || c == '\n' || c == '\r'
    || c == '\U{0B}' || c == '\U{0C}' || c == '\U{A0}' || c == '\U{1680}'
    || ('\U{2000}' <= c <= '\U{200A}')
    || c == '\U{2028}' || c == '\U{2029}' || c == '\U{202F}' || c == '\U{205F}'
    || c == '\U{3000}' || c == '\U{FEFF}'
  }

  function LowerChar(c: char): char {
    if IsUpper(c) then (c as int + 32) as char else c
  }

  function UpperChar(c: char): char {
    if IsLower(c) then (c as int - 32) as char else c
  }

  function ToLower(s: string): (r: string)
    ensures |r| == |s|
    ensures forall i :: 0 <= i < |s| ==> r[i] == LowerChar(s[i])
  {
    seq(|s|, i requires 0 <= i < |s| => LowerChar(s[i]))
  }

  function ToUpper(s: string): (r: string)
    ensures |r| == |s|
    ensures forall i :: 0 <= i < |s| ==> r[i] == UpperChar(s[i])
  {
    seq(|s|, i requires 0 <= i < |s| => UpperChar(s[i]))
  }

  // ------------------------------------------------------------------- strings

  predicate OccursAt(s: string, t: string, i: int) {
    0 <= i && i + |t| <= |s| && s[i..i + |t|] == t
  }

  /** `s.includes(t)`. */
  predicate Contains(s: string, t: string) {
    exists i :: 0 <= i <= |s| - |t| && OccursAt(s, t, i)
  }

  /** `s.trim() === ""`. */
  predicate IsBlank(s: string) {
    forall i :: 0 <= i < |s| ==> IsSpace(s[i])
  }

  function DigitChar(d: nat): char
    requires d < 10
  {
    ('0' as int + d) as char
  }

  /** `String(n)` for a non-negative integer. */
  function NatToString(n: nat): (s: string)
    ensures |s| >= 1
    ensures forall i :: 0 <= i < |s| ==> IsDigit(s[i])
  {
    if n < 10 then [DigitChar(n)] else NatToString(n / 10) + [DigitChar(n % 10)]
  }

  /** Decimal rendering is one-to-one. */
  lemma {:induction false} NatToStringInjective(a: nat, b: nat)
    requires NatToString(a) == NatToString(b)
    ensures a == b
    decreases a
  {
    if a >= 10 && b >= 10 {
      var sa, sb := NatToString(a), NatToString(b);
      assert sa[|sa| - 1] == DigitChar(a % 10) && sb[|sb| - 1] == DigitChar(b % 10);
      assert sa[..|sa| - 1] == NatToString(a / 10);
      assert sb[..|sb| - 1] == NatToString(b / 10);
      NatToStringInjective(a / 10, b / 10);
    }
  }

  /** No leading zero: only 0 itself renders starting with '0'. */
  lemma {:induction false} NatToStringNoLeadingZero(n: nat)
    ensures NatToString(n)[0] == '0' ==> n == 0
    ensures n >= 10 ==> |NatToString(n)| >= 2
    decreases n
  {
    if n >= 10 {
      NatToStringNoLeadingZero(n / 10);
      assert NatToString(n)[0] == NatToString(n / 10)[0];
    }
  }

  /** `String(n)` for an integer. */
  function IntToString(n: int): string {
    if n < 0 then "-" + NatToString(-n) else NatToString(n)
  }

  /** The rendering starts with '-' exactly for negative numbers. */
  lemma SignShows(n: int)
    ensures |IntToString(n)| >= 1
    ensures IntToString(n)[0] == '-' <==> n < 0
  {
    if n >= 0 {
      assert IsDigit(NatToString(n)[0]);
    }
  }

  lemma IntToStringInjective(a: int, b: int)
    requires IntToString(a) == IntToString(b)
    ensures a == b
  {
    SignShows(a);
    SignShows(b);
    if a < 0 && b < 0 {
      assert NatToString(-a) == IntToString(a)[1..];
      NatToStringInjective(-a, -b);
    } else if a >= 0 && b >= 0 {
      NatToStringInjective(a, b);
    }
  }

  // ----------------------------------------------------------------- sequences

  /** `s.filter(p)`. */
  function Filter<T(==)>(s: seq<T>, p: T -> bool): (r: seq<T>)
    ensures |r| <= |s|
    ensures forall x :: x in r ==> x in s && p(x)
    ensures forall x :: x in s && p(x) ==> x in r
  {
    if s == [] then []
    else (if p(s[0]) then [s[0]] else []) + Filter(s[1..], p)
  }

  /** `s.find(p)`, and the store's `findFirst`/`findUnique` on one key: the
      first element satisfying p, or None when there is none. */
  function FindFirst<T>(s: seq<T>, p: T -> bool): (r: Option<T>)
    ensures r.Some? ==> r.value in s && p(r.value)
    ensures r.None? <==> forall x :: x in s ==> !p(x)
    decreases |s|
  {
    if s == [] then None
    else if p(s[0]) then Some(s[0])
    else
      assert forall x :: x in s ==> x == s[0] || x in s[1..];
      FindFirst(s[1..], p)
  }

  /** What FindFirst finds is the first element that satisfies p. */
  lemma {:induction false} FindFirstIsFirst<T>(s: seq<T>, p: T -> bool)
    requires FindFirst(s, p).Some?
    ensures exists k :: 0 <= k < |s| && s[k] == FindFirst(s, p).value && forall j :: 0 <= j < k ==> !p(s[j])
    decreases |s|
  {
    if !p(s[0]) {
      FindFirstIsFirst(s[1..], p);
      var k :| 0 <= k < |s[1..]| && s[1..][k] == FindFirst(s, p).value && forall j :: 0 <= j < k ==> !p(s[1..][j]);
      assert s[k + 1] == s[1..][k];
      assert forall j :: 1 <= j < k + 1 ==> s[j] == s[1..][j - 1];
    } else {
      assert s[0] == FindFirst(s, p).value;
    }
  }

  /** r is obtained from s by deleting elements: the order of what is kept is unchanged. */
  predicate IsSubseq<T(==)>(r: seq<T>, s: seq<T>)
    decreases |s|
  {
    if r == [] then true
    else if s == [] then false
    else if r[0] == s[0] then IsSubseq(r[1..], s[1..])
    else IsSubseq(r, s[1..])
  }

  lemma {:induction false} FilterIsSubseq<T>(s: seq<T>, p: T -> bool)
    ensures IsSubseq(Filter(s, p), s)
    decreases |s|
  {
    if s != [] {
      var t := Filter(s[1..], p);
      FilterIsSubseq(s[1..], p);
      assert s == [s[0]] + s[1..];
      if p(s[0]) {
        assert ([s[0]] + t)[1..] == t;
      } else {
        assert Filter(s, p) == t;
        SubseqCons(t, s[0], s[1..]);
      }
    }
  }

  /** Putting an element in front of s keeps every subsequence of s a subsequence. */
  lemma {:induction false} SubseqCons<T>(r: seq<T>, x: T, s: seq<T>)
    requires IsSubseq(r, s)
    ensures IsSubseq(r, [x] + s)
    decreases |s|, 1
  {
    assert ([x] + s)[1..] == s;
    if r != [] && r[0] == x {
      SubseqDropHead(r, s);
    }
  }

  lemma {:induction false} SubseqDropHead<T>(r: seq<T>, s: seq<T>)
    requires r != [] && IsSubseq(r, s)
    ensures IsSubseq(r[1..], s)
    decreases |s|, 0
  {
    assert s == [s[0]] + s[1..];
    if r[0] == s[0] {
      SubseqCons(r[1..], s[0], s[1..]);
    } else {
      SubseqDropHead(r, s[1..]);
      SubseqCons(r[1..], s[0], s[1..]);
    }
  }

  /** A subsequence of a subsequence is a subsequence. */
  lemma {:induction false} SubseqTrans<T>(a: seq<T>, b: seq<T>, c: seq<T>)
    requires IsSubseq(a, b) && IsSubseq(b, c)
    ensures IsSubseq(a, c)
    decreases |c|
  {
    if a != [] {
      if b[0] == c[0] {
        if a[0] == b[0] {
          SubseqTrans(a[1..], b[1..], c[1..]);
        } else {
          SubseqTrans(a, b[1..], c[1..]);
        }
      } else {
        SubseqTrans(a, b, c[1..]);
        if a[0] == c[0] {
          SubseqDropHead(a, c[1..]);
        }
      }
    }
  }

  /** Filtering with a predicate that holds of every element keeps the whole sequence. */
  lemma {:induction false} FilterAll<T>(s: seq<T>, p: T -> bool)
    requires forall x :: x in s ==> p(x)
    ensures Filter(s, p) == s
    decreases |s|
  {
    if s != [] {
      FilterAll(s[1..], p);
    }
  }

  // --------------------------------------------------------------------- sort

  predicate SortedDesc<T>(s: seq<T>, key: T -> int) {
    forall i, j :: 0 <= i < j < |s| ==> key(s[i]) >= key(s[j])
  }

  /** Inserts x in front of the first element whose key is not greater than x's. */
  function InsertDesc<T(==)>(x: T, s: seq<T>, key: T -> int): (r: seq<T>)
    ensures multiset(r) == multiset(s) + multiset{x}
  {
    if s == [] || key(s[0]) <= key(x) then [x] + s
    else
      assert s == [s[0]] + s[1..];
      [s[0]] + InsertDesc(x, s[1..], key)
  }

  lemma {:induction false} InsertDescSorted<T>(x: T, s: seq<T>, key: T -> int)
    requires SortedDesc(s, key)
    ensures SortedDesc(InsertDesc(x, s, key), key)
    decreases |s|
  {
    if s != [] && key(s[0]) > key(x) {
      var t := InsertDesc(x, s[1..], key);
      InsertDescSorted(x, s[1..], key);
      forall y | y in t
        ensures key(y) <= key(s[0])
      {
        assert y in multiset(t);
        assert y == x || y in multiset(s[1..]);
      }
    }
  }

  /** A stable insertion sort, greatest key first (what `Array.prototype.sort`
      with a comparator `key(b) - key(a)` produces, and what an SQL
      `ORDER BY key DESC` produces up to the order of equal keys). */
  function SortByKeyDesc<T(==)>(s: seq<T>, key: T -> int): (r: seq<T>)
    ensures SortedDesc(r, key)
    ensures multiset(r) == multiset(s)
  {
    if s == [] then []
    else
      assert s == [s[0]] + s[1..];
      InsertDescSorted(s[0], SortByKeyDesc(s[1..], key), key);
      InsertDesc(s[0], SortByKeyDesc(s[1..], key), key)
  }
}
