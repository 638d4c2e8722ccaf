/** Text and collection helpers shared by the client and server models:
    optional values, whitespace stripping, suffix tests, ASCII lower-casing,
    joining and splitting on a separator character, decimal rendering of
    integers and Python's `int(...)` parsing of decimal strings. */
module Common {

  datatype Option<T> = None | Some(value: T)

  /** `o || d` / `dict.get(k, d)`: the value when present, otherwise the default. */
  function OrElse<T>(o: Option<T>, default: T): T
  {
    match o
    case Some(v) => v
    case None => default
  }

  /** JavaScript `text || fallback` for an optional string: the empty string counts as missing. */
  function StringOr(o: Option<string>, fallback: string): string
  {
    if o.Some? && o.value != "" then o.value else fallback
  }

  function Min(a: int, b: int): int
  {
    if a <= b then a else b
  }

  /** Number of elements of `s` that satisfy `p` (the `filter(...).length` and `sum(1 for ...)` idioms). */
  function Count<T>(s: seq<T>, p: T -> bool): (n: nat)
    ensures n <= |s|
  {
    if s == [] then 0 else Count(s[..|s| - 1], p) + (if p(s[|s| - 1]) then 1 else 0)
  }

  lemma {:induction false} CountAppend<T>(s: seq<T>, t: seq<T>, p: T -> bool)
    ensures Count(s + t, p) == Count(s, p) + Count(t, p)
    decreases |t|
  {
    if t == [] {
      assert s + t == s;
    } else {
      assert (s + t)[..|s + t| - 1] == s + t[..|t| - 1];
      CountAppend(s, t[..|t| - 1], p);
    }
  }

  /** A weaker test counts at least as many elements. */
  lemma {:induction false} CountMonotone<T>(s: seq<T>, p: T -> bool, q: T -> bool)
    requires forall x :: p(x) ==> q(x)
    ensures Count(s, p) <= Count(s, q)
  {
    if s != [] {
      CountMonotone(s[..|s| - 1], p, q);
    }
  }

  /** `Count` is zero exactly when no element satisfies `p`. */
  lemma {:induction false} CountZeroIffNone<T>(s: seq<T>, p: T -> bool)
    ensures Count(s, p) == 0 <==> forall i :: 0 <= i < |s| ==> !p(s[i])
  {
    if s != [] {
      CountZeroIffNone(s[..|s| - 1], p);
      assert forall i :: 0 <= i < |s| - 1 ==> s[..|s| - 1][i] == s[i];
    }
  }

  /** The elements of `s` that satisfy `p`, in order (a query's `filter(...)`). */
  function Filter<T>(s: seq<T>, p: T -> bool): (r: seq<T>)
    ensures |r| <= |s|
  {
    if s == [] then [] else Filter(s[..|s| - 1], p) + (if p(s[|s| - 1]) then [s[|s| - 1]] else [])
  }

  /** An element is kept exactly when it is in `s` and satisfies `p`. */
  lemma {:induction false} FilterMembers<T>(s: seq<T>, p: T -> bool)
    ensures forall x :: x in Filter(s, p) <==> x in s && p(x)
  {
    if s != [] {
      var init := s[..|s| - 1];
      var last := s[|s| - 1];
      FilterMembers(init, p);
      assert s == init + [last];
      forall x ensures x in Filter(s, p) <==> x in s && p(x) {
        assert Filter(s, p) == Filter(init, p) + (if p(last) then [last] else []);
      }
    }
  }

  lemma HeadMember<T>(s: seq<T>)
    ensures s != [] ==> s[0] in s
  {
  }

  lemma FilterMember<T>(s: seq<T>, p: T -> bool, x: T)
    requires x in Filter(s, p)
    ensures x in s && p(x)
  {
    FilterMembers(s, p);
  }

  lemma {:induction false} FilterAppend<T>(s: seq<T>, t: seq<T>, p: T -> bool)
    ensures Filter(s + t, p) == Filter(s, p) + Filter(t, p)
    decreases |t|
  {
    if t == [] {
      assert s + t == s;
    } else {
      var init := t[..|t| - 1];
      assert s + t == (s + init) + [t[|t| - 1]];
      FilterAppend(s, init, p);
    }
  }

  lemma {:induction false} FilterNone<T>(s: seq<T>, p: T -> bool)
    requires forall i :: 0 <= i < |s| ==> !p(s[i])
    ensures Filter(s, p) == []
  {
    if s != [] {
      FilterNone(s[..|s| - 1], p);
    }
  }

  lemma {:induction false} FilterAll<T>(s: seq<T>, p: T -> bool)
    requires forall i :: 0 <= i < |s| ==> p(s[i])
    ensures Filter(s, p) == s
  {
    if s != [] {
      FilterAll(s[..|s| - 1], p);
    }
  }

  /** `s` is strictly increasing under `key`. */
  ghost predicate IncreasingBy<T>(s: seq<T>, key: T -> int)
  {
    forall i, j :: 0 <= i < j < |s| ==> key(s[i]) < key(s[j])
  }

  /** Filtering keeps the relative order: a sequence increasing under `key` stays so. */
  lemma {:induction false} FilterIncreasing<T>(s: seq<T>, p: T -> bool, key: T -> int)
    requires IncreasingBy(s, key)
    ensures IncreasingBy(Filter(s, p), key)
  {
    if s != [] {
      var init := s[..|s| - 1];
      var last := s[|s| - 1];
      FilterIncreasing(init, p, key);
      FilterMembers(init, p);
      var r := Filter(init, p);
      forall k | 0 <= k < |r| ensures key(r[k]) < key(last) {
        FilterMember(init, p, r[k]);
        var i :| 0 <= i < |init| && init[i] == r[k];
        assert s[i] == r[k];
      }
      var whole := Filter(s, p);
      assert whole == r + (if p(last) then [last] else []);
      assert forall k :: 0 <= k < |r| ==> whole[k] == r[k];
    }
  }

  /** `xs.map(f)`. */
  function Map<A, B>(xs: seq<A>, f: A -> B): (r: seq<B>)
    ensures |r| == |xs|
    ensures forall i :: 0 <= i < |xs| ==> r[i] == f(xs[i])
  {
    seq(|xs|, i requires 0 <= i < |xs| => f(xs[i]))
  }

  /** Pushing `f(xs[j])` onto `rows + Map(xs[..j], f)` gives `rows + Map(xs[..j + 1], f)`. */
  lemma MapPush<A, B>(rows: seq<B>, xs: seq<A>, f: A -> B, j: nat)
    requires j < |xs|
    ensures rows + Map(xs[..j + 1], f) == rows + Map(xs[..j], f) + [f(xs[j])]
  {
    assert Map(xs[..j + 1], f) == Map(xs[..j], f) + [f(xs[j])];
  }

  /** A sequence that starts with `s` is `s` followed by the rest. */
  lemma PrefixSplit<T>(r: seq<T>, s: seq<T>)
    requires |s| <= |r| && r[..|s|] == s
    ensures r == s + r[|s|..]
  {
    assert r == r[..|s|] + r[|s|..];
  }

  /** If `r` extends `s + added` by elements of `pool[1..]`, where `added` is
      empty or `[pool[0]]`, then `r` extends `s` by elements of `pool`. */
  lemma ExtendsByStep<T>(pool: seq<T>, s: seq<T>, added: seq<T>, r: seq<T>)
    requires pool != [] && (added == [] || added == [pool[0]])
    requires |s| + |added| <= |r| <= |s| + |added| + |pool| - 1
    requires r[..|s| + |added|] == s + added
    requires multiset(r[|s| + |added|..]) <= multiset(pool[1..])
    ensures |s| <= |r| <= |s| + |pool| && r[..|s|] == s
    ensures multiset(r[|s|..]) <= multiset(pool)
  {
    assert pool == [pool[0]] + pool[1..];
    assert r[..|s|] == r[..|s| + |added|][..|s|];
    assert r[|s|..] == added + r[|s| + |added|..];
  }

  /** Where each part of `a + b + c` sits. */
  lemma Concat3<T>(a: seq<T>, b: seq<T>, c: seq<T>)
    ensures |a + b + c| == |a| + |b| + |c|
    ensures forall i :: 0 <= i < |a| ==> (a + b + c)[i] == a[i]
    ensures forall i :: 0 <= i < |b| ==> (a + b + c)[|a| + i] == b[i]
    ensures forall i :: 0 <= i < |c| ==> (a + b + c)[|a| + |b| + i] == c[i]
  {
  }

  /** A prefix one longer is the prefix followed by the next element. */
  lemma TakeSnoc<T>(xs: seq<T>, j: nat)
    requires j < |xs|
    ensures xs[..j + 1] == xs[..j] + [xs[j]]
  {
  }

  /** Creating an empty list under `k` when it is missing and then appending
      `v` to it is one update of `m` at `k`. */
  lemma AppendAtKey<K, V>(m: map<K, seq<V>>, k: K, v: V, m1: map<K, seq<V>>, m2: map<K, seq<V>>)
    requires m1 == (if k in m then m else m[k := []])
    requires m2 == m1[k := m1[k] + [v]]
    ensures m2 == m[k := (if k in m then m[k] else []) + [v]]
  {
  }

  lemma ConcatAt<T>(a: seq<T>, b: seq<T>, k: nat)
    requires k < |a| + |b|
    ensures k < |a| ==> (a + b)[k] == a[k]
    ensures |a| <= k ==> (a + b)[k] == b[k - |a|]
  {
  }

  /** The number of elements over all the inner sequences. */
  function TotalLength<T>(xss: seq<seq<T>>): nat
  {
    if xss == [] then 0 else TotalLength(xss[..|xss| - 1]) + |xss[|xss| - 1]|
  }

  /** The inner sequences one after another (nested `forEach` pushes). */
  function Flatten<T>(xss: seq<seq<T>>): (r: seq<T>)
    ensures |r| == TotalLength(xss)
  {
    if xss == [] then [] else Flatten(xss[..|xss| - 1]) + xss[|xss| - 1]
  }

  /** Element `j` of inner sequence `i` sits after all the elements of the inner sequences before it. */
  lemma {:induction false} FlattenAt<T>(xss: seq<seq<T>>, i: nat, j: nat)
    requires i < |xss| && j < |xss[i]|
    ensures TotalLength(xss[..i]) + j < TotalLength(xss)
    ensures Flatten(xss)[TotalLength(xss[..i]) + j] == xss[i][j]
  {
    var init := xss[..|xss| - 1];
    if i == |xss| - 1 {
      assert xss[..i] == init;
    } else {
      FlattenAt(init, i, j);
      assert init[..i] == xss[..i] && init[i] == xss[i];
    }
  }

  // ---------------------------------------------------------------- whitespace

  /** The ASCII whitespace characters (space, tab, line feed, vertical tab,
      form feed, carriage return), stripped by both JavaScript's `trim` and
      Python's `strip`. Python's `strip` also removes the separators
      \x1c-\x1f, which JavaScript's `trim` keeps; they are not in this set,
      so where the server strips a cell the model keeps them at its ends. */
  predicate IsSpace(c: char)
  {
    c == ' ' || c == '\t' || c == '\n' || c == '\U{B}' || c == '\U{C}' || c == '\r'
  }

  predicate Blank(s: string)
  {
    forall i :: 0 <= i < |s| ==> IsSpace(s[i])
  }

  /** Drops the leading whitespace: the result is the suffix of `s` that starts at its first non-space character. */
  function TrimStart(s: string): (r: string)
    ensures |r| <= |s| && r == s[|s| - |r|..]
    ensures r == [] || !IsSpace(r[0])
    ensures forall i :: 0 <= i < |s| - |r| ==> IsSpace(s[i])
  {
    if |s| > 0 && IsSpace(s[0]) then TrimStart(s[1..]) else s
  }

  /** Drops the trailing whitespace: the result is the prefix of `s` that ends at its last non-space character. */
  function TrimEnd(s: string): (r: string)
    ensures |r| <= |s| && r == s[..|r|]
    ensures r == [] || !IsSpace(r[|r| - 1])
    ensures forall i :: |r| <= i < |s| ==> IsSpace(s[i])
  {
    if |s| > 0 && IsSpace(s[|s| - 1]) then TrimEnd(s[..|s| - 1]) else s
  }

  /** JavaScript `s.trim()` / Python `s.strip()`. */
  function Strip(s: string): (r: string)
    ensures |r| <= |s|
    ensures r == [] || (!IsSpace(r[0]) && !IsSpace(r[|r| - 1]))
  {
    TrimEnd(TrimStart(s))
  }

  /** The stripped text is the slice of `s` left once the whitespace at both
      ends is cut away: it starts after the leading whitespace, which is as
      long as `s` is beyond `TrimStart(s)`, and is followed only by whitespace. */
  lemma StripSlice(s: string)
    ensures var a := |s| - |TrimStart(s)|;
      && a + |Strip(s)| <= |s| && Strip(s) == s[a..a + |Strip(s)|]
      && (forall i :: 0 <= i < a ==> IsSpace(s[i]))
      && (forall i :: a + |Strip(s)| <= i < |s| ==> IsSpace(s[i]))
  {
    var t := TrimStart(s);
    var r := TrimEnd(t);
    var a := |s| - |t|;
    assert t == s[a..];
    forall i | a + |r| <= i < |s|
      ensures IsSpace(s[i])
    {
      assert s[i] == t[i - a];
    }
  }

  /** The stripped text is empty exactly when the text is all whitespace. */
  lemma StripEmptyIffBlank(s: string)
    ensures Strip(s) == [] <==> Blank(s)
  {
    var t := TrimStart(s);
    if Strip(s) == [] {
      assert Blank(t);
      assert t == [];
    }
    if Blank(s) {
      TrimStartOfBlank(s);
    }
  }

  lemma {:induction false} TrimStartOfBlank(s: string)
    requires Blank(s)
    ensures TrimStart(s) == []
  {
    if |s| > 0 {
      TrimStartOfBlank(s[1..]);
    }
  }

  /** A text with no whitespace at either end is its own strip. */
  lemma StripUnchanged(s: string)
    requires s == [] || (!IsSpace(s[0]) && !IsSpace(s[|s| - 1]))
    ensures Strip(s) == s
  {
  }

  // ---------------------------------------------------------------- suffixes, case

  /** JavaScript `s.endsWith(suffix)` / Python `s.endswith(suffix)`. */
  predicate EndsWith(s: string, suffix: string)
  {
    |suffix| <= |s| && s[|s| - |suffix|..] == suffix
  }

  predicate IsUpper(c: char)
  {
    'A' <= c <= 'Z'
  }

  function LowerChar(c: char): (d: char)
    ensures !IsUpper(d)
    ensures IsUpper(c) ==> d as int == c as int + 32
    ensures !IsUpper(c) ==> d == c
  {
    if IsUpper(c) then (c as int + 32) as char else c
  }

  /** `toLowerCase()` / `lower()` on the ASCII letters. */
  function ToLower(s: string): (r: string)
    ensures |r| == |s|
    ensures forall i :: 0 <= i < |s| ==> r[i] == LowerChar(s[i])
  {
    seq(|s|, i requires 0 <= i < |s| => LowerChar(s[i]))
  }

  lemma ToLowerIdempotent(s: string)
    ensures ToLower(ToLower(s)) == ToLower(s)
  {
  }

  // ---------------------------------------------------------------- join / split

  /** `cells.join(sep)`: the cells with one separator between neighbours. */
  function Join(cells: seq<string>, sep: char): string
  {
    if |cells| == 0 then ""
    else if |cells| == 1 then cells[0]
    else cells[0] + [sep] + Join(cells[1..], sep)
  }

  /** Splitting at every occurrence of `sep`, the inverse of `Join` for cells that do not contain `sep`. */
  function Split(s: string, sep: char): (parts: seq<string>)
    ensures |parts| >= 1
    ensures forall k :: 0 <= k < |parts| ==> sep !in parts[k]
  {
    if |s| == 0 then [""]
    else if s[0] == sep then [""] + Split(s[1..], sep)
    else
      var rest := Split(s[1..], sep);
      [[s[0]] + rest[0]] + rest[1..]
  }

  lemma {:induction false} SplitWithoutSep(a: string, sep: char)
    requires sep !in a
    ensures Split(a, sep) == [a]
  {
    if |a| > 0 {
      SplitWithoutSep(a[1..], sep);
      assert [a[0]] + a[1..] == a;
    }
  }

  lemma {:induction false} SplitAtSep(a: string, b: string, sep: char)
    requires sep !in a
    ensures Split(a + [sep] + b, sep) == [a] + Split(b, sep)
  {
    if |a| == 0 {
      assert a + [sep] + b == [sep] + b;
      assert ([sep] + b)[1..] == b;
    } else {
      var s := a + [sep] + b;
      assert s[0] == a[0];
      assert s[1..] == a[1..] + [sep] + b;
      SplitAtSep(a[1..], b, sep);
      assert [a[0]] + a[1..] == a;
    }
  }

  /** Round trip: splitting a joined row recovers its cells when no cell contains the separator. */
  lemma {:induction false} SplitJoin(cells: seq<string>, sep: char)
    requires |cells| >= 1
    requires forall k :: 0 <= k < |cells| ==> sep !in cells[k]
    ensures Split(Join(cells, sep), sep) == cells
  {
    if |cells| == 1 {
      SplitWithoutSep(cells[0], sep);
    } else {
      SplitJoin(cells[1..], sep);
      SplitAtSep(cells[0], Join(cells[1..], sep), sep);
      assert [cells[0]] + cells[1..] == cells;
    }
  }

  /** A joined text contains the separator only where `Join` put one, so it contains
      no character that none of the cells contains, apart from `sep`. */
  lemma {:induction false} JoinAvoids(cells: seq<string>, sep: char, c: char)
    requires c != sep
    requires forall k :: 0 <= k < |cells| ==> c !in cells[k]
    ensures c !in Join(cells, sep)
  {
    if |cells| > 1 {
      JoinAvoids(cells[1..], sep, c);
    }
  }

  // ---------------------------------------------------------------- decimal integers

  predicate IsDigit(c: char)
  {
    '0' <= c <= '9'
  }

  function DigitChar(d: nat): (c: char)
    requires d < 10
    ensures IsDigit(c)
  {
    ('0' as int + d) as char
  }

  function DigitValue(c: char): (d: nat)
    requires IsDigit(c)
    ensures d < 10
  {
    c as int - '0' as int
  }

  /** Decimal rendering of a natural number without leading zeros. */
  function NatToString(n: nat): (s: string)
    ensures |s| >= 1
    ensures forall i :: 0 <= i < |s| ==> IsDigit(s[i])
    ensures |s| > 1 ==> s[0] != '0'
  {
    if n < 10 then [DigitChar(n)] else NatToString(n / 10) + [DigitChar(n % 10)]
  }

  /** `String(n)` in JavaScript and `f"{n}"` in Python for an integer. */
  function IntToString(n: int): (s: string)
    ensures |s| >= 1
    ensures ',' !in s && '\n' !in s
  {
    if n < 0 then "-" + NatToString(-n) else NatToString(n)
  }

  /** The value of a run of digits in which single underscores may separate digits
      (Python ignores those underscores). */
  function DigitsValue(s: string): nat
    requires forall i :: 0 <= i < |s| ==> IsDigit(s[i]) || s[i] == '_'
  {
    if |s| == 0 then 0
    else if s[|s| - 1] == '_' then DigitsValue(s[..|s| - 1])
    else DigitsValue(s[..|s| - 1]) * 10 + DigitValue(s[|s| - 1])
  }

  /** The digit part Python's `int(...)` accepts: digits, with single
      underscores allowed only between two digits. */
  predicate WellFormedDigits(s: string)
  {
    && |s| >= 1
    && IsDigit(s[0]) && IsDigit(s[|s| - 1])
    && (forall i :: 0 <= i < |s| ==> IsDigit(s[i]) || s[i] == '_')
    && (forall i :: 0 <= i < |s| - 1 ==> s[i] == '_' ==> s[i + 1] != '_')
  }

  /** Python's `int(text)` for base 10: surrounding whitespace is ignored, one
      optional sign, then well-formed digits; anything else raises
      `ValueError`, modelled as `None`. */
  function ParsePyInt(text: string): (r: Option<int>)
    ensures r.Some? ==> Strip(text) != []
  {
    var t := Strip(text);
    if |t| == 0 then None
    else
      var negative := t[0] == '-';
      var body := if t[0] == '-' || t[0] == '+' then t[1..] else t;
      if WellFormedDigits(body) then
        Some(if negative then -(DigitsValue(body) as int) else DigitsValue(body) as int)
      else None
  }

  lemma {:induction false} DigitsValueOfNatToString(n: nat)
    ensures DigitsValue(NatToString(n)) == n
  {
    if n >= 10 {
      var s := NatToString(n);
      assert s[..|s| - 1] == NatToString(n / 10);
      DigitsValueOfNatToString(n / 10);
    }
  }

  lemma NatToStringWellFormed(n: nat)
    ensures WellFormedDigits(NatToString(n))
  {
  }

  /** Round trip: Python parses back every integer this model renders. */
  lemma ParseIntToString(n: int)
    ensures ParsePyInt(IntToString(n)) == Some(n)
  {
    var s := IntToString(n);
    var m: nat := if n < 0 then -n else n;
    var digits := NatToString(m);
    assert !IsSpace(s[0]) && !IsSpace(s[|s| - 1]);
    StripUnchanged(s);
    NatToStringWellFormed(m);
    DigitsValueOfNatToString(m);
    if n < 0 {
      assert s[0] == '-' && s[1..] == digits;
    } else {
      assert s == digits && IsDigit(s[0]);
    }
  }
}
