/** The pieces of Go's strings and sort packages that the controller relies on,
    over strings as sequences of code points. */
module GoStrings {

  datatype Option<+T> = None | Some(value: T)

  /** A Go (value, error) pair. */
  datatype Result<+T> = Ok(value: T) | Failed

  /** strings.Split with a one-character separator. */
  function Split(s: string, sep: char): (parts: seq<string>)
    ensures |parts| >= 1
  {
    if s == [] then [[]]
    else
      var rest := Split(s[1..], sep);
      if s[0] == sep then [[]] + rest else [[s[0]] + rest[0]] + rest[1..]
  }

  /** strings.Join with a one-character separator. */
  function Join(parts: seq<string>, sep: char): string
  {
    if parts == [] then []
    else if |parts| == 1 then parts[0]
    else parts[0] + [sep] + Join(parts[1..], sep)
  }

  lemma {:induction false} SplitNoSeparator(s: string, sep: char)
    requires sep !in s
    ensures Split(s, sep) == [s]
  {
    if s != [] {
      SplitNoSeparator(s[1..], sep);
      assert s == [s[0]] + s[1..];
    }
  }

  lemma {:induction false} SplitFirst(head: string, sep: char, tail: string)
    requires sep !in head
    ensures Split(head + [sep] + tail, sep) == [head] + Split(tail, sep)
  {
    var s := head + [sep] + tail;
    if head == [] {
      assert s[1..] == tail;
    } else {
      assert s[1..] == head[1..] + [sep] + tail;
      assert head == [head[0]] + head[1..];
      SplitFirst(head[1..], sep, tail);
    }
  }

  /** Joining and splitting again gives the parts back. */
  lemma {:induction false} SplitJoin(parts: seq<string>, sep: char)
    requires parts != []
    requires forall p <- parts :: sep !in p
    ensures Split(Join(parts, sep), sep) == parts
  {
    if |parts| == 1 {
      SplitNoSeparator(parts[0], sep);
    } else {
      SplitJoin(parts[1..], sep);
      SplitFirst(parts[0], sep, Join(parts[1..], sep));
    }
  }

  lemma {:induction false} SplitPartsAreClean(s: string, sep: char)
    ensures forall p <- Split(s, sep) :: sep !in p
  {
    if s != [] {
      SplitPartsAreClean(s[1..], sep);
    }
  }

  /** unicode.IsSpace, which strings.TrimSpace uses. */
  predicate IsSpace(c: char) {
    var n := c as int;
    9 <= n <= 13 || n == 0x20 || n == 0x85 || n == 0xA0 || n == 0x1680 || 0x2000 <= n <= 0x200A ||
    n == 0x2028 || n == 0x2029 || n == 0x202F || n == 0x205F || n == 0x3000
  }

  /** No white space at either end. */
  predicate Trimmed(s: string) {
    s != [] ==> !IsSpace(s[0]) && !IsSpace(s[|s| - 1])
  }

  function TrimLeft(s: string): (t: string)
    ensures t != [] ==> !IsSpace(t[0])
    ensures forall c <- t :: c in s
  {
    if s != [] && IsSpace(s[0]) then TrimLeft(s[1..]) else s
  }

  function TrimRight(s: string): (t: string)
    ensures t <= s
    ensures t != [] ==> !IsSpace(t[|t| - 1])
  {
    if s != [] && IsSpace(s[|s| - 1]) then TrimRight(s[..|s| - 1]) else s
  }

  function TrimSpace(s: string): (t: string)
    ensures Trimmed(t)
    ensures Trimmed(s) ==> t == s
    ensures forall c <- t :: c in s
  {
    TrimRight(TrimLeft(s))
  }

  lemma {:induction false} TrimLeftIgnores(before: string, s: string)
    requires forall c <- before :: IsSpace(c)
    ensures TrimLeft(before + s) == TrimLeft(s)
  {
    if before == [] {
      assert before + s == s;
    } else {
      assert before[0] in before && (before + s)[1..] == before[1..] + s;
      TrimLeftIgnores(before[1..], s);
    }
  }

  lemma {:induction false} TrimRightIgnores(s: string, after: string)
    requires forall c <- after :: IsSpace(c)
    ensures TrimRight(s + after) == TrimRight(s)
    decreases |after|
  {
    if after == [] {
      assert s + after == s;
    } else {
      var n := |after| - 1;
      assert after[n] in after && (s + after)[..|s| + n] == s + after[..n];
      TrimRightIgnores(s, after[..n]);
    }
  }

  lemma {:induction false} TrimLeftOfAll(s: string, after: string)
    requires forall c <- after :: IsSpace(c)
    ensures TrimSpace(s + after) == TrimSpace(s)
  {
    if s != [] && IsSpace(s[0]) {
      assert (s + after)[1..] == s[1..] + after;
      TrimLeftOfAll(s[1..], after);
    } else if s == [] {
      assert s + after == after + "";
      TrimLeftIgnores(after, "");
    } else {
      assert (s + after)[0] == s[0];
      TrimRightIgnores(s, after);
    }
  }

  /** What TrimSpace takes off is white space, at the ends, and all of it. */
  lemma TrimSpaceIgnores(before: string, s: string, after: string)
    requires (forall c <- before :: IsSpace(c)) && (forall c <- after :: IsSpace(c))
    ensures TrimSpace(before + s + after) == TrimSpace(s)
  {
    TrimLeftOfAll(before + s, after);
    TrimLeftIgnores(before, s);
  }

  /** strings.TrimSuffix with a one-character suffix. */
  function TrimSuffix(s: string, last: char): string {
    if s != [] && s[|s| - 1] == last then s[..|s| - 1] else s
  }

  /** Go's <= on strings; byte order and code-point order agree on UTF-8 text. */
  predicate Leq(a: string, b: string) {
    a == [] || (b != [] && (a[0] < b[0] || (a[0] == b[0] && Leq(a[1..], b[1..]))))
  }

  lemma PrefixHead(a: string, b: string, i: nat)
    requires 0 < i <= |a| && i <= |b| && a[..i] == b[..i]
    ensures a[0] == b[0]
  {
    assert a[..i][0] == b[..i][0];
  }

  /** Lexicographic order: one text is a prefix of the other, or the first difference decides. */
  lemma {:induction false} LeqIsLexicographic(a: string, b: string)
    ensures Leq(a, b) <==>
            a <= b || exists i :: 0 <= i < |a| && i < |b| && a[..i] == b[..i] && a[i] < b[i]
  {
    if a != [] && b != [] && a[0] == b[0] {
      LeqIsLexicographic(a[1..], b[1..]);
      assert a == [a[0]] + a[1..] && b == [b[0]] + b[1..];
      if a[1..] <= b[1..] {
        assert b[..|a|] == [b[0]] + b[1..][..|a| - 1];
      }
      if a <= b {
        assert b[1..][..|a| - 1] == b[..|a|][1..];
      }
      if i :| 0 <= i < |a[1..]| && i < |b[1..]| && a[1..][..i] == b[1..][..i] && a[1..][i] < b[1..][i] {
        assert a[..i + 1] == [a[0]] + a[1..][..i] && b[..i + 1] == [b[0]] + b[1..][..i];
        assert a[i + 1] < b[i + 1];
      }
      if i :| 0 <= i < |a| && i < |b| && a[..i] == b[..i] && a[i] < b[i] {
        assert i > 0;
        assert a[1..][..i - 1] == a[..i][1..] && b[1..][..i - 1] == b[..i][1..];
        assert a[1..][i - 1] < b[1..][i - 1];
      }
    } else if a != [] && b != [] {
      if a[0] < b[0] {
        assert a[..0] == b[..0];
      }
      if i :| 0 <= i < |a| && i < |b| && a[..i] == b[..i] && a[i] < b[i] {
        if i > 0 {
          PrefixHead(a, b, i);
          assert false;
        }
      }
    }
  }

  lemma LeqTotal(a: string, b: string)
    ensures Leq(a, b) || Leq(b, a)
  {}

  lemma LeqAntisymmetric(a: string, b: string)
    requires Leq(a, b) && Leq(b, a)
    ensures a == b
  {
    if a != [] && b != [] {
      LeqAntisymmetric(a[1..], b[1..]);
    }
  }

  lemma LeqTransitive(a: string, b: string, c: string)
    requires Leq(a, b) && Leq(b, c)
    ensures Leq(a, c)
  {}

  // ----- sort.Strings and sort.Slice by a string key

  ghost predicate SortedBy<T>(xs: seq<T>, key: T -> string) {
    forall i, j :: 0 <= i < j < |xs| ==> Leq(key(xs[i]), key(xs[j]))
  }

  function InsertBy<T>(x: T, xs: seq<T>, key: T -> string): (ys: seq<T>)
    ensures |ys| == |xs| + 1
    ensures multiset(ys) == multiset(xs) + multiset{x}
  {
    if xs == [] then [x]
    else if Leq(key(x), key(xs[0])) then [x] + xs
    else
      assert xs == [xs[0]] + xs[1..];
      [xs[0]] + InsertBy(x, xs[1..], key)
  }

  lemma {:induction false} InsertByIsSorted<T>(x: T, xs: seq<T>, key: T -> string)
    requires SortedBy(xs, key)
    ensures SortedBy(InsertBy(x, xs, key), key)
  {
    if xs == [] {
    } else if Leq(key(x), key(xs[0])) {
      forall j | 0 <= j < |xs|
        ensures Leq(key(x), key(xs[j]))
      {
        if j > 0 {
          LeqTransitive(key(x), key(xs[0]), key(xs[j]));
        }
      }
    } else {
      LeqTotal(key(x), key(xs[0]));
      InsertByIsSorted(x, xs[1..], key);
      var rest := InsertBy(x, xs[1..], key);
      forall j | 0 <= j < |rest|
        ensures Leq(key(xs[0]), key(rest[j]))
      {
        assert rest[j] in multiset(rest);
        assert rest[j] == x || rest[j] in xs[1..];
      }
    }
  }

  /** The library sort: a sorted permutation of its argument. */
  function SortBy<T>(xs: seq<T>, key: T -> string): (ys: seq<T>)
    ensures |ys| == |xs|
    ensures multiset(ys) == multiset(xs)
    ensures SortedBy(ys, key)
  {
    if xs == [] then []
    else
      var rest := SortBy(xs[1..], key);
      assert xs == [xs[0]] + xs[1..];
      InsertByIsSorted(xs[0], rest, key);
      InsertBy(xs[0], rest, key)
  }

  ghost predicate DistinctBy<T>(xs: seq<T>, key: T -> string) {
    forall i, j :: 0 <= i < j < |xs| ==> key(xs[i]) != key(xs[j])
  }

  /** With distinct keys only one sorted order exists, so neither the input order nor the
      sorting algorithm (Go's is not stable) can be seen in the result. */
  lemma {:induction false} SortedOrderIsUnique<T>(xs: seq<T>, ys: seq<T>, key: T -> string)
    requires SortedBy(xs, key) && DistinctBy(xs, key)
    requires SortedBy(ys, key) && DistinctBy(ys, key)
    requires forall x :: x in xs <==> x in ys
    ensures xs == ys
  {
    assert ys == [] || ys[0] in ys;
    if xs == [] {
    } else {
      assert xs[0] in ys && ys[0] in xs by {
        assert xs[0] in xs;
        if ys != [] { assert ys[0] in ys; }
      }
      var i :| 0 <= i < |ys| && ys[i] == xs[0];
      var j :| 0 <= j < |xs| && xs[j] == ys[0];
      if i > 0 {
        assert Leq(key(ys[0]), key(ys[i]));
        if j > 0 {
          assert Leq(key(xs[0]), key(xs[j]));
          LeqAntisymmetric(key(xs[0]), key(ys[0]));
        }
        assert false;
      }
      forall x
        ensures x in xs[1..] <==> x in ys[1..]
      {
        assert x in xs <==> x == xs[0] || x in xs[1..];
        assert x in ys <==> x == ys[0] || x in ys[1..];
        if x in xs[1..] {
          var k :| 0 <= k < |xs[1..]| && xs[1..][k] == x;
          assert key(xs[0]) != key(xs[k + 1]);
        }
        if x in ys[1..] {
          var k :| 0 <= k < |ys[1..]| && ys[1..][k] == x;
          assert key(ys[0]) != key(ys[k + 1]);
        }
      }
      SortedOrderIsUnique(xs[1..], ys[1..], key);
    }
  }

  function Id(s: string): string { s }

  /** The sorted enumeration of a set of map keys. */
  ghost function SortedKeys(keys: set<string>): (ks: seq<string>)
    ensures forall k :: k in keys <==> k in ks
    ensures SortedBy(ks, Id) && DistinctBy(ks, Id)
    ensures |ks| == |keys|
  {
    if keys == {} then []
    else
      var k :| k in keys;
      var rest := SortedKeys(keys - {k});
      InsertKey(k, rest);
      InsertBy(k, rest, Id)
  }

  lemma InsertKey(k: string, rest: seq<string>)
    requires SortedBy(rest, Id) && DistinctBy(rest, Id) && k !in rest
    ensures SortedBy(InsertBy(k, rest, Id), Id) && DistinctBy(InsertBy(k, rest, Id), Id)
    ensures forall x :: x in InsertBy(k, rest, Id) <==> x == k || x in rest
  {
    InsertByIsSorted(k, rest, Id);
    assert forall r <- rest :: Id(r) != Id(k);
    InsertNewIsDistinct(k, rest, Id);
    var ks := InsertBy(k, rest, Id);
    forall x
      ensures x in ks <==> x == k || x in rest
    {
      assert x in ks <==> x in multiset(ks);
      assert x in rest <==> x in multiset(rest);
    }
  }

  lemma AppendDistinct(keys: seq<string>, k: string)
    requires DistinctBy(keys, Id) && k !in keys
    ensures DistinctBy(keys + [k], Id)
  {
    var all := keys + [k];
    forall i, j | 0 <= i < j < |all|
      ensures Id(all[i]) != Id(all[j])
    {
      assert all[i] == keys[i];
      if j < |keys| {
        assert Id(keys[i]) != Id(keys[j]);
      }
    }
  }

  lemma {:induction false} InsertNewIsDistinct<T>(x: T, rest: seq<T>, key: T -> string)
    requires DistinctBy(rest, key) && forall r <- rest :: key(r) != key(x)
    ensures DistinctBy(InsertBy(x, rest, key), key)
  {
    if rest != [] && !Leq(key(x), key(rest[0])) {
      InsertNewIsDistinct(x, rest[1..], key);
      var tail := InsertBy(x, rest[1..], key);
      forall j | 0 <= j < |tail|
        ensures key(tail[j]) != key(rest[0])
      {
        assert tail[j] in multiset(tail);
        assert tail[j] == x || tail[j] in rest[1..];
        if tail[j] in rest[1..] {
          var m :| 0 <= m < |rest[1..]| && rest[1..][m] == tail[j];
          assert key(rest[0]) != key(rest[m + 1]);
        }
      }
    }
  }

  lemma {:induction false} SortKeepsDistinct<T>(xs: seq<T>, key: T -> string)
    requires DistinctBy(xs, key)
    ensures DistinctBy(SortBy(xs, key), key)
  {
    if xs != [] {
      forall i, j | 0 <= i < j < |xs[1..]|
        ensures key(xs[1..][i]) != key(xs[1..][j])
      {
        assert key(xs[i + 1]) != key(xs[j + 1]);
      }
      SortKeepsDistinct(xs[1..], key);
      var rest := SortBy(xs[1..], key);
      forall r | r in rest
        ensures key(r) != key(xs[0])
      {
        assert r in multiset(rest);
        assert r in xs[1..];
        var m :| 0 <= m < |xs[1..]| && xs[1..][m] == r;
        assert key(xs[0]) != key(xs[m + 1]);
      }
      InsertNewIsDistinct(xs[0], rest, key);
    }
  }

  lemma SortKeepsElements<T>(xs: seq<T>, key: T -> string)
    ensures forall x :: x in SortBy(xs, key) <==> x in xs
  {
    forall x
      ensures x in SortBy(xs, key) <==> x in xs
    {
      assert x in SortBy(xs, key) <==> x in multiset(SortBy(xs, key));
      assert x in xs <==> x in multiset(xs);
    }
  }

  /** Sorting is canonical: lists with the same elements and distinct keys sort alike. */
  lemma SortIsCanonical<T>(xs: seq<T>, ys: seq<T>, key: T -> string)
    requires DistinctBy(xs, key) && DistinctBy(ys, key)
    requires forall x :: x in xs <==> x in ys
    ensures SortBy(xs, key) == SortBy(ys, key)
  {
    SortKeepsDistinct(xs, key);
    SortKeepsDistinct(ys, key);
    SortKeepsElements(xs, key);
    SortKeepsElements(ys, key);
    SortedOrderIsUnique(SortBy(xs, key), SortBy(ys, key), key);
  }

  // ----- Counting arguments shared by the comparators

  function SetOf(xs: seq<string>): (s: set<string>)
    ensures forall x :: x in s <==> x in xs
  {
    set x | x in xs
  }

  lemma {:induction false} SetOfSize(xs: seq<string>)
    ensures |SetOf(xs)| <= |xs|
    ensures |SetOf(xs)| == |xs| <==> DistinctBy(xs, Id)
  {
    if xs == [] {
    } else {
      SetOfSize(xs[1..]);
      assert xs == [xs[0]] + xs[1..];
      if xs[0] in xs[1..] {
        assert SetOf(xs) == SetOf(xs[1..]);
      } else {
        assert SetOf(xs) == SetOf(xs[1..]) + {xs[0]};
      }
    }
  }

  lemma SubsetOfSameSize(small: set<string>, big: set<string>)
    requires small <= big && |big| <= |small|
    ensures small == big
  {
    assert big == small + (big - small);
    assert |big - small| == 0;
  }

  /** Pigeonhole: a list that covers as many distinct names as it has entries has no
      repetition and no other name. */
  lemma CoveringListIsDistinct(covering: seq<string>, names: seq<string>)
    requires DistinctBy(names, Id) && |covering| == |names|
    requires forall n <- names :: n in covering
    ensures DistinctBy(covering, Id)
    ensures SetOf(covering) == SetOf(names)
  {
    SetOfSize(covering);
    SetOfSize(names);
    SubsetOfSameSize(SetOf(names), SetOf(covering));
  }

  // ----- Selecting from a list

  /** r lists, in the order of s, the elements of s that satisfy p; at says where they stand. */
  ghost predicate Picks<T>(r: seq<T>, s: seq<T>, at: seq<nat>, p: T -> bool) {
    |at| == |r| &&
    (forall i, j :: 0 <= i < j < |at| ==> at[i] < at[j]) &&
    (forall i :: 0 <= i < |at| ==> at[i] < |s| && r[i] == s[at[i]]) &&
    forall n: nat :: n < |s| ==> (p(s[n]) <==> n in at)
  }

  ghost predicate IsSelection<T>(r: seq<T>, s: seq<T>, p: T -> bool) {
    exists at: seq<nat> :: Picks(r, s, at, p)
  }

  lemma NothingSelected<T>(p: T -> bool)
    ensures IsSelection([], [], p)
  {
    assert Picks([], [], [], p);
  }

  lemma PickOne<T>(r: seq<T>, s: seq<T>, at: seq<nat>, x: T, p: T -> bool)
    requires Picks(r, s, at, p) && p(x)
    ensures Picks(r + [x], s + [x], at + [|s|], p)
  {
    var all, more := s + [x], at + [|s|];
    forall n: nat | n < |all|
      ensures p(all[n]) <==> n in more
    {
      if n < |s| {
        assert all[n] == s[n] && (n in more <==> n in at);
      }
    }
  }

  lemma SkipOne<T>(r: seq<T>, s: seq<T>, at: seq<nat>, x: T, p: T -> bool)
    requires Picks(r, s, at, p) && !p(x)
    ensures Picks(r, s + [x], at, p)
  {
    var all := s + [x];
    forall n: nat | n < |all|
      ensures p(all[n]) <==> n in at
    {
      if n < |s| {
        assert all[n] == s[n];
      }
    }
  }

  lemma SelectionGrows<T>(r: seq<T>, s: seq<T>, x: T, p: T -> bool)
    requires IsSelection(r, s, p)
    ensures IsSelection(if p(x) then r + [x] else r, s + [x], p)
  {
    var at: seq<nat> :| Picks(r, s, at, p);
    if p(x) {
      PickOne(r, s, at, x, p);
    } else {
      SkipOne(r, s, at, x, p);
    }
  }
}
