/** The order the SQL queries sort by: a (timestamp, id) key, compared on the
    timestamp and then on the id, listed newest first. */
module Ordering {

  /** A sort key: an instant (opaque, totally ordered) and a text id. */
  datatype Key = Key(time: int, id: string)

  /** Lexicographic order on ids. The ids are the canonical lower-case text of
      UUIDs, whose character order is the byte order Postgres compares. */
  predicate StrLess(a: string, b: string) {
    if |a| == 0 then |b| > 0
    else if |b| == 0 then false
    else if a[0] != b[0] then a[0] < b[0]
    else StrLess(a[1..], b[1..])
  }

  lemma {:induction false} StrLessIrreflexive(a: string)
    ensures !StrLess(a, a)
  {
    if |a| > 0 { StrLessIrreflexive(a[1..]); }
  }

  lemma {:induction false} StrLessTransitive(a: string, b: string, c: string)
    requires StrLess(a, b) && StrLess(b, c)
    ensures StrLess(a, c)
  {
    if |a| > 0 && |b| > 0 && |c| > 0 && a[0] == b[0] && b[0] == c[0] {
      StrLessTransitive(a[1..], b[1..], c[1..]);
    }
  }

  lemma {:induction false} StrLessTotal(a: string, b: string)
    ensures a == b || StrLess(a, b) || StrLess(b, a)
  {
    if |a| > 0 && |b| > 0 && a[0] == b[0] {
      StrLessTotal(a[1..], b[1..]);
      if a[1..] == b[1..] { assert a == [a[0]] + a[1..] && b == [b[0]] + b[1..]; }
    }
  }

  lemma {:induction false} StrLessAsymmetric(a: string, b: string)
    requires StrLess(a, b)
    ensures !StrLess(b, a)
  {
    if |a| > 0 && |b| > 0 && a[0] == b[0] { StrLessAsymmetric(a[1..], b[1..]); }
  }

  /** `(a.time, a.id) < (b.time, b.id)`, the row comparison of the cursor query. */
  predicate KeyLess(a: Key, b: Key) {
    a.time < b.time || (a.time == b.time && StrLess(a.id, b.id))
  }

  /** KeyLess is a strict total order. */
  lemma KeyLessIrreflexive(a: Key)
    ensures !KeyLess(a, a)
  {
    StrLessIrreflexive(a.id);
  }

  lemma KeyLessTransitive(a: Key, b: Key, c: Key)
    requires KeyLess(a, b) && KeyLess(b, c)
    ensures KeyLess(a, c)
  {
    if a.time == b.time == c.time { StrLessTransitive(a.id, b.id, c.id); }
  }

  lemma KeyLessTotal(a: Key, b: Key)
    ensures a == b || KeyLess(a, b) || KeyLess(b, a)
  {
    StrLessTotal(a.id, b.id);
  }

  lemma KeyLessAsymmetric(a: Key, b: Key)
    requires KeyLess(a, b)
    ensures !KeyLess(b, a)
  {
    if a.time == b.time { StrLessAsymmetric(a.id, b.id); }
  }

  /** "Not less" is transitive: b <= a and c <= b give c <= a. */
  lemma NotLessTransitive(a: Key, b: Key, c: Key)
    requires !KeyLess(a, b) && !KeyLess(b, c)
    ensures !KeyLess(a, c)
  {
    KeyLessTotal(a, b);
    KeyLessTotal(b, c);
    if KeyLess(a, c) {
      if a == b { assert false; }
      else if b == c { assert false; }
      else { KeyLessTransitive(c, b, a); KeyLessAsymmetric(c, a); }
    }
  }

  /** Newest first, ties allowed. */
  ghost predicate Descending<T>(s: seq<T>, key: T -> Key) {
    forall i, j :: 0 <= i < j < |s| ==> !KeyLess(key(s[i]), key(s[j]))
  }

  /** Newest first, no ties. */
  ghost predicate StrictlyDescending<T>(s: seq<T>, key: T -> Key) {
    forall i, j :: 0 <= i < j < |s| ==> KeyLess(key(s[j]), key(s[i]))
  }

  ghost predicate DistinctKeys<T>(s: seq<T>, key: T -> Key) {
    forall i, j :: 0 <= i < j < |s| ==> key(s[i]) != key(s[j])
  }

  /** In a total order, a descending sequence without repeated keys is strictly descending. */
  lemma DescendingDistinct<T>(s: seq<T>, key: T -> Key)
    requires Descending(s, key) && DistinctKeys(s, key)
    ensures StrictlyDescending(s, key)
  {
    forall i, j | 0 <= i < j < |s| ensures KeyLess(key(s[j]), key(s[i])) {
      KeyLessTotal(key(s[i]), key(s[j]));
    }
  }

  /** The keys occurring in `s`. */
  ghost function Keys<T>(s: seq<T>, key: T -> Key): set<Key> {
    set i | 0 <= i < |s| :: key(s[i])
  }

  lemma KeysCons<T>(x: T, s: seq<T>, key: T -> Key)
    ensures Keys([x] + s, key) == {key(x)} + Keys(s, key)
  {
    var r := [x] + s;
    assert key(r[0]) in Keys(r, key);
    forall k | k in Keys(r, key) ensures k in {key(x)} + Keys(s, key) {
      var i :| 0 <= i < |r| && key(r[i]) == k;
      if i > 0 { assert r[i] == s[i - 1]; }
    }
    forall k | k in Keys(s, key) ensures k in Keys(r, key) {
      var i :| 0 <= i < |s| && key(s[i]) == k;
      assert r[i + 1] == s[i];
    }
  }

  lemma HeadKeyNotInTail<T>(s: seq<T>, key: T -> Key)
    requires DistinctKeys(s, key) && |s| > 0
    ensures key(s[0]) !in Keys(s[1..], key)
  {
  }

  /** Places `x` before the first element that is not newer than it. */
  function InsertDesc<T>(x: T, s: seq<T>, key: T -> Key): (r: seq<T>)
    ensures multiset(r) == multiset(s) + multiset{x}
    ensures Keys(r, key) == Keys(s, key) + {key(x)}
  {
    if s == [] then [x]
    else
      assert s == [s[0]] + s[1..];
      KeysCons(s[0], s[1..], key);
      if KeyLess(key(x), key(s[0])) then
        KeysCons(s[0], InsertDesc(x, s[1..], key), key);
        [s[0]] + InsertDesc(x, s[1..], key)
      else
        KeysCons(x, s, key);
        [x] + s
  }

  lemma {:induction false} InsertDescSorted<T>(x: T, s: seq<T>, key: T -> Key)
    requires Descending(s, key)
    ensures Descending(InsertDesc(x, s, key), key)
  {
    if s != [] {
      var r := InsertDesc(x, s, key);
      if KeyLess(key(x), key(s[0])) {
        var t := InsertDesc(x, s[1..], key);
        InsertDescSorted(x, s[1..], key);
        assert s == [s[0]] + s[1..];
        forall j | 0 <= j < |t| ensures !KeyLess(key(s[0]), key(t[j])) {
          assert t[j] in multiset(t);
          if t[j] == x {
            KeyLessAsymmetric(key(x), key(s[0]));
          } else {
            assert t[j] in multiset(s[1..]);
            var k :| 0 <= k < |s[1..]| && s[1..][k] == t[j];
            assert s[k + 1] == t[j];
          }
        }
      } else {
        forall j | 0 < j < |r| ensures !KeyLess(key(x), key(r[j])) {
          if j > 1 { NotLessTransitive(key(x), key(s[0]), key(s[j - 1])); }
        }
      }
    }
  }

  lemma {:induction false} InsertDescDistinct<T>(x: T, s: seq<T>, key: T -> Key)
    requires DistinctKeys(s, key) && key(x) !in Keys(s, key)
    ensures DistinctKeys(InsertDesc(x, s, key), key)
  {
    if s != [] {
      assert s == [s[0]] + s[1..];
      KeysCons(s[0], s[1..], key);
      if KeyLess(key(x), key(s[0])) {
        var t := InsertDesc(x, s[1..], key);
        InsertDescDistinct(x, s[1..], key);
        HeadKeyNotInTail(s, key);
        forall j | 0 <= j < |t| ensures key(s[0]) != key(t[j]) {
          assert key(t[j]) in Keys(t, key);
        }
      } else {
        forall j | 0 <= j < |s| ensures key(x) != key(s[j]) {
          assert key(s[j]) in Keys(s, key);
        }
      }
    }
  }

  /** Insertion sort, newest first: the SQL `ORDER BY ... DESC`. */
  function SortDesc<T>(s: seq<T>, key: T -> Key): (r: seq<T>)
    ensures multiset(r) == multiset(s)
    ensures Descending(r, key)
    ensures Keys(r, key) == Keys(s, key)
  {
    if s == [] then []
    else
      assert s == [s[0]] + s[1..];
      KeysCons(s[0], s[1..], key);
      InsertDescSorted(s[0], SortDesc(s[1..], key), key);
      InsertDesc(s[0], SortDesc(s[1..], key), key)
  }

  /** Sorting keeps keys distinct. */
  lemma {:induction false} SortDescDistinct<T>(s: seq<T>, key: T -> Key)
    requires DistinctKeys(s, key)
    ensures DistinctKeys(SortDesc(s, key), key)
  {
    if s != [] {
      SortDescDistinct(s[1..], key);
      HeadKeyNotInTail(s, key);
      InsertDescDistinct(s[0], SortDesc(s[1..], key), key);
    }
  }

  /** The elements whose key is strictly less than `k`, in their order. */
  function Below<T>(s: seq<T>, key: T -> Key, k: Key): (r: seq<T>)
    ensures |r| <= |s|
    ensures forall i :: 0 <= i < |r| ==> KeyLess(key(r[i]), k)
    ensures multiset(r) <= multiset(s)
  {
    if s == [] then []
    else
      assert s == [s[0]] + s[1..];
      if KeyLess(key(s[0]), k) then [s[0]] + Below(s[1..], key, k) else Below(s[1..], key, k)
  }

  /** SQL `LIMIT n`. */
  function Take<T>(s: seq<T>, n: nat): (r: seq<T>)
    ensures |r| == if n < |s| then n else |s|
    ensures r == s[..|r|]
  {
    if n < |s| then s[..n] else s
  }

  lemma DescendingTail<T>(s: seq<T>, key: T -> Key)
    requires Descending(s, key) && |s| > 0
    ensures Descending(s[1..], key)
  {
  }

  lemma BelowCons<T>(x: T, s: seq<T>, key: T -> Key, k: Key)
    ensures Below([x] + s, key, k) == if KeyLess(key(x), k) then [x] + Below(s, key, k) else Below(s, key, k)
  {
    assert ([x] + s)[1..] == s;
  }

  /** Filtering by "older than k" commutes with inserting into a sorted sequence. */
  lemma {:induction false} BelowInsert<T>(x: T, s: seq<T>, key: T -> Key, k: Key)
    requires Descending(s, key)
    ensures Below(InsertDesc(x, s, key), key, k)
         == if KeyLess(key(x), k) then InsertDesc(x, Below(s, key, k), key) else Below(s, key, k)
  {
    if s == [] {
      assert InsertDesc(x, s, key) == [x];
      BelowCons(x, [], key, k);
    } else if KeyLess(key(x), key(s[0])) {
      var t := InsertDesc(x, s[1..], key);
      assert InsertDesc(x, s, key) == [s[0]] + t;
      assert s == [s[0]] + s[1..];
      DescendingTail(s, key);
      BelowInsert(x, s[1..], key, k);
      BelowCons(s[0], t, key, k);
      BelowCons(s[0], s[1..], key, k);
      if KeyLess(key(x), k) && KeyLess(key(s[0]), k) {
        var b := Below(s[1..], key, k);
        assert InsertDesc(x, [s[0]] + b, key) == [s[0]] + InsertDesc(x, b, key) by {
          assert ([s[0]] + b)[0] == s[0] && ([s[0]] + b)[1..] == b;
        }
      }
    } else {
      assert InsertDesc(x, s, key) == [x] + s;
      BelowCons(x, s, key, k);
      var b := Below(s, key, k);
      if KeyLess(key(x), k) && b != [] {
        assert b[0] in multiset(s);
        var m :| 0 <= m < |s| && s[m] == b[0];
        if m > 0 { NotLessTransitive(key(x), key(s[0]), key(s[m])); }
        assert InsertDesc(x, b, key) == [x] + b;
      }
    }
  }

  /** Sorting then filtering is filtering then sorting: the query may apply its
      WHERE before or after its ORDER BY. */
  lemma {:induction false} SortBelowCommute<T>(s: seq<T>, key: T -> Key, k: Key)
    ensures SortDesc(Below(s, key, k), key) == Below(SortDesc(s, key), key, k)
  {
    if s != [] {
      SortBelowCommute(s[1..], key, k);
      BelowInsert(s[0], SortDesc(s[1..], key), key, k);
    }
  }

  lemma {:induction false} BelowAll<T>(s: seq<T>, key: T -> Key, k: Key)
    requires forall i :: 0 <= i < |s| ==> KeyLess(key(s[i]), k)
    ensures Below(s, key, k) == s
  {
    if s != [] { BelowAll(s[1..], key, k); }
  }

  /** In a strictly descending sequence, what is older than the i-th element is
      exactly what comes after it. */
  lemma {:induction false} BelowElement<T>(s: seq<T>, key: T -> Key, i: nat)
    requires StrictlyDescending(s, key) && i < |s|
    ensures Below(s, key, key(s[i])) == s[i + 1..]
  {
    if i == 0 {
      KeyLessIrreflexive(key(s[0]));
      BelowAll(s[1..], key, key(s[0]));
    } else {
      KeyLessAsymmetric(key(s[i]), key(s[0]));
      assert s[1..][i - 1] == s[i];
      BelowElement(s[1..], key, i - 1);
      assert s[1..][i..] == s[i + 1..];
    }
  }

  /** In a descending sequence, what is older than any key is a suffix. */
  lemma {:induction false} BelowIsSuffix<T>(s: seq<T>, key: T -> Key, k: Key)
    requires Descending(s, key)
    ensures Below(s, key, k) == s[|s| - |Below(s, key, k)|..]
  {
    if s != [] {
      if KeyLess(key(s[0]), k) {
        forall i | 0 <= i < |s| ensures KeyLess(key(s[i]), k) {
          if i > 0 {
            KeyLessTotal(key(s[i]), key(s[0]));
            if key(s[i]) != key(s[0]) { KeyLessTransitive(key(s[i]), key(s[0]), k); }
          }
        }
        BelowAll(s, key, k);
      } else {
        DescendingTail(s, key);
        BelowIsSuffix(s[1..], key, k);
      }
    }
  }

  /** The last element of a non-empty window of `s` starting at j. */
  lemma WindowLast<T>(s: seq<T>, j: nat, n: nat, w: seq<T>)
    requires j <= |s| && w == Take(s[j..], n) && |w| > 0
    ensures j + |w| - 1 < |s| && w[|w| - 1] == s[j + |w| - 1]
  {
  }

  /** A window of a strictly descending sequence is strictly descending, and
      holds elements of the sequence. */
  lemma WindowStrict<T>(s: seq<T>, key: T -> Key, j: nat, n: nat)
    requires StrictlyDescending(s, key) && j <= |s|
    ensures StrictlyDescending(Take(s[j..], n), key)
    ensures forall i :: 0 <= i < |Take(s[j..], n)| ==> Take(s[j..], n)[i] == s[j + i]
  {
    var p := Take(s[j..], n);
    forall a, b | 0 <= a < b < |p| ensures KeyLess(key(p[b]), key(p[a])) {
      assert p[a] == s[j + a] && p[b] == s[j + b];
    }
  }

  /** Two consecutive windows of size n, the second starting after the last
      element of the first, make up the window of size 2n. */
  lemma WindowChain<T>(s: seq<T>, j: nat, n: nat, k: nat, first: seq<T>, second: seq<T>, both: seq<T>)
    requires j <= |s| && first == Take(s[j..], n) && |first| > 0 && k == j + |first|
    requires second == Take(s[k..], n) && both == Take(s[j..], 2 * n)
    ensures first + second == both
  {
    assert s[k..] == s[j..][|first|..];
  }
}
