/**
 * Comparators as the Java collections use them: `String.compareTo`,
 * `Comparator.nullsLast`, `Comparator.reversed()` and the sort behind
 * `List.sort` and `Stream.sorted`.
 */
module Ordering {
  import opened Wrappers
  import opened JavaStrings

  /** `a.compareTo(b) <= 0`: character by character, a proper prefix first. */
  predicate LexLe(a: string, b: string)
    decreases |a|
  {
    a == [] || (b != [] && (a[0] < b[0] || (a[0] == b[0] && LexLe(a[1..], b[1..]))))
  }

  lemma {:induction false} LexLeTotal(a: string, b: string)
    ensures LexLe(a, b) || LexLe(b, a)
    decreases |a|
  {
    if a != [] && b != [] && a[0] == b[0] {
      LexLeTotal(a[1..], b[1..]);
    }
  }

  lemma {:induction false} LexLeTransitive(a: string, b: string, c: string)
    requires LexLe(a, b) && LexLe(b, c)
    ensures LexLe(a, c)
    decreases |a|
  {
    if a != [] && a[0] == b[0] && b[0] == c[0] {
      LexLeTransitive(a[1..], b[1..], c[1..]);
    }
  }

  lemma {:induction false} LexLeAntisymmetric(a: string, b: string)
    requires LexLe(a, b) && LexLe(b, a)
    ensures a == b
    decreases |a|
  {
    if a != [] {
      LexLeAntisymmetric(a[1..], b[1..]);
      assert a == [a[0]] + a[1..] && b == [b[0]] + b[1..];
    }
  }

  /** `le` is total and transitive: what `Comparator`'s contract demands. */
  ghost predicate IsTotalPreorder<T(!new)>(le: (T, T) -> bool)
  {
    (forall a, b :: le(a, b) || le(b, a)) &&
    (forall a, b, c :: le(a, b) && le(b, c) ==> le(a, c))
  }

  /** `Comparator.nullsLast(cmp)`: absent keys after all present ones, equal among themselves. */
  predicate NullsLastLe<K>(a: Option<K>, b: Option<K>, le: (K, K) -> bool)
  {
    match (a, b)
    case (Some(x), Some(y)) => le(x, y)
    case (Some(_), None) => true
    case (None, Some(_)) => false
    case (None, None) => true
  }

  function NullsLast<K>(le: (K, K) -> bool): (Option<K>, Option<K>) -> bool
  {
    (a: Option<K>, b: Option<K>) => NullsLastLe(a, b, le)
  }

  lemma NullsLastIsTotalPreorder<K(!new)>(le: (K, K) -> bool)
    requires IsTotalPreorder(le)
    ensures IsTotalPreorder(NullsLast(le))
  {
  }

  /** `Comparator.comparing(key, cmp)`: compare by the key `key` extracts. */
  function Comparing<T, K>(key: T -> K, le: (K, K) -> bool): (T, T) -> bool
  {
    (a: T, b: T) => le(key(a), key(b))
  }

  lemma ComparingIsTotalPreorder<T(!new), K(!new)>(key: T -> K, le: (K, K) -> bool)
    requires IsTotalPreorder(le)
    ensures IsTotalPreorder(Comparing(key, le))
  {
    forall a: T, b: T ensures Comparing(key, le)(a, b) || Comparing(key, le)(b, a) {
      assert le(key(a), key(b)) || le(key(b), key(a));
    }
    forall a: T, b: T, c: T | Comparing(key, le)(a, b) && Comparing(key, le)(b, c)
      ensures Comparing(key, le)(a, c)
    {
      assert le(key(a), key(b)) && le(key(b), key(c));
    }
  }

  /** `Comparator.reversed()`. */
  function Reversed<T>(le: (T, T) -> bool): (T, T) -> bool
  {
    (a: T, b: T) => le(b, a)
  }

  lemma ReversedIsTotalPreorder<T(!new)>(le: (T, T) -> bool)
    requires IsTotalPreorder(le)
    ensures IsTotalPreorder(Reversed(le))
  {
  }

  /** The natural order of integers, standing in for `LocalDateTime.compareTo`. */
  predicate IntLe(a: int, b: int)
  {
    a <= b
  }

  lemma IntLeIsTotalPreorder()
    ensures IsTotalPreorder(IntLe)
  {
  }

  lemma LexLeIsTotalPreorder()
    ensures IsTotalPreorder(LexLe)
  {
    forall a, b ensures LexLe(a, b) || LexLe(b, a) {
      LexLeTotal(a, b);
    }
    forall a, b, c | LexLe(a, b) && LexLe(b, c) ensures LexLe(a, c) {
      LexLeTransitive(a, b, c);
    }
  }

  /** `String.CASE_INSENSITIVE_ORDER`: `compareTo` on the case-folded strings. */
  function CaseInsensitiveOrder(): (string, string) -> bool
  {
    Comparing(FoldCase, LexLe)
  }

  lemma CaseInsensitiveOrderIsTotalPreorder()
    ensures IsTotalPreorder(CaseInsensitiveOrder())
  {
    LexLeIsTotalPreorder();
    ComparingIsTotalPreorder(FoldCase, LexLe);
  }

  predicate SortedBy<T>(s: seq<T>, le: (T, T) -> bool)
  {
    forall i, j :: 0 <= i < j < |s| ==> le(s[i], s[j])
  }

  /** Inserts `x` before the first element it does not come after. */
  function InsertBy<T>(x: T, s: seq<T>, le: (T, T) -> bool): (r: seq<T>)
    ensures multiset(r) == multiset(s) + multiset{x}
  {
    if s == [] || le(x, s[0]) then [x] + s
    else
      assert s == [s[0]] + s[1..];
      [s[0]] + InsertBy(x, s[1..], le)
  }

  /**
   * The sort of `s` under `le` behind `List.sort` and `Stream.sorted`:
   * insertion of each element into the sorted rest.
   */
  function SortBy<T>(s: seq<T>, le: (T, T) -> bool): (r: seq<T>)
    ensures multiset(r) == multiset(s)
    ensures |r| == |s|
  {
    if s == [] then []
    else
      assert s == [s[0]] + s[1..];
      InsertBy(s[0], SortBy(s[1..], le), le)
  }

  lemma {:induction false} InsertBySorted<T(!new)>(x: T, s: seq<T>, le: (T, T) -> bool)
    requires IsTotalPreorder(le) && SortedBy(s, le)
    ensures SortedBy(InsertBy(x, s, le), le)
    decreases |s|
  {
    if s != [] && !le(x, s[0]) {
      var rest := InsertBy(x, s[1..], le);
      InsertBySorted(x, s[1..], le);
      forall j | 0 <= j < |rest| ensures le(s[0], rest[j]) {
        assert rest[j] in multiset(rest);
        assert rest[j] == x || rest[j] in multiset(s[1..]);
        if rest[j] != x {
          var k :| 0 <= k < |s[1..]| && s[1..][k] == rest[j];
          assert s[k + 1] == rest[j];
        }
      }
    }
  }

  /** `SortBy` orders its result, for any comparator that honours its contract. */
  lemma {:induction false} SortBySorted<T(!new)>(s: seq<T>, le: (T, T) -> bool)
    requires IsTotalPreorder(le)
    ensures SortedBy(SortBy(s, le), le)
    decreases |s|
  {
    if s != [] {
      SortBySorted(s[1..], le);
      InsertBySorted(s[0], SortBy(s[1..], le), le);
    }
  }
}
