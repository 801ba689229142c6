/** Vocabulary shared by the models of the application's components. */
module Common {

  datatype Option<+T> = None | Some(value: T)

  /** A value replaced where there is one. */
  function Overwritten<T>(value: Option<T>, mark: T): (redacted: Option<T>) {
    if value.Some? then Some(mark) else None
  }

  /** The two library calls on text the application relies on: str.lower and str.strip.
      They stay uninterpreted, so what is proved holds for every meaning of them; a
      theorem that needs a law of theirs names it. */
  datatype TextOps = TextOps(lower: string -> string, strip: string -> string)

  /** At most n elements from the front. */
  function Prefix<T>(s: seq<T>, n: nat): (prefix: seq<T>) {
    if |s| <= n then s else s[..n]
  }

  // ----- a stable sort by a key -----

  predicate OrderedBy<T>(s: seq<T>, key: T -> int) {
    forall i, j | 0 <= i < j < |s| :: key(s[i]) <= key(s[j])
  }

  predicate DistinctBy<T, K(==)>(s: seq<T>, id: T -> K) {
    forall i, j | 0 <= i < j < |s| :: id(s[i]) != id(s[j])
  }

  /** After the elements of no greater key. */
  function InsertBy<T>(x: T, sorted: seq<T>, key: T -> int): (longer: seq<T>) {
    if sorted == [] || key(sorted[|sorted| - 1]) <= key(x) then sorted + [x]
    else InsertBy(x, sorted[..|sorted| - 1], key) + [sorted[|sorted| - 1]]
  }

  function SortBy<T>(s: seq<T>, key: T -> int): (sorted: seq<T>) {
    if s == [] then [] else InsertBy(s[|s| - 1], SortBy(s[..|s| - 1], key), key)
  }

  lemma {:induction false} InsertOrders<T(!new)>(x: T, sorted: seq<T>, key: T -> int)
    requires OrderedBy(sorted, key)
    ensures OrderedBy(InsertBy(x, sorted, key), key) && |InsertBy(x, sorted, key)| == |sorted| + 1
    ensures forall y :: y in InsertBy(x, sorted, key) <==> y == x || y in sorted
  {
    if sorted != [] {
      var k := |sorted| - 1;
      assert sorted == sorted[..k] + [sorted[k]];
      if key(x) < key(sorted[k]) {
        InsertOrders(x, sorted[..k], key);
        var inner := InsertBy(x, sorted[..k], key);
        forall i | 0 <= i < k + 1 ensures key(inner[i]) <= key(sorted[k]) {
          assert inner[i] in inner;
        }
      }
    }
  }

  lemma AppendDistinct<T, K>(s: seq<T>, x: T, id: T -> K)
    requires DistinctBy(s, id) && forall y | y in s :: id(y) != id(x)
    ensures DistinctBy(s + [x], id)
  {
    assert forall i | 0 <= i < |s| :: s[i] in s;
  }

  lemma {:induction false} InsertDistinct<T(!new), K>(x: T, sorted: seq<T>, key: T -> int, id: T -> K)
    requires OrderedBy(sorted, key) && DistinctBy(sorted, id) && forall y | y in sorted :: id(y) != id(x)
    ensures DistinctBy(InsertBy(x, sorted, key), id)
  {
    if sorted == [] || key(sorted[|sorted| - 1]) <= key(x) {
      AppendDistinct(sorted, x, id);
    } else {
      var k := |sorted| - 1;
      assert sorted == sorted[..k] + [sorted[k]];
      InsertDistinct(x, sorted[..k], key, id);
      InsertOrders(x, sorted[..k], key);
      AppendDistinct(InsertBy(x, sorted[..k], key), sorted[k], id);
    }
  }

  lemma {:induction false} SortOrders<T(!new)>(s: seq<T>, key: T -> int)
    ensures OrderedBy(SortBy(s, key), key) && |SortBy(s, key)| == |s|
    ensures forall y :: y in SortBy(s, key) <==> y in s
  {
    if s != [] {
      var k := |s| - 1;
      assert s == s[..k] + [s[k]];
      SortOrders(s[..k], key);
      InsertOrders(s[k], SortBy(s[..k], key), key);
    }
  }

  lemma {:induction false} SortKeepsDistinct<T(!new), K>(s: seq<T>, key: T -> int, id: T -> K)
    requires DistinctBy(s, id)
    ensures DistinctBy(SortBy(s, key), id)
  {
    if s != [] {
      var k := |s| - 1;
      SortKeepsDistinct(s[..k], key, id);
      SortOrders(s[..k], key);
      forall y | y in SortBy(s[..k], key) ensures id(y) != id(s[k]) {
        var j :| 0 <= j < k && s[j] == y;
      }
      InsertDistinct(s[k], SortBy(s[..k], key), key, id);
    }
  }

  lemma {:induction false} SortKeepsOrdered<T>(s: seq<T>, key: T -> int)
    requires OrderedBy(s, key)
    ensures SortBy(s, key) == s
  {
    if s != [] {
      var k := |s| - 1;
      SortKeepsOrdered(s[..k], key);
      assert s == s[..k] + [s[k]];
    }
  }
}
