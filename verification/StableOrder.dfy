/**
 Stable sorting by a score, best score first. `StableSort` is the reference; `SliceStable` is the
 insertion sort that exchanges neighbours in place. Sortedness and the order inside each score
 level determine the result, so any stable sort computes the same sequence.
 */
module StableOrder {
  function Insert<T>(score: T -> int, x: T, s: seq<T>): seq<T> {
    if s == [] || score(s[0]) <= score(x) then [x] + s else [s[0]] + Insert(score, x, s[1..])
  }

  function StableSort<T>(score: T -> int, s: seq<T>): seq<T> {
    if s == [] then [] else Insert(score, s[0], StableSort(score, s[1..]))
  }

  ghost predicate Descending<T>(score: T -> int, s: seq<T>) {
    forall i, j | 0 <= i < j < |s| :: score(s[i]) >= score(s[j])
  }

  /** The elements of one score, in the order they stand in. */
  function Level<T>(score: T -> int, k: int, s: seq<T>): seq<T> {
    if s == [] then []
    else if score(s[0]) == k then [s[0]] + Level(score, k, s[1..])
    else Level(score, k, s[1..])
  }

  lemma {:induction false} LevelConcat<T>(score: T -> int, k: int, s: seq<T>, t: seq<T>)
    ensures Level(score, k, s + t) == Level(score, k, s) + Level(score, k, t)
  {
    if s == [] {
      assert s + t == t;
    } else {
      LevelConcat(score, k, s[1..], t);
      assert (s + t)[1..] == s[1..] + t;
    }
  }

  lemma LevelOneMore<T>(score: T -> int, k: int, s: seq<T>, i: nat)
    requires i < |s|
    ensures Level(score, k, s[..i + 1]) == Level(score, k, s[..i]) + if score(s[i]) == k then [s[i]] else []
  {
    LevelConcat(score, k, s[..i], [s[i]]);
    assert s[..i + 1] == s[..i] + [s[i]];
  }

  lemma {:induction false} LevelMembers<T>(score: T -> int, k: int, s: seq<T>)
    ensures forall x :: x in Level(score, k, s) <==> x in s && score(x) == k
  {
    if s == [] {
    } else {
      LevelMembers(score, k, s[1..]);
      assert s == [s[0]] + s[1..];
    }
  }

  lemma {:induction false} InsertMembers<T>(score: T -> int, x: T, s: seq<T>)
    ensures multiset(Insert(score, x, s)) == multiset{x} + multiset(s)
  {
    if s != [] && score(s[0]) > score(x) {
      InsertMembers(score, x, s[1..]);
      assert s == [s[0]] + s[1..];
    }
  }

  lemma {:induction false} InsertLevels<T>(score: T -> int, x: T, s: seq<T>, k: int)
    requires Descending(score, s)
    ensures Level(score, k, Insert(score, x, s)) == Level(score, k, [x]) + Level(score, k, s)
  {
    LevelConcat(score, k, [x], s);
    if s != [] && score(s[0]) > score(x) {
      InsertLevels(score, x, s[1..], k);
    }
  }

  lemma {:induction false} InsertSorted<T>(score: T -> int, x: T, s: seq<T>)
    requires Descending(score, s)
    ensures Descending(score, Insert(score, x, s))
  {
    if s != [] && score(s[0]) > score(x) {
      var rest := Insert(score, x, s[1..]);
      InsertSorted(score, x, s[1..]);
      InsertMembers(score, x, s[1..]);
      assert forall y | y in s[1..] :: score(s[0]) >= score(y);
      forall j | 0 <= j < |rest| ensures score(s[0]) >= score(rest[j]) {
        assert rest[j] in multiset(rest);
      }
    }
  }

  lemma {:induction false} SortMembers<T>(score: T -> int, s: seq<T>)
    ensures multiset(StableSort(score, s)) == multiset(s)
  {
    if s == [] {
    } else {
      SortMembers(score, s[1..]);
      InsertMembers(score, s[0], StableSort(score, s[1..]));
      assert s == [s[0]] + s[1..];
    }
  }

  lemma {:induction false} SortSorted<T>(score: T -> int, s: seq<T>)
    ensures Descending(score, StableSort(score, s))
  {
    if s == [] {
    } else {
      SortSorted(score, s[1..]);
      InsertSorted(score, s[0], StableSort(score, s[1..]));
    }
  }

  lemma {:induction false} SortLevels<T>(score: T -> int, s: seq<T>, k: int)
    ensures Level(score, k, StableSort(score, s)) == Level(score, k, s)
  {
    if s == [] {
    } else {
      SortLevels(score, s[1..], k);
      SortSorted(score, s[1..]);
      InsertLevels(score, s[0], StableSort(score, s[1..]), k);
      LevelConcat(score, k, [s[0]], s[1..]);
      assert s == [s[0]] + s[1..];
    }
  }

  /** Two places of the sequence that hold one score are two places of its level, in the same order. */
  lemma {:induction false} LevelPlaces<T>(score: T -> int, s: seq<T>, i: nat, j: nat) returns (a: nat, b: nat)
    requires i < j < |s| && score(s[i]) == score(s[j])
    ensures var level := Level(score, score(s[i]), s); a < b < |level| && level[a] == s[i] && level[b] == s[j]
  {
    var k := score(s[i]);
    var before, middle, after := s[..i], s[i + 1..j], s[j + 1..];
    assert s == before + [s[i]] + middle + [s[j]] + after;
    LevelConcat(score, k, before + [s[i]] + middle + [s[j]], after);
    LevelConcat(score, k, before + [s[i]] + middle, [s[j]]);
    LevelConcat(score, k, before + [s[i]], middle);
    LevelConcat(score, k, before, [s[i]]);
    a, b := |Level(score, k, before)|, |Level(score, k, before)| + 1 + |Level(score, k, middle)|;
  }

  lemma {:induction false} PlaceOfLevel<T>(score: T -> int, k: int, s: seq<T>, a: nat) returns (i: nat)
    requires a < |Level(score, k, s)|
    ensures i < |s| && s[i] == Level(score, k, s)[a]
  {
    if score(s[0]) == k && a == 0 {
      i := 0;
    } else {
      i := PlaceOfLevel(score, k, s[1..], if score(s[0]) == k then a - 1 else a);
      i := i + 1;
    }
  }

  /** And the other way round. */
  lemma {:induction false} PlacesOfLevel<T>(score: T -> int, k: int, s: seq<T>, a: nat, b: nat) returns (i: nat, j: nat)
    requires a < b < |Level(score, k, s)|
    ensures i < j < |s| && s[i] == Level(score, k, s)[a] && s[j] == Level(score, k, s)[b]
  {
    if score(s[0]) == k && a == 0 {
      var q := PlaceOfLevel(score, k, s[1..], b - 1);
      i, j := 0, q + 1;
    } else {
      var skip := if score(s[0]) == k then 1 else 0;
      i, j := PlacesOfLevel(score, k, s[1..], a - skip, b - skip);
      i, j := i + 1, j + 1;
    }
  }

  /** Elements of one score stand in the sorted sequence in the order they stood in before. */
  lemma TiesKeepTheirOrder<T>(score: T -> int, s: seq<T>, i: nat, j: nat) returns (p: nat, q: nat)
    requires i < j < |StableSort(score, s)| && score(StableSort(score, s)[i]) == score(StableSort(score, s)[j])
    ensures p < q < |s| && s[p] == StableSort(score, s)[i] && s[q] == StableSort(score, s)[j]
  {
    var sorted := StableSort(score, s);
    var k := score(sorted[i]);
    SortLevels(score, s, k);
    var a, b := LevelPlaces(score, sorted, i, j);
    p, q := PlacesOfLevel(score, k, s, a, b);
  }

  /** The reference sort orders, keeps every element, and keeps the order inside each level. */
  lemma StableSortSpec<T>(score: T -> int, s: seq<T>)
    ensures Descending(score, StableSort(score, s))
    ensures multiset(StableSort(score, s)) == multiset(s)
    ensures forall k :: Level(score, k, StableSort(score, s)) == Level(score, k, s)
  {
    SortSorted(score, s);
    SortMembers(score, s);
    forall k ensures Level(score, k, StableSort(score, s)) == Level(score, k, s) { SortLevels(score, s, k); }
  }

  /** There is one stable order: two sorted sequences with the same levels are equal. */
  lemma {:induction false} StableOrderUnique<T>(score: T -> int, a: seq<T>, b: seq<T>)
    requires Descending(score, a) && Descending(score, b)
    requires forall k :: Level(score, k, a) == Level(score, k, b)
    ensures a == b
  {
    if a == [] || b == [] {
      LevelNonempty(score, a);
      LevelNonempty(score, b);
    } else {
      var k := score(a[0]);
      LevelMembers(score, k, b);
      LevelMembers(score, score(b[0]), a);
      assert a[0] in Level(score, k, a);
      assert b[0] in Level(score, score(b[0]), b);
      assert score(b[0]) == k;
      assert a[0] == Level(score, k, a)[0] == Level(score, k, b)[0] == b[0];
      forall k' ensures Level(score, k', a[1..]) == Level(score, k', b[1..]) {
        assert Level(score, k', a) == Level(score, k', b);
        assert Level(score, k', a[1..]) == if k' == k then Level(score, k', a)[1..] else Level(score, k', a);
        assert Level(score, k', b[1..]) == if k' == k then Level(score, k', b)[1..] else Level(score, k', b);
      }
      StableOrderUnique(score, a[1..], b[1..]);
    }
  }

  lemma LevelNonempty<T>(score: T -> int, s: seq<T>)
    ensures s != [] ==> Level(score, score(s[0]), s) != []
  {
  }

  lemma SortIsTheStableOrder<T>(score: T -> int, a: seq<T>, s: seq<T>)
    requires Descending(score, a)
    requires forall k :: Level(score, k, a) == Level(score, k, s)
    ensures a == StableSort(score, s)
  {
    StableSortSpec(score, s);
    forall k ensures Level(score, k, a) == Level(score, k, StableSort(score, s)) {
      assert Level(score, k, a) == Level(score, k, s);
    }
    StableOrderUnique(score, a, StableSort(score, s));
  }

  lemma ExchangeKeepsLevels<T>(score: T -> int, s: seq<T>, j: nat)
    requires 0 < j < |s| && score(s[j - 1]) != score(s[j])
    ensures forall k :: Level(score, k, s[j - 1 := s[j]][j := s[j - 1]]) == Level(score, k, s)
  {
    var pre, x, y, post := s[..j - 1], s[j - 1], s[j], s[j + 1..];
    assert s == pre + ([x] + ([y] + post));
    assert s[j - 1 := y][j := x] == pre + ([y] + ([x] + post));
    forall k ensures Level(score, k, s[j - 1 := y][j := x]) == Level(score, k, s) {
      LevelConcat(score, k, pre, [x] + ([y] + post));
      LevelConcat(score, k, [x], [y] + post);
      LevelConcat(score, k, [y], post);
      LevelConcat(score, k, pre, [y] + ([x] + post));
      LevelConcat(score, k, [y], [x] + post);
      LevelConcat(score, k, [x], post);
    }
  }

  method Exchange<T>(a: array<T>, j: nat, ghost score: T -> int)
    requires 0 < j < a.Length && score(a[j - 1]) != score(a[j])
    modifies a
    ensures a[j] == old(a[j - 1]) && a[j - 1] == old(a[j])
    ensures forall i | 0 <= i < a.Length && i != j && i != j - 1 :: a[i] == old(a[i])
    ensures forall k :: Level(score, k, a[..]) == Level(score, k, old(a[..]))
  {
    ghost var before := a[..];
    ExchangeKeepsLevels(score, before, j);
    a[j], a[j - 1] := a[j - 1], a[j];
    assert a[..] == before[j - 1 := before[j]][j := before[j - 1]];
  }

  /** `sort.SliceStable` with "scores higher" as the order. */
  method SliceStable<T>(a: array<T>, score: T -> int)
    modifies a
    ensures a[..] == StableSort(score, old(a[..]))
  {
    hide Level, StableSort;
    ghost var was := a[..];
    var i := 0;
    while i < a.Length
      invariant 0 <= i <= a.Length
      invariant Descending(score, a[..i])
      invariant forall k :: Level(score, k, a[..]) == Level(score, k, was)
    {
      var j := i;
      while 0 < j && score(a[j]) > score(a[j - 1])
        invariant 0 <= j <= i < a.Length
        invariant forall p, q | 0 <= p < q <= i && q != j :: score(a[p]) >= score(a[q])
        invariant forall k :: Level(score, k, a[..]) == Level(score, k, was)
      {
        Exchange(a, j, score);
        j := j - 1;
      }
      i := i + 1;
    }
    assert a[..i] == a[..];
    SortIsTheStableOrder(score, a[..], was);
  }
}
