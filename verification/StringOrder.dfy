/** The order `sort.Strings` puts strings in, by their characters. */
module StringOrder {
  /** `a` is the same as `b` or sorts before it. */
  predicate Precedes(a: string, b: string) {
    a == "" || (b != "" && (a[0] < b[0] || (a[0] == b[0] && Precedes(a[1..], b[1..]))))
  }

  ghost predicate Sorted(s: seq<string>) {
    forall i, j | 0 <= i < j < |s| :: Precedes(s[i], s[j])
  }

  function Placed(x: string, s: seq<string>): seq<string> {
    if s == [] || Precedes(x, s[0]) then [x] + s else [s[0]] + Placed(x, s[1..])
  }

  function SortStrings(s: seq<string>): seq<string> {
    if s == [] then [] else Placed(s[0], SortStrings(s[1..]))
  }

  lemma {:induction false} PrecedesTotal(a: string, b: string)
    ensures Precedes(a, b) || Precedes(b, a)
    ensures Precedes(a, b) && Precedes(b, a) ==> a == b
  {
    if a != "" && b != "" && a[0] == b[0] {
      PrecedesTotal(a[1..], b[1..]);
      assert a == [a[0]] + a[1..] && b == [b[0]] + b[1..];
    }
  }

  lemma {:induction false} PrecedesTransitive(a: string, b: string, c: string)
    requires Precedes(a, b) && Precedes(b, c)
    ensures Precedes(a, c)
  {
    if a != "" && a[0] == b[0] && b[0] == c[0] {
      PrecedesTransitive(a[1..], b[1..], c[1..]);
    }
  }

  lemma {:induction false} PlacedSorted(x: string, s: seq<string>)
    requires Sorted(s)
    ensures Sorted(Placed(x, s)) && multiset(Placed(x, s)) == multiset{x} + multiset(s)
  {
    if s == [] {
    } else {
      assert s == [s[0]] + s[1..];
      if Precedes(x, s[0]) {
        forall i | 0 <= i < |s| ensures Precedes(x, s[i]) {
          if i > 0 { PrecedesTransitive(x, s[0], s[i]); }
        }
      } else {
        PlacedSorted(x, s[1..]);
        PrecedesTotal(x, s[0]);
        var rest := Placed(x, s[1..]);
        forall i | 0 <= i < |rest| ensures Precedes(s[0], rest[i]) {
          assert rest[i] in multiset(rest);
        }
      }
    }
  }

  lemma {:induction false} SortStringsSpec(s: seq<string>)
    ensures Sorted(SortStrings(s)) && multiset(SortStrings(s)) == multiset(s)
  {
    if s == [] {
    } else {
      SortStringsSpec(s[1..]);
      PlacedSorted(s[0], SortStrings(s[1..]));
      assert s == [s[0]] + s[1..];
    }
  }

  /** Sortedness and the elements leave one sequence only: any way of sorting gives this result. */
  lemma {:induction false} SortedUnique(a: seq<string>, b: seq<string>)
    requires Sorted(a) && Sorted(b) && multiset(a) == multiset(b)
    ensures a == b
  {
    assert |multiset(a)| == |a| && |multiset(b)| == |b|;
    if a == [] {
    } else {
      SameFirst(a, b);
      assert a == [a[0]] + a[1..] && b == [b[0]] + b[1..];
      assert multiset(a[1..]) == multiset(a) - multiset{a[0]} && multiset(b[1..]) == multiset(b) - multiset{b[0]};
      SortedUnique(a[1..], b[1..]);
    }
  }

  lemma SameFirst(a: seq<string>, b: seq<string>)
    requires a != [] && b != [] && Sorted(a) && Sorted(b) && multiset(a) == multiset(b)
    ensures a[0] == b[0]
  {
    assert a[0] in multiset(b) && b[0] in multiset(a);
    PrecedesTotal(a[0], b[0]);
    PrecedesTotal(a[0], a[0]);
  }
}
