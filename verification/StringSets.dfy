/** Comparing two lists of strings by sorting copies of both. */
module StringSets {
  import opened Text

  predicate AtMost(a: string, b: string) {
    a == b || Less(a, b)
  }

  ghost predicate Sorted(list: seq<string>) {
    forall i, j | 0 <= i < j < |list| :: AtMost(list[i], list[j])
  }

  function Insert(x: string, list: seq<string>): seq<string> {
    if list == [] || AtMost(x, list[0]) then [x] + list else [list[0]] + Insert(x, list[1..])
  }

  function Sort(list: seq<string>): seq<string> {
    if list == [] then [] else Insert(list[0], Sort(list[1..]))
  }

  lemma {:induction false} InsertKeeps(x: string, list: seq<string>)
    ensures multiset(Insert(x, list)) == multiset{x} + multiset(list)
  {
    if list != [] {
      assert list == [list[0]] + list[1..];
      if !AtMost(x, list[0]) {
        InsertKeeps(x, list[1..]);
      }
    }
  }

  lemma {:induction false} InsertSorts(x: string, list: seq<string>)
    requires Sorted(list)
    ensures Sorted(Insert(x, list))
  {
    if list == [] {
    } else if AtMost(x, list[0]) {
      forall j | 0 <= j < |list|
        ensures AtMost(x, list[j])
      {
        if x != list[0] && list[0] != list[j] {
          assert AtMost(list[0], list[j]);
          LessTransitive(x, list[0], list[j]);
        }
      }
    } else {
      var rest := Insert(x, list[1..]);
      InsertSorts(x, list[1..]);
      InsertKeeps(x, list[1..]);
      LessTotal(x, list[0]);
      forall j | 0 <= j < |rest|
        ensures AtMost(list[0], rest[j])
      {
        assert rest[j] in multiset(rest);
        assert rest[j] in list[1..] || rest[j] == x;
      }
    }
  }

  lemma {:induction false} SortSorts(list: seq<string>)
    ensures Sorted(Sort(list)) && multiset(Sort(list)) == multiset(list)
  {
    if list != [] {
      SortSorts(list[1..]);
      InsertSorts(list[0], Sort(list[1..]));
      InsertKeeps(list[0], Sort(list[1..]));
      assert list == [list[0]] + list[1..];
    }
  }

  lemma SameHead(a: seq<string>, b: seq<string>)
    requires Sorted(a) && Sorted(b) && multiset(a) == multiset(b) && a != [] && b != []
    ensures a[0] == b[0]
  {
    assert a[0] in multiset(b) && b[0] in multiset(a);
    LessTotal(a[0], b[0]);
  }

  lemma Rest(a: seq<string>)
    requires a != []
    ensures multiset(a[1..]) == multiset(a) - multiset{a[0]}
  {
    assert a == [a[0]] + a[1..];
  }

  lemma {:induction false} SortedUnique(a: seq<string>, b: seq<string>)
    requires Sorted(a) && Sorted(b) && multiset(a) == multiset(b)
    ensures a == b
  {
    assert |multiset(a)| == |a| && |multiset(b)| == |b|;
    if a != [] {
      SameHead(a, b);
      Rest(a);
      Rest(b);
      SortedUnique(a[1..], b[1..]);
    }
  }

  /** equalStringSet */
  predicate EqualStringSet(left: seq<string>, right: seq<string>) {
    |left| == |right| && Sort(left) == Sort(right)
  }

  /** Sorted copies are equal exactly when the lists hold the same strings as often. */
  lemma EqualStringSetIsMultiset(left: seq<string>, right: seq<string>)
    ensures EqualStringSet(left, right) <==> multiset(left) == multiset(right)
  {
    SortSorts(left);
    SortSorts(right);
    if multiset(left) == multiset(right) {
      SortedUnique(Sort(left), Sort(right));
      assert |left| == |multiset(left)| && |right| == |multiset(right)|;
    }
  }

  lemma EqualStringSetMembers(left: seq<string>, right: seq<string>, s: string)
    requires EqualStringSet(left, right)
    ensures s in left <==> s in right
  {
    EqualStringSetIsMultiset(left, right);
    assert s in left <==> s in multiset(left);
    assert s in right <==> s in multiset(right);
  }
}
