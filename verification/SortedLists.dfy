/** Sorting and removing repeats in a list of ids, as done before a list of edges is stored. */
module SortedLists {

  predicate Ascending(s: seq<nat>) {
    forall i: nat, j: nat :: i < j < |s| ==> s[i] <= s[j]
  }

  predicate Strict(s: seq<nat>) {
    forall i: nat, j: nat :: i < j < |s| ==> s[i] < s[j]
  }

  function InsertSorted(x: nat, s: seq<nat>): seq<nat> {
    if s == [] || x <= s[0] then [x] + s else [s[0]] + InsertSorted(x, s[1..])
  }

  function Sort(s: seq<nat>): seq<nat> {
    if s == [] then [] else InsertSorted(s[0], Sort(s[1..]))
  }

  function Unique(s: seq<nat>): seq<nat> {
    if |s| < 2 then s else if s[0] == s[1] then Unique(s[1..]) else [s[0]] + Unique(s[1..])
  }

  function Without(s: seq<nat>, x: nat): seq<nat> {
    if s == [] then [] else (if s[0] == x then [] else [s[0]]) + Without(s[1..], x)
  }

  lemma {:induction false} InsertElems(x: nat, s: seq<nat>, y: nat)
    ensures y in InsertSorted(x, s) <==> y == x || y in s
  {
    if s != [] && x > s[0] {
      assert s == [s[0]] + s[1..];
      InsertElems(x, s[1..], y);
    }
  }

  lemma {:induction false} InsertAscending(x: nat, s: seq<nat>)
    requires Ascending(s)
    ensures Ascending(InsertSorted(x, s))
  {
    if s != [] && x > s[0] {
      InsertAscending(x, s[1..]);
      var rest := InsertSorted(x, s[1..]);
      forall j | 0 <= j < |rest| ensures s[0] <= rest[j] {
        InsertElems(x, s[1..], rest[j]);
      }
    }
  }

  lemma {:induction false} InsertStrict(x: nat, s: seq<nat>)
    requires Strict(s) && x !in s
    ensures Strict(InsertSorted(x, s))
  {
    if s != [] && x > s[0] {
      InsertStrict(x, s[1..]);
      var rest := InsertSorted(x, s[1..]);
      forall j | 0 <= j < |rest| ensures s[0] < rest[j] {
        InsertElems(x, s[1..], rest[j]);
      }
    }
  }

  lemma {:induction false} SortAscending(s: seq<nat>)
    ensures Ascending(Sort(s))
  {
    if s != [] {
      SortAscending(s[1..]);
      InsertAscending(s[0], Sort(s[1..]));
    }
  }

  lemma {:induction false} SortElems(s: seq<nat>, y: nat)
    ensures y in Sort(s) <==> y in s
  {
    if s != [] {
      assert s == [s[0]] + s[1..];
      SortElems(s[1..], y);
      InsertElems(s[0], Sort(s[1..]), y);
    }
  }

  // Sorting a strictly ascending list with one new id at the end keeps it strictly ascending.
  lemma {:induction false} SortStrict(s: seq<nat>)
    requires forall i: nat, j: nat :: i < j < |s| ==> s[i] != s[j]
    ensures Strict(Sort(s))
  {
    if s != [] {
      SortStrict(s[1..]);
      SortElems(s[1..], s[0]);
      InsertStrict(s[0], Sort(s[1..]));
    }
  }

  lemma {:induction false} UniqueElems(s: seq<nat>, y: nat)
    ensures y in Unique(s) <==> y in s
  {
    if |s| >= 2 {
      assert s == [s[0]] + s[1..] && s[1..][0] == s[1];
      UniqueElems(s[1..], y);
    }
  }

  lemma {:induction false} UniqueStrict(s: seq<nat>)
    requires Ascending(s)
    ensures Strict(Unique(s))
  {
    if |s| >= 2 {
      UniqueStrict(s[1..]);
      if s[0] != s[1] {
        var rest := Unique(s[1..]);
        forall j | 0 <= j < |rest| ensures s[0] < rest[j] {
          UniqueElems(s[1..], rest[j]);
          assert rest[j] in s[1..];
        }
      }
    }
  }

  // Sorted without repeats: the strictly ascending list of the same ids.
  lemma SortUnique(s: seq<nat>)
    ensures Strict(Unique(Sort(s)))
    ensures forall y: nat :: y in Unique(Sort(s)) <==> y in s
  {
    SortAscending(s);
    UniqueStrict(Sort(s));
    forall y: nat ensures y in Unique(Sort(s)) <==> y in s {
      UniqueElems(Sort(s), y);
      SortElems(s, y);
    }
  }

  lemma {:induction false} WithoutElems(s: seq<nat>, x: nat, y: nat)
    ensures y in Without(s, x) <==> y in s && y != x
  {
    if s != [] {
      assert s == [s[0]] + s[1..];
      WithoutElems(s[1..], x, y);
    }
  }

  lemma {:induction false} WithoutStrict(s: seq<nat>, x: nat)
    requires Strict(s)
    ensures Strict(Without(s, x))
  {
    if s != [] {
      WithoutStrict(s[1..], x);
      var rest := Without(s[1..], x);
      forall j | 0 <= j < |rest| ensures s[0] < rest[j] {
        WithoutElems(s[1..], x, rest[j]);
        assert rest[j] in s[1..];
      }
    }
  }

  lemma {:induction false} WithoutAbsent(s: seq<nat>, x: nat)
    requires x !in s
    ensures Without(s, x) == s
  {
    if s != [] {
      WithoutAbsent(s[1..], x);
    }
  }

  // Strictly ascending lists with the same ids are the same list.
  lemma {:induction false} StrictDetermined(a: seq<nat>, b: seq<nat>)
    requires Strict(a) && Strict(b) && forall y: nat :: y in a <==> y in b
    ensures a == b
  {
    assert |a| > 0 ==> a[0] in b;
    assert |b| > 0 ==> b[0] in a;
    if a != [] {
      assert a[0] == b[0];
      forall y: nat ensures y in a[1..] <==> y in b[1..] {
        if y in a[1..] {
          assert y in a && y > a[0];
          assert y in b;
        }
        if y in b[1..] {
          assert y in b && y > b[0];
          assert y in a;
        }
      }
      StrictDetermined(a[1..], b[1..]);
    }
  }
}
