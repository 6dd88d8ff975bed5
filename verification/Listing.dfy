/** Directory listings: the tools always sort the names they read before using them. */
module Listing {
  /** The order of JavaScript's default sort. */
  predicate Before(a: string, b: string) {
    b != "" && (a == "" || a[0] < b[0] || (a[0] == b[0] && Before(a[1..], b[1..])))
  }

  predicate Ascending(names: seq<string>) {
    forall i, j :: 0 <= i < j < |names| ==> Before(names[i], names[j])
  }

  predicate NoRepeats(names: seq<string>) {
    forall i, j :: 0 <= i < j < |names| ==> names[i] != names[j]
  }

  lemma NoRepeatsConcat(a: seq<string>, b: seq<string>)
    requires NoRepeats(a) && NoRepeats(b) && forall n :: n in a ==> n !in b
    ensures NoRepeats(a + b)
  {
    forall i, j | 0 <= i < j < |a + b| ensures (a + b)[i] != (a + b)[j] {
      assert i < |a| <= j ==> a[i] in a && b[j - |a|] in b;
    }
  }

  function Elements<T>(s: seq<T>): set<T> {
    set x | x in s
  }

  lemma {:induction false} BeforeIsStrictOrder(a: string, b: string, c: string)
    ensures !Before(a, a)
    ensures Before(a, b) && Before(b, c) ==> Before(a, c)
    ensures a != b ==> Before(a, b) || Before(b, a)
    decreases |a| + |b| + |c|
  {
    if a != "" {
      BeforeIsStrictOrder(a[1..], if b == "" then "" else b[1..], if c == "" then "" else c[1..]);
    }
    if a != "" && b != "" && a[0] == b[0] && a[1..] == b[1..] {
      assert a == [a[0]] + a[1..] == b;
    }
  }

  function Insert(x: string, names: seq<string>): (r: seq<string>)
    ensures forall n :: n in r <==> n == x || n in names
    ensures |r| == |names| + 1
  {
    if names == [] then [x]
    else if Before(x, names[0]) then [x] + names
    else
      assert names == [names[0]] + names[1..];
      [names[0]] + Insert(x, names[1..])
  }

  lemma {:induction false} InsertKeepsAscending(x: string, names: seq<string>)
    requires Ascending(names) && x !in names
    ensures Ascending(Insert(x, names))
  {
    if names != [] {
      BeforeIsStrictOrder(x, names[0], names[0]);
      if Before(x, names[0]) {
        forall i | 0 < i < |names| ensures Before(x, names[i]) {
          BeforeIsStrictOrder(x, names[0], names[i]);
        }
      } else {
        var rest := Insert(x, names[1..]);
        InsertKeepsAscending(x, names[1..]);
        forall i | 0 <= i < |rest| ensures Before(names[0], rest[i]) {
          assert rest[i] in Elements(rest);
          if rest[i] != x {
            assert rest[i] in names[1..];
          }
        }
      }
    }
  }

  /** The sorted listing of a set of names. */
  ghost function Sorted(names: set<string>): (r: seq<string>)
    ensures Elements(r) == names && |r| == |names|
    ensures forall n :: n in r <==> n in names
  {
    if names == {} then []
    else
      var x :| x in names;
      Insert(x, Sorted(names - {x}))
  }

  lemma {:induction false} SortedIsAscending(names: set<string>)
    ensures Ascending(Sorted(names))
    decreases names
  {
    if names != {} {
      var x :| x in names && Sorted(names) == Insert(x, Sorted(names - {x}));
      SortedIsAscending(names - {x});
      InsertKeepsAscending(x, Sorted(names - {x}));
    }
  }

  lemma AscendingHasNoDuplicates(names: seq<string>)
    requires Ascending(names)
    ensures NoRepeats(names)
  {
    forall i, j | 0 <= i < j < |names| ensures names[i] != names[j] {
      BeforeIsStrictOrder(names[i], names[j], names[j]);
    }
  }

  /** Only one ascending listing has given elements, so sorting is independent of the reading order. */
  lemma {:induction false} AscendingIsUnique(a: seq<string>, b: seq<string>)
    requires Ascending(a) && Ascending(b) && Elements(a) == Elements(b)
    ensures a == b
    decreases |a|
  {
    AscendingHasNoDuplicates(a);
    AscendingHasNoDuplicates(b);
    assert |a| == 0 <==> Elements(a) == {} by { assert a != [] ==> a[0] in Elements(a); }
    assert |b| == 0 <==> Elements(b) == {} by { assert b != [] ==> b[0] in Elements(b); }
    if a != [] {
      assert a[0] in Elements(b) && b[0] in Elements(a);
      var i :| 0 <= i < |b| && b[i] == a[0];
      var j :| 0 <= j < |a| && a[j] == b[0];
      if i > 0 {
        assert j > 0;
        assert Before(b[0], a[0]) && Before(a[0], b[0]);
        BeforeIsStrictOrder(a[0], b[0], a[0]);
        assert false;
      }
      forall n ensures n in a[1..] <==> n in b[1..] {
        assert n in Elements(a) <==> n in Elements(b);
        assert a == [a[0]] + a[1..] && b == [b[0]] + b[1..];
      }
      AscendingIsUnique(a[1..], b[1..]);
    }
  }

  /** The sorted form of a list, repetitions kept. */
  function SortList(names: seq<string>): (r: seq<string>)
    ensures |r| == |names| && forall n :: n in r <==> n in names
  {
    if names == [] then []
    else
      assert names == [names[0]] + names[1..];
      Insert(names[0], SortList(names[1..]))
  }

  /** Without repetitions a list sorts into the listing of its elements. */
  lemma {:induction false} SortListIsSorted(names: seq<string>)
    requires NoRepeats(names)
    ensures Ascending(SortList(names)) && SortList(names) == Sorted(Elements(names))
  {
    SortListAscends(names);
    SortedIsAscending(Elements(names));
    AscendingIsUnique(SortList(names), Sorted(Elements(names)));
  }

  lemma {:induction false} SortListAscends(names: seq<string>)
    requires NoRepeats(names)
    ensures Ascending(SortList(names))
  {
    if names != [] {
      SortListAscends(names[1..]);
      InsertKeepsAscending(names[0], SortList(names[1..]));
    }
  }

  method Sort(names: set<string>) returns (r: seq<string>)
    ensures r == Sorted(names)
    ensures Ascending(r)
  {
    r := [];
    var rest := names;
    while rest != {}
      invariant Ascending(r) && rest <= names
      invariant forall n :: n in r <==> n in names - rest
      decreases rest
    {
      var x :| x in rest;
      InsertKeepsAscending(x, r);
      r := Insert(x, r);
      rest := rest - {x};
    }
    SortedIsAscending(names);
    AscendingIsUnique(r, Sorted(names));
  }
}
