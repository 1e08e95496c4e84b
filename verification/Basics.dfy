/** Small things used everywhere: optional values, lists without repetition, and listing a set. */
module Basics {

  datatype Option<+T> = None | Some(value: T)

  predicate Distinct<T(==)>(s: seq<T>) {
    forall i, j :: 0 <= i < j < |s| ==> s[i] != s[j]
  }

  function ToSet<T>(s: seq<T>): set<T> {
    set x | x in s
  }

  /** A list around one of its entries. */
  lemma SplitAt<T>(s: seq<T>, i: nat)
    requires i < |s|
    ensures s == (s[..i] + [s[i]]) + s[i + 1..]
  {
  }

  lemma FrontAndLast<T>(s: seq<T>)
    requires s != []
    ensures s == s[..|s| - 1] + [s[|s| - 1]]
  {
  }

  lemma FrontOfConcat<T>(a: seq<T>, b: seq<T>)
    requires b != []
    ensures (a + b)[..|a + b| - 1] == a + b[..|b| - 1] && (a + b)[|a + b| - 1] == b[|b| - 1]
  {
  }

  lemma Regroup<T>(a: seq<T>, b: seq<T>, c: seq<T>)
    ensures (a + b) + c == a + (b + c)
  {
  }

  /** The members of a set in some order, as a query or a graph library lists them. */
  method Listing<T(==)>(members: set<T>) returns (list: seq<T>)
    ensures Distinct(list) && ToSet(list) == members && forall x :: x in list <==> x in members
  {
    list := [];
    var todo := members;
    while todo != {}
      invariant Distinct(list) && ToSet(list) + todo == members && ToSet(list) !! todo
      decreases todo
    {
      var x :| x in todo;
      todo := todo - {x};
      assert x !in ToSet(list);
      assert ToSet(list + [x]) == ToSet(list) + {x};
      list := list + [x];
    }
    assert forall x :: x in list <==> x in ToSet(list);
  }

  lemma HeadOfConcat<T>(a: seq<T>, b: seq<T>)
    requires a != []
    ensures a + b == [a[0]] + (a[1..] + b)
  {
  }
}
