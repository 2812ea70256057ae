/** Listing a finite set of names: what it means to enumerate it, and its enumeration in name order. */
module Names {

  predicate Enumerates(listing: seq<string>, names: set<string>) {
    && (forall n | n in listing :: n in names)
    && (forall n | n in names :: n in listing)
    && (forall i, j | 0 <= i < j < |listing| :: listing[i] != listing[j])
  }

  /** The order of names, character by character. */
  predicate UpTo(a: string, b: string) {
    a == "" || (b != "" && (a[0] < b[0] || (a[0] == b[0] && UpTo(a[1..], b[1..]))))
  }

  lemma {:induction false} UpToAntisymmetric(a: string, b: string)
    requires UpTo(a, b) && UpTo(b, a)
    ensures a == b
  {
    if a == "" {
    } else {
      UpToAntisymmetric(a[1..], b[1..]);
      assert a == [a[0]] + a[1..] && b == [b[0]] + b[1..];
    }
  }

  lemma {:induction false} UpToTransitive(a: string, b: string, c: string)
    requires UpTo(a, b) && UpTo(b, c)
    ensures UpTo(a, c)
  {
    if a == "" {
    } else if a[0] == b[0] == c[0] {
      UpToTransitive(a[1..], b[1..], c[1..]);
    }
  }

  lemma {:induction false} UpToTotal(a: string, b: string)
    ensures UpTo(a, b) || UpTo(b, a)
  {
    if a == "" || b == "" {
    } else {
      UpToTotal(a[1..], b[1..]);
    }
  }

  predicate IsFirst(n: string, names: set<string>) {
    n in names && forall m | m in names :: UpTo(n, m)
  }

  lemma {:induction false} HasFirst(names: set<string>) returns (n: string)
    requires names != {}
    ensures IsFirst(n, names)
    decreases names
  {
    var some :| some in names;
    if names == {some} {
      n := some;
      UpToTotal(n, n);
    } else {
      var rest := HasFirst(names - {some});
      UpToTotal(rest, some);
      n := if UpTo(rest, some) then rest else some;
      forall m | m in names ensures UpTo(n, m) {
        UpToTotal(some, some);
        if m != some && n == some {
          UpToTransitive(some, rest, m);
        }
      }
    }
  }

  lemma FirstUnique(names: set<string>)
    requires names != {}
    ensures exists n :: IsFirst(n, names)
    ensures forall m, n | IsFirst(m, names) && IsFirst(n, names) :: m == n
  {
    var first := HasFirst(names);
    forall m, n | IsFirst(m, names) && IsFirst(n, names) ensures m == n {
      UpToAntisymmetric(m, n);
    }
  }

  /** The names in order. */
  function Sorted(names: set<string>): (listing: seq<string>)
    ensures Enumerates(listing, names)
  {
    if names == {} then []
    else
      FirstUnique(names);
      var first :| first in names && IsFirst(first, names);
      [first] + Sorted(names - {first})
  }

  lemma {:induction false} EnumeratedSize(listing: seq<string>, names: set<string>)
    requires Enumerates(listing, names)
    ensures |listing| == |names|
    decreases |listing|
  {
    if listing == [] {
      assert names == {};
    } else {
      EnumeratedSize(listing[1..], names - {listing[0]});
    }
  }
}
