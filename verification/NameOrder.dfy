/** JavaScript's string order and the sort by name that ends a directory listing. */
module NameOrder {

  /** `a < b` on strings: the first differing character decides, a proper prefix comes first. */
  predicate Before(a: string, b: string) {
    b != "" && (a == "" || a[0] < b[0] || (a[0] == b[0] && Before(a[1..], b[1..])))
  }

  lemma {:induction false} BeforeTotal(a: string, b: string)
    ensures a != b ==> Before(a, b) || Before(b, a)
    ensures !(Before(a, b) && Before(b, a))
  {
    if a != "" && b != "" && a[0] == b[0] {
      BeforeTotal(a[1..], b[1..]);
      assert a == [a[0]] + a[1..] && b == [b[0]] + b[1..];
    }
  }

  lemma {:induction false} BeforeTransitive(a: string, b: string, c: string)
    requires Before(a, b) && Before(b, c)
    ensures Before(a, c)
  {
    if a != "" && a[0] == b[0] && b[0] == c[0] {
      BeforeTransitive(a[1..], b[1..], c[1..]);
    }
  }

  /** Strictly ascending, so in particular without equal names. */
  predicate Ascending<T>(s: seq<T>, name: T -> string) {
    forall i, j :: 0 <= i < j < |s| ==> Before(name(s[i]), name(s[j]))
  }

  function Insert<T>(x: T, s: seq<T>, name: T -> string): (r: seq<T>)
    ensures multiset(r) == multiset(s) + multiset{x}
  {
    if s == [] || Before(name(x), name(s[0])) then [x] + s
    else
      assert s == [s[0]] + s[1..];
      [s[0]] + Insert(x, s[1..], name)
  }

  /** `[...values].sort((a, b) => (a.name < b.name ? -1 : a.name > b.name ? 1 : 0))` */
  function SortBy<T>(s: seq<T>, name: T -> string): (r: seq<T>)
    ensures multiset(r) == multiset(s)
  {
    if s == [] then []
    else
      assert s == [s[0]] + s[1..];
      Insert(s[0], SortBy(s[1..], name), name)
  }

  lemma {:induction false} InsertAscending<T>(x: T, s: seq<T>, name: T -> string)
    requires Ascending(s, name)
    requires forall i :: 0 <= i < |s| ==> name(s[i]) != name(x)
    ensures Ascending(Insert(x, s, name), name)
  {
    if s == [] {
    } else if Before(name(x), name(s[0])) {
      forall j | 0 <= j < |s| ensures Before(name(x), name(s[j])) {
        if j > 0 { BeforeTransitive(name(x), name(s[0]), name(s[j])); }
      }
    } else {
      BeforeTotal(name(x), name(s[0]));
      InsertAscending(x, s[1..], name);
      var r := Insert(x, s[1..], name);
      forall j | 0 <= j < |r| ensures Before(name(s[0]), name(r[j])) {
        assert r[j] in multiset(r);
        if r[j] != x {
          assert r[j] in s[1..];
        }
      }
    }
  }

  /** Sorting values with pairwise different names gives the one strictly ascending arrangement. */
  lemma {:induction false} SortByAscending<T>(s: seq<T>, name: T -> string)
    requires forall i, j :: 0 <= i < j < |s| ==> name(s[i]) != name(s[j])
    ensures Ascending(SortBy(s, name), name)
  {
    if s != [] {
      SortByAscending(s[1..], name);
      var r := SortBy(s[1..], name);
      forall i | 0 <= i < |r| ensures name(r[i]) != name(s[0]) {
        assert r[i] in multiset(s[1..]);
        var k :| 0 <= k < |s[1..]| && s[1..][k] == r[i];
        assert s[k + 1] == r[i];
      }
      InsertAscending(s[0], r, name);
    }
  }

  /** There is only one ascending arrangement, so a listing is determined by the files it holds. */
  lemma {:induction false} AscendingIsUnique<T>(a: seq<T>, b: seq<T>, name: T -> string)
    requires Ascending(a, name) && Ascending(b, name)
    requires multiset(a) == multiset(b)
    ensures a == b
  {
    hide Before;
    if a == [] {
      assert |multiset(b)| == |b|;
    } else {
      SameFirst(a, b, name);
      TailIsAscending(a, name);
      TailIsAscending(b, name);
      hide Ascending;
      AscendingIsUnique(a[1..], b[1..], name);
    }
  }

  lemma TailIsAscending<T>(a: seq<T>, name: T -> string)
    requires a != [] && Ascending(a, name)
    ensures a == [a[0]] + a[1..]
    ensures Ascending(a[1..], name) && multiset(a[1..]) == multiset(a) - multiset{a[0]}
  {
    assert a == [a[0]] + a[1..];
  }

  lemma SameFirst<T>(a: seq<T>, b: seq<T>, name: T -> string)
    requires a != [] && Ascending(a, name) && Ascending(b, name)
    requires multiset(a) == multiset(b)
    ensures b != [] && a[0] == b[0]
  {
    hide Before;
    assert a[0] in multiset(b) && b != [] && b[0] in multiset(a);
    if a[0] != b[0] {
      var i :| 0 <= i < |b| && b[i] == a[0];
      var j :| 0 <= j < |a| && a[j] == b[0];
      BeforeTotal(name(a[0]), name(b[0]));
    }
  }
}
