/** The contract of JavaScript's Array.prototype.sort, which is stable: an ordering of the
    input by a comparator, in which elements the comparator cannot tell apart keep their
    input order. `le(a, b)` stands for `comparator(a, b) <= 0`. */
module StableSort {

  ghost predicate TotalPreorder<T(!new)>(le: (T, T) -> bool) {
    && (forall a, b :: le(a, b) || le(b, a))
    && (forall a, b, c :: le(a, b) && le(b, c) ==> le(a, c))
  }

  ghost predicate Sorted<T>(s: seq<T>, le: (T, T) -> bool) {
    forall i, j :: 0 <= i < j < |s| ==> le(s[i], s[j])
  }

  predicate Ties<T>(le: (T, T) -> bool, a: T, b: T) {
    le(a, b) && le(b, a)
  }

  /** The elements of `s` that tie with `x`, in order. */
  function TiesOf<T>(s: seq<T>, le: (T, T) -> bool, x: T): (r: seq<T>) {
    if s == [] then []
    else (if Ties(le, s[0], x) then [s[0]] else []) + TiesOf(s[1..], le, x)
  }

  function Insert<T>(x: T, s: seq<T>, le: (T, T) -> bool): (r: seq<T>)
    ensures multiset(r) == multiset{x} + multiset(s)
    ensures |r| == |s| + 1
  {
    if s == [] || le(x, s[0]) then [x] + s
    else
      assert s == [s[0]] + s[1..];
      [s[0]] + Insert(x, s[1..], le)
  }

  function Sort<T>(s: seq<T>, le: (T, T) -> bool): (r: seq<T>)
    ensures multiset(r) == multiset(s)
    ensures |r| == |s|
  {
    if s == [] then []
    else
      assert s == [s[0]] + s[1..];
      Insert(s[0], Sort(s[1..], le), le)
  }

  lemma {:induction false} InsertSorted<T(!new)>(x: T, s: seq<T>, le: (T, T) -> bool)
    requires TotalPreorder(le) && Sorted(s, le)
    ensures Sorted(Insert(x, s, le), le)
  {
    if s != [] && !le(x, s[0]) {
      InsertSorted(x, s[1..], le);
      var r := Insert(x, s[1..], le);
      forall j | 0 <= j < |r| ensures le(s[0], r[j]) {
        assert r[j] in multiset(r);
        if r[j] != x {
          assert r[j] in multiset(s[1..]);
        }
      }
    } else if s != [] {
      forall j | 0 <= j < |s| ensures le(x, s[j]) {
        assert le(x, s[0]);
        assert j > 0 ==> le(s[0], s[j]);
      }
    }
  }

  lemma {:induction false} SortSorts<T(!new)>(s: seq<T>, le: (T, T) -> bool)
    requires TotalPreorder(le)
    ensures Sorted(Sort(s, le), le)
  {
    if s != [] {
      SortSorts(s[1..], le);
      InsertSorted(s[0], Sort(s[1..], le), le);
    }
  }

  lemma NotBothTied<T(!new)>(le: (T, T) -> bool, x: T, z: T, y: T)
    requires TotalPreorder(le) && !le(x, z)
    ensures !(Ties(le, x, y) && Ties(le, z, y))
  {
  }

  lemma TiesOfCons<T(!new)>(x: T, s: seq<T>, le: (T, T) -> bool, y: T)
    ensures TiesOf([x] + s, le, y) == (if Ties(le, x, y) then [x] else []) + TiesOf(s, le, y)
  {
    hide Ties;
    assert ([x] + s)[1..] == s;
  }

  lemma {:induction false} InsertKeepsTies<T(!new)>(x: T, s: seq<T>, le: (T, T) -> bool, y: T)
    requires TotalPreorder(le)
    ensures TiesOf(Insert(x, s, le), le, y) == (if Ties(le, x, y) then [x] else []) + TiesOf(s, le, y)
  {
    hide TotalPreorder, Ties;
    TiesOfCons(x, s, le, y);
    if s != [] && !le(x, s[0]) {
      var r := Insert(x, s[1..], le);
      assert Insert(x, s, le) == [s[0]] + r;
      assert s == [s[0]] + s[1..];
      hide Insert, TiesOf;
      TiesOfCons(s[0], r, le, y);
      TiesOfCons(s[0], s[1..], le, y);
      InsertKeepsTies(x, s[1..], le, y);
      NotBothTied(le, x, s[0], y);
    }
  }

  /** Elements that tie keep their input order. */
  lemma {:induction false} SortIsStable<T(!new)>(s: seq<T>, le: (T, T) -> bool, y: T)
    requires TotalPreorder(le)
    ensures TiesOf(Sort(s, le), le, y) == TiesOf(s, le, y)
  {
    if s != [] {
      SortIsStable(s[1..], le, y);
      InsertKeepsTies(s[0], Sort(s[1..], le), le, y);
    }
  }

  lemma {:induction false} TiesOfMember<T(!new)>(s: seq<T>, le: (T, T) -> bool, x: T)
    ensures forall e :: e in TiesOf(s, le, x) ==> e in s && Ties(le, e, x)
    ensures forall e :: e in s && Ties(le, e, x) ==> e in TiesOf(s, le, x)
  {
    if s != [] {
      TiesOfMember(s[1..], le, x);
      assert s == [s[0]] + s[1..];
    }
  }

  /** Being sorted and keeping every class of ties in input order leaves one possible
      result, so any correct stable sort returns exactly what `Sort` returns. */
  lemma {:induction false} StableSortIsUnique<T(!new)>(a: seq<T>, b: seq<T>, le: (T, T) -> bool)
    requires TotalPreorder(le)
    requires Sorted(a, le) && Sorted(b, le)
    requires forall x :: TiesOf(a, le, x) == TiesOf(b, le, x)
    ensures a == b
  {
    if a == [] || b == [] {
      if a != b {
        var x := if a != [] then a[0] else b[0];
        assert Ties(le, x, x) && (x in a || x in b);
        TiesOfMember(a, le, x);
        TiesOfMember(b, le, x);
      }
    } else {
      HeadIsBelow(a, b, le);
      HeadIsBelow(b, a, le);
      assert Ties(le, b[0], a[0]) && Ties(le, a[0], a[0]);
      assert TiesOf(a, le, a[0])[0] == a[0];
      assert TiesOf(b, le, a[0])[0] == b[0];
      forall x ensures TiesOf(a[1..], le, x) == TiesOf(b[1..], le, x) {
        var h := if Ties(le, a[0], x) then [a[0]] else [];
        assert TiesOf(a, le, x) == h + TiesOf(a[1..], le, x);
        assert TiesOf(b, le, x) == h + TiesOf(b[1..], le, x);
        assert TiesOf(a[1..], le, x) == TiesOf(a, le, x)[|h|..];
      }
      StableSortIsUnique(a[1..], b[1..], le);
      assert a == [a[0]] + a[1..] && b == [b[0]] + b[1..];
    }
  }

  lemma HeadIsBelow<T(!new)>(a: seq<T>, b: seq<T>, le: (T, T) -> bool)
    requires TotalPreorder(le) && Sorted(b, le)
    requires a != [] && b != []
    requires forall x :: TiesOf(a, le, x) == TiesOf(b, le, x)
    ensures le(b[0], a[0])
  {
    TiesOfMember(a, le, a[0]);
    TiesOfMember(b, le, a[0]);
    assert Ties(le, a[0], a[0]);
    assert a[0] in TiesOf(b, le, a[0]);
    var k :| 0 <= k < |b| && b[k] == a[0];
    assert Ties(le, b[0], b[0]);
  }
}
