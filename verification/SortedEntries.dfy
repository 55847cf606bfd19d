/** Key/value entries sorted by key, as `Object.entries(…).sort(…)` leaves them. */
module SortedEntries {
  import opened Utf16

  type Entry<T> = (Text, T)

  predicate DistinctKeys<T>(es: seq<Entry<T>>) {
    forall i, j :: 0 <= i < j < |es| ==> es[i].0 != es[j].0
  }

  predicate Ascending<T>(es: seq<Entry<T>>) {
    forall i, j :: 0 <= i < j < |es| ==> Less(es[i].0, es[j].0)
  }

  function Insert<T>(e: Entry<T>, es: seq<Entry<T>>): seq<Entry<T>> {
    if |es| == 0 || Less(e.0, es[0].0) then [e] + es else [es[0]] + Insert(e, es[1..])
  }

  function Sort<T>(es: seq<Entry<T>>): seq<Entry<T>> {
    if |es| == 0 then [] else Insert(es[0], Sort(es[1..]))
  }

  lemma {:induction false} InsertHolds<T>(e: Entry<T>, es: seq<Entry<T>>, x: Entry<T>)
    ensures x in Insert(e, es) <==> x == e || x in es
  {
    hide Less;
    if |es| > 0 && !Less(e.0, es[0].0) {
      InsertHolds(e, es[1..], x);
      assert es == [es[0]] + es[1..];
    }
  }

  /** Sorting keeps exactly the entries it is given. */
  lemma {:induction false} SortHolds<T>(es: seq<Entry<T>>, x: Entry<T>)
    ensures x in Sort(es) <==> x in es
  {
    if |es| > 0 {
      SortHolds(es[1..], x);
      InsertHolds(es[0], Sort(es[1..]), x);
      assert es == [es[0]] + es[1..];
    }
  }

  lemma {:induction false} InsertAscends<T>(e: Entry<T>, es: seq<Entry<T>>)
    requires Ascending(es) && forall x :: x in es ==> x.0 != e.0
    ensures Ascending(Insert(e, es))
  {
    hide Less;
    var r := Insert(e, es);
    if |es| == 0 {
    } else if Less(e.0, es[0].0) {
      forall j | 0 < j < |r| ensures Less(e.0, r[j].0) {
        if j > 1 {
          LessIsTransitive(e.0, es[0].0, es[j - 1].0);
        }
      }
      forall i, j | 0 <= i < j < |r| ensures Less(r[i].0, r[j].0) {
        if i > 0 {
          assert r[i] == es[i - 1] && r[j] == es[j - 1];
        }
      }
    } else {
      LessIsTotal(e.0, es[0].0);
      assert es[0] in es;
      InsertAscends(e, es[1..]);
      var t := Insert(e, es[1..]);
      forall j | 0 <= j < |t| ensures Less(es[0].0, t[j].0) {
        InsertHolds(e, es[1..], t[j]);
        if t[j] != e {
          assert t[j] in es[1..];
          var k :| 0 <= k < |es[1..]| && es[1..][k] == t[j];
          assert es[k + 1] == t[j];
        }
      }
      assert r == [es[0]] + t;
      forall i, j | 0 <= i < j < |r| ensures Less(r[i].0, r[j].0) {
        assert r[j] == t[j - 1];
        if i > 0 {
          assert r[i] == t[i - 1];
        }
      }
    }
  }

  lemma {:induction false} SortAscends<T>(es: seq<Entry<T>>)
    requires DistinctKeys(es)
    ensures Ascending(Sort(es))
  {
    hide Less;
    if |es| > 0 {
      SortAscends(es[1..]);
      forall x | x in Sort(es[1..]) ensures x.0 != es[0].0 {
        SortHolds(es[1..], x);
        var k :| 0 <= k < |es[1..]| && es[1..][k] == x;
        assert es[k + 1] == x;
      }
      InsertAscends(es[0], Sort(es[1..]));
    }
  }

  /** Ascending entries are determined by which entries there are. */
  lemma {:induction false} AscendingUnique<T>(a: seq<Entry<T>>, b: seq<Entry<T>>)
    requires Ascending(a) && Ascending(b) && forall x :: x in a <==> x in b
    ensures a == b
  {
    hide Less;
    assert |b| > 0 ==> b[0] in b;
    if |a| > 0 {
      assert a[0] in a && a[0] in b;
      assert b[0] in b && b[0] in a;
      var i :| 0 <= i < |b| && b[i] == a[0];
      var j :| 0 <= j < |a| && a[j] == b[0];
      LessIsTotal(a[0].0, b[0].0);
      assert a[0] == b[0];
      forall x ensures x in a[1..] <==> x in b[1..] {
        LessIsTotal(a[0].0, a[0].0);
        if x in a[1..] {
          assert x in a && x != a[0];
          assert b == [b[0]] + b[1..];
        }
        if x in b[1..] {
          assert x in b && x != b[0];
          assert a == [a[0]] + a[1..];
        }
      }
      AscendingUnique(a[1..], b[1..]);
      assert a == [a[0]] + a[1..] && b == [b[0]] + b[1..];
    }
  }

  /** `b` is `a` with `f` applied to every value. */
  ghost predicate Mapped<A, B>(a: seq<Entry<A>>, b: seq<Entry<B>>, f: A -> B) {
    |a| == |b| && forall i :: 0 <= i < |a| ==> b[i] == (a[i].0, f(a[i].1))
  }

  lemma {:induction false} InsertMaps<A, B>(e: Entry<A>, a: seq<Entry<A>>, b: seq<Entry<B>>, f: A -> B)
    requires Mapped(a, b, f)
    ensures Mapped(Insert(e, a), Insert((e.0, f(e.1)), b), f)
  {
    hide Less;
    if |a| > 0 && !Less(e.0, a[0].0) {
      InsertMaps(e, a[1..], b[1..], f);
    }
  }

  /** Sorting looks at keys only: it does not matter whether values are encoded before or after it. */
  lemma {:induction false} SortMaps<A, B>(a: seq<Entry<A>>, b: seq<Entry<B>>, f: A -> B)
    requires Mapped(a, b, f)
    ensures Mapped(Sort(a), Sort(b), f)
  {
    if |a| > 0 {
      SortMaps(a[1..], b[1..], f);
      InsertMaps(a[0], Sort(a[1..]), Sort(b[1..]), f);
    }
  }
}
