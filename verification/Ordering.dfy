/** The text and key order used by every ordered query of the store.
    Rows are ordered by a major column and then a minor one, each compared as text. */
module Ordering {

  /** Strict lexicographic order on text. */
  predicate TextBefore(a: string, b: string)
  {
    b != "" && (a == "" || a[0] < b[0] || (a[0] == b[0] && TextBefore(a[1..], b[1..])))
  }

  lemma {:induction false} TextBeforeTransitive(a: string, b: string, c: string)
    requires TextBefore(a, b) && TextBefore(b, c)
    ensures TextBefore(a, c)
  {
    if a != "" && a[0] == b[0] == c[0] {
      TextBeforeTransitive(a[1..], b[1..], c[1..]);
    }
  }

  lemma {:induction false} TextBeforeTotal(a: string, b: string)
    ensures TextBefore(a, b) || a == b || TextBefore(b, a)
  {
    if a != "" && b != "" && a[0] == b[0] {
      TextBeforeTotal(a[1..], b[1..]);
      assert a == [a[0]] + a[1..] && b == [b[0]] + b[1..];
    }
  }

  lemma {:induction false} TextBeforeAsymmetric(a: string, b: string)
    ensures !(TextBefore(a, b) && TextBefore(b, a))
  {
    if a != "" && b != "" && a[0] == b[0] {
      TextBeforeAsymmetric(a[1..], b[1..]);
    }
  }

  /** A row identity: (object_key, enrollment_id) for sessions, (domain_id, slug) for concept notes. */
  datatype Key = Key(major: string, minor: string)

  predicate Before(a: Key, b: Key)
  {
    TextBefore(a.major, b.major) || (a.major == b.major && TextBefore(a.minor, b.minor))
  }

  predicate AtOrBefore(a: Key, b: Key)
  {
    a == b || Before(a, b)
  }

  lemma KeyTransitive(a: Key, b: Key, c: Key)
    requires Before(a, b) && Before(b, c)
    ensures Before(a, c)
  {
    if TextBefore(a.major, b.major) && TextBefore(b.major, c.major) {
      TextBeforeTransitive(a.major, b.major, c.major);
    } else if a.major == b.major == c.major {
      TextBeforeTransitive(a.minor, b.minor, c.minor);
    }
  }

  lemma KeyTrichotomy(a: Key, b: Key)
    ensures !(Before(a, b) && Before(b, a))
    ensures Before(a, b) || a == b || Before(b, a)
  {
    TextBeforeAsymmetric(a.major, b.major);
    TextBeforeAsymmetric(a.minor, b.minor);
    TextBeforeTotal(a.major, b.major);
    TextBeforeTotal(a.minor, b.minor);
    TextBeforeAsymmetric(a.major, a.major);
  }

  lemma KeyOrder()
    ensures forall a: Key, b: Key :: !(Before(a, b) && Before(b, a))
    ensures forall a: Key, b: Key :: Before(a, b) || a == b || Before(b, a)
    ensures forall a: Key, b: Key, c: Key :: Before(a, b) && Before(b, c) ==> Before(a, c)
  {
    forall a: Key, b: Key ensures !(Before(a, b) && Before(b, a)) && (Before(a, b) || a == b || Before(b, a)) {
      KeyTrichotomy(a, b);
    }
    forall a: Key, b: Key, c: Key | Before(a, b) && Before(b, c) ensures Before(a, c) {
      KeyTransitive(a, b, c);
    }
  }

  ghost predicate Ascending(s: seq<Key>)
  {
    forall i, j :: 0 <= i < j < |s| ==> Before(s[i], s[j])
  }

  ghost predicate IsLeast(m: Key, s: set<Key>)
  {
    m in s && forall k :: k in s ==> AtOrBefore(m, k)
  }

  lemma LeastExists(s: set<Key>) returns (m: Key)
    requires s != {}
    ensures IsLeast(m, s)
  {
    KeyOrder();
    m :| m in s;
    if s != {m} {
      var rest := s - {m};
      assert rest != {};
      var n := LeastExists(rest);
      assert forall k :: k in s ==> k == m || k in rest;
      if Before(n, m) {
        m := n;
      }
    }
  }

  ghost function Least(s: set<Key>): (m: Key)
    requires s != {}
    ensures IsLeast(m, s)
  {
    assert exists m :: IsLeast(m, s) by {
      var m := LeastExists(s);
    }
    var m :| IsLeast(m, s);
    m
  }

  /** ORDER BY major, minor. */
  ghost function Sorted(s: set<Key>): (r: seq<Key>)
    ensures Ascending(r)
    ensures |r| == |s|
    ensures forall k :: k in r <==> k in s
  {
    if s == {} then [] else
      var m := Least(s);
      assert forall k :: k in s - {m} ==> Before(m, k);
      [m] + Sorted(s - {m})
  }

  predicate SameKeys(r: seq<Key>, q: seq<Key>)
  {
    (forall i :: 0 <= i < |r| ==> r[i] in q) && (forall i :: 0 <= i < |q| ==> q[i] in r)
  }

  lemma SameHead(r: seq<Key>, q: seq<Key>)
    requires Ascending(r) && Ascending(q) && SameKeys(r, q) && r != [] && q != []
    ensures r[0] == q[0]
  {
    var i :| 0 <= i < |r| && r[i] == q[0];
    var j :| 0 <= j < |q| && q[j] == r[0];
    KeyTrichotomy(r[0], q[0]);
  }

  lemma TailKeys(r: seq<Key>, q: seq<Key>)
    requires Ascending(r) && r != [] && q != [] && r[0] == q[0] && forall i :: 0 <= i < |r| ==> r[i] in q
    ensures Ascending(r[1..]) && forall i :: 0 <= i < |r[1..]| ==> r[1..][i] in q[1..]
  {
    KeyTrichotomy(r[0], r[0]);
    forall i | 0 <= i < |r[1..]| ensures r[1..][i] in q[1..] {
      assert r[i + 1] in q && Before(r[0], r[i + 1]);
      var j :| 0 <= j < |q| && q[j] == r[i + 1];
      assert q[1..][j - 1] == r[i + 1];
    }
  }

  /** Two ascending sequences of the same keys are the same. */
  lemma {:induction false} AscendingEqual(r: seq<Key>, q: seq<Key>)
    requires Ascending(r) && Ascending(q) && SameKeys(r, q)
    ensures r == q
  {
    assert |r| > 0 ==> r[0] in q;
    assert |q| > 0 ==> q[0] in r;
    if r != [] && q != [] {
      SameHead(r, q);
      TailKeys(r, q);
      TailKeys(q, r);
      AscendingEqual(r[1..], q[1..]);
      assert r == [r[0]] + r[1..] && q == [q[0]] + q[1..];
    }
  }

  lemma SortedUnique(r: seq<Key>, s: set<Key>)
    requires Ascending(r)
    requires forall k :: k in r <==> k in s
    ensures r == Sorted(s)
  {
    AscendingEqual(r, Sorted(s));
  }

  method FindLeast(s: set<Key>) returns (m: Key)
    requires s != {}
    ensures IsLeast(m, s)
  {
    KeyOrder();
    m :| m in s;
    var rest := s - {m};
    while rest != {}
      invariant m in s && rest <= s
      invariant forall k :: k in s && k !in rest ==> AtOrBefore(m, k)
      decreases rest
    {
      var k :| k in rest;
      if Before(k, m) {
        m := k;
      }
      rest := rest - {k};
    }
  }

  /** The ordered query: the rows of s in ascending key order. */
  method SortKeys(s: set<Key>) returns (r: seq<Key>)
    ensures r == Sorted(s)
  {
    KeyOrder();
    r := [];
    var rest := s;
    while rest != {}
      invariant rest <= s
      invariant Ascending(r)
      invariant forall k :: k in r <==> k in s - rest
      invariant forall a, b :: a in r && b in rest ==> Before(a, b)
      decreases rest
    {
      var m := FindLeast(rest);
      r := r + [m];
      rest := rest - {m};
    }
    SortedUnique(r, s);
  }

  /** An ascending list has as many members as positions. */
  lemma {:induction false} AscendingCard(r: seq<Key>)
    requires Ascending(r)
    ensures |set k | k in r| == |r|
  {
    if r != [] {
      var n := |r| - 1;
      var p := r[..n];
      assert r == p + [r[n]];
      AscendingCard(p);
      KeyTrichotomy(r[n], r[n]);
      assert r[n] !in p by { assert forall i :: 0 <= i < n ==> Before(p[i], r[n]); }
      assert (set k | k in r) == (set k | k in p) + {r[n]};
    }
  }

  /* ---- single names ---- */

  ghost predicate AscendingNames(s: seq<string>)
  {
    forall i, j :: 0 <= i < j < |s| ==> TextBefore(s[i], s[j])
  }

  ghost predicate LeastName(m: string, s: set<string>)
  {
    m in s && forall k :: k in s ==> m == k || TextBefore(m, k)
  }

  lemma LeastNameExists(s: set<string>) returns (m: string)
    requires s != {}
    ensures LeastName(m, s)
  {
    m :| m in s;
    if s != {m} {
      var n := LeastNameExists(s - {m});
      TextBeforeTotal(m, n);
      if TextBefore(n, m) {
        m := n;
      } else {
        forall k | k in s ensures m == k || TextBefore(m, k) {
          if k != m && k != n {
            TextBeforeTransitive(m, n, k);
          }
        }
      }
    }
  }

  /** The names of a set in ascending order. */
  ghost function SortedNames(s: set<string>): (r: seq<string>)
    ensures AscendingNames(r)
    ensures |r| == |s|
    ensures forall k :: k in r <==> k in s
  {
    if s == {} then [] else
      assert exists m :: LeastName(m, s) by { var m := LeastNameExists(s); }
      var m :| LeastName(m, s);
      [m] + SortedNames(s - {m})
  }

  predicate SameNames(r: seq<string>, q: seq<string>)
  {
    (forall i :: 0 <= i < |r| ==> r[i] in q) && (forall i :: 0 <= i < |q| ==> q[i] in r)
  }

  lemma SameFirstName(r: seq<string>, q: seq<string>)
    requires AscendingNames(r) && AscendingNames(q) && SameNames(r, q) && r != [] && q != []
    ensures r[0] == q[0]
  {
    var i :| 0 <= i < |r| && r[i] == q[0];
    var j :| 0 <= j < |q| && q[j] == r[0];
    TextBeforeAsymmetric(r[0], q[0]);
  }

  lemma TailNames(r: seq<string>, q: seq<string>)
    requires AscendingNames(r) && r != [] && q != [] && r[0] == q[0] && forall i :: 0 <= i < |r| ==> r[i] in q
    ensures AscendingNames(r[1..]) && forall i :: 0 <= i < |r[1..]| ==> r[1..][i] in q[1..]
  {
    TextBeforeAsymmetric(r[0], r[0]);
    forall i | 0 <= i < |r[1..]| ensures r[1..][i] in q[1..] {
      assert r[i + 1] in q && TextBefore(r[0], r[i + 1]);
      var j :| 0 <= j < |q| && q[j] == r[i + 1];
      assert q[1..][j - 1] == r[i + 1];
    }
  }

  lemma {:induction false} AscendingNamesEqual(r: seq<string>, q: seq<string>)
    requires AscendingNames(r) && AscendingNames(q) && SameNames(r, q)
    ensures r == q
  {
    assert |r| > 0 ==> r[0] in q;
    assert |q| > 0 ==> q[0] in r;
    if r != [] && q != [] {
      SameFirstName(r, q);
      TailNames(r, q);
      TailNames(q, r);
      AscendingNamesEqual(r[1..], q[1..]);
      assert r == [r[0]] + r[1..] && q == [q[0]] + q[1..];
    }
  }

  lemma SortedNamesUnique(r: seq<string>, s: set<string>)
    requires AscendingNames(r)
    requires forall k :: k in r <==> k in s
    ensures r == SortedNames(s)
  {
    AscendingNamesEqual(r, SortedNames(s));
  }

  method SortNames(s: set<string>) returns (r: seq<string>)
    ensures r == SortedNames(s)
  {
    r := [];
    var rest := s;
    while rest != {}
      invariant rest <= s
      invariant AscendingNames(r)
      invariant forall k :: k in r <==> k in s - rest
      invariant forall a, b :: a in r && b in rest ==> TextBefore(a, b)
      decreases rest
    {
      var m := FindLeastName(rest);
      r := r + [m];
      rest := rest - {m};
    }
    SortedNamesUnique(r, s);
  }

  method FindLeastName(s: set<string>) returns (m: string)
    requires s != {}
    ensures LeastName(m, s)
  {
    m :| m in s;
    var rest := s - {m};
    while rest != {}
      invariant m in s && rest <= s
      invariant forall k :: k in s && k !in rest ==> m == k || TextBefore(m, k)
      decreases rest
    {
      var k :| k in rest;
      TextBeforeTotal(k, m);
      if TextBefore(k, m) {
        forall x | x in s && x !in rest ensures k == x || TextBefore(k, x) {
          if x != m {
            TextBeforeTransitive(k, m, x);
          }
        }
        m := k;
      }
      rest := rest - {k};
    }
  }
}
