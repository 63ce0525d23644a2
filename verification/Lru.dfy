/** A list of distinct keys, most recently used first, as kept beside each bounded table. */
module Lru {
  import opened Sets

  /** The list without the given keys, order kept. */
  function Drop(s: seq<string>, gone: set<string>): (r: seq<string>)
    ensures |r| <= |s|
  {
    if s == [] then []
    else if s[|s| - 1] in gone then Drop(s[..|s| - 1], gone)
    else Drop(s[..|s| - 1], gone) + [s[|s| - 1]]
  }

  function ToFront(s: seq<string>, key: string): seq<string>
  {
    [key] + Drop(s, {key})
  }

  /** Keys are used in this order: later in the list means no more recent. */
  predicate Descending(s: seq<string>, last: map<string, real>)
  {
    && (forall i :: 0 <= i < |s| ==> s[i] in last)
    && (forall i, j :: 0 <= i < j < |s| ==> last[s[i]] >= last[s[j]])
  }

  /** The list holds exactly these keys, each once. */
  predicate Lists(s: seq<string>, keys: set<string>)
  {
    && Distinct(s)
    && (forall i :: 0 <= i < |s| ==> s[i] in keys)
    && (forall k <- keys :: k in s)
  }

  lemma {:induction false} DropMeaning(s: seq<string>, gone: set<string>)
    ensures forall k :: k in Drop(s, gone) <==> k in s && k !in gone
    ensures Distinct(s) ==> Distinct(Drop(s, gone))
  {
    if s != [] {
      var init, last := s[..|s| - 1], s[|s| - 1];
      DropMeaning(init, gone);
      assert s == init + [last];
      if Distinct(s) {
        assert last !in init;
      }
    }
  }

  lemma {:induction false} DropDescending(s: seq<string>, gone: set<string>, last: map<string, real>)
    requires Descending(s, last)
    ensures Descending(Drop(s, gone), last)
  {
    if s != [] {
      var init := s[..|s| - 1];
      assert Descending(init, last);
      DropDescending(init, gone, last);
      DropMeaning(init, gone);
      assert forall i :: 0 <= i < |init| ==> last[init[i]] >= last[s[|s| - 1]];
      forall i | 0 <= i < |Drop(init, gone)| ensures last[Drop(init, gone)[i]] >= last[s[|s| - 1]] {
        assert Drop(init, gone)[i] in init;
      }
    }
  }

  lemma {:induction false} ListLength(s: seq<string>, keys: set<string>)
    requires Lists(s, keys)
    ensures |s| == |keys|
  {
    if s == [] {
      assert keys == {};
    } else {
      var init, last := s[..|s| - 1], s[|s| - 1];
      assert s == init + [last];
      assert last !in init;
      ListLength(init, keys - {last});
    }
  }

  lemma DropLists(s: seq<string>, keys: set<string>, gone: set<string>)
    requires Lists(s, keys)
    ensures Lists(Drop(s, gone), keys - gone)
  {
    DropMeaning(s, gone);
    forall i | 0 <= i < |Drop(s, gone)| ensures Drop(s, gone)[i] in keys - gone {
      assert Drop(s, gone)[i] in Drop(s, gone);
    }
  }

  lemma ToFrontLists(s: seq<string>, keys: set<string>, key: string)
    requires Lists(s, keys)
    ensures Lists(ToFront(s, key), keys + {key})
  {
    DropLists(s, keys, {key});
  }

  /** Touching a key now, no earlier than every use so far, keeps the list in order of use. */
  lemma ToFrontDescending(s: seq<string>, key: string, last: map<string, real>, now: real)
    requires Descending(s, last) && forall i :: 0 <= i < |s| ==> last[s[i]] <= now
    ensures Descending(ToFront(s, key), last[key := now])
  {
    DropDescending(s, {key}, last);
    DropMeaning(s, {key});
    var rest := Drop(s, {key});
    forall i | 0 <= i < |rest| ensures rest[i] != key && rest[i] in last && last[rest[i]] <= now {
      assert rest[i] in rest;
    }
  }

  lemma SubDescending(s: seq<string>, last: map<string, real>, last': map<string, real>)
    requires Descending(s, last) && forall i :: 0 <= i < |s| ==> s[i] in last' && last'[s[i]] == last[s[i]]
    ensures Descending(s, last')
  {
  }

  lemma {:induction false} DropNothing(s: seq<string>, key: string)
    requires key !in s
    ensures Drop(s, {key}) == s
  {
    if s != [] {
      var init, last := s[..|s| - 1], s[|s| - 1];
      assert last in s && last != key;
      DropNothing(init, key);
      assert s == init + [last];
    }
  }

  lemma DropLast(s: seq<string>)
    requires s != [] && Distinct(s)
    ensures Drop(s, {s[|s| - 1]}) == s[..|s| - 1]
  {
    DropNothing(s[..|s| - 1], s[|s| - 1]);
  }

  lemma {:induction false} DropTwice(s: seq<string>, gone: set<string>, more: set<string>)
    ensures Drop(Drop(s, gone), more) == Drop(s, gone + more)
  {
    if s != [] {
      var init, last := s[..|s| - 1], s[|s| - 1];
      DropTwice(init, gone, more);
      if last !in gone {
        var kept := Drop(init, gone);
        assert (kept + [last])[..|kept|] == kept;
      }
    }
  }

  lemma {:induction false} DropEmpty(s: seq<string>)
    ensures Drop(s, {}) == s
  {
    if s != [] { DropEmpty(s[..|s| - 1]); }
  }
}
