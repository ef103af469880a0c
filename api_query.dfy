/** `normalizeQuery` of the HTTP API: the canonical form of a request path
    and its parameters, used as the message a request signature covers. */
module ApiQuery {
  import opened Text
  import opened Wrappers

  /** One query parameter, `(key, value)`. The parameters of a request are
      the items of the dictionary the query string was parsed into, in that
      dictionary's order. */
  type Pair = (string, string)

  /** The keys `normalizeQuery` drops by default. */
  const DefaultRemove: seq<string> := ["timestamp", "signature"]

  /** Byte-string ordering: lexicographic by character code, a proper
      prefix first. */
  predicate LexLe(a: string, b: string)
    decreases |a|
  {
    |a| == 0 || (|b| > 0 && (a[0] < b[0] || (a[0] == b[0] && LexLe(a[1..], b[1..]))))
  }

  /** The sort key of `sorted(..., key=lambda x: x[0].lower())`. */
  predicate KeyLe(p: Pair, q: Pair) {
    LexLe(LowerString(p.0), LowerString(q.0))
  }

  predicate Sorted(s: seq<Pair>) {
    forall i, j :: 0 <= i < j < |s| ==> KeyLe(s[i], s[j])
  }

  /** `qdata.pop(key, None)`. */
  function Pop(q: seq<Pair>, key: string): (r: seq<Pair>)
    ensures forall p :: p in r <==> p in q && p.0 != key
  {
    if q == [] then []
    else (if q[0].0 == key then [] else [q[0]]) + Pop(q[1..], key)
  }

  /** The parameters left after popping each key of `keys` in turn. */
  function PopAll(q: seq<Pair>, keys: seq<string>): seq<Pair>
  {
    if keys == [] then q else Pop(PopAll(q, keys[..|keys| - 1]), keys[|keys| - 1])
  }

  /** `qdata[key] = value`: an existing entry takes the new value in place,
      otherwise the entry is added at the end. */
  function Put(q: seq<Pair>, key: string, value: string): (r: seq<Pair>)
  {
    if q == [] then [(key, value)]
    else if q[0].0 == key then [(key, value)] + q[1..]
    else [q[0]] + Put(q[1..], key, value)
  }

  /** One step of insertion: `p` goes before the first entry that does not
      sort before it, which keeps equal keys in their original order. */
  function Insert(p: Pair, s: seq<Pair>): (r: seq<Pair>)
  {
    if s == [] then [p]
    else if KeyLe(p, s[0]) then [p] + s
    else [s[0]] + Insert(p, s[1..])
  }

  /** `sorted(items, key=lambda x: x[0].lower())`, a stable sort. */
  function Sort(s: seq<Pair>): seq<Pair>
  {
    if s == [] then [] else Insert(s[0], Sort(s[1..]))
  }

  /** `urlencode(pairs)`: `k=v` items joined with `&` (escaping is not
      modelled). */
  function UrlEncode(s: seq<Pair>): string
  {
    if s == [] then ""
    else if |s| == 1 then s[0].0 + "=" + s[0].1
    else s[0].0 + "=" + s[0].1 + "&" + UrlEncode(s[1..])
  }

  /** The parameters that end up in the normalised query, in their order. */
  function QueryItems(qdata: seq<Pair>, ts: Option<int>, remove: seq<string>): seq<Pair>
  {
    var q := PopAll(qdata, remove);
    Sort(if ts.Some? then Put(q, "timestamp", IntToString(ts.value)) else q)
  }

  /** The string `normalizeQuery(path, query, ts, remove)` returns. */
  function NormalizedQuery(path: string, qdata: seq<Pair>, ts: Option<int>, remove: seq<string>): string
  {
    var items := QueryItems(qdata, ts, remove);
    if items == [] then path else path + "?" + UrlEncode(items)
  }

  /** `normalizeQuery(path, query, ts, remove)`, step by step: pop the
      removed keys, put the timestamp, sort case-insensitively and render. */
  method NormalizeQuery(path: string, qdata: seq<Pair>, ts: Option<int>, remove: seq<string>)
    returns (r: string)
    ensures r == NormalizedQuery(path, qdata, ts, remove)
  {
    var q := qdata;
    for j := 0 to |remove|
      invariant q == PopAll(qdata, remove[..j])
    {
      assert remove[..j + 1][..j] == remove[..j];
      q := Pop(q, remove[j]);
    }
    assert remove[..|remove|] == remove;
    if ts.Some? {
      q := Put(q, "timestamp", IntToString(ts.value));
    }
    var sortedQuery := Sort(q);
    if sortedQuery != [] {
      r := path + "?" + UrlEncode(sortedQuery);
    } else {
      r := path;
    }
  }

  // ---------------------------------------------------------------------
  // The order

  lemma {:induction false} LexLeTotal(a: string, b: string)
    ensures LexLe(a, b) || LexLe(b, a)
    decreases |a|
  {
    if |a| > 0 && |b| > 0 && a[0] == b[0] {
      LexLeTotal(a[1..], b[1..]);
    }
  }

  lemma {:induction false} LexLeTransitive(a: string, b: string, c: string)
    requires LexLe(a, b) && LexLe(b, c)
    ensures LexLe(a, c)
    decreases |a|
  {
    if |a| > 0 && a[0] == b[0] && b[0] == c[0] {
      LexLeTransitive(a[1..], b[1..], c[1..]);
    }
  }

  lemma SortedCons(x: Pair, s: seq<Pair>)
    requires Sorted(s) && forall y :: y in s ==> KeyLe(x, y)
    ensures Sorted([x] + s)
  {
    var r := [x] + s;
    forall i, j | 0 <= i < j < |r|
      ensures KeyLe(r[i], r[j])
    {
      if i > 0 {
        assert r[i] == s[i - 1] && r[j] == s[j - 1];
      } else {
        assert r[j] in s;
      }
    }
  }

  lemma {:induction false} InsertMembers(p: Pair, s: seq<Pair>)
    ensures multiset(Insert(p, s)) == multiset(s) + multiset{p}
  {
    if s != [] && !KeyLe(p, s[0]) {
      InsertMembers(p, s[1..]);
      assert s == [s[0]] + s[1..];
    }
  }

  lemma {:induction false} InsertSorted(p: Pair, s: seq<Pair>)
    requires Sorted(s)
    ensures Sorted(Insert(p, s))
  {
    if s == [] {
    } else if KeyLe(p, s[0]) {
      forall y | y in s
        ensures KeyLe(p, y)
      {
        if y != s[0] {
          LexLeTransitive(LowerString(p.0), LowerString(s[0].0), LowerString(y.0));
        }
      }
      SortedCons(p, s);
    } else {
      LexLeTotal(LowerString(p.0), LowerString(s[0].0));
      assert Sorted(s[1..]);
      InsertSorted(p, s[1..]);
      var r := Insert(p, s[1..]);
      InsertMembers(p, s[1..]);
      forall y | y in r
        ensures KeyLe(s[0], y)
      {
        assert y in multiset(r);
        if y != p {
          assert y in multiset(s[1..]);
        }
      }
      SortedCons(s[0], r);
    }
  }

  /** `sorted` orders by lower-cased key and keeps every item, duplicates included. */
  lemma {:induction false} SortMeaning(s: seq<Pair>)
    ensures Sorted(Sort(s))
    ensures multiset(Sort(s)) == multiset(s)
  {
    if s != [] {
      SortMeaning(s[1..]);
      InsertSorted(s[0], Sort(s[1..]));
      InsertMembers(s[0], Sort(s[1..]));
      assert s == [s[0]] + s[1..];
    }
  }

  lemma SortMembers(s: seq<Pair>)
    ensures forall p :: p in Sort(s) <==> p in s
  {
    SortMeaning(s);
    forall p
      ensures p in Sort(s) <==> p in s
    {
      assert p in Sort(s) <==> p in multiset(Sort(s));
      assert p in s <==> p in multiset(s);
    }
  }

  // ---------------------------------------------------------------------
  // The parameters

  /** The items of a dictionary: no key occurs twice. */
  predicate DistinctKeys(q: seq<Pair>) {
    q == [] || ((forall p :: p in q[1..] ==> p.0 != q[0].0) && DistinctKeys(q[1..]))
  }

  lemma {:induction false} PopAllMeaning(q: seq<Pair>, keys: seq<string>)
    ensures forall p :: p in PopAll(q, keys) <==> p in q && p.0 !in keys
  {
    if keys != [] {
      PopAllMeaning(q, keys[..|keys| - 1]);
      assert keys == keys[..|keys| - 1] + [keys[|keys| - 1]];
    }
  }

  lemma {:induction false} PutMeaning(q: seq<Pair>, key: string, value: string)
    requires DistinctKeys(q)
    ensures forall p :: p in Put(q, key, value) <==> p == (key, value) || (p in q && p.0 != key)
  {
    if q != [] {
      if q[0].0 != key {
        PutMeaning(q[1..], key, value);
      }
    }
  }

  lemma {:induction false} PopKeepsDistinct(q: seq<Pair>, key: string)
    requires DistinctKeys(q)
    ensures DistinctKeys(Pop(q, key))
  {
    if q != [] {
      PopKeepsDistinct(q[1..], key);
      if q[0].0 != key {
        var r := Pop(q, key);
        assert r == [q[0]] + Pop(q[1..], key);
        assert r[1..] == Pop(q[1..], key);
        assert forall p :: p in r[1..] ==> p in q[1..];
      } else {
        assert [] + Pop(q[1..], key) == Pop(q[1..], key);
        assert Pop(q, key) == Pop(q[1..], key);
      }
    }
  }

  lemma {:induction false} PopAllKeepsDistinct(q: seq<Pair>, keys: seq<string>)
    requires DistinctKeys(q)
    ensures DistinctKeys(PopAll(q, keys))
  {
    if keys != [] {
      PopAllKeepsDistinct(q, keys[..|keys| - 1]);
      PopKeepsDistinct(PopAll(q, keys[..|keys| - 1]), keys[|keys| - 1]);
    }
  }

  /** The parameters of the normalised query, for a dictionary's items:
      sorted by lower-cased key, and exactly the given ones whose key is not
      removed, except that a given `ts` replaces any timestamp with its own.
      No removed key survives but that timestamp. */
  lemma QueryItemsMeaning(qdata: seq<Pair>, ts: Option<int>, remove: seq<string>)
    requires DistinctKeys(qdata)
    ensures Sorted(QueryItems(qdata, ts, remove))
    ensures forall p :: p in QueryItems(qdata, ts, remove) <==>
      || (p in qdata && p.0 !in remove && (ts.Some? ==> p.0 != "timestamp"))
      || (ts.Some? && p == ("timestamp", IntToString(ts.value)))
    ensures forall p :: p in QueryItems(qdata, ts, remove) && p.0 in remove ==>
      ts.Some? && p == ("timestamp", IntToString(ts.value))
  {
    var q := PopAll(qdata, remove);
    PopAllMeaning(qdata, remove);
    var stamped := if ts.Some? then Put(q, "timestamp", IntToString(ts.value)) else q;
    if ts.Some? {
      PopAllKeepsDistinct(qdata, remove);
      PutMeaning(q, "timestamp", IntToString(ts.value));
    }
    SortMeaning(stamped);
    SortMembers(stamped);
  }

  /** With no parameter left the path comes back unchanged, without `?`;
      otherwise the path is followed by `?` and the encoded parameters. A
      given timestamp always leaves a parameter. */
  lemma NormalizedQueryMeaning(path: string, qdata: seq<Pair>, ts: Option<int>, remove: seq<string>)
    ensures NormalizedQuery(path, qdata, ts, remove) == path <==> QueryItems(qdata, ts, remove) == []
    ensures QueryItems(qdata, ts, remove) != [] ==>
      NormalizedQuery(path, qdata, ts, remove) == path + "?" + UrlEncode(QueryItems(qdata, ts, remove))
    ensures ts.Some? ==> QueryItems(qdata, ts, remove) != []
  {
    if ts.Some? {
      var stamped := Put(PopAll(qdata, remove), "timestamp", IntToString(ts.value));
      PutNotEmpty(PopAll(qdata, remove), "timestamp", IntToString(ts.value));
      SortMembers(stamped);
    }
    var items := QueryItems(qdata, ts, remove);
    if items != [] {
      assert |path + "?" + UrlEncode(items)| > |path|;
    }
  }

  lemma {:induction false} PutNotEmpty(q: seq<Pair>, key: string, value: string)
    ensures (key, value) in Put(q, key, value)
  {
    if q != [] && q[0].0 != key {
      PutNotEmpty(q[1..], key, value);
    }
  }

  lemma {:induction false} PopAppend(a: seq<Pair>, b: seq<Pair>, key: string)
    ensures Pop(a + b, key) == Pop(a, key) + Pop(b, key)
  {
    if a == [] {
      assert a + b == b;
    } else {
      var ab := a + b;
      assert ab[0] == a[0];
      assert ab[1..] == a[1..] + b;
      PopAppend(a[1..], b, key);
    }
  }

  lemma {:induction false} PopAllAppend(a: seq<Pair>, b: seq<Pair>, keys: seq<string>)
    ensures PopAll(a + b, keys) == PopAll(a, keys) + PopAll(b, keys)
  {
    if keys != [] {
      var init := keys[..|keys| - 1];
      PopAllAppend(a, b, init);
      PopAppend(PopAll(a, init), PopAll(b, init), keys[|keys| - 1]);
    }
  }

  lemma PopAllGone(q: seq<Pair>, keys: seq<string>)
    requires forall p :: p in q ==> p.0 in keys
    ensures PopAll(q, keys) == []
  {
    PopAllMeaning(q, keys);
    if PopAll(q, keys) != [] {
      assert PopAll(q, keys)[0] in PopAll(q, keys);
    }
  }

  /** Parameters the normalisation removes (the client's `signature` and
      `timestamp`, by default) make no difference to the signed message,
      wherever they stand among the others. */
  lemma IgnoresRemovedParameters(path: string, a: seq<Pair>, extra: seq<Pair>, b: seq<Pair>,
                                 ts: Option<int>, remove: seq<string>)
    requires forall p :: p in extra ==> p.0 in remove
    ensures NormalizedQuery(path, a + extra + b, ts, remove) == NormalizedQuery(path, a + b, ts, remove)
  {
    PopAllAppend(a + extra, b, remove);
    PopAllAppend(a, extra, remove);
    PopAllAppend(a, b, remove);
    PopAllGone(extra, remove);
    assert PopAll(a, remove) + [] == PopAll(a, remove);
  }
}
