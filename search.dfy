/** The search box: keeps the channels whose lower-cased name contains the
    lower-cased query, in catalog order. */
module Search {
  import opened Text
  import opened Playlist

  /** `query.lower() in ch["name"].lower()`. */
  predicate Matches(c: Channel, query: string) {
    IsSubstring(Lower(query), Lower(c.name))
  }

  /** The filtered list of channels. */
  function Filter(catalog: seq<Channel>, query: string): (view: seq<Channel>)
    ensures |view| <= |catalog|
  {
    if catalog == [] then []
    else (if Matches(catalog[0], query) then [catalog[0]] else []) + Filter(catalog[1..], query)
  }

  /** `sub` is `s` with some elements left out, the rest in their order. */
  predicate IsSubsequence<T(==)>(sub: seq<T>, s: seq<T>)
    decreases |s|
  {
    if sub == [] then true
    else if s == [] then false
    else (sub[0] == s[0] && IsSubsequence(sub[1..], s[1..])) || IsSubsequence(sub, s[1..])
  }

  /** The view is a subsequence of the catalog, in catalog order. */
  lemma {:induction false} FilterIsSubsequence(catalog: seq<Channel>, query: string)
    ensures IsSubsequence(Filter(catalog, query), catalog)
  {
    if catalog != [] {
      FilterIsSubsequence(catalog[1..], query);
      if Matches(catalog[0], query) {
        assert Filter(catalog, query) == [catalog[0]] + Filter(catalog[1..], query);
        assert Filter(catalog, query)[1..] == Filter(catalog[1..], query);
      } else {
        assert Filter(catalog, query) == Filter(catalog[1..], query);
        var v := Filter(catalog[1..], query);
        if v != [] {
          assert IsSubsequence(v, catalog[1..]);
        }
      }
    }
  }

  /** A channel is in the view exactly when it is in the catalog and its name matches. */
  lemma {:induction false} FilterMembership(catalog: seq<Channel>, query: string, c: Channel)
    ensures c in Filter(catalog, query) <==> c in catalog && Matches(c, query)
  {
    if catalog != [] {
      FilterMembership(catalog[1..], query, c);
      assert catalog == [catalog[0]] + catalog[1..];
    }
  }

  /** Filtering distributes over concatenation of catalogs. */
  lemma {:induction false} FilterAppend(a: seq<Channel>, b: seq<Channel>, query: string)
    ensures Filter(a + b, query) == Filter(a, query) + Filter(b, query)
  {
    if a != [] {
      FilterAppend(a[1..], b, query);
      assert (a + b)[1..] == a[1..] + b;
    } else {
      assert a + b == b;
    }
  }

  /** The empty query keeps the whole catalog. */
  lemma {:induction false} FilterEmptyQuery(catalog: seq<Channel>)
    ensures Filter(catalog, "") == catalog
  {
    if catalog != [] {
      FilterEmptyQuery(catalog[1..]);
      assert Lower("") == [];
      assert Matches(catalog[0], "");
    }
  }

  /** Filtering the view again with the same query changes nothing. */
  lemma {:induction false} FilterIdempotent(catalog: seq<Channel>, query: string)
    ensures Filter(Filter(catalog, query), query) == Filter(catalog, query)
  {
    if catalog != [] {
      FilterIdempotent(catalog[1..], query);
      var rest := Filter(catalog[1..], query);
      if Matches(catalog[0], query) {
        var v := [catalog[0]] + rest;
        assert Filter(catalog, query) == v;
        assert v[1..] == rest;
        assert Filter(v, query) == [catalog[0]] + Filter(rest, query);
      } else {
        assert Filter(catalog, query) == [] + rest;
        assert [] + rest == rest;
      }
    }
  }

  /** A name that contains the query verbatim always matches it. */
  lemma {:induction false} MatchesVerbatim(c: Channel, query: string, i: int)
    requires OccursAt(query, c.name, i)
    ensures Matches(c, query)
  {
    var name := Lower(c.name);
    assert name[i..i + |query|] == Lower(query);
    IsSubstringAt(Lower(query), name);
    assert OccursAt(Lower(query), name, i);
  }

  /** Queries that differ only in letter case select the same channels. */
  lemma {:induction false} FilterIgnoresQueryCase(catalog: seq<Channel>, query: string, other: string)
    requires Lower(query) == Lower(other)
    ensures Filter(catalog, query) == Filter(catalog, other)
  {
    if catalog != [] {
      FilterIgnoresQueryCase(catalog[1..], query, other);
    }
  }
}
