/**
 * The two review listings of backend/app/routes/reviews.py: newest first
 * (ORDER BY created_at DESC) and a window of OFFSET skip LIMIT limit.
 * Rows with equal timestamps keep the order they have in the store.
 */
module ReviewListing {
  import opened ReviewRecord

  ghost predicate NewestFirstOrder(rs: seq<Review>)
  {
    forall i, j :: 0 <= i < j < |rs| ==> rs[i].createdAt >= rs[j].createdAt
  }

  /** Place r in front of the first row that is not newer than it. */
  function Insert(r: Review, rs: seq<Review>): (s: seq<Review>)
    requires NewestFirstOrder(rs)
    ensures NewestFirstOrder(s)
    ensures multiset(s) == multiset(rs) + multiset{r}
  {
    if rs == [] || r.createdAt >= rs[0].createdAt then
      ConsKeepsOrder(r, rs);
      [r] + rs
    else
      var tail := Insert(r, rs[1..]);
      assert rs == [rs[0]] + rs[1..];
      forall x | x in tail ensures x.createdAt <= rs[0].createdAt {
        assert x in multiset(tail);
        assert x == r || x in multiset(rs[1..]);
      }
      ConsKeepsOrder(rs[0], tail);
      [rs[0]] + tail
  }

  /** A row no older than every row of a newest-first list can go in front of it. */
  lemma ConsKeepsOrder(h: Review, t: seq<Review>)
    requires NewestFirstOrder(t)
    requires forall x :: x in t ==> x.createdAt <= h.createdAt
    ensures NewestFirstOrder([h] + t)
  {
    var s := [h] + t;
    forall i, j | 0 <= i < j < |s| ensures s[i].createdAt >= s[j].createdAt {
      assert s[j] == t[j - 1];
      if i > 0 {
        assert s[i] == t[i - 1];
      }
    }
  }

  /** The rows sorted newest first. */
  function NewestFirst(rs: seq<Review>): (s: seq<Review>)
    ensures NewestFirstOrder(s)
    ensures multiset(s) == multiset(rs)
  {
    if rs == [] then []
    else
      assert rs == [rs[0]] + rs[1..];
      Insert(rs[0], NewestFirst(rs[1..]))
  }

  /** OFFSET skip LIMIT limit: the rows from position skip on, at most limit of them. */
  function Page(rs: seq<Review>, skip: nat, limit: nat): (s: seq<Review>)
    ensures |s| == if skip >= |rs| then 0 else if limit < |rs| - skip then limit else |rs| - skip
    ensures forall k :: 0 <= k < |s| ==> s[k] == rs[skip + k]
  {
    if skip >= |rs| then []
    else if limit < |rs| - skip then rs[skip..skip + limit]
    else rs[skip..]
  }

  /** A window of a newest-first list is itself newest first. */
  lemma PageKeepsOrder(rs: seq<Review>, skip: nat, limit: nat)
    requires NewestFirstOrder(rs)
    ensures NewestFirstOrder(Page(rs, skip, limit))
  {
    var s := Page(rs, skip, limit);
    forall i, j | 0 <= i < j < |s| ensures s[i].createdAt >= s[j].createdAt {
      assert s[i] == rs[skip + i] && s[j] == rs[skip + j];
    }
  }

  /**
   * A page of the newest-first listing: newest first, drawn from the rows,
   * of the window's length, and the whole listing when the window covers it.
   */
  lemma ListingPage(rs: seq<Review>, skip: nat, limit: nat)
    ensures var p := Page(NewestFirst(rs), skip, limit);
      && NewestFirstOrder(p)
      && (forall x :: x in p ==> x in rs)
      && |p| == (if skip >= |rs| then 0 else if limit < |rs| - skip then limit else |rs| - skip)
      && (skip == 0 && limit >= |rs| ==> multiset(p) == multiset(rs))
  {
    var sorted := NewestFirst(rs);
    assert |sorted| == |rs| by {
      assert |multiset(sorted)| == |multiset(rs)|;
    }
    var p := Page(sorted, skip, limit);
    PageKeepsOrder(sorted, skip, limit);
    forall x | x in p ensures x in rs {
      assert x in multiset(sorted);
    }
    assert skip == 0 && limit >= |sorted| ==> p == sorted;
  }
}
