/** Replay detection over the crawled (url, token) observations. */
module Replay {
  import opened Seqs

  /** One token observed in a form on one page. */
  datatype Observation = Observation(url: string, token: string)

  /** Two observations carry the same token on different pages. */
  predicate SharedAcrossUrls(a: Observation, b: Observation)
  {
    a.token == b.token && a.url != b.url
  }

  /** The inner loop for one observation `a`: the (url, url2) pair reported
      for every observation of `db`, in order, that shares `a`'s token on
      another page. */
  function Row(a: Observation, db: seq<Observation>): (r: seq<(string, string)>)
    ensures forall p :: p in r ==>
      exists o :: o in db && SharedAcrossUrls(a, o) && p == (a.url, o.url)
    ensures forall o :: o in db && SharedAcrossUrls(a, o) ==> (a.url, o.url) in r
    ensures |r| <= |db|
  {
    if |db| == 0 then []
    else
      (if SharedAcrossUrls(a, db[0]) then [(a.url, db[0].url)] else [])
      + Row(a, db[1..])
  }

  /** Both loops: every ordered pair of observations, both orderings,
      repeats kept, in loop order. */
  function Scan(outer: seq<Observation>, db: seq<Observation>): (r: seq<(string, string)>)
    ensures forall p :: p in r ==>
      exists a, o :: a in outer && o in db && SharedAcrossUrls(a, o) && p == (a.url, o.url)
    ensures forall a, o :: a in outer && o in db && SharedAcrossUrls(a, o) ==> (a.url, o.url) in r
  {
    if |outer| == 0 then []
    else Row(outer[0], db) + Scan(outer[1..], db)
  }

  /** Some two observations of `db` reveal replay. */
  predicate ReplayIn(db: seq<Observation>)
  {
    exists i, j :: 0 <= i < |db| && 0 <= j < |db| && SharedAcrossUrls(db[i], db[j])
  }

  /** The scan reports something exactly when some pair reveals replay. */
  lemma ScanFindsReplay(db: seq<Observation>)
    ensures |Scan(db, db)| > 0 <==> ReplayIn(db)
  {
    var r := Scan(db, db);
    if |r| > 0 {
      assert r[0] in r;
      var a, o :| a in db && o in db && SharedAcrossUrls(a, o) && r[0] == (a.url, o.url);
      var i :| 0 <= i < |db| && db[i] == a;
      var j :| 0 <= j < |db| && db[j] == o;
      assert SharedAcrossUrls(db[i], db[j]);
    }
    if ReplayIn(db) {
      var i, j :| 0 <= i < |db| && 0 <= j < |db| && SharedAcrossUrls(db[i], db[j]);
      assert (db[i].url, db[j].url) in r;
    }
  }

  /** Every reported pair is also reported the other way round. */
  lemma ScanIsSymmetric(db: seq<Observation>)
    ensures forall p :: p in Scan(db, db) ==> (p.1, p.0) in Scan(db, db)
  {
    forall p | p in Scan(db, db) ensures (p.1, p.0) in Scan(db, db) {
      var a, o :| a in db && o in db && SharedAcrossUrls(a, o) && p == (a.url, o.url);
      assert SharedAcrossUrls(o, a);
    }
  }

  /** What the comparing phase concludes. */
  datatype ReplayOutcome =
    | NoDuplicates                                   // every token value distinct
    | Replayed(pairs: seq<(string, string)>)         // reported (url, url2) pairs
    | FalsePositive                                  // duplicates, but only within a page

  /** The comparing phase: the pair scan runs only when `tokens` has fewer
      distinct values than entries. */
  function CheckReplay(tokens: seq<string>, db: seq<Observation>): (r: ReplayOutcome)
    ensures r.NoDuplicates? <==> !HasDuplicate(tokens)
    ensures r.Replayed? <==> HasDuplicate(tokens) && ReplayIn(db)
    ensures r.FalsePositive? <==> HasDuplicate(tokens) && !ReplayIn(db)
    ensures r.Replayed? ==> |r.pairs| > 0 && r.pairs == Scan(db, db)
  {
    FewerDistinctIffDuplicate(tokens);
    ScanFindsReplay(db);
    if |Distinct(tokens)| < |tokens| then
      var pairs := Scan(db, db);
      if |pairs| > 0 then Replayed(pairs) else FalsePositive
    else NoDuplicates
  }

  /** The flat token list of a corpus, in observation order. */
  function TokensOf(db: seq<Observation>): (r: seq<string>)
    ensures |r| == |db|
    ensures forall i :: 0 <= i < |db| ==> r[i] == db[i].token
  {
    seq(|db|, i requires 0 <= i < |db| => db[i].token)
  }

  /** Duplicated tokens that never leave their page are a false positive. */
  lemma SamePageDuplicatesAreFalsePositive(db: seq<Observation>)
    requires HasDuplicate(TokensOf(db))
    requires forall i, j ::
      0 <= i < |db| && 0 <= j < |db| && db[i].token == db[j].token ==> db[i].url == db[j].url
    ensures CheckReplay(TokensOf(db), db) == FalsePositive
  {
  }

  /** The unordered url pairs a list of reported pairs names. */
  function UrlPairs(pairs: seq<(string, string)>): set<set<string>>
  {
    set k | 0 <= k < |pairs| :: {pairs[k].0, pairs[k].1}
  }

  /** Row of one observation against a three-observation corpus. */
  lemma {:induction false} RowOfThree(a: Observation, db: seq<Observation>)
    requires |db| == 3
    ensures Row(a, db) ==
      (if SharedAcrossUrls(a, db[0]) then [(a.url, db[0].url)] else [])
      + (if SharedAcrossUrls(a, db[1]) then [(a.url, db[1].url)] else [])
      + (if SharedAcrossUrls(a, db[2]) then [(a.url, db[2].url)] else [])
  {
    var s2 := db[2..];
    var s1 := db[1..];
    assert s2[1..] == [];
    assert Row(a, s2) == (if SharedAcrossUrls(a, db[2]) then [(a.url, db[2].url)] else []) + Row(a, []);
    assert s1[1..] == s2;
  }

  /** The scan over a three-observation corpus is its three rows. */
  lemma {:induction false} ScanOfThree(db: seq<Observation>)
    requires |db| == 3
    ensures Scan(db, db) == Row(db[0], db) + Row(db[1], db) + Row(db[2], db)
  {
    var s2 := db[2..];
    var s1 := db[1..];
    assert s2[1..] == [];
    assert Scan(s2, db) == Row(db[2], db);
    assert s1[1..] == s2;
    assert Scan(s1, db) == Row(db[1], db) + Row(db[2], db);
    assert db[1..] == s1;
    assert Scan(db, db) == Row(db[0], db) + (Row(db[1], db) + Row(db[2], db));
  }

  /** The pairs reported for [(A,T), (B,T), (A,T)]: both orderings, the
      (B, A) pair twice since B meets two observations on A. */
  lemma ExampleScan()
    ensures var db := [Observation("A", "T"), Observation("B", "T"), Observation("A", "T")];
      Scan(db, db) == [("A", "B"), ("B", "A"), ("B", "A"), ("A", "B")]
  {
    var a, b := Observation("A", "T"), Observation("B", "T");
    var db := [a, b, a];
    assert "A" != "B" by { assert "A"[0] != "B"[0]; }
    assert !SharedAcrossUrls(a, a) && SharedAcrossUrls(a, b);
    assert !SharedAcrossUrls(b, b) && SharedAcrossUrls(b, a);
    RowOfThree(a, db);
    RowOfThree(b, db);
    assert Row(a, db) == [("A", "B")];
    assert Row(b, db) == [("B", "A"), ("B", "A")];
    ScanOfThree(db);
  }

  /** Those four ordered pairs name the single unordered pair {A, B}. */
  lemma ExampleUrlPairs()
    ensures UrlPairs([("A", "B"), ("B", "A"), ("B", "A"), ("A", "B")]) == {{"A", "B"}}
  {
    var pairs := [("A", "B"), ("B", "A"), ("B", "A"), ("A", "B")];
    forall k | 0 <= k < |pairs| ensures {pairs[k].0, pairs[k].1} == {"A", "B"} {
    }
    assert {pairs[0].0, pairs[0].1} in UrlPairs(pairs);
  }

  /** [(A,T), (B,T), (A,T)]: the pair {A, B} is reported, and nothing else. */
  lemma ReplayExample()
    ensures var db := [Observation("A", "T"), Observation("B", "T"), Observation("A", "T")];
      var r := CheckReplay(TokensOf(db), db);
      r.Replayed? && r.pairs == [("A", "B"), ("B", "A"), ("B", "A"), ("A", "B")]
      && UrlPairs(r.pairs) == {{"A", "B"}}
  {
    var db := [Observation("A", "T"), Observation("B", "T"), Observation("A", "T")];
    assert TokensOf(db)[0] == TokensOf(db)[1];
    ExampleScan();
    ExampleUrlPairs();
  }

  /** [(A,T), (A,T)]: a duplicate on one page only is a false positive. */
  lemma FalsePositiveExample()
    ensures var db := [Observation("A", "T"), Observation("A", "T")];
      CheckReplay(TokensOf(db), db) == FalsePositive
  {
    var db := [Observation("A", "T"), Observation("A", "T")];
    assert TokensOf(db)[0] == TokensOf(db)[1];
  }
}
