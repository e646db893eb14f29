/** Self-similarity of the token corpus (`fuzzy`). The scorer and the
    candidate list `process.extract` returns are one abstract function
    `extract(token, corpus)` giving the scores of the returned candidates,
    in the order returned. */
module Similarity {
  import opened Results
  import opened Seqs

  /** Score the scorer gives a string matched against itself. */
  const SelfMatch: int := 100

  /** The terminal state "No CSRF protection to test". */
  datatype NoProtection = NoProtectionToTest

  /** Position of the first score equal to 100, or the length when there
      is none. */
  function FirstSelfMatch(scores: seq<int>): (k: nat)
    ensures k <= |scores|
    ensures k < |scores| ==> scores[k] == SelfMatch
    ensures forall i :: 0 <= i < k ==> scores[i] != SelfMatch
  {
    if |scores| == 0 then 0
    else if scores[0] == SelfMatch then 0
    else 1 + FirstSelfMatch(scores[1..])
  }

  /** The loop over `process.extract`'s result with the `sameTokenRemoved`
      flag: skips the first score equal to 100 and keeps the rest. */
  function DropSelfMatch(scores: seq<int>): (r: seq<int>)
    ensures |scores| - 1 <= |r| <= |scores|
    ensures forall x :: x in r ==> x in scores
  {
    if |scores| == 0 then []
    else if scores[0] == SelfMatch then scores[1..]
    else [scores[0]] + DropSelfMatch(scores[1..])
  }

  /** Slicing out position k + 1 of `[x] + t` keeps `x` in front of
      `t` with position k sliced out. */
  lemma SpliceUnderCons(x: int, t: seq<int>, k: nat)
    requires k < |t|
    ensures [x] + (t[..k] + t[k + 1..]) == ([x] + t)[..k + 1] + ([x] + t)[k + 2..]
  {
    assert ([x] + t)[..k + 1] == [x] + t[..k];
    assert ([x] + t)[k + 2..] == t[k + 1..];
  }

  /** Exactly the first 100 is removed, if there is one; every other score
      is kept, in its original order. */
  lemma {:induction false} DropSelfMatchRemovesFirst(scores: seq<int>)
    ensures var k := FirstSelfMatch(scores);
      DropSelfMatch(scores) == if k < |scores| then scores[..k] + scores[k + 1..] else scores
  {
    if |scores| > 0 && scores[0] != SelfMatch {
      var t := scores[1..];
      assert scores == [scores[0]] + t;
      DropSelfMatchRemovesFirst(t);
      var k := FirstSelfMatch(t);
      assert FirstSelfMatch(scores) == k + 1;
      assert DropSelfMatch(scores) == [scores[0]] + DropSelfMatch(t);
      if k < |t| {
        SpliceUnderCons(scores[0], t, k);
      }
    }
  }

  /** Without a 100 nothing is removed; with one, exactly one score goes. */
  lemma DropSelfMatchCount(scores: seq<int>)
    ensures SelfMatch !in scores ==> DropSelfMatch(scores) == scores
    ensures SelfMatch in scores ==> |DropSelfMatch(scores)| == |scores| - 1
  {
    DropSelfMatchRemovesFirst(scores);
    var k := FirstSelfMatch(scores);
    if SelfMatch in scores {
      var j :| 0 <= j < |scores| && scores[j] == SelfMatch;
      assert k <= j;
    }
  }

  function ToReals(s: seq<int>): (r: seq<real>)
    ensures |r| == |s|
    ensures forall i :: 0 <= i < |s| ==> r[i] == s[i] as real
  {
    seq(|s|, i requires 0 <= i < |s| => s[i] as real)
  }

  /** The mean of one token's scores against the corpus, self-match
      excluded; None where `statistics.mean` raises. */
  function TokenAverage(token: string, corpus: seq<string>,
                        extract: (string, seq<string>) -> seq<int>): (r: Option<real>)
    ensures r.None? <==> |DropSelfMatch(extract(token, corpus))| == 0
    ensures r.Some? ==>
      r.value * (|DropSelfMatch(extract(token, corpus))| as real)
      == Sum(ToReals(DropSelfMatch(extract(token, corpus))))
  {
    Mean(ToReals(DropSelfMatch(extract(token, corpus))))
  }

  /** The per-token averages of `tokens`, in order; None as soon as one is
      undefined (the exception leaves the loop). */
  function Averages(tokens: seq<string>, corpus: seq<string>,
                    extract: (string, seq<string>) -> seq<int>): (r: Option<seq<real>>)
    ensures r.None? <==> exists i :: 0 <= i < |tokens| && TokenAverage(tokens[i], corpus, extract).None?
    ensures r.Some? ==> |r.value| == |tokens|
    ensures r.Some? ==>
      forall i :: 0 <= i < |tokens| ==> TokenAverage(tokens[i], corpus, extract) == Some(r.value[i])
  {
    if |tokens| == 0 then Some([])
    else
      match TokenAverage(tokens[0], corpus, extract)
      case None => None
      case Some(a) =>
        match Averages(tokens[1..], corpus, extract)
        case None => None
        case Some(rest) => Some([a] + rest)
  }

  /** `fuzzy(tokens)`: the mean of the per-token averages. */
  function Fuzzy(tokens: seq<string>, extract: (string, seq<string>) -> seq<int>)
    : (r: Result<real, NoProtection>)
    ensures r.Err? <==>
      (|tokens| == 0 || exists i :: 0 <= i < |tokens| && DropSelfMatch(extract(tokens[i], tokens)) == [])
    ensures r.Ok? ==>
      Averages(tokens, tokens, extract).Some? && Mean(Averages(tokens, tokens, extract).value) == Some(r.value)
  {
    match Averages(tokens, tokens, extract)
    case None => Err(NoProtectionToTest)
    case Some(averages) =>
      match Mean(averages)
      case None => Err(NoProtectionToTest)
      case Some(m) => Ok(m)
  }

  /** Scores between 0 and 100 give an average between 0 and 100. */
  lemma TokenAverageIsPercentage(t: string, corpus: seq<string>,
                                 extract: (string, seq<string>) -> seq<int>)
    requires forall k :: 0 <= k < |extract(t, corpus)| ==> 0 <= extract(t, corpus)[k] <= 100
    ensures TokenAverage(t, corpus, extract).Some? ==>
      0.0 <= TokenAverage(t, corpus, extract).value <= 100.0
  {
    var kept := DropSelfMatch(extract(t, corpus));
    if |kept| > 0 {
      forall k | 0 <= k < |kept| ensures 0 <= kept[k] <= 100 {
        assert kept[k] in kept;
      }
      MeanBounds(ToReals(kept), 0.0, 100.0);
    }
  }

  /** The similarity is a percentage when the scorer's scores are. */
  lemma FuzzyIsPercentage(tokens: seq<string>, extract: (string, seq<string>) -> seq<int>)
    requires forall i, k ::
      0 <= i < |tokens| && 0 <= k < |extract(tokens[i], tokens)| ==> 0 <= extract(tokens[i], tokens)[k] <= 100
    ensures Fuzzy(tokens, extract).Ok? ==> 0.0 <= Fuzzy(tokens, extract).value <= 100.0
  {
    if Fuzzy(tokens, extract).Ok? {
      var averages := Averages(tokens, tokens, extract).value;
      forall i | 0 <= i < |averages| ensures 0.0 <= averages[i] <= 100.0 {
        TokenAverageIsPercentage(tokens[i], tokens, extract);
      }
      MeanBounds(averages, 0.0, 100.0);
    }
  }

  /** A single-token corpus: the scorer returns at most one candidate, the
      token itself with score 100; once it is dropped nothing is left to
      average, and the pipeline stops. */
  lemma SingleTokenHasNoProtection(t: string, extract: (string, seq<string>) -> seq<int>)
    requires |extract(t, [t])| <= 1
    requires SelfMatch in extract(t, [t])
    ensures Fuzzy([t], extract) == Err(NoProtectionToTest)
  {
  }

  /** Identical tokens: every candidate scores 100 and at least two are
      returned, so every average, and the similarity, is 100. */
  lemma IdenticalTokensAreFullySimilar(tokens: seq<string>, extract: (string, seq<string>) -> seq<int>)
    requires |tokens| >= 1
    requires forall i :: 0 <= i < |tokens| ==> tokens[i] == tokens[0]
    requires |extract(tokens[0], tokens)| >= 2
    requires forall k :: 0 <= k < |extract(tokens[0], tokens)| ==> extract(tokens[0], tokens)[k] == 100
    ensures Fuzzy(tokens, extract) == Ok(100.0)
  {
    var scores := extract(tokens[0], tokens);
    var kept := DropSelfMatch(scores);
    assert scores[0] == SelfMatch;
    assert kept == scores[1..];
    MeanOfConstant(ToReals(kept), 100.0);
    var averages := Averages(tokens, tokens, extract).value;
    MeanOfConstant(averages, 100.0);
  }
}
