/** The race probe: token-like values collected from thirty simultaneous
    responses, the verdict on them, and the search for a seed observation
    whose URL is probed. */
module Race {
  import opened Results
  import opened Seqs
  import opened Replay

  /** Number of simultaneous requests made to the seed URL. */
  const Workers: nat := 30

  /** A value must carry more than this much estimated entropy. */
  const EntropyThreshold: real := 10.0

  /** `[\w\-_]`, with `\w` taken as ASCII letters, digits and underscore. */
  predicate IsTokenChar(c: char)
  {
    ('a' <= c <= 'z') || ('A' <= c <= 'Z') || ('0' <= c <= '9') || c == '_' || c == '-'
  }

  /** Length of the part of `v` that `[\w\-_]+` must fill: `$` also
      matches just before a final newline, which is left out. */
  function PatternSpan(v: string): nat
  {
    if |v| > 0 && v[|v| - 1] == '\n' then |v| - 1 else |v|
  }

  /** `re.match(r'^[\w\-_]+$', v)`: one or more token characters, then
      the end of the value or a final newline. */
  predicate MatchesTokenPattern(v: string)
  {
    PatternSpan(v) > 0 && forall i :: 0 <= i < PatternSpan(v) ==> IsTokenChar(v[i])
  }

  /** An input value collected as a token: non-empty, matching the token
      pattern, entropy above the threshold. `entropy` is the helper of the
      same name, abstract here. */
  predicate Qualifies(v: string, entropy: string -> real)
    ensures Qualifies(v, entropy) ==> |v| > 0 && IsTokenChar(v[0])
    ensures Qualifies(v, entropy) ==>
      forall i :: 0 <= i < |v| && !IsTokenChar(v[i]) ==> i == |v| - 1 && v[i] == '\n'
  {
    |v| > 0 && MatchesTokenPattern(v) && entropy(v) > EntropyThreshold
  }

  /** A token followed by one newline still matches; two newlines, or a
      newline alone, do not. */
  lemma TrailingNewlineQualifies(entropy: string -> real)
    requires entropy("a1b2c3\n") > EntropyThreshold
    ensures Qualifies("a1b2c3\n", entropy)
    ensures !MatchesTokenPattern("a1b2c3\n\n") && !MatchesTokenPattern("\n")
  {
    assert !IsTokenChar("a1b2c3\n\n"[6]);
  }

  /** The values of one response's form inputs that qualify, in order. */
  function Collect(values: seq<string>, entropy: string -> real): (r: seq<string>)
    ensures forall v :: v in r ==> Qualifies(v, entropy)
    ensures forall v :: v in values && Qualifies(v, entropy) ==> v in r
    ensures forall v {:trigger multiset(r)[v]} ::
      multiset(r)[v] == if Qualifies(v, entropy) then multiset(values)[v] else 0
  {
    if |values| == 0 then []
    else
      assert values == [values[0]] + values[1..];
      (if Qualifies(values[0], entropy) then [values[0]] else [])
      + Collect(values[1..], entropy)
  }

  /** Collecting splits over concatenated inputs. */
  lemma {:induction false} CollectAppend(a: seq<string>, b: seq<string>, entropy: string -> real)
    ensures Collect(a + b, entropy) == Collect(a, entropy) + Collect(b, entropy)
  {
    if |a| > 0 {
      CollectAppend(a[1..], b, entropy);
      assert (a + b)[1..] == a[1..] + b;
    } else {
      assert a + b == b;
    }
  }

  function Flatten(responses: seq<seq<string>>): seq<string>
  {
    if |responses| == 0 then [] else responses[0] + Flatten(responses[1..])
  }

  /** Each worker returns its own collected values and they are merged in
      worker order. */
  function Harvest(responses: seq<seq<string>>, entropy: string -> real): (r: seq<string>)
    ensures forall v :: v in r ==> Qualifies(v, entropy)
  {
    if |responses| == 0 then [] else Collect(responses[0], entropy) + Harvest(responses[1..], entropy)
  }

  /** Merging the workers' results equals collecting over all responses'
      values at once. */
  lemma {:induction false} HarvestIsCollectOfAll(responses: seq<seq<string>>, entropy: string -> real)
    ensures Harvest(responses, entropy) == Collect(Flatten(responses), entropy)
  {
    if |responses| > 0 {
      HarvestIsCollectOfAll(responses[1..], entropy);
      CollectAppend(responses[0], Flatten(responses[1..]), entropy);
    }
  }

  /** What the observing phase reports. */
  datatype RaceOutcome =
    | SameTokens                 // some value was issued twice
    | Listed(values: seq<string>) // values collected, all distinct: printed as they are
    | DifferentTokens            // nothing was collected

  function RaceVerdict(collected: seq<string>): (r: RaceOutcome)
    ensures r == SameTokens <==> HasDuplicate(collected)
    ensures r == DifferentTokens <==> |collected| == 0
    ensures r.Listed? ==> r.values == collected && |collected| > 0 && !HasDuplicate(collected)
  {
    FewerDistinctIffDuplicate(collected);
    if |collected| > 0 then
      if |Distinct(collected)| < |collected| then SameTokens else Listed(collected)
    else DifferentTokens
  }

  /** The verdict does not depend on the order in which workers finished. */
  lemma RaceVerdictIgnoresOrder(a: seq<string>, b: seq<string>)
    requires multiset(a) == multiset(b)
    ensures RaceVerdict(a).SameTokens? <==> RaceVerdict(b).SameTokens?
    ensures RaceVerdict(a).DifferentTokens? <==> RaceVerdict(b).DifferentTokens?
  {
    DuplicateIgnoresOrder(a, b);
    assert |a| == |multiset(a)| == |multiset(b)| == |b|;
  }

  /** Every harvested value qualifies and is an input value of some
      response; every qualifying input value of every response is
      harvested. */
  lemma {:induction false} HarvestSound(responses: seq<seq<string>>, entropy: string -> real)
    ensures forall v :: v in Harvest(responses, entropy) ==>
      Qualifies(v, entropy) && exists k :: 0 <= k < |responses| && v in responses[k]
    ensures forall k, v :: 0 <= k < |responses| && v in responses[k] && Qualifies(v, entropy) ==>
      v in Harvest(responses, entropy)
  {
    if |responses| > 0 {
      HarvestSound(responses[1..], entropy);
      forall v | v in Harvest(responses, entropy)
        ensures exists k :: 0 <= k < |responses| && v in responses[k]
      {
        if v in Collect(responses[0], entropy) {
          assert v in multiset(Collect(responses[0], entropy));
          assert v in multiset(responses[0]);
        } else {
          var k :| 0 <= k < |responses[1..]| && v in responses[1..][k];
          assert v in responses[k + 1];
        }
      }
      forall k, v | 0 <= k < |responses| && v in responses[k] && Qualifies(v, entropy)
        ensures v in Harvest(responses, entropy)
      {
        if k > 0 {
          assert v in responses[1..][k - 1];
        }
      }
    }
  }

  /** The observing phase: the values collected from the thirty
      responses, judged together. `SameTokens` exactly when some value was
      collected twice; `DifferentTokens` exactly when nothing was collected,
      which `HarvestEmpty` relates to the responses. */
  function Observe(responses: seq<seq<string>>, entropy: string -> real): (r: RaceOutcome)
    requires |responses| == Workers
    ensures r == SameTokens <==> HasDuplicate(Harvest(responses, entropy))
    ensures r == DifferentTokens <==> |Harvest(responses, entropy)| == 0
    ensures r.Listed? ==> r.values == Harvest(responses, entropy)
  {
    RaceVerdict(Harvest(responses, entropy))
  }

  /** Nothing is harvested exactly when no response carries a qualifying
      value. */
  lemma HarvestEmpty(responses: seq<seq<string>>, entropy: string -> real)
    ensures |Harvest(responses, entropy)| == 0 <==>
      forall k, v :: 0 <= k < |responses| && v in responses[k] ==> !Qualifies(v, entropy)
  {
    HarvestSound(responses, entropy);
    var collected := Harvest(responses, entropy);
    assert |collected| > 0 ==> collected[0] in collected;
  }

  /** What one worker as written leaves behind: the values it appended to
      the shared list, and whether it died with NameError. */
  datatype WorkerRun = WorkerRun(appended: seq<string>, raisedNameError: bool)

  /** One worker as written: the filter calls a `match` that is never
      imported. Empty values are skipped by the `value and ...` test; the
      first non-empty value evaluates `match` and raises NameError, which
      ends the worker before anything is appended. */
  function CollectAsWritten(values: seq<string>): (r: WorkerRun)
    ensures r.raisedNameError <==> exists i :: 0 <= i < |values| && |values[i]| > 0
    ensures r.appended == []
  {
    if |values| == 0 then WorkerRun([], false)
    else if |values[0]| > 0 then WorkerRun([], true)   // NameError: the worker stops
    else CollectAsWritten(values[1..])
  }

  /** The shared list after all workers as written: the pool never reads
      the workers' exceptions, so the list is whatever they appended, which
      is nothing. */
  function HarvestAsWritten(responses: seq<seq<string>>): (r: seq<string>)
    ensures r == []
  {
    if |responses| == 0 then []
    else CollectAsWritten(responses[0]).appended + HarvestAsWritten(responses[1..])
  }

  /** As written the observing phase always reports different tokens,
      whatever the server issues. */
  lemma AsWrittenAlwaysDifferent(responses: seq<seq<string>>)
    ensures RaceVerdict(HarvestAsWritten(responses)) == DifferentTokens
  {
  }

  /** A value sits twice in the collection exactly when it qualifies and
      sits twice in the input. */
  lemma CollectRepeatedValue(values: seq<string>, entropy: string -> real, v: string)
    ensures Repeated(Collect(values, entropy), v) <==> Qualifies(v, entropy) && Repeated(values, v)
  {
    var r := Collect(values, entropy);
    assert multiset(r)[v] == if Qualifies(v, entropy) then multiset(values)[v] else 0;
    CountAtLeastTwoIffRepeated(r, v);
    CountAtLeastTwoIffRepeated(values, v);
  }

  /** The values of one collection repeat exactly where a qualifying value
      repeats in the input. */
  lemma CollectRepeats(values: seq<string>, entropy: string -> real)
    ensures HasDuplicate(Collect(values, entropy)) <==>
      exists i, j :: 0 <= i < j < |values| && values[i] == values[j] && Qualifies(values[i], entropy)
  {
    var r := Collect(values, entropy);
    if HasDuplicate(r) {
      var i, j :| 0 <= i < j < |r| && r[i] == r[j];
      CollectRepeatedValue(values, entropy, r[i]);
      var i', j' :| 0 <= i' < j' < |values| && values[i'] == r[i] && values[j'] == r[i];
      assert values[i'] == values[j'] && Qualifies(values[i'], entropy);
    }
    if exists i, j :: 0 <= i < j < |values| && values[i] == values[j] && Qualifies(values[i], entropy) {
      var i, j :| 0 <= i < j < |values| && values[i] == values[j] && Qualifies(values[i], entropy);
      CollectRepeatedValue(values, entropy, values[i]);
      var i', j' :| 0 <= i' < j' < |r| && r[i'] == values[i] && r[j'] == values[i];
      assert r[i'] == r[j'];
    }
  }

  /** The harvest has a repeat exactly when some qualifying value occurs at
      two positions of the responses' values taken together, in the same
      response or in different ones. */
  lemma HarvestRepeats(responses: seq<seq<string>>, entropy: string -> real)
    ensures HasDuplicate(Harvest(responses, entropy)) <==>
      exists i, j :: 0 <= i < j < |Flatten(responses)|
        && Flatten(responses)[i] == Flatten(responses)[j] && Qualifies(Flatten(responses)[i], entropy)
  {
    HarvestIsCollectOfAll(responses, entropy);
    CollectRepeats(Flatten(responses), entropy);
  }

  /** Thirty responses that all carry the same high-entropy token: the
      intended filter reports the shared token, the code as written reports
      different tokens. */
  lemma SharedTokenMissedAsWritten()
    ensures var responses := seq(Workers, k => ["a1b2c3"]);
      var entropy := (v: string) => 11.0;
      Observe(responses, entropy) == SameTokens
      && RaceVerdict(HarvestAsWritten(responses)) == DifferentTokens
  {
    var responses := seq(Workers, k => ["a1b2c3"]);
    var entropy := (v: string) => 11.0;
    assert "a1b2c3"[..6] == "a1b2c3";
    assert Qualifies("a1b2c3", entropy);
    var tail := responses[1..];
    assert tail[0] == ["a1b2c3"];
    assert Flatten(tail) == ["a1b2c3"] + Flatten(tail[1..]);
    assert Flatten(responses) == ["a1b2c3"] + Flatten(tail);
    assert Flatten(responses)[0] == Flatten(responses)[1] == "a1b2c3";
    HarvestRepeats(responses, entropy);
  }

  /** The seed search found no observation with a non-empty token. */
  datatype SeedError = NoUsableToken

  /** The seed-token search, bounded: `draws` are the successive random
      picks (indices into `db`), tried in order until one names an
      observation with a non-empty token. */
  method FindSeed(db: seq<Observation>, draws: seq<nat>) returns (r: Result<Observation, SeedError>)
    requires forall k :: 0 <= k < |draws| ==> draws[k] < |db|
    ensures r.Ok? ==> |r.value.token| > 0
    ensures r.Ok? ==> exists k ::
      0 <= k < |draws| && db[draws[k]] == r.value && forall j :: 0 <= j < k ==> |db[draws[j]].token| == 0
    ensures r.Err? <==> forall k :: 0 <= k < |draws| ==> |db[draws[k]].token| == 0
  {
    var k := 0;
    while k < |draws|
      invariant 0 <= k <= |draws|
      invariant forall j :: 0 <= j < k ==> |db[draws[j]].token| == 0
    {
      var sample := db[draws[k]];
      if |sample.token| > 0 {
        return Ok(sample);
      }
      k := k + 1;
    }
    return Err(NoUsableToken);
  }
}
