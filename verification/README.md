# Bolt CSRF audit — verified decision core

Bolt audits a web application's anti-CSRF tokens. After crawling, it
compares the collected tokens with each other (similarity, replay, hash
fingerprint). It then fires thirty simultaneous requests to see whether
fresh tokens are shared. Finally it replays one form with the token
removed, cleared and forged, and compares each response with a baseline.
This project models the pure decision logic of `bolt.py` in Dafny, with
the external oracles as parameters:

- `Bypass`: the baseline tolerance, the three-way verdict of a trial
  (`Bypassed | Protected | Inconclusive`), and the line the source prints.
- `Decimal`: Python's `str(int)`, needed for the test "the status code's
  first character is 4 or 5".
- `Replay`: `(url, token)` observations, the double loop over all ordered
  pairs, and the three-way outcome of the comparing phase.
- `Similarity`: `fuzzy`. The abstract `extract(token, corpus)` stands for
  `process.extract` with `fuzz.partial_ratio`. The first self-match is
  dropped, and the per-token and overall means are exact `real` means.
  "No CSRF protection to test" is an explicit error value.
- `Fingerprint`: the hash-signature walk. `re.match` is an abstract
  predicate.
- `Race`: the token filter, with `entropy` abstract. Also the merge of the
  thirty workers' results, the race verdict, and a bounded seed-token
  search.
- `Seqs`: distinct counts (`len(set(xs)) < len(xs)` holds exactly when
  there is a duplicate) and means. `Results`: `Option`/`Result`.

The three bypass blocks (remove, clear, forge) share one rule, `Judge`.
Where the source prints nothing (same status, healthy baseline, length
outside the tolerance), the model returns `Inconclusive`. `Printed`
models the source's nesting as written, and `JudgeMatchesPrinted` shows
the two agree.

## Model

| member | source | states |
|---|---|---|
| `Bypass.Tolerance` | bolt.py:203-210 | tolerance is the absolute difference of the two control lengths, and 0 exactly when they are equal |
| `Bypass.ToleranceSymmetric` | bolt.py:205-210 | the tolerance does not depend on which control response came first |
| `Bypass.MeasureBaseline` | bolt.py:197-210 | the baseline keeps the first response's status and length, with tolerance \|len1 − len2\| |
| `Bypass.IsErrorStatus` | bolt.py:226 | the first character of str(code) is 4 or 5 exactly when the code is non-negative and its most significant digit is 4 or 5 |
| `Bypass.ErrorStatusIsFourOrFiveHundred` | bolt.py:226 | for three-digit codes, "first character of str(code) is 4 or 5" means 400 ≤ code < 600 |
| `Bypass.Judge` | bolt.py:225-233 | a changed status or a 4/5-leading baseline is never bypassed; otherwise bypassed iff \|len0 − len1\| ≤ tolerance, inconclusive iff greater; the three outcomes are exhaustive and exclusive |
| `Bypass.JudgeMatchesPrinted` | bolt.py:225-233 | "It worked!" iff Bypassed, "It didn't work" iff Protected, no line iff Inconclusive |
| `Bypass.JudgeAll` | bolt.py:222-259 | remove, clear and forge are judged in that order, each by the one rule `Judge` against the same baseline, and none is bypassed against an error-class baseline |
| `Bypass.Printed` | bolt.py:225-233 | the source's nested printing: a changed status prints "It didn't work"; "It worked!" only with equal status and difference within tolerance; silence only with equal status and difference beyond it |
| `Bypass.ControlResponseIsBypassed` | bolt.py:197-231 | on a healthy endpoint, either control response replayed as a trial is judged bypassed |
| `Bypass.LargerToleranceKeepsBypass` | bolt.py:229-231 | a wider tolerance never withdraws a bypass verdict |
| `Bypass.VerdictTable` | bolt.py:225-233 | 200/500 vs 200/500 at tolerance 0 is bypassed; 501 is inconclusive; a 403 baseline or a 302 trial is protected; 600 at tolerance 5 is inconclusive |
| `Decimal.Digits` | bolt.py:226 | the decimal form is non-empty, all digits, with no leading zero |
| `Decimal.Str` | bolt.py:226 | str(n) is non-empty and starts with '-' exactly for negative n |
| `Decimal.ValueOfDigits` | bolt.py:226 | reading the decimal form back gives the number |
| `Decimal.FirstCharOfStr` | bolt.py:226 | the first character of str(n) is its most significant digit, or '-' |
| `Decimal.ThreeDigitLeading` | bolt.py:226 | a three-digit code's leading digit is its hundreds digit |
| `Seqs.FewerDistinctIffDuplicate` | bolt.py:101-102 | len(set(s)) < len(s) exactly when two positions hold equal values |
| `Seqs.CountAtLeastTwoIffRepeated` | bolt.py:167 | a value occurs at least twice in a list exactly when two positions hold it |
| `Seqs.DuplicateIgnoresOrder` | bolt.py:167 | reordering a list does not change whether it has a duplicate |
| `Seqs.Mean` | bolt.py:126-128 | the mean is undefined exactly on an empty list; otherwise mean × length = sum |
| `Seqs.MeanBounds` | bolt.py:126-128 | a mean lies between any lower and upper bound of its samples |
| `Seqs.MeanOfConstant` | bolt.py:126-128 | the mean of equal samples is that sample |
| `Replay.Row` | bolt.py:107-110 | for one observation, every reported pair comes from an observation sharing its token on another URL, and every such observation is reported |
| `Replay.Scan` | bolt.py:106-110 | the double loop reports exactly the ordered (url, url2) pairs of observations with equal tokens and different URLs |
| `Replay.ScanFindsReplay` | bolt.py:105-110 | replay is set exactly when some two observations share a token across URLs |
| `Replay.ScanIsSymmetric` | bolt.py:106-108 | both orderings of every reported pair are reported |
| `Replay.CheckReplay` | bolt.py:101-112 | no duplicates iff all tokens distinct; replay iff duplicates and a cross-URL pair, and then the reported pairs are exactly those of the double loop; false positive iff duplicates but no cross-URL pair |
| `Replay.SamePageDuplicatesAreFalsePositive` | bolt.py:101-112 | duplicates that occur only within one URL give the false-positive branch |
| `Replay.ReplayExample` | bolt.py:101-110 | [(A,T),(B,T),(A,T)] reports (A,B),(B,A),(B,A),(A,B), i.e. the single unordered pair {A,B} |
| `Replay.FalsePositiveExample` | bolt.py:101-112 | [(A,T),(A,T)] is a false positive |
| `Similarity.FirstSelfMatch` | bolt.py:120-124 | the index found holds 100 and no earlier score is 100 |
| `Similarity.DropSelfMatch` | bolt.py:117-125 | at most one score is removed, and every kept score was in the list |
| `Similarity.DropSelfMatchRemovesFirst` | bolt.py:117-125 | exactly the first 100 is removed; all other scores are kept in order; without a 100 nothing is removed |
| `Similarity.DropSelfMatchCount` | bolt.py:117-125 | with a 100 exactly one score goes; without one the list is unchanged |
| `Similarity.TokenAverage` | bolt.py:118-126 | one token's average is undefined exactly when no score is left after dropping its self-match; otherwise average × kept count = sum of kept scores |
| `Similarity.Averages` | bolt.py:115-127 | the per-token averages are defined for every token, in token order, or undefined as soon as one token's kept list is empty |
| `Similarity.Fuzzy` | bolt.py:114-135 | "No CSRF protection to test" exactly when the corpus is empty or some token has no score left after dropping its self-match; otherwise the similarity is the mean of the per-token averages |
| `Similarity.TokenAverageIsPercentage` | bolt.py:118-126 | scores in 0..100 give a per-token average in 0..100 |
| `Similarity.FuzzyIsPercentage` | bolt.py:114-128 | scores in 0..100 give a similarity in 0..100 |
| `Similarity.SingleTokenHasNoProtection` | bolt.py:126-135 | a single-token corpus ends in the terminal "No CSRF protection to test" state |
| `Similarity.IdenticalTokensAreFullySimilar` | bolt.py:114-128 | identical tokens, all scored 100, with at least two candidates returned, are 100% similar |
| `Fingerprint.Fingerprint` | bolt.py:90-94 | every reported name belongs to a signature that matches; no match gives an empty result |
| `Fingerprint.FingerprintComplete` | bolt.py:90-94 | every name of every matching signature is reported |
| `Fingerprint.FingerprintAppend` | bolt.py:90-94 | the result is the in-order concatenation over the signature list |
| `Fingerprint.RepeatedSignatureIsNotDeduplicated` | bolt.py:93-94 | names are not deduplicated |
| `Fingerprint.FingerprintFirst` | bolt.py:88-94 | the result is the fingerprint of the first token, so every name reported comes from a signature matching it; an empty corpus is an error |
| `Fingerprint.Md5Example` | bolt.py:88-94 | one matching MD5 signature yields ["MD5"] |
| `Race.Qualifies` | bolt.py:149-151 | a collected value starts with a token character, and its only other character allowed outside the class is one final newline, which `$` lets through |
| `Race.TrailingNewlineQualifies` | bolt.py:150 | "a1b2c3\n" qualifies when its entropy exceeds 10; two trailing newlines, or a newline alone, do not match |
| `Race.Collect` | bolt.py:148-152 | every collected value qualifies, and each value occurs in the result exactly as often as in the input when it qualifies, and never otherwise |
| `Race.CollectAppend` | bolt.py:145-152 | collecting over concatenated inputs is the concatenation of the collections |
| `Race.Harvest` | bolt.py:161-164 | every value in the merged worker results qualifies |
| `Race.HarvestIsCollectOfAll` | bolt.py:161-164 | merging per-worker results equals collecting over all responses at once |
| `Race.HarvestSound` | bolt.py:142-164 | every harvested value qualifies and comes from some response; every qualifying value of every response is harvested |
| `Race.HarvestEmpty` | bolt.py:142-166 | nothing is collected exactly when no response carries a qualifying value |
| `Race.CollectRepeats` | bolt.py:148-152 | the collected list has a repeat exactly when a qualifying value occurs at two positions of the input |
| `Race.HarvestRepeats` | bolt.py:145-167 | the merged results have a repeat exactly when a qualifying value occurs twice across all responses' values, in one response or in two |
| `Race.RaceVerdict` | bolt.py:166-172 | "same tokens" iff the collected list has a duplicate; "different tokens" iff it is empty; otherwise the distinct list is printed |
| `Race.RaceVerdictIgnoresOrder` | bolt.py:161-172 | whether the outcome is "same tokens" or "different tokens" does not depend on the order in which the workers finished |
| `Race.Observe` | bolt.py:161-172 | over thirty responses, "same tokens" iff a collected value repeats; "different tokens" iff nothing was collected; otherwise the collected values are listed as they are |
| `Race.AsWrittenAlwaysDifferent` | bolt.py:149-172 | with the undefined `match`, the verdict is always "different tokens" |
| `Race.CollectAsWritten` | bolt.py:148-152 | one worker as written dies with NameError exactly when some value is non-empty, and appends nothing |
| `Race.HarvestAsWritten` | bolt.py:149-164 | as written, the shared list is empty after all workers, whatever the responses |
| `Race.SharedTokenMissedAsWritten` | bolt.py:149-172 | thirty responses sharing one high-entropy token: intended filter says "same tokens", code as written says "different tokens" |
| `Race.FindSeed` | bolt.py:154-159 | a found seed has a non-empty token and is the first draw with one; failure exactly when every draw had an empty token |

## Left out

- Command line, banner, printing and colours (bolt.py:24-54 and the print calls): presentation only. Printed output is modelled only for the bypass trials (`Printed`).
- Crawling (`photon`), HTTP (`requester`), form parsing (`zetanize`, `datanize`), token mutation (`tweaker`), seed generation (`ranger`) and `evaluate` are not part of this model. Their results (status codes, lengths, input values, the token lists) are parameters.
- `fuzz.partial_ratio` and `process.extract` are one abstract function. Its result limit is not assumed. The lemmas about single-token and identical corpora state what they need from it as preconditions.
- In `Fingerprint`, `re.match` is an abstract predicate (the race filter's pattern is modelled concretely by `Race.MatchesTokenPattern`), and `entropy` an abstract function returning a real.
- Race.IsTokenChar: `\w` is taken as ASCII letters, digits and underscore. Python's Unicode `\w` accepts more characters. The final-newline case of `$` is modelled (`PatternSpan`).
- Reading `./db/hashes.json` (bolt.py:85-86) is file I/O. The signature list is a parameter.
- The thread pool (bolt.py:161-164) is modelled as per-worker results merged in worker order. The real append order is nondeterministic. `RaceVerdictIgnoresOrder` shows which outcome results does not depend on it. The list inside `Listed`, which bolt.py:170 prints, does depend on it, and the model fixes one order.
- Race.FindSeed: the source draws with `random.choice` until a token is non-empty, with no bound. The model takes the draws as a finite parameter and fails with `NoUsableToken` when they run out. It cannot model the non-terminating case. When `tokenDatabase` is empty, `random.choice` raises `IndexError` at bolt.py:155; the model's index bound then admits only an empty `draws`, so it reports `NoUsableToken` instead of that exception.
- The mobile User-Agent change and the `isProtected` re-check (bolt.py:212-220): side-effecting request plumbing around an unseen predicate.
- Candidate-form selection (bolt.py:176-194): a thin wrapper around `datanize`, whose behaviour is not shown.
- `statistics.mean` works on floats. The model uses exact real arithmetic, so rounding is not modelled.
- The weak-token and insecure-form reports (bolt.py:67-83) only print what `evaluate` produced.
- Replay.CheckReplay: bolt.py:106 unpacks `tokenDatabase` entries as (url, token) pairs. bolt.py:155-158 reads them as one-key dicts. No one shape works at both sites: one-key dicts raise ValueError at :106, and pairs raise AttributeError at :156. The shape comes from `evaluate`, which is not part of this model. Both sites read an `Observation(url, token)`, and the exception is not modelled.
- Race.FindSeed: reads the same `Observation(url, token)` for the dict entries of bolt.py:155-158. For the reason above, it does not model the exception one entry shape raises.
- `allTokens` and `tokenDatabase` are filled separately by `evaluate`, so `CheckReplay` takes both. `TokensOf` gives the flat list of a corpus when they agree.

## Findings

| source | as written | input that shows it | evidently intended | confidence | as-written member | corrected member |
|---|---|---|---|---|---|---|
| bolt.py:150 | `match(r'^[\w\-_]+$', value)` calls a name that is never imported (only `re` is), so the worker raises NameError at the first non-empty value. The pool never reads the exception, so nothing is ever appended to `simTokens`. | thirty responses that each carry the form value `a1b2c3` with entropy above 10 | `re.match`: collect non-empty, charset-conforming values with entropy > 10, and report "same tokens" for the repeated value | high (not executed) | `Race.SharedTokenMissedAsWritten` | `Race.Observe` |
