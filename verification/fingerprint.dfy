/** Hash-type fingerprinting of the first collected token against the
    ordered signature list. The regular-expression engine is the abstract
    predicate `matches(pattern, token)` (`re.match`). */
module Fingerprint {
  import opened Results

  /** One entry of the signature list: a pattern and the hash names it
      indicates. */
  datatype Signature = Signature(regex: string, names: seq<string>)

  /** Fingerprinting needs a first token; `allTokens[0]` fails without one. */
  datatype FingerprintError = NoTokens

  /** The names of every signature whose pattern matches `token`, in list
      order, each signature's names in order, nothing deduplicated. */
  function Fingerprint(sigs: seq<Signature>, token: string,
                       matches: (string, string) -> bool): (r: seq<string>)
    ensures forall n :: n in r ==>
      exists s :: s in sigs && matches(s.regex, token) && n in s.names
    ensures (forall s :: s in sigs ==> !matches(s.regex, token)) ==> r == []
  {
    if |sigs| == 0 then []
    else
      (if matches(sigs[0].regex, token) then sigs[0].names else [])
      + Fingerprint(sigs[1..], token, matches)
  }

  /** Every name of a matching signature is reported. */
  lemma {:induction false} FingerprintComplete(sigs: seq<Signature>, token: string,
                                               matches: (string, string) -> bool, i: nat)
    requires i < |sigs| && matches(sigs[i].regex, token)
    ensures forall n :: n in sigs[i].names ==> n in Fingerprint(sigs, token, matches)
  {
    if i > 0 {
      FingerprintComplete(sigs[1..], token, matches, i - 1);
    }
  }

  /** Fingerprinting splits over a split signature list: the result is the
      in-order concatenation of the parts' results. */
  lemma {:induction false} FingerprintAppend(a: seq<Signature>, b: seq<Signature>, token: string,
                                             matches: (string, string) -> bool)
    ensures Fingerprint(a + b, token, matches)
      == Fingerprint(a, token, matches) + Fingerprint(b, token, matches)
  {
    if |a| > 0 {
      FingerprintAppend(a[1..], b, token, matches);
      assert (a + b)[1..] == a[1..] + b;
    } else {
      assert a + b == b;
    }
  }

  /** A signature listed twice contributes its names twice. */
  lemma RepeatedSignatureIsNotDeduplicated(s: Signature, token: string,
                                           matches: (string, string) -> bool)
    requires matches(s.regex, token)
    ensures Fingerprint([s, s], token, matches) == s.names + s.names
  {
  }

  /** The fingerprint of the first collected token. */
  function FingerprintFirst(tokens: seq<string>, sigs: seq<Signature>,
                            matches: (string, string) -> bool)
    : (r: Result<seq<string>, FingerprintError>)
    ensures r.Err? <==> |tokens| == 0
    ensures r.Ok? ==> r.value == Fingerprint(sigs, tokens[0], matches)
    ensures r.Ok? ==> forall n :: n in r.value ==>
      exists s :: s in sigs && matches(s.regex, tokens[0]) && n in s.names
  {
    if |tokens| == 0 then Err(NoTokens) else Ok(Fingerprint(sigs, tokens[0], matches))
  }

  /** One MD5 signature whose pattern matches the token yields ["MD5"]. */
  lemma Md5Example(token: string, matches: (string, string) -> bool)
    requires matches("^[0-9a-f]{32}$", token)
    ensures FingerprintFirst([token], [Signature("^[0-9a-f]{32}$", ["MD5"])], matches) == Ok(["MD5"])
  {
    var sigs := [Signature("^[0-9a-f]{32}$", ["MD5"])];
    assert Fingerprint(sigs[1..], token, matches) == [];
    assert Fingerprint(sigs, token, matches) == ["MD5"];
    assert [token][0] == token;
  }
}
