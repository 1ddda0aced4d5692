/**
 * Names that are looked up and what is made of the answers. The resolver
 * itself is outside the model: a lookup is given by its outcome.
 */
module Resolution {
  import opened Wrappers

  /** An address, in the text form `IpAddr::to_string` gives it. */
  type Address = string

  /**
   * The outcome of one bounded lookup: the timer fired first, the resolver
   * reported an error, or it answered with addresses (possibly none).
   */
  datatype Lookup = Timeout | Failure | Answer(addrs: seq<Address>)

  /** The sub-second nanoseconds of the clock, the probe's nonce. */
  type Nanos = n: nat | n < 1_000_000_000

  /** The name looked up for candidate `sub`: the candidate, a dot, then the root domain. */
  function FullDomain(sub: string, domain: string): (name: string)
    ensures |name| == |sub| + 1 + |domain|
    ensures name[..|sub|] == sub && name[|sub|] == '.' && name[|sub| + 1..] == domain
  {
    sub + "." + domain
  }

  /** An ASCII digit, `'0'` (code 48) to `'9'` (code 57). */
  predicate IsDigit(c: char) {
    48 <= c as int <= 57
  }

  function DigitChar(d: nat): char
    requires d < 10
  {
    (48 + d) as char
  }

  /** The decimal text of `n`, as `Display` writes an unsigned integer. */
  function Decimal(n: nat): (s: string)
    ensures |s| >= 1 && forall k :: 0 <= k < |s| ==> IsDigit(s[k])
    ensures |s| > 1 ==> s[0] != '0'
  {
    if n < 10 then [DigitChar(n)] else Decimal(n / 10) + [DigitChar(n % 10)]
  }

  /** The number a string of decimal digits denotes. */
  function DecimalValue(s: string): nat
    requires forall k :: 0 <= k < |s| ==> IsDigit(s[k])
  {
    if s == [] then 0
    else
      assert IsDigit(s[|s| - 1]);
      10 * DecimalValue(s[..|s| - 1]) + (s[|s| - 1] as int - 48)
  }

  /** Reading back the decimal text of `n` gives `n`. */
  lemma {:induction false} DecimalRoundTrip(n: nat)
    ensures DecimalValue(Decimal(n)) == n
  {
    if n >= 10 {
      var s := Decimal(n);
      assert s[..|s| - 1] == Decimal(n / 10);
      DecimalRoundTrip(n / 10);
    }
  }

  const ProbePrefix: string := "wildcard-check-"

  /** The name of the wildcard probe: `wildcard-check-<nonce>.<domain>`. */
  function ProbeName(nonce: Nanos, domain: string): (name: string)
    ensures |name| == |ProbePrefix| + |Decimal(nonce)| + 1 + |domain|
    ensures name[..|ProbePrefix|] == ProbePrefix
    ensures name[|name| - |domain| - 1..] == "." + domain
    ensures name[|ProbePrefix|..|ProbePrefix| + |Decimal(nonce)|] == Decimal(nonce)
  {
    ProbePrefix + Decimal(nonce) + "." + domain
  }

  /**
   * Distinct nonces give distinct probe names, so each run probes a name
   * of its own under the domain.
   */
  lemma ProbeNameInjective(n1: Nanos, n2: Nanos, domain: string)
    requires ProbeName(n1, domain) == ProbeName(n2, domain)
    ensures n1 == n2
  {
    var d1, d2 := Decimal(n1), Decimal(n2);
    var name := ProbeName(n1, domain);
    var p := |ProbePrefix|;
    assert |d1| == |d2|;
    assert d1 == name[p..p + |d1|];
    assert d2 == name[p..p + |d2|];
    DecimalRoundTrip(n1);
    DecimalRoundTrip(n2);
  }

  /**
   * The probe name is a name under the domain, with the nonce as its first
   * label. The first ensures only regroups `ProbeName`'s definition through
   * `FullDomain`; the second is the content: the digits read back as the nonce.
   */
  lemma ProbeNameIsUnderDomain(nonce: Nanos, domain: string)
    ensures ProbeName(nonce, domain) == FullDomain(ProbePrefix + Decimal(nonce), domain)
    ensures DecimalValue(ProbeName(nonce, domain)[|ProbePrefix|..|ProbePrefix| + |Decimal(nonce)|]) == nonce
  {
    var name := ProbeName(nonce, domain);
    assert name[|ProbePrefix|..|ProbePrefix| + |Decimal(nonce)|] == Decimal(nonce);
    DecimalRoundTrip(nonce);
  }

  /**
   * `detect_wildcard`: the text of the first address the probe name
   * resolves to, or nothing when the probe timed out, failed or got no
   * address.
   */
  function DetectWildcard(domain: string, nonce: Nanos, resolve: string -> Lookup): (w: Option<Address>)
    ensures var probe := resolve(ProbeName(nonce, domain));
      (w.Some? <==> probe.Answer? && probe.addrs != [])
      && (w.Some? ==> w.value == probe.addrs[0])
  {
    match resolve(ProbeName(nonce, domain))
    case Answer(addrs) => if addrs == [] then None else Some(addrs[0])
    case _ => None
  }

  /**
   * The noise test: a first address is noise exactly when a wildcard was
   * detected and its address is that same text; with no wildcard nothing is.
   */
  predicate IsNoise(wildcard: Option<Address>, first: Address)
    ensures IsNoise(wildcard, first) <==> wildcard == Some(first)
  {
    match wildcard
    case None => false
    case Some(w) => w == first
  }

  /**
   * A candidate's outcome is accepted when the lookup answered in time with
   * at least one address whose first one is not the wildcard's.
   */
  predicate Accepted(wildcard: Option<Address>, outcome: Lookup) {
    outcome.Answer? && |outcome.addrs| > 0
    && (wildcard.Some? ==> outcome.addrs[0] != wildcard.value)
  }

  /**
   * What the task for candidate `sub` records: its full name when the
   * outcome is accepted, nothing otherwise.
   */
  function Classify(domain: string, wildcard: Option<Address>, sub: string, outcome: Lookup): (r: Option<string>)
    ensures r.Some? <==> Accepted(wildcard, outcome)
    ensures r.Some? ==> r.value == FullDomain(sub, domain)
    ensures (outcome.Timeout? || outcome.Failure?) ==> r == None
    ensures wildcard == None && outcome.Answer? && outcome.addrs != [] ==> r.Some?
  {
    match outcome
    case Answer(addrs) =>
      if addrs != [] && !IsNoise(wildcard, addrs[0]) then Some(FullDomain(sub, domain)) else None
    case _ => None
  }
}
