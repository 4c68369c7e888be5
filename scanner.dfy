/** One level scan (`scan_ips`, main.py lines 43-74): every input address that the
    level's set names becomes a record; with an AbuseIPDB key every other address
    becomes one lookup, and the gathered lookup outcomes are paired with the input
    list by `zip(ips, responses)`. */
module Scanner {
  import opened Sequences

  /** A confidence score as the program holds it: the float estimated from the level
      (kept as whole hundredths, which `round(..., 2)` makes exact), the integer the
      API reports, or the string 'N/A'. */
  datatype Score = Estimate(hundredths: int) | Reported(value: int) | NA

  /** One result row: `{'ip': ..., 'abuseConfidenceScore': ..., 'level': ...}`. */
  datatype Record = Record(ip: string, score: Score, level: int)

  /** What `asyncio.gather(..., return_exceptions=True)` yields for one lookup task:
      the score read from a successful reply, or the exception the task raised. */
  datatype Response = Answered(score: Score) | Failed

  /** Python truthiness of `api_key`: neither None nor the empty string. */
  predicate Keyed(apiKey: Option<string>) {
    apiKey.Some? && apiKey.value != ""
  }

  /** `round((level / 8) * 100, 2)`, in hundredths. For every level the exact value
      has at most one decimal place, so rounding to two decimals changes nothing. */
  function EstimatedScore(level: int): (s: Score)
    ensures s.Estimate?
    ensures s.hundredths as real == (level as real / 8.0) * 100.0 * 100.0
  {
    Estimate(level * 1250)
  }

  /** Over the IPsum levels 1..8 the estimate rises strictly, stays within (0, 100]
      and reaches 100 at level 8. */
  lemma EstimateScale(level: int, higher: int)
    requires 1 <= level < higher <= 8
    ensures 0 < EstimatedScore(level).hundredths < EstimatedScore(higher).hundredths <= 100 * 100
    ensures EstimatedScore(8).hundredths == 100 * 100
  {
  }

  /** The test `ip in ipsum_ips`, and its negation. */
  function InTier(tier: set<string>): string -> bool {
    ip => ip in tier
  }

  function NotInTier(tier: set<string>): string -> bool {
    ip => ip !in tier
  }

  /** The addresses the level names, every occurrence, in input order. */
  function Flagged(ips: seq<string>, tier: set<string>): seq<string> {
    Filter(ips, InTier(tier))
  }

  /** The addresses that become lookup tasks, in task-creation order. */
  function Queried(ips: seq<string>, tier: set<string>, apiKey: Option<string>): seq<string> {
    if Keyed(apiKey) then Filter(ips, NotInTier(tier)) else []
  }

  /** What `asyncio.gather` guarantees: one outcome per lookup task, so none at all
      without a key. */
  predicate OnePerTask(ips: seq<string>, tier: set<string>, apiKey: Option<string>,
                       responses: seq<Response>) {
    |responses| == |Queried(ips, tier, apiKey)|
  }

  /** The score a flagged address receives. */
  function FlaggedScore(level: int, apiKey: Option<string>): Score {
    if Keyed(apiKey) then NA else EstimatedScore(level)
  }

  /** One record per address, all with the same score and level. */
  function Stamp(ips: seq<string>, score: Score, level: int): (rs: seq<Record>)
    ensures |rs| == |ips|
    ensures forall k :: 0 <= k < |ips| ==> rs[k] == Record(ips[k], score, level)
  {
    seq(|ips|, k requires 0 <= k < |ips| => Record(ips[k], score, level))
  }

  lemma StampSnoc(ips: seq<string>, ip: string, score: Score, level: int)
    ensures Stamp(ips + [ip], score, level) == Stamp(ips, score, level) + [Record(ip, score, level)]
  {
  }

  /** How many pairs `zip(ips, responses)` yields. */
  function ZipLength(ips: seq<string>, responses: seq<Response>): nat {
    if |ips| < |responses| then |ips| else |responses|
  }

  predicate IsAnswered(r: Response) {
    r.Answered?
  }

  /** A record whose score is not 'N/A': the records `bad_ip_count` counts among the
      lookups and the ones the text report lists. */
  predicate HasScore(r: Record) {
    !r.score.NA?
  }

  /** A reply that raises `bad_ip_count`: a score other than 'N/A'. */
  predicate IsHit(r: Response) {
    r.Answered? && r.score != NA
  }

  /** The records the first `n` pairs of `zip(ips, responses)` add, in pair order: a
      pair whose response failed adds nothing; an answered pair adds a record labelled
      with the address at the same position of the input list. */
  function Paired(level: int, ips: seq<string>, responses: seq<Response>, n: nat): (rs: seq<Record>)
    requires n <= |ips| && n <= |responses|
    ensures |rs| <= n
  {
    if n == 0 then []
    else
      Paired(level, ips, responses, n - 1)
        + if responses[n - 1].Answered? then [Record(ips[n - 1], responses[n - 1].score, level)] else []
  }

  /** A failed lookup adds no record: there is one record per answered response. */
  lemma {:induction false} PairedCount(level: int, ips: seq<string>, responses: seq<Response>, n: nat)
    requires n <= |ips| && n <= |responses|
    ensures |Paired(level, ips, responses, n)| == |Filter(responses[..n], IsAnswered)|
  {
    if n > 0 {
      PairedCount(level, ips, responses, n - 1);
      assert responses[..n] == responses[..n - 1] + [responses[n - 1]];
      FilterSnoc(responses[..n - 1], responses[n - 1], IsAnswered);
    }
  }

  /** Every lookup record is an answered pair: the address at position `k` of the input
      list with the score of the `k`-th response, for some `k` below `n`; and every
      answered pair below `n` has its record. */
  lemma {:induction false} PairedRecords(level: int, ips: seq<string>, responses: seq<Response>, n: nat)
    requires n <= |ips| && n <= |responses|
    ensures forall k :: 0 <= k < n && responses[k].Answered? ==>
      Record(ips[k], responses[k].score, level) in Paired(level, ips, responses, n)
    ensures forall r :: r in Paired(level, ips, responses, n) ==>
      exists k :: 0 <= k < n && responses[k].Answered? && r == Record(ips[k], responses[k].score, level)
  {
    if n > 0 {
      PairedRecords(level, ips, responses, n - 1);
    }
  }

  /** How much the first `n` pairs add to `bad_ip_count`. */
  function Hits(responses: seq<Response>, n: nat): nat
    requires n <= |responses|
  {
    |Filter(responses[..n], IsHit)|
  }

  /** The `results` list `scan_ips` returns. */
  function ScanResults(level: int, ips: seq<string>, tier: set<string>, apiKey: Option<string>,
                       responses: seq<Response>): seq<Record>
  {
    Stamp(Flagged(ips, tier), FlaggedScore(level, apiKey), level)
      + if Keyed(apiKey) then Paired(level, ips, responses, ZipLength(ips, responses)) else []
  }

  /** The `bad_ip_count` `scan_ips` returns. */
  function ScanCount(ips: seq<string>, tier: set<string>, apiKey: Option<string>,
                     responses: seq<Response>): nat
  {
    |Flagged(ips, tier)| + if Keyed(apiKey) then Hits(responses, ZipLength(ips, responses)) else 0
  }

  /** The first loop of `scan_ips` (lines 51-58): flagged addresses get a record and a
      count, and with a key every other address gets a lookup task. */
  method ClassifyAddresses(level: int, ips: seq<string>, tier: set<string>, apiKey: Option<string>)
    returns (results: seq<Record>, badCount: nat, queried: seq<string>)
    ensures results == Stamp(Flagged(ips, tier), FlaggedScore(level, apiKey), level)
    ensures badCount == |Flagged(ips, tier)|
    ensures queried == Queried(ips, tier, apiKey)
  {
    results, badCount, queried := [], 0, [];
    for i := 0 to |ips|
      invariant results == Stamp(Flagged(ips[..i], tier), FlaggedScore(level, apiKey), level)
      invariant badCount == |Flagged(ips[..i], tier)|
      invariant queried == Queried(ips[..i], tier, apiKey)
    {
      assert ips[..i + 1] == ips[..i] + [ips[i]];
      FilterSnoc(ips[..i], ips[i], InTier(tier));
      FilterSnoc(ips[..i], ips[i], NotInTier(tier));
      StampSnoc(Flagged(ips[..i], tier), ips[i], FlaggedScore(level, apiKey), level);
      var ip := ips[i];
      if ip in tier {
        var score := NA;
        if !Keyed(apiKey) {
          score := EstimatedScore(level);
        }
        results := results + [Record(ip, score, level)];
        badCount := badCount + 1;
      } else if Keyed(apiKey) {
        queried := queried + [ip];
      }
    }
    assert ips[..|ips|] == ips;
  }

  /** The second loop of `scan_ips` (lines 64-72), over `zip(ips, responses)`: each
      answered pair appends a record and counts when its score is not 'N/A'. */
  method RecordLookups(level: int, ips: seq<string>, responses: seq<Response>,
                       flagged: seq<Record>, flaggedCount: nat)
    returns (results: seq<Record>, badCount: nat)
    ensures results == flagged + Paired(level, ips, responses, ZipLength(ips, responses))
    ensures badCount == flaggedCount + Hits(responses, ZipLength(ips, responses))
  {
    results, badCount := flagged, flaggedCount;
    for i := 0 to ZipLength(ips, responses)
      invariant results == flagged + Paired(level, ips, responses, i)
      invariant badCount == flaggedCount + Hits(responses, i)
    {
      assert responses[..i + 1] == responses[..i] + [responses[i]];
      FilterSnoc(responses[..i], responses[i], IsHit);
      match responses[i]
      case Failed =>
      case Answered(score) =>
        if score != NA {
          badCount := badCount + 1;
        }
        results := results + [Record(ips[i], score, level)];
    }
  }

  /** `scan_ips(level, ips, api_key)` once the level's set `tier` has been fetched and
      the lookup tasks, if any, have been gathered into `responses` (in task-creation
      order). Besides the results and the count, it returns `queried`, the addresses
      a lookup task was created for. */
  method ScanLevel(level: int, ips: seq<string>, tier: set<string>, apiKey: Option<string>,
                   responses: seq<Response>)
    returns (results: seq<Record>, badCount: nat, queried: seq<string>)
    requires OnePerTask(ips, tier, apiKey, responses)
    ensures queried == Queried(ips, tier, apiKey)
    ensures results == ScanResults(level, ips, tier, apiKey, responses)
    ensures badCount == ScanCount(ips, tier, apiKey, responses)
  {
    results, badCount, queried := ClassifyAddresses(level, ips, tier, apiKey);
    if Keyed(apiKey) {
      results, badCount := RecordLookups(level, ips, responses, results, badCount);
    }
  }

  /** The addresses of a list of records, in order. */
  function Addresses(rs: seq<Record>): (ips: seq<string>)
    ensures |ips| == |rs|
    ensures forall k :: 0 <= k < |rs| ==> ips[k] == rs[k].ip
  {
    seq(|rs|, k requires 0 <= k < |rs| => rs[k].ip)
  }

  /** Without a key: no lookup is made, and there is one record per input position whose
      address the level names (a repeated address is counted every time), each scored
      from the level; `bad_ip_count` is the number of records. */
  lemma UnkeyedScan(level: int, ips: seq<string>, tier: set<string>, apiKey: Option<string>,
                    responses: seq<Response>)
    requires !Keyed(apiKey)
    ensures var rs := ScanResults(level, ips, tier, apiKey, responses);
      && Queried(ips, tier, apiKey) == []
      && ScanCount(ips, tier, apiKey, responses) == |rs|
      && Addresses(rs) == Flagged(ips, tier)
      && (forall x :: multiset(Addresses(rs))[x] == if x in tier then multiset(ips)[x] else 0)
      && (forall k :: 0 <= k < |rs| ==> rs[k].level == level && rs[k].score == EstimatedScore(level))
  {
    var rs := ScanResults(level, ips, tier, apiKey, responses);
    assert Addresses(rs) == Flagged(ips, tier);
    FilterCounts(ips, InTier(tier));
  }

  /** With a key: the flagged addresses come first, in input order, each scored 'N/A'
      and each counted; then come the records of the answered lookups. */
  lemma KeyedScanFlaggedFirst(level: int, ips: seq<string>, tier: set<string>, apiKey: Option<string>,
                              responses: seq<Response>)
    requires Keyed(apiKey)
    ensures var rs, f := ScanResults(level, ips, tier, apiKey, responses), Flagged(ips, tier);
      && |f| <= |rs|
      && Addresses(rs[..|f|]) == f
      && (forall k :: 0 <= k < |f| ==> rs[k].score == NA && rs[k].ip in tier && rs[k].level == level)
      && rs[|f|..] == Paired(level, ips, responses, ZipLength(ips, responses))
      && ScanCount(ips, tier, apiKey, responses) == |f| + |Filter(rs[|f|..], HasScore)|
  {
    var rs, f := ScanResults(level, ips, tier, apiKey, responses), Flagged(ips, tier);
    assert rs[..|f|] == Stamp(f, NA, level);
    FilterMembers(ips, InTier(tier));
    forall k | 0 <= k < |f| ensures rs[k].score == NA && rs[k].ip in tier && rs[k].level == level {
      assert rs[k] == Record(f[k], NA, level);
      assert f[k] in f;
    }
    HitsAreScoredLookups(level, ips, responses, ZipLength(ips, responses));
  }

  /** With a key and one response per task (what `gather` guarantees), the lookups add
      at most one record per task, and every lookup record carries the address at the
      same position of the INPUT list, among its first `len(tasks)` entries, whichever
      address the task actually queried. */
  lemma KeyedLookupsLabelledByInputPrefix(level: int, ips: seq<string>, tier: set<string>,
                                          apiKey: Option<string>, responses: seq<Response>)
    requires Keyed(apiKey)
    requires OnePerTask(ips, tier, apiKey, responses)
    ensures var lookups := Paired(level, ips, responses, ZipLength(ips, responses));
      && |lookups| <= |responses|
      && forall r :: r in lookups ==> r.level == level && r.ip in ips[..|responses|]
  {
    var lookups := Paired(level, ips, responses, ZipLength(ips, responses));
    PairedRecords(level, ips, responses, ZipLength(ips, responses));
    forall r | r in lookups ensures r.level == level && r.ip in ips[..|responses|] {
      var k :| 0 <= k < |responses| && responses[k].Answered? && r == Record(ips[k], responses[k].score, level);
      assert ips[..|responses|][k] == ips[k];
    }
  }

  /** When every lookup answers, the j-th lookup record is labelled with the j-th input
      address. */
  lemma {:induction false} AnsweredLookupsFollowInputOrder(level: int, ips: seq<string>,
                                                          responses: seq<Response>, n: nat)
    requires n <= |ips| && n <= |responses|
    requires forall k :: 0 <= k < n ==> responses[k].Answered?
    ensures |Paired(level, ips, responses, n)| == n
    ensures forall j :: 0 <= j < n ==> Paired(level, ips, responses, n)[j].ip == ips[j]
  {
    if n > 0 {
      AnsweredLookupsFollowInputOrder(level, ips, responses, n - 1);
    }
  }

  /** `bad_ip_count` rises by exactly the lookup records whose score is not 'N/A'. */
  lemma {:induction false} HitsAreScoredLookups(level: int, ips: seq<string>, responses: seq<Response>, n: nat)
    requires n <= |ips| && n <= |responses|
    ensures Hits(responses, n) == |Filter(Paired(level, ips, responses, n), HasScore)|
  {
    if n > 0 {
      HitsAreScoredLookups(level, ips, responses, n - 1);
      assert responses[..n] == responses[..n - 1] + [responses[n - 1]];
      FilterSnoc(responses[..n - 1], responses[n - 1], IsHit);
      var prev := Paired(level, ips, responses, n - 1);
      var step := if responses[n - 1].Answered? then [Record(ips[n - 1], responses[n - 1].score, level)] else [];
      FilterConcat(prev, step, HasScore);
    }
  }

  /** A key holder's run where one address is flagged and the other is looked up: the
      lookup's score is recorded under the flagged address, and the address that was
      actually queried gets no record. */
  lemma LookupLabelledWithFirstInput()
    ensures var ips, key := ["1.1.1.1", "2.2.2.2"], Some("k");
      && Queried(ips, {"1.1.1.1"}, key) == ["2.2.2.2"]
      && ScanResults(1, ips, {"1.1.1.1"}, key, [Answered(Reported(90))])
         == [Record("1.1.1.1", NA, 1), Record("1.1.1.1", Reported(90), 1)]
  {
    var ips, key := ["1.1.1.1", "2.2.2.2"], Some("k");
    assert ips[..1] == ["1.1.1.1"];
    assert Flagged(ips, {"1.1.1.1"}) == ["1.1.1.1"];
    assert Filter(ips, NotInTier({"1.1.1.1"})) == ["2.2.2.2"];
  }
}
