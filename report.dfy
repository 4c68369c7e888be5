/** The text report (`write_results_to_file` with format `txt`, main.py lines 76-84)
    and the choice of output format in `main` (lines 112-120). Each `file.write` call
    is modelled as one element of the sequence of writes; the file itself is not. */
module Report {
  import opened Text
  import opened Sequences
  import opened Scanner

  /** The three column widths of the table. */
  const IpWidth: nat := 20
  const ScoreWidth: nat := 20
  const LevelWidth: nat := 15

  /** The header row, without its newline. */
  function Header(): string {
    PadRight("IP Address", IpWidth) + PadRight("Confidence Score", ScoreWidth)
    + PadRight("IPsum Level", LevelWidth)
  }

  /** The line under the header: 55 dashes. */
  function Rule(): string {
    Repeat('-', 55)
  }

  /** The digits after the decimal point of a score kept in hundredths, as Python's
      float `repr` shows them: one digit when the hundredths digit is zero, else two. */
  function Cents(c: nat): (r: string)
    requires c < 100
    ensures |r| == 1 <==> c % 10 == 0
    ensures |r| == 1 || |r| == 2
    ensures forall k :: 0 <= k < |r| ==> IsDigit(r[k])
  {
    if c % 10 == 0 then [DigitChar(c / 10)] else [DigitChar(c / 10), DigitChar(c % 10)]
  }

  /** The value in hundredths of the digits after a decimal point (one or two of them). */
  function CentsValue(s: string): nat
    requires |s| == 1 || |s| == 2
    requires forall k :: 0 <= k < |s| ==> IsDigit(s[k])
  {
    if |s| == 1 then DigitValue(s[0]) * 10 else DigitValue(s[0]) * 10 + DigitValue(s[1])
  }

  /** The text of a non-negative number of hundredths as a Python float: the whole
      part, a point, then `Cents`. */
  function DecimalText(h: nat): string {
    NatText(h / 100) + "." + Cents(h % 100)
  }

  /** How `f"{score:<20}"` shows a score before padding: the estimate as a float, the
      reported score as an integer, and the `N/A` marker as itself. */
  function ScoreText(s: Score): string {
    match s
    case Estimate(h) => if h < 0 then "-" + DecimalText(-h) else DecimalText(h)
    case Reported(v) => IntText(v)
    case NA => "N/A"
  }

  /** One table row for a record, without its newline: the three fields padded. */
  function Row(r: Record): string {
    PadRight(r.ip, IpWidth) + PadRight(ScoreText(r.score), ScoreWidth)
    + PadRight(IntText(r.level), LevelWidth)
  }

  /** The records that get a row, in the order of `results`. */
  function Scored(results: seq<Record>): seq<Record> {
    Filter(results, HasScore)
  }

  /** What the `txt` branch writes: the header line, the rule line, then one line per
      scored record, each ending in a newline. */
  function TableWrites(results: seq<Record>): (writes: seq<string>)
    ensures |writes| == 2 + |Scored(results)|
  {
    var rows := Scored(results);
    [Header() + "\n", Rule() + "\n"] + seq(|rows|, i requires 0 <= i < |rows| => Row(rows[i]) + "\n")
  }

  /** The `txt` branch of `write_results_to_file`: the two heading writes, then the loop
      over the results that skips those whose score is `N/A`. */
  method WriteTextTable(results: seq<Record>) returns (writes: seq<string>)
    ensures writes == TableWrites(results)
  {
    writes := [Header() + "\n", Rule() + "\n"];
    for i := 0 to |results|
      invariant writes == TableWrites(results[..i])
    {
      var result := results[i];
      FilterSnoc(results[..i], result, HasScore);
      assert results[..i + 1] == results[..i] + [result];
      if result.score != NA {
        writes := writes + [Row(result) + "\n"];
      }
    }
    assert results[..|results|] == results;
  }

  /** The header line and the rule are both 55 characters wide, and the header's
      titles start at columns 0, 20 and 40. */
  lemma HeaderLayout()
    ensures |Header()| == 55 && |Rule()| == 55
    ensures Header()[..10] == "IP Address"
    ensures Header()[20..36] == "Confidence Score"
    ensures Header()[40..51] == "IPsum Level"
  {
    var a, b, c := PadRight("IP Address", IpWidth), PadRight("Confidence Score", ScoreWidth),
                   PadRight("IPsum Level", LevelWidth);
    assert Header() == a + b + c;
    assert Header()[20..36] == b[..16];
    assert Header()[40..51] == c[..11];
  }

  /** A row whose fields fit their columns is exactly as wide as the header, and each
      field starts at its column: the address at 0, the score at 20, the level at 40. */
  lemma RowLayout(r: Record)
    requires |r.ip| <= IpWidth && |ScoreText(r.score)| <= ScoreWidth
    requires |IntText(r.level)| <= LevelWidth
    ensures |Row(r)| == 55
    ensures Row(r)[..|r.ip|] == r.ip
    ensures Row(r)[20..20 + |ScoreText(r.score)|] == ScoreText(r.score)
    ensures Row(r)[40..40 + |IntText(r.level)|] == IntText(r.level)
  {
    var a, b, c := PadRight(r.ip, IpWidth), PadRight(ScoreText(r.score), ScoreWidth),
                   PadRight(IntText(r.level), LevelWidth);
    assert Row(r) == a + b + c;
    assert Row(r)[20..20 + |ScoreText(r.score)|] == b[..|ScoreText(r.score)|];
    assert Row(r)[40..40 + |IntText(r.level)|] == c[..|IntText(r.level)|];
  }

  /** Padding never truncates: an address longer than its column pushes the row past
      the header's width. */
  lemma LongAddressWidensRow(r: Record)
    requires |r.ip| > IpWidth
    ensures |Row(r)| > 55
    ensures Row(r)[..|r.ip|] == r.ip
  {
    var a, b, c := PadRight(r.ip, IpWidth), PadRight(ScoreText(r.score), ScoreWidth),
                   PadRight(IntText(r.level), LevelWidth);
    assert Row(r) == a + b + c;
  }

  /** The scored records are those of `results` without the `N/A` marker, each as often
      as it occurs there; a record with the marker never has a row. */
  lemma ScoredRecords(results: seq<Record>)
    ensures forall r :: multiset(Scored(results))[r] == if HasScore(r) then multiset(results)[r] else 0
    ensures forall r :: r in Scored(results) <==> r in results && !r.score.NA?
  {
    FilterCounts(results, HasScore);
    FilterMembers(results, HasScore);
  }

  /** When no lookup is made the table lists every record in order, since every
      estimate has a score. */
  lemma AllScoredListed(results: seq<Record>)
    requires forall k :: 0 <= k < |results| ==> results[k].score.Estimate?
    ensures Scored(results) == results
    ensures |TableWrites(results)| == 2 + |results|
  {
    FilterAll(results, HasScore);
  }

  /** Reading the text of a non-negative score back gives its value: the digits before
      the point are the whole part and those after it the hundredths. */
  lemma DecimalTextRoundTrip(h: nat)
    ensures var t, p := DecimalText(h), |NatText(h / 100)|;
      && p < |t| && t[p] == '.'
      && (forall k :: 0 <= k < p ==> IsDigit(t[k]))
      && (|t[p + 1..]| == 1 || |t[p + 1..]| == 2)
      && (forall k :: p < k < |t| ==> IsDigit(t[k]))
      && DigitsValue(t[..p]) * 100 + CentsValue(t[p + 1..]) == h
  {
    var whole, cents := NatText(h / 100), Cents(h % 100);
    var t := DecimalText(h);
    assert t == whole + "." + cents;
    assert t[..|whole|] == whole;
    assert t[|whole| + 1..] == cents;
    NatTextRoundTrip(h / 100);
  }

  /** The estimates for the first and last levels read as Python prints them. */
  lemma EstimateTexts()
    ensures ScoreText(EstimatedScore(1)) == "12.5"
    ensures ScoreText(EstimatedScore(8)) == "100.0"
  {
    assert NatText(12) == "12";
    assert NatText(100) == "100";
  }

  /** The answer to the output-format prompt, stripped and lower-cased. */
  datatype Format = Txt | Csv | Invalid

  function ChooseFormat(answer: string): (f: Format)
    ensures f == Txt <==> Lower(Strip(answer)) == "txt"
    ensures f == Csv <==> Lower(Strip(answer)) == "csv"
  {
    var fileFormat := Lower(Strip(answer));
    if fileFormat == "txt" then Txt else if fileFormat == "csv" then Csv else Invalid
  }
}
