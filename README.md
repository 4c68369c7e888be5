# IPsum / AbuseIPDB scanner: a verified model

`main.py` checks a list of IP addresses against the IPsum blocklists, level by level
(levels 1 to 8), and optionally against the AbuseIPDB API. It then writes the findings
as a text table (or as CSV). This project models its sequential core in Dafny:

- **`blocklist.dfy`** parses one IPsum level's published text into a set of addresses
  (`fetch_ipsum_list`, line 25). It also reads the input file's lines
  (`read_ips_from_file`, line 16).
- **`scanner.dfy`** models one level scan (`scan_ips`, lines 43-74) as an imperative
  method proved against specification functions.
  - Addresses the level names become records. Without a key they are scored from the
    level. With a key they are scored `'N/A'`.
  - With a key, every other address becomes a lookup task.
  - The gathered lookup outcomes are paired with the input list by
    `zip(ips, responses)`, exactly as written. A lookup's score is therefore recorded
    under the address at the same position of the *input* list, which need not be the
    address that was queried. `Scanner.LookupLabelledWithFirstInput` shows a
    two-address run where this happens.
- **`orchestrator.dfy`** covers the rest of `main`:
  - the key prompt (lines 91-93);
  - the level loop (lines 97-110), which stops after the first level whose answer is
    not `yes`;
  - the exception a failed level download raises, which ends the run.
- **`report.dfy`** models the text table (`write_results_to_file`, lines 76-84) and
  the output-format prompt (lines 112-120).
- **`text.dfy`** and **`sequences.dfy`** give Python's `str.strip()`, `str.lower()`,
  `f"{x:<w}"`, `str(int)` and the order-keeping list comprehension filter.

Everything the program reads from outside is a parameter:
- the answers to the prompts;
- the input file's lines;
- each level's downloaded page;
- each level's gathered lookup outcomes.

Scores are held as `Estimate(hundredths)` (the float `round(level/8*100, 2)`, exact in
hundredths), `Reported(value)` (the integer the API returns) or `NA` (the string
`'N/A'`).

## Model

| member | source | states |
|---|---|---|
| Text.StripSlice | main.py:25 | `strip()` keeps one contiguous slice of the line and removes only whitespace on each side of it |
| Text.StripIdempotent | main.py:25 | stripping a stripped line changes nothing |
| Text.StripEmptyIffBlank | main.py:25 | a line strips to the empty string exactly when it is all whitespace |
| Text.NatTextRoundTrip | main.py:84 | the decimal text written for a level reads back as that level |
| Text.IntTextRoundTrip | main.py:84 | the text written for an integer (a level or a reported score) is an optional minus sign and digits, carries the sign exactly when the integer is negative, and reads back as that integer |
| Blocklist.ParseBlocklist | main.py:25 | every non-blank line whose raw form does not start with `#` contributes its stripped form to the level's set |
| Blocklist.ParsedAddressesAreStripped | main.py:25 | every address in the set is non-empty, is its own strip, and comes from a kept line; with the function's contract the set is exactly the stripped kept lines |
| Blocklist.KeptIff | main.py:25 | a line is kept exactly when it is not all whitespace and its unstripped form does not start with `#` |
| Blocklist.IndentedCommentIsKept | main.py:25 | the comment test looks at the raw line, so `"  # x"` yields the address `"# x"` |
| Blocklist.ReadIps | main.py:16 | one entry per line of the input file, each the stripped line |
| Blocklist.ReadIpsAreStripped | main.py:16 | every entry is its own strip, and it is empty exactly when its line was blank |
| Scanner.EstimatedScore | main.py:55 | the estimate is `level / 8 * 100`, held exactly in hundredths |
| Scanner.EstimateScale | main.py:55 | over levels 1..8 the estimate rises strictly, stays above 0 and reaches exactly 100 at level 8 |
| Scanner.ClassifyAddresses | main.py:51-58 | the first loop returns one record per flagged input position in input order, the count of flagged positions, and the addresses that get a lookup task |
| Scanner.RecordLookups | main.py:64-72 | the loop over `zip(ips, responses)` appends exactly the records of the answered pairs and adds exactly the answered pairs whose score is not `'N/A'` to the count |
| Scanner.ScanLevel | main.py:43-74 | given one outcome per task, `scan_ips` returns the results, the `bad_ip_count` and the lookup tasks' addresses that the specification functions define |
| Scanner.UnkeyedScan | main.py:51-58 | without a key no task is created; each input position whose address the level names gives one record (duplicates counted), scored from the level and labelled with it; `bad_ip_count` equals the number of records; the records' addresses are the flagged input addresses in input order |
| Scanner.KeyedScanFlaggedFirst | main.py:51-72 | with a key the flagged addresses come first, in input order, each scored `'N/A'`, followed by exactly the lookup records; `bad_ip_count` is the number of flagged positions plus the lookup records whose score is not `'N/A'` |
| Scanner.PairedCount | main.py:64-72 | a failed lookup adds no record: there is one lookup record per answered outcome among the zipped pairs |
| Scanner.PairedRecords | main.py:64-72 | every lookup record is the input address at some position `k` with the `k`-th outcome's score, and every answered pair yields its record |
| Scanner.KeyedLookupsLabelledByInputPrefix | main.py:60-72 | with one outcome per task, the lookups add at most one record per task, each labelled with one of the first `len(tasks)` input addresses |
| Scanner.AnsweredLookupsFollowInputOrder | main.py:64-72 | when all outcomes are answers, the j-th lookup record carries the j-th input address |
| Scanner.HitsAreScoredLookups | main.py:64-70 | the lookups raise `bad_ip_count` by exactly the number of lookup records whose score is not `'N/A'` |
| Scanner.LookupLabelledWithFirstInput | main.py:64-72 | concrete run: the flagged address is also given the score of the other address's lookup, and the queried address gets no record |
| Orchestrator.ApiKeyFromAnswer | main.py:91-93 | the key is the stripped answer, or None exactly when that reads `no` in any letter case |
| Orchestrator.KeyedModeIff | main.py:91-93 | keyed mode (the truthiness tests of lines 36, 54, 59 and 62) holds exactly when the stripped answer is non-empty and is not `no` in any letter case |
| Orchestrator.StopFromReplies | main.py:99-108 | the stop level is 8 or the first level from the start whose reply is not `yes`, and every level before it was answered `yes` |
| Orchestrator.StopLevelStep | main.py:105-110 | after a level reached before the stop, the loop goes on exactly when the level is below 8 and the reply is `yes` |
| Orchestrator.StopLevelAnswers | main.py:105-108 | in terms of the raw answers: every level before the stop was answered `yes` after strip and lower-casing, and the stop is level 8 or its answer is not `yes` |
| Orchestrator.StopLevelUnique | main.py:99-108 | those two facts determine the stop level: any level satisfying them is the stop level |
| Orchestrator.ScanDownloadedLevel | main.py:101 | one pass of the loop scans the downloaded level and returns that level's batch |
| Orchestrator.ScanLevels | main.py:97-110 | given one outcome per lookup task at every level, the loop's run satisfies `Outcome` for the stop level the replies give |
| Orchestrator.RunScan | main.py:89-110 | given one outcome per lookup task at every level, `main` up to the format prompt satisfies `Outcome` for the stripped key, the stripped input lines and the stop level of the answers |
| Orchestrator.OutcomeAbortedIff | main.py:23 | a run aborts exactly when one of the downloads up to the stop level fails |
| Orchestrator.BatchLevel | main.py:101 | every record of a level's batch carries that level |
| Orchestrator.CollectedInLevelOrder | main.py:96-102 | `all_results` lists its records in non-decreasing level order, all within levels 1..k |
| Orchestrator.UnkeyedCollectedAllEstimates | main.py:96-102 | without a key every record `all_results` collects, up to any level reached, is scored as an estimate |
| Report.Cents | main.py:84 | the digits after the point: one when the hundredths digit is zero, otherwise two, and all decimal digits |
| Report.WriteTextTable | main.py:80-84 | the writes are the header line, the dashes, then one row per result whose score is not `'N/A'`, in result order |
| Report.HeaderLayout | main.py:80-81 | the header and the rule are both 55 characters, with the titles at columns 0, 20 and 40 |
| Report.RowLayout | main.py:84 | a row whose fields fit is 55 characters wide, with the address at column 0, the score at 20 and the level at 40 |
| Report.LongAddressWidensRow | main.py:84 | padding never truncates: an address longer than 20 characters is written whole and widens the row |
| Report.ScoredRecords | main.py:82-84 | the rows are for the records of `results` whose score is not `'N/A'`, each as often as it occurs there, and for no others |
| Report.AllScoredListed | main.py:82-84 | when every record is an estimate (as `Orchestrator.UnkeyedCollectedAllEstimates` shows of an unkeyed run) every record gets a row, in order |
| Report.DecimalTextRoundTrip | main.py:84 | the text written for an estimate is digits, a point and one or two digits, and it reads back as the score's value in hundredths |
| Report.EstimateTexts | main.py:55 | the estimates for levels 1 and 8 are written as `12.5` and `100.0` |
| Report.ChooseFormat | main.py:112-120 | the table is written as text exactly when the stripped, lower-cased answer is `txt`, and as CSV exactly when it is `csv` |

`Orchestrator.Outcome`, the predicate that the contracts of `ScanLevels` and `RunScan`
state, says:

- **A download failure at level `l`.** Then `l` is at most the stop level, levels
  `1..l-1` downloaded, and the run is `Aborted(l)`.
- **No download failure.** The run finishes after exactly the stop level. `all_results`
  is the in-order concatenation of each level's `scan_ips` results (`Collected`).

## Left out

- The network is not modelled: the HTTP requests of `fetch_ipsum_list` and `check_ip_abuse`,
  aiohttp sessions and JSON decoding. A level's download is a parameter `Page(lines)`, or
  `Unavailable` when `raise_for_status` or the network fails. A lookup outcome is
  `Answered(score)` or `Failed`.
- The splitting of the downloaded text into lines (`splitlines`) is not modelled; the lines
  are given.
- The `asyncio.create_task` / `asyncio.gather` concurrency is not modelled. Only its result
  matters: the outcome list in task-creation order, one entry per task.
- The lookup outcomes are an input sequence. `Scanner.ScanLevel`, `Orchestrator.ScanLevels`
  and `Orchestrator.RunScan` require one outcome per lookup task of each level
  (`OnePerTask`, `GatheredPerTask`), which is what `gather` returns.
- `response['data']['abuseConfidenceScore']` (line 68) is read as an integer score or the
  `'N/A'` string; other JSON values the API could return are not modelled. The `Response`
  type also admits `Answered(Estimate(h))`, which no reply produces; every proved property
  holds for it too, so no predicate excludes it.
- The `input()` prompts and the `print` logging are not modelled. The answers are parameters.
- `Orchestrator.RunScan` requires exactly eight continue answers. It normalises
  (strip, lower-case) all eight before the loop rather than reading one per level.
  Answers after the stop level are never consulted, so the outcome is the same. End of
  input on stdin is not modelled.
- Opening and reading `ips.txt`, and opening and writing `results.txt`, are not modelled.
  The input file is given as its lines; the report is the sequence of strings passed to
  `file.write`.
- The CSV branch (`pandas.DataFrame.to_csv`, lines 86-87) is a foreign library call and is
  not modelled. `Report.ChooseFormat` only selects it.
- Scanner.EstimatedScore: floating point is not modelled. The estimate is kept as the exact
  value `level * 1250` hundredths. The float `round((level / 8) * 100, 2)` equals it for the
  levels 1..8 that `main` scans, and for every level of magnitude below 2^48. Beyond that
  a double cannot hold `level * 12.5` exactly, and the model does not capture the rounding.
- `Report.ScoreText` writes an estimate as digits, a point and one or two digits. This
  matches Python's float `repr` only while a double holds the score's hundredths exactly.
  Very large magnitudes are rounded, and from 10^16 on they are written in exponent
  notation. Estimates from levels 1..8 are at most 100.
- `Text.Lower` lower-cases ASCII letters only. Python's full Unicode `lower()` differs
  only on non-ASCII letters. No non-ASCII character lower-cases to any of the letters of
  `no`, `yes`, `txt` or `csv`, so the program's comparisons give the same answers.
