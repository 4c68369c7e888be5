/** The driver (`main`, main.py lines 89-110): the key prompt decides the mode, then
    the levels are scanned in the order 1, 2, ... up to 8, asking after each level
    whether to go on. The prompts' answers, the input file's lines, each level's
    download and each level's gathered lookup outcomes are parameters. */
module Orchestrator {
  import opened Text
  import opened Sequences
  import opened Blocklist
  import opened Scanner

  /** The API key `main` keeps from the first answer: the stripped answer, or None when
      it reads "no" in any letter case. */
  function ApiKeyFromAnswer(answer: string): (apiKey: Option<string>)
    ensures apiKey.None? <==> Lower(Strip(answer)) == "no"
    ensures apiKey.Some? ==> apiKey.value == Strip(answer)
  {
    var key := Strip(answer);
    if Lower(key) == "no" then None else Some(key)
  }

  /** Keyed mode holds exactly when the stripped answer is non-empty and does not read
      "no": an empty answer leaves `api_key` as '' and every truthiness test fails. */
  lemma KeyedModeIff(answer: string)
    ensures Keyed(ApiKeyFromAnswer(answer)) <==> Strip(answer) != [] && Lower(Strip(answer)) != "no"
  {
  }

  /** `continue_scanning`: the answer to "continue with the next level?", stripped and
      lower-cased. */
  function Reply(answer: string): string {
    Lower(Strip(answer))
  }

  /** The loop goes on after a level only when the reply is exactly `yes`. */
  predicate Proceeds(answer: string) {
    Reply(answer) == "yes"
  }

  /** The replies to the eight continue prompts. */
  function Replies(answers: seq<string>): (replies: seq<string>)
    ensures |replies| == |answers|
  {
    seq(|answers|, i requires 0 <= i < |answers| => Reply(answers[i]))
  }

  /** The download of one level's list: its lines, or a failure (`raise_for_status` or a
      network error), which `main` does not catch. */
  datatype Page = Page(lines: seq<string>) | Unavailable

  /** How a run ends: all results after scanning `levelsScanned` levels, or the
      exception of the level whose download failed, which ends the program. */
  datatype Run = Finished(results: seq<Record>, levelsScanned: nat) | Aborted(level: int)

  /** The downloads of levels 1..n all succeeded. */
  predicate Downloaded(pages: seq<Page>, n: int)
    requires 0 <= n <= |pages|
  {
    forall i :: 0 <= i < n ==> pages[i].Page?
  }

  /** One more successful download extends the run of successes; a failed one ends it. */
  lemma DownloadedStep(pages: seq<Page>, n: int)
    requires 0 <= n < |pages| && Downloaded(pages, n)
    ensures Downloaded(pages, n + 1) <==> pages[n].Page?
  {
  }

  /** A failed download among levels 1..m means they did not all succeed. */
  lemma FailureBreaksDownloaded(pages: seq<Page>, n: int, m: int)
    requires 0 <= n < m <= |pages| && pages[n].Unavailable?
    ensures !Downloaded(pages, m)
  {
  }

  /** The last level scanned when every download succeeds, starting from `from`: the
      first level whose reply is not `yes`, or 8. */
  function StopFrom(replies: seq<string>, from: int): (k: int)
    requires |replies| == 8 && 1 <= from <= 8
    ensures from <= k <= 8
    decreases 8 - from
  {
    if from == 8 || replies[from - 1] != "yes" then from else StopFrom(replies, from + 1)
  }

  /** Every level from `from` up to the one before the stop was answered `yes`, and the
      stop is level 8 or a level whose reply is not `yes`. */
  lemma {:induction false} StopFromReplies(replies: seq<string>, from: int)
    requires |replies| == 8 && 1 <= from <= 8
    ensures forall i :: from - 1 <= i < StopFrom(replies, from) - 1 ==> replies[i] == "yes"
    ensures StopFrom(replies, from) < 8 ==> replies[StopFrom(replies, from) - 1] != "yes"
    decreases 8 - from
  {
    if from < 8 && replies[from - 1] == "yes" {
      StopFromReplies(replies, from + 1);
    }
  }

  /** The last level the loop scans when every download succeeds. */
  function StopLevel(replies: seq<string>): (k: int)
    requires |replies| == 8
    ensures 1 <= k <= 8
  {
    StopFrom(replies, 1)
  }

  /** Scanning goes on after a level reached before the last one exactly when its
      reply is `yes`. */
  lemma StopLevelStep(replies: seq<string>, level: int)
    requires |replies| == 8 && 1 <= level <= StopLevel(replies)
    ensures level < StopLevel(replies) <==> level < 8 && replies[level - 1] == "yes"
  {
    StopFromReplies(replies, 1);
  }

  /** In terms of the raw answers: the loop goes on past every level before the stop,
      each answered `yes`, and stops because it reached level 8 or the answer there is
      not `yes`. */
  lemma StopLevelAnswers(answers: seq<string>)
    requires |answers| == 8
    ensures forall i :: 0 <= i < StopLevel(Replies(answers)) - 1 ==> Proceeds(answers[i])
    ensures StopLevel(Replies(answers)) < 8 ==> !Proceeds(answers[StopLevel(Replies(answers)) - 1])
  {
    var replies := Replies(answers);
    StopFromReplies(replies, 1);
    forall i | 0 <= i < 8 ensures Proceeds(answers[i]) <==> replies[i] == "yes" {
      assert replies[i] == Reply(answers[i]);
    }
  }

  /** These two facts pin the stop level down: the answers before it are all `yes`,
      and it is 8 or its own answer is not `yes`. */
  lemma StopLevelUnique(answers: seq<string>, k: int)
    requires |answers| == 8 && 1 <= k <= 8
    requires forall i :: 0 <= i < k - 1 ==> Proceeds(answers[i])
    requires k < 8 ==> !Proceeds(answers[k - 1])
    ensures StopLevel(Replies(answers)) == k
  {
    StopLevelAnswers(answers);
  }

  /** The results of scanning level `level`, whose download succeeded. */
  function LevelBatch(level: int, ips: seq<string>, apiKey: Option<string>, pages: seq<Page>,
                      lookups: seq<seq<Response>>): seq<Record>
    requires 1 <= level <= 8 && |pages| == 8 && |lookups| == 8 && pages[level - 1].Page?
  {
    ScanResults(level, ips, ParseBlocklist(pages[level - 1].lines), apiKey, lookups[level - 1])
  }

  /** `all_results` after levels 1..k: their batches concatenated in level order. */
  function Collected(k: int, ips: seq<string>, apiKey: Option<string>, pages: seq<Page>,
                     lookups: seq<seq<Response>>): seq<Record>
    requires 0 <= k <= 8 && |pages| == 8 && |lookups| == 8 && Downloaded(pages, k)
  {
    if k == 0 then []
    else Collected(k - 1, ips, apiKey, pages, lookups) + LevelBatch(k, ips, apiKey, pages, lookups)
  }

  /** One pass of the level loop: parse the downloaded list and scan the addresses
      against it. */
  method ScanDownloadedLevel(level: int, ips: seq<string>, apiKey: Option<string>, pages: seq<Page>,
                             lookups: seq<seq<Response>>)
    returns (results: seq<Record>)
    requires 1 <= level <= 8 && |pages| == 8 && |lookups| == 8 && pages[level - 1].Page?
    requires OnePerTask(ips, ParseBlocklist(pages[level - 1].lines), apiKey, lookups[level - 1])
    ensures results == LevelBatch(level, ips, apiKey, pages, lookups)
  {
    var tier := ParseBlocklist(pages[level - 1].lines);
    var badCount, queried;
    results, badCount, queried := ScanLevel(level, ips, tier, apiKey, lookups[level - 1]);
  }

  /** Each downloaded level's gathered outcomes hold one outcome per lookup task of
      that level, as `asyncio.gather` returns them. */
  predicate GatheredPerTask(ips: seq<string>, apiKey: Option<string>, pages: seq<Page>,
                            lookups: seq<seq<Response>>)
    requires |pages| == 8 && |lookups| == 8
  {
    forall l :: 0 <= l < 8 && pages[l].Page? ==>
      OnePerTask(ips, ParseBlocklist(pages[l].lines), apiKey, lookups[l])
  }

  /** How `main` ends its level loop, for the stop level `stop` that the answers give:
      the first failed download before the stop aborts the run; otherwise the run
      finishes after `stop` levels with their batches in level order. */
  predicate Outcome(run: Run, ips: seq<string>, apiKey: Option<string>, pages: seq<Page>,
                    lookups: seq<seq<Response>>, stop: int)
    requires |pages| == 8 && |lookups| == 8 && 1 <= stop <= 8
  {
    match run
    case Aborted(level) =>
      1 <= level <= stop && pages[level - 1].Unavailable? && Downloaded(pages, level - 1)
    case Finished(results, levelsScanned) =>
      levelsScanned == stop && Downloaded(pages, stop)
      && results == Collected(stop, ips, apiKey, pages, lookups)
  }

  /** A run aborts exactly when one of the downloads up to the stop level fails. */
  lemma OutcomeAbortedIff(run: Run, ips: seq<string>, apiKey: Option<string>, pages: seq<Page>,
                          lookups: seq<seq<Response>>, stop: int)
    requires |pages| == 8 && |lookups| == 8 && 1 <= stop <= 8
    requires Outcome(run, ips, apiKey, pages, lookups, stop)
    ensures run.Aborted? <==> !Downloaded(pages, stop)
  {
    if run.Aborted? {
      FailureBreaksDownloaded(pages, run.level - 1, stop);
    }
  }

  /** The `while level <= 8` loop of `main`, given the addresses, the key and the
      replies to the continue prompts. */
  method ScanLevels(ips: seq<string>, apiKey: Option<string>, pages: seq<Page>,
                    lookups: seq<seq<Response>>, replies: seq<string>)
    returns (run: Run)
    requires |pages| == 8 && |lookups| == 8 && |replies| == 8
    requires GatheredPerTask(ips, apiKey, pages, lookups)
    ensures Outcome(run, ips, apiKey, pages, lookups, StopLevel(replies))
  {
    var allResults := [];
    var level := 1;

    while level <= 8
      invariant 1 <= level <= 9
      invariant Downloaded(pages, level - 1)
      invariant level <= 8 ==> level <= StopLevel(replies)
      invariant level == 9 ==> StopLevel(replies) == 8
      invariant allResults == Collected(level - 1, ips, apiKey, pages, lookups)
      decreases 9 - level
    {
      DownloadedStep(pages, level - 1);
      if pages[level - 1].Unavailable? {
        return Aborted(level);
      }
      var results := ScanDownloadedLevel(level, ips, apiKey, pages, lookups);
      allResults := allResults + results;

      var continueScanning := replies[level - 1];
      StopLevelStep(replies, level);
      if continueScanning != "yes" {
        return Finished(allResults, level);
      }
      level := level + 1;
    }
    run := Finished(allResults, 8);
  }

  /** `main` up to the output-format prompt: the key prompt, the input file, then the
      level loop. */
  method RunScan(keyAnswer: string, ipLines: seq<string>, pages: seq<Page>,
                 lookups: seq<seq<Response>>, answers: seq<string>)
    returns (run: Run)
    requires |pages| == 8 && |lookups| == 8 && |answers| == 8
    requires GatheredPerTask(ReadIps(ipLines), ApiKeyFromAnswer(keyAnswer), pages, lookups)
    ensures Outcome(run, ReadIps(ipLines), ApiKeyFromAnswer(keyAnswer), pages, lookups,
                    StopLevel(Replies(answers)))
  {
    var apiKey := ApiKeyFromAnswer(keyAnswer);
    var ips := ReadIps(ipLines);
    run := ScanLevels(ips, apiKey, pages, lookups, Replies(answers));
  }

  /** Every record of a level's batch carries that level. */
  lemma BatchLevel(level: int, ips: seq<string>, apiKey: Option<string>, pages: seq<Page>,
                   lookups: seq<seq<Response>>)
    requires 1 <= level <= 8 && |pages| == 8 && |lookups| == 8 && pages[level - 1].Page?
    ensures forall r :: r in LevelBatch(level, ips, apiKey, pages, lookups) ==> r.level == level
  {
    var tier, responses := ParseBlocklist(pages[level - 1].lines), lookups[level - 1];
    PairedRecords(level, ips, responses, ZipLength(ips, responses));
  }

  /** Without a key every record `main` collects up to level `k` is an estimate, so
      no record of an unkeyed run carries the `N/A` marker or a reported score. */
  lemma {:induction false} UnkeyedCollectedAllEstimates(k: int, ips: seq<string>, apiKey: Option<string>,
                                                        pages: seq<Page>, lookups: seq<seq<Response>>)
    requires 0 <= k <= 8 && |pages| == 8 && |lookups| == 8 && Downloaded(pages, k)
    requires !Keyed(apiKey)
    ensures forall i :: 0 <= i < |Collected(k, ips, apiKey, pages, lookups)| ==>
              Collected(k, ips, apiKey, pages, lookups)[i].score.Estimate?
  {
    if k > 0 {
      UnkeyedCollectedAllEstimates(k - 1, ips, apiKey, pages, lookups);
      UnkeyedScan(k, ips, ParseBlocklist(pages[k - 1].lines), apiKey, lookups[k - 1]);
      var prev, batch := Collected(k - 1, ips, apiKey, pages, lookups), LevelBatch(k, ips, apiKey, pages, lookups);
      var all := prev + batch;
      assert all == Collected(k, ips, apiKey, pages, lookups);
      forall i | 0 <= i < |all| ensures all[i].score.Estimate? {
        if i >= |prev| {
          assert all[i] == batch[i - |prev|];
        }
      }
    }
  }

  /** Records whose levels lie in 1..k and never decrease along the list. */
  predicate InLevelOrder(rs: seq<Record>, k: int) {
    && (forall i :: 0 <= i < |rs| ==> 1 <= rs[i].level <= k)
    && (forall i, j :: 0 <= i <= j < |rs| ==> rs[i].level <= rs[j].level)
  }

  /** `all_results` is in level order: its records' levels never decrease along the
      list and stay within 1..k. */
  lemma {:induction false} CollectedInLevelOrder(k: int, ips: seq<string>, apiKey: Option<string>,
                                                 pages: seq<Page>, lookups: seq<seq<Response>>)
    requires 0 <= k <= 8 && |pages| == 8 && |lookups| == 8 && Downloaded(pages, k)
    ensures InLevelOrder(Collected(k, ips, apiKey, pages, lookups), k)
  {
    if k > 0 {
      CollectedInLevelOrder(k - 1, ips, apiKey, pages, lookups);
      BatchLevel(k, ips, apiKey, pages, lookups);
      var prev, batch := Collected(k - 1, ips, apiKey, pages, lookups), LevelBatch(k, ips, apiKey, pages, lookups);
      var all := prev + batch;
      assert all == Collected(k, ips, apiKey, pages, lookups);
      forall i | 0 <= i < |all|
        ensures if i < |prev| then 1 <= all[i].level <= k - 1 else all[i].level == k
      {
        if i < |prev| {
          assert all[i] == prev[i];
        } else {
          assert all[i] == batch[i - |prev|];
          assert batch[i - |prev|] in batch;
        }
      }
      forall i, j | 0 <= i <= j < |all| ensures all[i].level <= all[j].level {
        if i < |prev| && j < |prev| {
          assert all[i] == prev[i] && all[j] == prev[j];
        }
      }
    }
  }
}
