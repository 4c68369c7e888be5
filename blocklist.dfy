/** Reading address lists: one IPsum level's published text (`fetch_ipsum_list`,
    main.py line 25) and the local input file (`read_ips_from_file`, line 16).
    The HTTP request and the file read are not modelled; both start here from
    the lines they produced. */
module Blocklist {
  import opened Text

  /** Python's `line.startswith('#')`, tested on the line before stripping. */
  predicate IsComment(line: string) {
    |line| > 0 && line[0] == '#'
  }

  /** A line of a level file names an address when it is not blank after stripping
      and its raw form does not start with `#`. */
  predicate Kept(line: string) {
    Strip(line) != [] && !IsComment(line)
  }

  /** The set of addresses one IPsum level names: the stripped form of every kept line. */
  function ParseBlocklist(lines: seq<string>): (tier: set<string>)
    ensures forall line :: line in lines && Kept(line) ==> Strip(line) in tier
  {
    set line | line in lines && Kept(line) :: Strip(line)
  }

  /** Every address of a level is non-empty, is its own strip, and comes from a line
      that is neither blank nor a comment. */
  lemma ParsedAddressesAreStripped(lines: seq<string>, x: string)
    requires x in ParseBlocklist(lines)
    ensures x != [] && Strip(x) == x
    ensures exists line :: line in lines && Kept(line) && Strip(line) == x
  {
    var line :| line in lines && Kept(line) && Strip(line) == x;
    StripIdempotent(line);
  }

  /** A line is dropped exactly when it is all whitespace or its raw form starts with `#`. */
  lemma KeptIff(line: string)
    ensures Kept(line) <==> !AllSpace(line) && !IsComment(line)
  {
    StripEmptyIffBlank(line);
  }

  /** The comment test looks at the raw line, so an indented `#` line is kept, stripped. */
  lemma IndentedCommentIsKept()
    ensures ParseBlocklist(["  # x"]) == {"# x"}
  {
    var line := "  # x";
    assert !IsSpace(line[2]);
    assert TrimStart(line[1..][1..]) == "# x";
    assert TrimStart(line) == "# x";
    assert !IsSpace("# x"[2]);
    assert Strip(line) == "# x";
  }

  /** Python's `[line.strip() for line in file.readlines()]`: one stripped entry per
      line, blank lines included (they become empty strings). */
  function ReadIps(lines: seq<string>): (ips: seq<string>)
    ensures |ips| == |lines|
    ensures forall i :: 0 <= i < |lines| ==> ips[i] == Strip(lines[i])
  {
    seq(|lines|, i requires 0 <= i < |lines| => Strip(lines[i]))
  }

  /** Every entry read from the input file is its own strip; blank lines give "". */
  lemma ReadIpsAreStripped(lines: seq<string>, i: int)
    requires 0 <= i < |lines|
    ensures Strip(ReadIps(lines)[i]) == ReadIps(lines)[i]
    ensures ReadIps(lines)[i] == [] <==> AllSpace(lines[i])
  {
    StripIdempotent(lines[i]);
    StripEmptyIffBlank(lines[i]);
  }
}
