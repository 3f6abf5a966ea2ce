/**
 * GitLogParser: the subject lines of `git log` reduced to the issue node ids
 * they name, and the sanitising of a project directory name. Running git is
 * not modelled: the raw log is given to the constructor.
 */
module GitLog {
  import opened Base
  import opened Text

  /** The longest run of decimal digits at the front of a string, as a greedy `[0-9]+` takes it. */
  function DigitRun(s: string): (r: string)
    ensures |r| <= |s| && r == s[..|r|]
    ensures forall i :: 0 <= i < |r| ==> IsDigit(r[i])
    ensures |r| == |s| || !IsDigit(s[|r|])
    decreases |s|
  {
    if |s| == 0 || !IsDigit(s[0]) then ""
    else [s[0]] + DigitRun(s[1..])
  }

  const IssuePrefix: string := "Issue #"

  /** The line starts with "Issue #". */
  predicate StartsWithIssue(line: string)
  {
    |line| >= |IssuePrefix| && line[..|IssuePrefix|] == IssuePrefix
  }

  /**
   * preg_match('/^Issue #([0-9]+)/', $line): the node id is the whole digit
   * run after "Issue #" at the start of the line; a line without one
   * contributes nothing.
   */
  function IssueNid(line: string): (r: Option<string>)
    ensures r.Some? <==> StartsWithIssue(line) && |line| > |IssuePrefix| && IsDigit(line[|IssuePrefix|])
    ensures r.Some? ==> IsDigits(r.value) && |IssuePrefix| + |r.value| <= |line|
    ensures r.Some? ==> line[..|IssuePrefix| + |r.value|] == IssuePrefix + r.value
    ensures r.Some? ==> |line| == |IssuePrefix| + |r.value| || !IsDigit(line[|IssuePrefix| + |r.value|])
  {
    if !StartsWithIssue(line) then None
    else
      var run := DigitRun(line[|IssuePrefix|..]);
      if |run| == 0 then None
      else
        assert line == IssuePrefix + line[|IssuePrefix|..];
        Some(run)
  }

  /** The node ids of a list of lines, in line order. */
  function NidsOf(lines: seq<string>): seq<string>
  {
    if |lines| == 0 then []
    else
      var init := NidsOf(lines[..|lines| - 1]);
      match IssueNid(lines[|lines| - 1])
      case Some(n) => init + [n]
      case None => init
  }

  /** Lines contribute their node ids in order: the ids of a concatenation are the concatenated ids. */
  lemma {:induction false} NidsOfAppend(a: seq<string>, b: seq<string>)
    ensures NidsOf(a + b) == NidsOf(a) + NidsOf(b)
    decreases |b|
  {
    if |b| == 0 {
      assert a + b == a;
    } else {
      var b' := b[..|b| - 1];
      NidsOfAppend(a, b');
      assert (a + b)[..|a + b| - 1] == a + b';
      assert (a + b)[|a + b| - 1] == b[|b| - 1];
    }
  }

  /** Every node id is a non-empty run of digits, and each one comes from some line. */
  lemma {:induction false} NidsOfDigits(lines: seq<string>)
    ensures forall k :: 0 <= k < |NidsOf(lines)| ==> IsDigits(NidsOf(lines)[k])
    ensures forall n :: n in NidsOf(lines) ==> exists j :: 0 <= j < |lines| && IssueNid(lines[j]) == Some(n)
    ensures |NidsOf(lines)| <= |lines|
    decreases |lines|
  {
    if |lines| > 0 {
      var init := lines[..|lines| - 1];
      NidsOfDigits(init);
      forall n | n in NidsOf(lines)
        ensures exists j :: 0 <= j < |lines| && IssueNid(lines[j]) == Some(n)
      {
        if n in NidsOf(init) {
          var j :| 0 <= j < |init| && IssueNid(init[j]) == Some(n);
          assert lines[j] == init[j];
        } else {
          assert IssueNid(lines[|lines| - 1]) == Some(n);
        }
      }
    }
  }

  /** A line that names no issue contributes nothing. */
  lemma NidsOfSkips(lines: seq<string>, line: string)
    requires IssueNid(line).None?
    ensures NidsOf(lines + [line]) == NidsOf(lines)
  {
    assert (lines + [line])[..|lines|] == lines;
  }

  /** After "Issue #", the node id is the whole digit run, whatever follows it. */
  lemma IssueNidOf(digits: string, rest: string)
    requires IsDigits(digits) && (|rest| == 0 || !IsDigit(rest[0]))
    ensures IssueNid(IssuePrefix + digits + rest) == Some(digits)
  {
    var line := IssuePrefix + digits + rest;
    assert line[..|IssuePrefix|] == IssuePrefix;
    assert line[|IssuePrefix|..] == digits + rest;
    DigitRunOf(digits, rest);
  }

  lemma {:induction false} DigitRunOf(digits: string, rest: string)
    requires forall i :: 0 <= i < |digits| ==> IsDigit(digits[i])
    requires |rest| == 0 || !IsDigit(rest[0])
    ensures DigitRun(digits + rest) == digits
    decreases |digits|
  {
    if |digits| > 0 {
      assert (digits + rest)[1..] == digits[1..] + rest;
      DigitRunOf(digits[1..], rest);
    } else {
      assert digits + rest == rest;
    }
  }

  /** "Issue #123 by al" names node 123. */
  lemma IssueNidExample()
    ensures IssueNid("Issue #123 by al") == Some("123")
  {
    IssueNidOf("123", " by al");
    assert IssuePrefix + "123" + " by al" == "Issue #123 by al";
  }

  /** A line that does not start with "Issue #" names no issue, even if it mentions one later. */
  lemma IssueNidNotAtStart()
    ensures IssueNid("Revert \"Issue #123 by alice\"") == None
  {
    var line := "Revert \"Issue #123 by alice\"";
    assert line[0] != IssuePrefix[0];
  }

  /**
   * sanitizeDirectoryName: characters of `[A-Za-z0-9_-]` stay and every
   * other one becomes '_', once per UTF-8 byte; on ASCII names the length
   * is kept and the replacement is positional.
   */
  function SanitizeDirectoryName(directory: string): (r: string)
    ensures |r| >= |directory|
    ensures forall i :: 0 <= i < |r| ==> IsFileNameChar(r[i])
    ensures IsAscii(directory) ==> |r| == |directory|
    ensures IsAscii(directory) ==> forall i :: 0 <= i < |r| ==> r[i] == (if IsFileNameChar(directory[i]) then directory[i] else '_')
  {
    var r := ReplaceDisallowed(directory);
    ReplaceDisallowedLength(directory);
    ReplaceDisallowedClean(directory);
    ReplaceDisallowedAscii(directory);
    r
  }

  /** Sanitising twice equals sanitising once, and a clean name is kept. */
  lemma SanitizeDirectoryNameIdempotent(directory: string)
    ensures SanitizeDirectoryName(SanitizeDirectoryName(directory)) == SanitizeDirectoryName(directory)
    ensures (forall i :: 0 <= i < |directory| ==> IsFileNameChar(directory[i])) ==> SanitizeDirectoryName(directory) == directory
  {
    ReplaceDisallowedClean(directory);
    if forall i :: 0 <= i < |directory| ==> IsFileNameChar(directory[i]) {
      ReplaceDisallowedIdentity(directory);
    }
  }

  /** GitLogParser, over a raw log given in place of the git command's output. */
  class GitLogParser {
    const rawLog: string
    var nids: seq<string>

    /** The constructor parses the log; where the source throws on an empty log, nids stays empty. */
    constructor (rawLog: string)
      ensures this.rawLog == rawLog
      ensures !IsEmptyString(rawLog) ==> nids == NidsOf(Split(rawLog, '\n'))
      ensures IsEmptyString(rawLog) ==> nids == []
    {
      this.rawLog := rawLog;
      nids := [];
      new;
      var _ := ParseLog();
    }

    /**
     * parseLog: an empty log ("" or "0") is an error; otherwise each line
     * that starts with "Issue #" and digits contributes those digits, in
     * line order.
     */
    method ParseLog() returns (o: Outcome)
      modifies this`nids
      ensures o.Fail? <==> IsEmptyString(rawLog)
      ensures o.Fail? ==> o.error == EmptyLog && nids == old(nids)
      ensures o.Pass? ==> nids == NidsOf(Split(rawLog, '\n'))
    {
      if IsEmptyString(rawLog) {
        return Fail(EmptyLog);
      }
      var commits := Split(rawLog, '\n');
      var found: seq<string> := [];
      for i := 0 to |commits|
        invariant found == NidsOf(commits[..i])
      {
        var m := IssueNid(commits[i]);
        assert commits[..i + 1][..i] == commits[..i];
        if m.Some? {
          found := found + [m.value];
        }
      }
      assert commits[..|commits|] == commits;
      nids := found;
      o := Pass;
    }

    /** getNids: array_unique of the node ids, so no duplicates and the same ids. */
    function GetNids(): (r: seq<string>)
      reads this
      ensures NoDuplicates(r)
      ensures forall n :: n in r <==> n in nids
      ensures |nids| > 0 ==> |r| > 0 && r[0] == nids[0]
    {
      if |nids| > 0 then DedupeHead(nids); Dedupe(nids) else Dedupe(nids)
    }
  }
}
