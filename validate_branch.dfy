/**
 * Branch-name validation and conversion between git format (9.4.x) and
 * issue-queue format (9.4.x-dev), as ValidateBranchTrait and
 * ImmutableIssueMetadata::validateBranch do it.
 *
 * The check is the regex `([0-9])+\.([0-9])+\.x(\-dev)?\z`: it is anchored at
 * the end only, so any text may precede the match, and each `([0-9])+` group
 * captures only the LAST digit of its run.
 */
module ValidateBranch {
  import opened Base
  import opened Text

  /** A successful match of the branch regex: the unmatched prefix, capture 1, the second digit run, capture 3. */
  datatype BranchMatch = BranchMatch(prefix: string, majorDigit: char, minorDigits: string, dev: bool)

  function DevSuffix(dev: bool): string
  {
    if dev then "-dev" else ""
  }

  /** The text a match accounts for: the prefix followed by the matched suffix. */
  function Matched(m: BranchMatch): string
  {
    m.prefix + [m.majorDigit] + "." + m.minorDigits + ".x" + DevSuffix(m.dev)
  }

  predicate WellFormed(m: BranchMatch)
  {
    IsDigit(m.majorDigit) && IsDigits(m.minorDigits)
  }

  predicate HasDevSuffix(s: string)
  {
    |s| >= 4 && s[|s| - 4..] == "-dev"
  }

  /** Length of the run of digits at the end of s. */
  function TrailingDigits(s: string): (n: nat)
    ensures n <= |s|
    ensures forall i :: |s| - n <= i < |s| ==> IsDigit(s[i])
    ensures n < |s| ==> !IsDigit(s[|s| - n - 1])
    decreases |s|
  {
    if |s| == 0 || !IsDigit(s[|s| - 1]) then 0 else TrailingDigits(s[..|s| - 1]) + 1
  }

  /** The regex on the text before ".x": a digit run preceded by a dot preceded by a digit. */
  function MatchBeforeX(core: string, dev: bool): (m: Option<BranchMatch>)
    ensures m.Some? ==> WellFormed(m.value) && m.value.dev == dev
    ensures m.Some? ==> m.value.prefix + [m.value.majorDigit] + "." + m.value.minorDigits == core
  {
    var n := TrailingDigits(core);
    if n == 0 || n + 2 > |core| || core[|core| - n - 1] != '.' || !IsDigit(core[|core| - n - 2]) then None
    else
      var m := BranchMatch(core[..|core| - n - 2], core[|core| - n - 2], core[|core| - n..], dev);
      assert core == m.prefix + [m.majorDigit] + "." + m.minorDigits;
      Some(m)
  }

  /** preg_match of the branch regex: the captures, or None when the string does not match. */
  function MatchBranch(s: string): (m: Option<BranchMatch>)
    ensures m.Some? ==> WellFormed(m.value) && Matched(m.value) == s
  {
    if |s| >= 6 && s[|s| - 6..] == ".x-dev" then
      assert s == s[..|s| - 6] + ".x" + DevSuffix(true);
      MatchBeforeX(s[..|s| - 6], true)
    else if |s| >= 2 && s[|s| - 2..] == ".x" then
      assert s == s[..|s| - 2] + ".x" + DevSuffix(false);
      MatchBeforeX(s[..|s| - 2], false)
    else None
  }

  lemma {:induction false} TrailingDigitsAfterDot(a: string, d: string)
    requires forall i :: 0 <= i < |d| ==> IsDigit(d[i])
    ensures TrailingDigits(a + "." + d) == |d|
    decreases |d|
  {
    var s := a + "." + d;
    if |d| > 0 {
      assert s[..|s| - 1] == a + "." + d[..|d| - 1];
      TrailingDigitsAfterDot(a, d[..|d| - 1]);
    }
  }

  /** How the regex takes apart the text before ".x": the second run, its dot, capture 1 and the rest. */
  lemma CoreParts(pre: string, c: char, d2: string, dev: bool)
    requires IsDigit(c) && IsDigits(d2)
    ensures MatchBeforeX(pre + [c] + "." + d2, dev) == Some(BranchMatch(pre, c, d2, dev))
  {
    var core := pre + [c] + "." + d2;
    TrailingDigitsAfterDot(pre + [c], d2);
    assert core[|core| - |d2|..] == d2;
    assert core[..|core| - |d2| - 2] == pre;
  }

  /** The suffix test of the regex on a text that ends in ".x" or ".x-dev". */
  lemma SuffixParts(core: string, dev: bool)
    ensures var s := core + ".x" + DevSuffix(dev);
      && (|s| >= 6 && s[|s| - 6..] == ".x-dev" <==> dev)
      && (dev ==> s[..|s| - 6] == core)
      && (!dev ==> |s| >= 2 && s[|s| - 2..] == ".x" && s[..|s| - 2] == core)
  {
    var s := core + ".x" + DevSuffix(dev);
    if dev {
      assert s[|s| - 6..] == ".x-dev";
      assert s[..|s| - 6] == core;
    } else {
      assert s == core + ".x";
      assert s[|s| - 2..] == ".x";
      assert s[..|s| - 2] == core;
      if |s| >= 6 { assert s[|s| - 1] == 'x'; }
    }
  }

  /**
   * Every string that ends in <digits>.<digits>.x, optionally followed by -dev,
   * matches, and the captures are the last digit of each run.
   */
  lemma MatchBranchComplete(p: string, d1: string, d2: string, dev: bool)
    requires IsDigits(d1) && IsDigits(d2)
    ensures MatchBranch(p + d1 + "." + d2 + ".x" + DevSuffix(dev))
            == Some(BranchMatch(p + d1[..|d1| - 1], d1[|d1| - 1], d2, dev))
  {
    var pre := p + d1[..|d1| - 1];
    var c := d1[|d1| - 1];
    assert p + d1 == pre + [c];
    var core := pre + [c] + "." + d2;
    assert p + d1 + "." + d2 + ".x" + DevSuffix(dev) == core + ".x" + DevSuffix(dev);
    SuffixParts(core, dev);
    CoreParts(pre, c, d2, dev);
  }

  /** The match records whether the string carries the -dev suffix. */
  lemma MatchDev(s: string)
    requires MatchBranch(s).Some?
    ensures MatchBranch(s).value.dev <==> HasDevSuffix(s)
  {
    var m := MatchBranch(s).value;
    if !m.dev {
      assert s[|s| - 1] == 'x';
    } else {
      assert s[|s| - 4..] == "-dev";
    }
  }

  /** ImmutableIssueMetadata::validateBranch: the regex check, then the conversion to the requested format. */
  function ValidateBranch(branch: string, issueFormat: bool): (r: Result<string>)
    ensures r.Err? <==> MatchBranch(branch).None?
    ensures r.Err? ==> r.error == InvalidBranchFormat(branch)
    ensures r.Ok? && issueFormat ==> HasDevSuffix(r.value)
    ensures r.Ok? && (issueFormat <==> HasDevSuffix(branch)) ==> r.value == branch
    ensures r.Ok? && !issueFormat && HasDevSuffix(branch) ==> |r.value| == 3 && r.value[1] == '.'
  {
    match MatchBranch(branch)
    case None => Err(InvalidBranchFormat(branch))
    case Some(m) =>
      MatchDev(branch);
      if m.dev then
        if !issueFormat then Ok([m.majorDigit, '.', m.minorDigits[|m.minorDigits| - 1]]) else Ok(branch)
      else if issueFormat then Ok(branch + "-dev")
      else Ok(branch)
  }

  /** The rolling next-major branch that core accepts without the regex. */
  predicate IsNextMajor(branch: string)
  {
    branch == "11.x" || branch == "11.x-dev"
  }

  /** ValidateBranchTrait::validateCoreBranch: the 11.x special case for core, then the regex path. */
  function ValidateCoreBranch(branch: string, issueFormat: bool, core: bool): (r: Result<string>)
    ensures r.Err? <==> !(core && IsNextMajor(branch)) && MatchBranch(branch).None?
    ensures core && IsNextMajor(branch) ==> r == Ok(if issueFormat then "11.x-dev" else "11.x")
    ensures r.Ok? && issueFormat ==> HasDevSuffix(r.value)
    ensures r.Ok? && (issueFormat <==> HasDevSuffix(branch)) ==> r.value == branch
  {
    if core && IsNextMajor(branch) then Ok(if issueFormat then "11.x-dev" else "11.x")
    else ValidateBranch(branch, issueFormat)
  }

  /** Without the core flag, validateCoreBranch is validateBranch. */
  lemma CoreFlagOff(branch: string, issueFormat: bool)
    ensures ValidateCoreBranch(branch, issueFormat, false) == ValidateBranch(branch, issueFormat)
  {
  }

  /** validateBranch has no 11.x special case, so it rejects 11.x in either format. */
  lemma NextMajorRejected(issueFormat: bool)
    ensures ValidateBranch("11.x", issueFormat) == Err(InvalidBranchFormat("11.x"))
    ensures ValidateBranch("11.x-dev", issueFormat) == Err(InvalidBranchFormat("11.x-dev"))
  {
    assert TrailingDigits("11") == 2 by {
      assert "11"[..1] == "1";
      assert "1"[..0] == "";
    }
  }

  /** A git-format branch requested in issue format gains the -dev suffix. */
  lemma IssueFormatAppendsDev(branch: string, core: bool)
    requires ValidateCoreBranch(branch, false, core).Ok?
    requires !HasDevSuffix(branch) && !(core && IsNextMajor(branch))
    ensures ValidateCoreBranch(branch, true, core) == Ok(branch + "-dev")
  {
    MatchDev(branch);
  }

  /** A git-format branch with -dev appended still matches the pattern. */
  lemma DevFormMatches(branch: string)
    requires MatchBranch(branch).Some? && !MatchBranch(branch).value.dev
    ensures MatchBranch(branch + "-dev").Some?
  {
    var m := MatchBranch(branch).value;
    assert branch + "-dev" == m.prefix + [m.majorDigit] + "." + m.minorDigits + ".x" + DevSuffix(true);
    MatchBranchComplete(m.prefix, [m.majorDigit], m.minorDigits, true);
  }

  /** Converting to issue format twice is converting once. */
  lemma IssueFormatIdempotent(branch: string, core: bool)
    requires ValidateCoreBranch(branch, true, core).Ok?
    ensures ValidateCoreBranch(ValidateCoreBranch(branch, true, core).value, true, core)
            == ValidateCoreBranch(branch, true, core)
  {
    if !(core && IsNextMajor(branch)) {
      MatchDev(branch);
      if !MatchBranch(branch).value.dev {
        DevFormMatches(branch);
      }
    }
  }

  /**
   * As written, a -dev branch requested in git format comes back as the last
   * digit of each run joined by a dot: 9.4.x-dev gives 9.4 and 10.0.x-dev
   * gives 0.0, not the 9.4.x and 10.0.x that the doc comment describes.
   */
  lemma GitFormatKeepsLastDigits(p: string, d1: string, d2: string, core: bool)
    requires IsDigits(d1) && IsDigits(d2)
    requires !(core && IsNextMajor(p + d1 + "." + d2 + ".x-dev"))
    ensures ValidateCoreBranch(p + d1 + "." + d2 + ".x-dev", false, core)
            == Ok([d1[|d1| - 1], '.', d2[|d2| - 1]])
  {
    MatchBranchComplete(p, d1, d2, true);
    assert p + d1 + "." + d2 + ".x" + DevSuffix(true) == p + d1 + "." + d2 + ".x-dev";
  }

  /** The documented example 9.4.x-dev, as the code converts it to git format. */
  lemma GitFormatExample94()
    ensures ValidateCoreBranch("9.4.x-dev", false, true) == Ok("9.4")
  {
    assert "" + "9" + "." + "4" + ".x-dev" == "9.4.x-dev";
    GitFormatKeepsLastDigits("", "9", "4", true);
  }

  /** The 10.0.x-dev branch converts to git format as 0.0. */
  lemma GitFormatExample100()
    ensures ValidateCoreBranch("10.0.x-dev", false, true) == Ok("0.0")
  {
    assert "" + "10" + "." + "0" + ".x-dev" == "10.0.x-dev";
    GitFormatKeepsLastDigits("", "10", "0", true);
  }

  /** Removing the -dev suffix from a matching branch leaves a matching branch without it. */
  lemma StripDev(s: string)
    requires MatchBranch(s).Some? && HasDevSuffix(s)
    ensures MatchBranch(s[..|s| - 4]).Some? && !HasDevSuffix(s[..|s| - 4])
  {
    var m := MatchBranch(s).value;
    MatchDev(s);
    var t := m.prefix + [m.majorDigit] + "." + m.minorDigits + ".x";
    assert s == t + "-dev";
    assert s[..|s| - 4] == t;
    assert t == m.prefix + [m.majorDigit] + "." + m.minorDigits + ".x" + DevSuffix(false);
    MatchBranchComplete(m.prefix, [m.majorDigit], m.minorDigits, false);
    MatchDev(t);
  }

  /**
   * The conversion the doc comment describes: issue format appends -dev and
   * git format strips it, with the same 11.x special case and the same regex check.
   */
  function IntendedCoreBranch(branch: string, issueFormat: bool, core: bool): (r: Result<string>)
    ensures r.Err? <==> ValidateCoreBranch(branch, issueFormat, core).Err?
    ensures issueFormat ==> r == ValidateCoreBranch(branch, issueFormat, core)
    ensures r.Ok? && !issueFormat ==> !HasDevSuffix(r.value)
  {
    if !issueFormat && !(core && IsNextMajor(branch)) && MatchBranch(branch).Some? && HasDevSuffix(branch) then
      StripDev(branch);
      Ok(branch[..|branch| - 4])
    else ValidateCoreBranch(branch, issueFormat, core)
  }

  /** `9.4.x` in issue format is `9.4.x-dev`. */
  lemma IssueFormat94()
    ensures ValidateCoreBranch("9.4.x", true, true) == Ok("9.4.x-dev")
  {
    GitBranchToIssueFormat("9", "4", "9.4.x");
    assert "9.4.x" + "-dev" == "9.4.x-dev";
  }

  /** The intended git format of `9.4.x-dev` is `9.4.x`. */
  lemma IntendedGitFormat94()
    ensures IntendedCoreBranch("9.4.x-dev", false, true) == Ok("9.4.x")
  {
    GitFormatExample94();
    assert !IsNextMajor("9.4.x-dev");
    StripDev("9.4.x-dev");
    assert "9.4.x-dev"[..5] == "9.4.x";
  }

  /** As written, git format does not undo issue format; with the intended conversion it does. */
  lemma IssueThenGitFormat()
    ensures ValidateCoreBranch("9.4.x", true, true) == Ok("9.4.x-dev")
    ensures IntendedCoreBranch("9.4.x", true, true) == Ok("9.4.x-dev")
    ensures ValidateCoreBranch(ValidateCoreBranch("9.4.x", true, true).value, false, true) == Ok("9.4")
    ensures IntendedCoreBranch(IntendedCoreBranch("9.4.x", true, true).value, false, true) == Ok("9.4.x")
  {
    IssueFormat94();
    GitFormatExample94();
    IntendedGitFormat94();
  }

  /** With the intended conversion, issue format then git format gives back every git-format branch. */
  lemma IntendedRoundTrip(branch: string, core: bool)
    requires IntendedCoreBranch(branch, false, core) == Ok(branch)
    ensures IntendedCoreBranch(IntendedCoreBranch(branch, true, core).value, false, core) == Ok(branch)
  {
    if !(core && IsNextMajor(branch)) {
      var m := MatchBranch(branch).value;
      MatchDev(branch);
      var r := branch + "-dev";
      assert r == m.prefix + [m.majorDigit] + "." + m.minorDigits + ".x" + DevSuffix(true);
      MatchBranchComplete(m.prefix, [m.majorDigit], m.minorDigits, true);
      MatchDev(r);
      assert r[..|r| - 4] == branch;
    }
  }

  /** A plain `<digits>.<digits>.x` branch passes the core check and gains -dev in issue format. */
  lemma GitBranchToIssueFormat(d1: string, d2: string, b: string)
    requires IsDigits(d1) && IsDigits(d2) && b == d1 + "." + d2 + ".x"
    ensures ValidateCoreBranch(b, true, true) == Ok(b + "-dev")
  {
    assert "" + d1 + "." + d2 + ".x" + DevSuffix(false) == b;
    MatchBranchComplete("", d1, d2, false);
    assert !IsNextMajor(b) by {
      assert |b| >= 5 && b[|b| - 1] == 'x';
    }
  }

  /** Characters sanitizeBranch allows: `[A-Za-z0-9_./-]`. */
  predicate IsBranchNameChar(c: char)
  {
    ('A' <= c <= 'Z') || ('a' <= c <= 'z') || IsDigit(c) || c == '_' || c == '.' || c == '-' || c == '/'
  }

  /** One or more characters, all from `[A-Za-z0-9_./-]`. */
  predicate IsBranchNameBody(s: string)
  {
    |s| > 0 && forall i :: 0 <= i < |s| ==> IsBranchNameChar(s[i])
  }

  /**
   * What `/^[A-Za-z0-9_.\-\/]+$/` matches: without the D modifier, PCRE's `$`
   * also matches just before a final newline, so one trailing "\n" is allowed.
   */
  predicate AllowedBranchName(s: string)
  {
    IsBranchNameBody(s) || (|s| > 1 && s[|s| - 1] == '\n' && IsBranchNameBody(s[..|s| - 1]))
  }

  /** ValidateBranchTrait::sanitizeBranch: the name itself, or an exception. */
  function SanitizeBranch(branch: string): (r: Result<string>)
    ensures r.Ok? <==> AllowedBranchName(branch)
    ensures r.Ok? ==> r.value == branch
    ensures r.Err? ==> r.error == DisallowedBranchName(branch)
  {
    if AllowedBranchName(branch) then Ok(branch)
    else Err(DisallowedBranchName(branch))
  }

  /** The newline is the only character outside the class that can pass, and only once, at the very end. */
  lemma SanitizeBranchNewline(body: string)
    requires IsBranchNameBody(body)
    ensures SanitizeBranch(body + "\n") == Ok(body + "\n")
    ensures SanitizeBranch(body + "\n\n").Err?
    ensures SanitizeBranch("\n" + body).Err?
  {
    var once := body + "\n";
    assert once[..|once| - 1] == body;
    var twice := body + "\n\n";
    assert twice[|twice| - 2] == '\n';
    var front := "\n" + body;
    assert front[0] == '\n';
    if |front| > 1 {
      assert front[..|front| - 1][0] == '\n';
    }
  }

  /** `main` followed by a newline is returned unchanged. */
  lemma SanitizeMainNewline()
    ensures SanitizeBranch("main\n") == Ok("main\n")
  {
    assert IsBranchNameBody("main");
    SanitizeBranchNewline("main");
    assert "main" + "\n" == "main\n";
  }
}
