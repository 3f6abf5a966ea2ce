/**
 * IssueQuery: which branches may have received a fix committed to a given
 * core branch, and the presets that fill an IssueMetadata builder.
 *
 * A branch is taken as its two numbers: the model of getFixRelevantBranches
 * receives the major and the minor of a `<major>.<minor>.x` branch, whose name
 * is BranchName(major, minor).
 */
module IssueQuery {
  import opened Base
  import opened Text
  import opened Assoc
  import M = MagicIntMetadata
  import opened ValidateBranch
  import opened IssueMetadata

  /** The git-format name of a core branch, e.g. 9.4.x. */
  function BranchName(major: nat, minor: nat): (s: string)
    ensures |s| >= 5 && s[|s| - 2..] == ".x"
  {
    NatToString(major) + "." + NatToString(minor) + ".x"
  }

  /** Two rendered numbers joined by a dot determine both numbers. */
  lemma DottedInjective(a: string, b: string, c: string, d: string)
    requires IsDigits(a) && IsDigits(b) && IsDigits(c) && IsDigits(d)
    requires a + "." + b == c + "." + d
    ensures a == c && b == d
  {
    var s := a + "." + b;
    var t := c + "." + d;
    assert s[|a|] == '.' && t[|c|] == '.';
    assert |a| == |c|;
    assert a == s[..|a|] && c == t[..|c|];
    assert b == s[|a| + 1..] && d == t[|c| + 1..];
  }

  /** Branch names are distinct for distinct numbers, so an exact string test on a branch is a test on its numbers. */
  lemma BranchNameInjective(a: nat, b: nat, c: nat, d: nat)
    ensures BranchName(a, b) == BranchName(c, d) <==> a == c && b == d
  {
    if BranchName(a, b) == BranchName(c, d) {
      var s := BranchName(a, b);
      var t := NatToString(a) + "." + NatToString(b);
      var u := NatToString(c) + "." + NatToString(d);
      assert s == t + ".x" && s == u + ".x";
      assert t == s[..|s| - 2] && u == s[..|s| - 2];
      DottedInjective(NatToString(a), NatToString(b), NatToString(c), NatToString(d));
      NatToStringInjective(a, c);
      NatToStringInjective(b, d);
    }
  }

  /** Every branch name passes the core check in both formats, and sanitizeBranch accepts it. */
  lemma BranchNameValid(major: nat, minor: nat)
    ensures ValidateCoreBranch(BranchName(major, minor), true, true) == Ok(BranchName(major, minor) + "-dev")
    ensures ValidateCoreBranch(BranchName(major, minor), false, true) == Ok(BranchName(major, minor))
    ensures SanitizeBranch(BranchName(major, minor)) == Ok(BranchName(major, minor))
  {
    var a := NatToString(major);
    var b := NatToString(minor);
    var s := BranchName(major, minor);
    GitBranchToIssueFormat(a, b, s);
    assert !HasDevSuffix(s) by {
      assert s[|s| - 1] == 'x';
    }
    forall i | 0 <= i < |s| ensures IsBranchNameChar(s[i]) {
      if i < |a| {
        assert s[i] == a[i];
      } else if |a| < i < |a| + 1 + |b| {
        assert s[i] == b[i - |a| - 1];
      }
    }
  }

  /** The highest minor of a major: 8.0.x through 8.9.x, and 5 for Drupal 9 and later; undefined before 8. */
  function MaxMinor(major: nat): Option<nat>
  {
    if major == 8 then Some(9) else if major >= 9 then Some(5) else None
  }

  /**
   * `$minor > $max_minor`. With the maximum undefined, PHP compares an int
   * with null as booleans, so any non-zero minor exceeds it.
   */
  predicate ExceedsMax(minor: nat, maxMinor: Option<nat>)
  {
    if maxMinor.None? then minor != 0 else minor > maxMinor.value
  }

  /** `$minor + $i <= $max_minor` for i >= 1: never true against an undefined maximum. */
  predicate WithinMax(m: nat, maxMinor: Option<nat>)
  {
    maxMinor.Some? && m <= maxMinor.value
  }

  /** A core branch as its numbers: (major, minor). */
  type Version = (nat, nat)

  /** The names of a list of versions, in order. */
  function Names(vs: seq<Version>): (r: seq<string>)
    ensures |r| == |vs| && forall i :: 0 <= i < |vs| ==> r[i] == BranchName(vs[i].0, vs[i].1)
  {
    seq(|vs|, i requires 0 <= i < |vs| => BranchName(vs[i].0, vs[i].1))
  }

  lemma NamesAppend(vs: seq<Version>, ws: seq<Version>)
    ensures Names(vs + ws) == Names(vs) + Names(ws)
  {
  }

  /** A branch name occurs in the names of a list exactly when its version occurs in the list. */
  lemma NamesMember(vs: seq<Version>, a: nat, b: nat)
    ensures BranchName(a, b) in Names(vs) <==> (a, b) in vs
  {
    if BranchName(a, b) in Names(vs) {
      var i :| 0 <= i < |vs| && Names(vs)[i] == BranchName(a, b);
      BranchNameInjective(a, b, vs[i].0, vs[i].1);
    }
    if (a, b) in vs {
      var i :| 0 <= i < |vs| && vs[i] == (a, b);
      assert Names(vs)[i] == BranchName(a, b);
    }
  }

  /** The lower minor the first for loop appends at step i, if any. */
  function LowerStep(major: nat, minor: nat, i: nat): seq<Version>
  {
    if minor >= i then [(major, minor - i)] else []
  }

  /** The upper minor the second for loop appends at step i, if any. */
  function UpperStep(major: nat, minor: nat, i: nat): seq<Version>
  {
    if WithinMax(minor + i, MaxMinor(major)) then [(major, minor + i)] else []
  }

  /** The lower minors the first for loop appends for i = 1..k, in order. */
  function Lower(major: nat, minor: nat, k: nat): seq<Version>
  {
    if k == 0 then [] else Lower(major, minor, k - 1) + LowerStep(major, minor, k)
  }

  /** The upper minors the second for loop appends for i = 1..k, in order. */
  function Upper(major: nat, minor: nat, k: nat): seq<Version>
  {
    if k == 0 then [] else Upper(major, minor, k - 1) + UpperStep(major, minor, k)
  }

  /** Both loops run for i = 1 and i = 2. */
  lemma TwoSteps(major: nat, minor: nat)
    ensures Lower(major, minor, 2) == LowerStep(major, minor, 1) + LowerStep(major, minor, 2)
    ensures Upper(major, minor, 2) == UpperStep(major, minor, 1) + UpperStep(major, minor, 2)
  {
    assert Lower(major, minor, 1) == LowerStep(major, minor, 1);
    assert Upper(major, minor, 1) == UpperStep(major, minor, 1);
  }

  /** One step of the first for loop: the names grow by the lower minor at step i, if any. */
  lemma LowerAppend(major: nat, minor: nat, i: nat)
    requires i >= 1
    ensures Names([(major, minor)] + Lower(major, minor, i)) ==
      Names([(major, minor)] + Lower(major, minor, i - 1)) + (if minor >= i then [BranchName(major, minor - i)] else [])
  {
    NamesAppend([(major, minor)] + Lower(major, minor, i - 1), LowerStep(major, minor, i));
    assert [(major, minor)] + Lower(major, minor, i) == [(major, minor)] + Lower(major, minor, i - 1) + LowerStep(major, minor, i);
  }

  /** One step of the second for loop: the names grow by the upper minor at step i, if any. */
  lemma UpperAppend(prefix: seq<Version>, major: nat, minor: nat, i: nat)
    requires i >= 1
    ensures Names(prefix + Upper(major, minor, i)) ==
      Names(prefix + Upper(major, minor, i - 1)) +
      (if WithinMax(minor + i, MaxMinor(major)) then [BranchName(major, minor + i)] else [])
  {
    NamesAppend(prefix + Upper(major, minor, i - 1), UpperStep(major, minor, i));
    assert prefix + Upper(major, minor, i) == prefix + Upper(major, minor, i - 1) + UpperStep(major, minor, i);
  }

  /**
   * The historical additions, in source order. Those keyed by the major are
   * made only when `majorTests` holds; those keyed by the exact branch name are
   * tested on the numbers, which BranchNameInjective shows to be the same test.
   */
  function Additions(major: nat, minor: nat, majorTests: bool): seq<Version>
  {
    (if majorTests && major == 8 && (minor == 7 || minor == 8) then [(9, 0)] else []) +
    (if major == 9 && minor == 0 then [(8, 7), (8, 8)] else []) +
    (if majorTests && major == 9 && minor <= 2 then [(8, 9)] else []) +
    (if major == 8 && minor == 9 then [(9, 0), (9, 1), (9, 2)] else []) +
    (if majorTests && major == 9 && minor >= 2 then [(10, 0)] else []) +
    (if major == 10 && minor == 0 then [(9, 2), (9, 3), (9, 4), (9, 5)] else []) +
    (if majorTests && major == 10 && minor <= 2 then [(9, 5)] else []) +
    (if major == 9 && minor == 5 then [(10, 0)] else [])
  }

  /** The list before array_unique: the branch, two lower and two upper minors, then the additions. */
  function Candidates(major: nat, minor: nat, majorTests: bool): seq<Version>
  {
    [(major, minor)] + Lower(major, minor, 2) + Upper(major, minor, 2) + Additions(major, minor, majorTests)
  }

  /**
   * getFixRelevantBranches with the integer comparisons that its comments
   * describe: an exception when the minor exceeds the major's maximum,
   * otherwise the candidates without duplicates, the branch itself first.
   */
  function FixRelevantBranches(major: nat, minor: nat): (r: Result<seq<string>>)
    ensures r.Err? <==> ExceedsMax(minor, MaxMinor(major))
    ensures r.Err? ==> r.error == UnknownBranch(major, minor)
    ensures r.Ok? ==> NoDuplicates(r.value) && |r.value| > 0 && r.value[0] == BranchName(major, minor)
  {
    if ExceedsMax(minor, MaxMinor(major)) then Err(UnknownBranch(major, minor))
    else
      DedupeHead(Names(Candidates(major, minor, true)));
      Ok(Dedupe(Names(Candidates(major, minor, true))))
  }

  /**
   * getFixRelevantBranches: the bound check, the two for loops, the additions
   * (straight-line conditionals, as Additions states them), then array_unique.
   */
  method GetFixRelevantBranches(major: nat, minor: nat) returns (r: Result<seq<string>>)
    ensures r == FixRelevantBranches(major, minor)
  {
    var maxMinor := MaxMinor(major);
    if ExceedsMax(minor, maxMinor) {
      return Err(UnknownBranch(major, minor));
    }
    var branches := [BranchName(major, minor)];
    for i := 1 to 3
      invariant branches == Names([(major, minor)] + Lower(major, minor, i - 1))
    {
      LowerAppend(major, minor, i);
      if minor >= i {
        branches := branches + [BranchName(major, minor - i)];
      }
    }
    ghost var prefix := [(major, minor)] + Lower(major, minor, 2);
    for i := 1 to 3
      invariant branches == Names(prefix + Upper(major, minor, i - 1))
    {
      UpperAppend(prefix, major, minor, i);
      if WithinMax(minor + i, maxMinor) {
        branches := branches + [BranchName(major, minor + i)];
      }
    }
    NamesAppend(prefix + Upper(major, minor, 2), Additions(major, minor, true));
    branches := branches + Names(Additions(major, minor, true));
    return Ok(Dedupe(branches));
  }

  /** A minor of the same major that receives commits alongside the given one. */
  predicate Neighbour(major: nat, minor: nat, m: nat)
  {
    (m <= minor && minor - m <= 2) || (minor < m && m - minor <= 2 && WithinMax(m, MaxMinor(major)))
  }

  /** The documented cross-major overlaps: branch a.b received commits alongside major.minor. */
  predicate Overlap(major: nat, minor: nat, a: nat, b: nat)
  {
    (major == 8 && (minor == 7 || minor == 8) && a == 9 && b == 0) ||
    (major == 9 && minor == 0 && a == 8 && (b == 7 || b == 8)) ||
    (major == 9 && minor <= 2 && a == 8 && b == 9) ||
    (major == 8 && minor == 9 && a == 9 && b <= 2) ||
    (major == 9 && minor >= 2 && a == 10 && b == 0) ||
    (major == 10 && minor == 0 && a == 9 && 2 <= b <= 5) ||
    (major == 10 && minor <= 2 && a == 9 && b == 5) ||
    (major == 9 && minor == 5 && a == 10 && b == 0)
  }

  /** Branch a.b is relevant to major.minor: a nearby minor of the same major, or a documented overlap. */
  predicate Relevant(major: nat, minor: nat, a: nat, b: nat)
  {
    (a == major && Neighbour(major, minor, b)) || Overlap(major, minor, a, b)
  }

  /** The first loop adds exactly the one or two minors below, down to 0. */
  lemma LowerIff(major: nat, minor: nat, a: nat, b: nat)
    ensures (a, b) in LowerStep(major, minor, 1) + LowerStep(major, minor, 2) <==>
      a == major && b < minor && minor - b <= 2
  {
  }

  /** The second loop adds exactly the one or two minors above, up to the maximum minor. */
  lemma UpperIff(major: nat, minor: nat, a: nat, b: nat)
    ensures (a, b) in UpperStep(major, minor, 1) + UpperStep(major, minor, 2) <==>
      a == major && minor < b && b - minor <= 2 && WithinMax(b, MaxMinor(major))
  {
    if a == major && b == minor + 1 && WithinMax(b, MaxMinor(major)) {
      assert UpperStep(major, minor, 1) == [(a, b)];
    }
    if a == major && b == minor + 2 && WithinMax(b, MaxMinor(major)) {
      assert UpperStep(major, minor, 2) == [(a, b)];
    }
  }

  /** The branch and the two loops give exactly the neighbouring minors of the same major. */
  lemma NearbyIffNeighbour(major: nat, minor: nat, a: nat, b: nat)
    ensures (a, b) in [(major, minor)] + Lower(major, minor, 2) + Upper(major, minor, 2) <==>
      a == major && Neighbour(major, minor, b)
  {
    TwoSteps(major, minor);
    LowerIff(major, minor, a, b);
    UpperIff(major, minor, a, b);
  }

  /** The historical additions are exactly the documented overlaps. */
  lemma AdditionsIffOverlap(major: nat, minor: nat, a: nat, b: nat)
    ensures (a, b) in Additions(major, minor, true) <==> Overlap(major, minor, a, b)
  {
    if major == 10 && minor == 0 && a == 9 && 2 <= b <= 5 {
      assert (a, b) in [(9, 2), (9, 3), (9, 4), (9, 5)];
    }
  }

  /** Version a.b is a candidate exactly when it is relevant. */
  lemma CandidateIffRelevant(major: nat, minor: nat, a: nat, b: nat)
    ensures (a, b) in Candidates(major, minor, true) <==> Relevant(major, minor, a, b)
  {
    NearbyIffNeighbour(major, minor, a, b);
    AdditionsIffOverlap(major, minor, a, b);
  }

  /**
   * The result holds exactly the relevant branches: the branch itself, up to
   * two minors below it and up to two above it within the major's maximum,
   * and the documented overlaps with the neighbouring major.
   */
  lemma FixRelevantMembers(major: nat, minor: nat, x: string)
    requires FixRelevantBranches(major, minor).Ok?
    ensures x in FixRelevantBranches(major, minor).value <==>
      exists a: nat, b: nat :: x == BranchName(a, b) && Relevant(major, minor, a, b)
  {
    var vs := Candidates(major, minor, true);
    if x in Names(vs) {
      var i :| 0 <= i < |vs| && Names(vs)[i] == x;
      CandidateIffRelevant(major, minor, vs[i].0, vs[i].1);
    }
    forall a: nat, b: nat | x == BranchName(a, b) && Relevant(major, minor, a, b)
      ensures x in Names(vs)
    {
      CandidateIffRelevant(major, minor, a, b);
      NamesMember(vs, a, b);
    }
  }

  /** Every returned branch is a valid core branch in git format, and sanitizeBranch accepts it. */
  lemma FixRelevantValid(major: nat, minor: nat, x: string)
    requires FixRelevantBranches(major, minor).Ok?
    requires x in FixRelevantBranches(major, minor).value
    ensures ValidateCoreBranch(x, true, true) == Ok(x + "-dev")
    ensures ValidateCoreBranch(x, false, true) == Ok(x)
    ensures SanitizeBranch(x) == Ok(x)
  {
    var vs := Candidates(major, minor, true);
    var i :| 0 <= i < |vs| && Names(vs)[i] == x;
    BranchNameValid(vs[i].0, vs[i].1);
  }

  /** The names of the versions near 9.4. */
  lemma Names94()
    ensures Names([(9, 4), (9, 3), (9, 2), (9, 5)]) == ["9.4.x", "9.3.x", "9.2.x", "9.5.x"]
    ensures Names([(9, 4), (9, 3), (9, 2), (9, 5), (10, 0)]) == ["9.4.x", "9.3.x", "9.2.x", "9.5.x", "10.0.x"]
  {
    assert BranchName(9, 4) == "9.4.x" && BranchName(9, 3) == "9.3.x" && BranchName(9, 2) == "9.2.x";
    assert BranchName(9, 5) == "9.5.x" && BranchName(10, 0) == "10.0.x";
  }

  /** 9.4.x receives commits alongside 9.3.x, 9.2.x, 9.5.x and 10.0.x. */
  lemma FixRelevantExample94()
    ensures FixRelevantBranches(9, 4) == Ok(["9.4.x", "9.3.x", "9.2.x", "9.5.x", "10.0.x"])
  {
    TwoSteps(9, 4);
    assert Candidates(9, 4, true) == [(9, 4), (9, 3), (9, 2), (9, 5), (10, 0)];
    Names94();
    DedupeDistinct(["9.4.x", "9.3.x", "9.2.x", "9.5.x", "10.0.x"]);
  }

  /**
   * getFixRelevantBranches as PHP 8 runs it. explode() yields strings, so every
   * `$major === <int>` test is false: the major-keyed additions are never made
   * and Drupal 8 has no maximum. `$major >= 9` compares numerically and still
   * sets 5, while comparing a minor string with the undefined maximum compares
   * it with "" and always exceeds it.
   */
  function AsWrittenFixRelevantBranches(major: nat, minor: nat): (r: Result<seq<string>>)
    ensures r.Err? <==> major < 9 || minor > 5
    ensures r.Ok? ==> NoDuplicates(r.value) && |r.value| > 0 && r.value[0] == BranchName(major, minor)
  {
    if major < 9 || minor > 5 then Err(UnknownBranch(major, minor))
    else
      DedupeHead(Names(Candidates(major, minor, false)));
      Ok(Dedupe(Names(Candidates(major, minor, false))))
  }

  /** As written, 9.4.x misses 10.0.x, which the intended version includes. */
  lemma AsWrittenMisses100()
    ensures AsWrittenFixRelevantBranches(9, 4) == Ok(["9.4.x", "9.3.x", "9.2.x", "9.5.x"])
    ensures "10.0.x" in FixRelevantBranches(9, 4).value
  {
    TwoSteps(9, 4);
    assert Candidates(9, 4, false) == [(9, 4), (9, 3), (9, 2), (9, 5)];
    Names94();
    DedupeDistinct(["9.4.x", "9.3.x", "9.2.x", "9.5.x"]);
    FixRelevantExample94();
  }

  /** As written, every Drupal 8 branch throws; the intended version gives 8.7.x its overlap with 9.0.x. */
  lemma AsWrittenRejects87()
    ensures AsWrittenFixRelevantBranches(8, 7).Err?
    ensures FixRelevantBranches(8, 7).Ok? && "9.0.x" in FixRelevantBranches(8, 7).value
  {
    var vs := Candidates(8, 7, true);
    assert (9, 0) in vs by {
      assert Additions(8, 7, true)[0] == (9, 0);
    }
    NamesMember(vs, 9, 0);
    assert BranchName(9, 0) == "9.0.x";
  }

  /** The issue-format names of a list of git-format branches. */
  function DevForms(branches: seq<string>): (r: seq<string>)
    ensures |r| == |branches| && forall i :: 0 <= i < |branches| ==> r[i] == branches[i] + "-dev"
  {
    seq(|branches|, i requires 0 <= i < |branches| => branches[i] + "-dev")
  }

  /** The relevant branches all validate, and their issue format is their DevForms. */
  lemma FixRelevantIssueFormat(major: nat, minor: nat, branches: seq<string>)
    requires FixRelevantBranches(major, minor) == Ok(branches)
    ensures |branches| > 0 && AllValid(branches)
    ensures forall out :: InIssueFormat(branches, out) ==> out == DevForms(branches)
  {
    forall i | 0 <= i < |branches|
      ensures ValidateCoreBranch(branches[i], true, true) == Ok(branches[i] + "-dev")
    {
      FixRelevantValid(major, minor, branches[i]);
    }
  }

  /**
   * The versions and statuses findIssuesFixedIn leaves behind: the -dev forms
   * of the relevant branches and the fixed statuses, or, for an unknown
   * branch, the ones it found.
   */
  predicate FixedInEffect(major: nat, minor: nat, versions0: seq<string>, statuses0: seq<Scalar>,
                          versions: seq<string>, statuses: seq<Scalar>)
  {
    match FixRelevantBranches(major, minor)
    case Err(_) => versions == versions0 && statuses == statuses0
    case Ok(b) => versions == DevForms(b) && statuses == Ints(M.Fixed)
  }

  /** What setTypes or setPriorities leaves on accepted input: the old list when given none, the resolved codes otherwise. */
  predicate LabelEffect(data: seq<Scalar>, valid: M.Table, before: seq<Scalar>, after: seq<Scalar>)
  {
    if |data| == 0 then after == before else ResolvesTo(data, valid, after)
  }

  /**
   * What setTypes followed by setPriorities leaves behind: a rejected type
   * list stops before either field is set; a rejected priority list comes
   * after the types are set and keeps the old priorities.
   */
  predicate LabelsEffect(types: seq<Scalar>, priorities: seq<Scalar>, categories0: seq<Scalar>, priorities0: seq<Scalar>,
                         categories: seq<Scalar>, priorities1: seq<Scalar>)
  {
    if !Accepted(types, M.Type) then categories == categories0 && priorities1 == priorities0
    else
      LabelEffect(types, M.Type, categories0, categories) &&
      if Accepted(priorities, M.Priority) then LabelEffect(priorities, M.Priority, priorities0, priorities1)
      else priorities1 == priorities0
  }

  /** The exception of a rejected label pair: from the types when they are rejected, else from the priorities. */
  predicate LabelsRejected(types: seq<Scalar>, priorities: seq<Scalar>, e: Error)
  {
    if !Accepted(types, M.Type) then FirstRejected(types, M.Type, e) else FirstRejected(priorities, M.Priority, e)
  }

  /** 'bug' is the type code 1. */
  lemma BugIsType()
    ensures Accepted([Str("bug")], M.Type)
    ensures forall out :: ResolvesTo([Str("bug")], M.Type, out) ==> out == [Int(1)]
  {
    assert M.Type[0] == ("bug", 1);
    assert Get(M.Type, "bug") == Some(1);
  }

  /** 'critical' is the priority code 400. */
  lemma CriticalIsPriority()
    ensures Accepted([Str("critical")], M.Priority)
    ensures forall out :: ResolvesTo([Str("critical")], M.Priority, out) ==> out == [Int(400)]
  {
    assert M.Priority[0] == ("critical", 400);
    assert Get(M.Priority, "critical") == Some(400);
  }

  /** The two triage tags are the term ids 197921 and 197925. */
  lemma UntriagedTags()
    ensures Accepted([Str("triaged_critical"), Str("critical_triage_deferred")], M.Tids)
    ensures forall out :: ResolvesTo([Str("triaged_critical"), Str("critical_triage_deferred")], M.Tids, out) ==>
      out == [Int(197921), Int(197925)]
  {
    assert M.Tids[0].0 == "triaged_critical";
    assert M.Tids[2].0 == "critical_triage_deferred";
    assert Get(M.Tids, "triaged_critical") == Some(197921);
    assert Get(M.Tids, "critical_triage_deferred") == Some(197925);
  }

  /** A query over issues, configured through its IssueMetadata builder. */
  class IssueQuery {
    const metadata: IssueMetadata

    /** A query over the builder's defaults. */
    constructor ()
      ensures fresh(metadata)
      ensures metadata.statuses == Ints(M.Open) && metadata.versions == DefaultVersions
      ensures metadata.categories == [] && metadata.priorities == [] && metadata.components == []
      ensures metadata.tids == [] && !metadata.excludeTerms
    {
      metadata := new IssueMetadata();
    }

    /** A query over a given builder. */
    constructor WithMetadata(m: IssueMetadata)
      ensures metadata == m
    {
      metadata := m;
    }

    /**
     * getMetadata: an immutable copy whose every getter equals the builder's.
     * It is a value, so later setter calls on the builder do not alter it.
     */
    function GetMetadata(): (f: IssueFilter)
      reads metadata
      ensures f.versions == metadata.versions && f.categories == metadata.categories
      ensures f.priorities == metadata.priorities && f.statuses == metadata.statuses
      ensures f.components == metadata.components && f.tids == metadata.tids
      ensures f.excludeTerms == metadata.excludeTerms
    {
      metadata.Snapshot()
    }

    /** findUntriagedCriticalBugs: critical bugs without the triaged or triage-deferred tags. */
    method FindUntriagedCriticalBugs()
      modifies metadata`categories, metadata`priorities, metadata`tids, metadata`excludeTerms
      ensures metadata.categories == [Int(1)]
      ensures metadata.priorities == [Int(400)]
      ensures metadata.tids == [Int(197921), Int(197925)] && metadata.excludeTerms
    {
      BugIsType();
      var r1 := metadata.SetTypes([Str("bug")]);
      CriticalIsPriority();
      var r2 := metadata.SetPriorities([Str("critical")]);
      UntriagedTags();
      var r3 := metadata.SetTaxonomyData([Str("triaged_critical"), Str("critical_triage_deferred")], true);
    }

    /** The first half of findIssuesFixedIn: the relevant branches as versions, and the fixed statuses. */
    method SetFixedIn(major: nat, minor: nat) returns (r: Outcome)
      modifies metadata`versions, metadata`statuses
      ensures r.Pass? <==> FixRelevantBranches(major, minor).Ok?
      ensures r.Fail? ==> r.error == FixRelevantBranches(major, minor).error
      ensures FixedInEffect(major, minor, old(metadata.versions), old(metadata.statuses), metadata.versions, metadata.statuses)
    {
      var relevant := GetFixRelevantBranches(major, minor);
      match relevant
      case Err(e) =>
        return Fail(e);
      case Ok(branches) =>
        FixRelevantIssueFormat(major, minor, branches);
        SetFixedBranches(branches);
        return Pass;
    }

    /** setBranches on branches that all convert to their -dev form, then setStatuses on the fixed statuses. */
    method SetFixedBranches(branches: seq<string>)
      requires |branches| > 0 && AllValid(branches)
      requires forall out :: InIssueFormat(branches, out) ==> out == DevForms(branches)
      modifies metadata`versions, metadata`statuses
      ensures metadata.versions == DevForms(branches) && metadata.statuses == Ints(M.Fixed)
    {
      var rb := metadata.SetBranches(branches);
      var fixed := Ints(M.Fixed);
      assert fixed[0] == Int(2);
      var rs := metadata.SetStatuses(fixed);
    }

    /** The second half of findIssuesFixedIn: the types, then the priorities, each when given. */
    method SetLabels(types: seq<Scalar>, priorities: seq<Scalar>) returns (r: Outcome)
      modifies metadata`categories, metadata`priorities
      ensures r.Pass? <==> Accepted(types, M.Type) && Accepted(priorities, M.Priority)
      ensures r.Fail? ==> LabelsRejected(types, priorities, r.error)
      ensures LabelsEffect(types, priorities, old(metadata.categories), old(metadata.priorities),
                           metadata.categories, metadata.priorities)
    {
      r := metadata.SetTypes(types);
      if r.Fail? {
        return;
      }
      r := metadata.SetPriorities(priorities);
    }

    /**
     * findIssuesFixedIn: the relevant branches in -dev form and the fixed
     * statuses, then the types and priorities when given. An exception stops
     * the sequence, leaving the earlier setters' effects in place.
     */
    method FindIssuesFixedIn(major: nat, minor: nat, types: seq<Scalar>, priorities: seq<Scalar>) returns (r: Outcome)
      modifies metadata`versions, metadata`statuses, metadata`categories, metadata`priorities
      ensures FixedInEffect(major, minor, old(metadata.versions), old(metadata.statuses), metadata.versions, metadata.statuses)
      ensures FixRelevantBranches(major, minor).Err? ==>
        r == Fail(FixRelevantBranches(major, minor).error) &&
        metadata.categories == old(metadata.categories) && metadata.priorities == old(metadata.priorities)
      ensures r.Pass? <==> (FixRelevantBranches(major, minor).Ok? &&
        Accepted(types, M.Type) && Accepted(priorities, M.Priority))
      ensures FixRelevantBranches(major, minor).Ok? ==>
        (r.Fail? ==> LabelsRejected(types, priorities, r.error)) &&
        LabelsEffect(types, priorities, old(metadata.categories), old(metadata.priorities),
                     metadata.categories, metadata.priorities)
    {
      r := SetFixedIn(major, minor);
      if r.Fail? {
        return;
      }
      r := SetLabels(types, priorities);
    }
  }
}
