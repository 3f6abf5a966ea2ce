/**
 * The issue filter that the query runners read: a mutable builder
 * (IssueMetadata) whose setters validate their input against the
 * MagicIntMetadata tables, and the immutable copy taken of it
 * (ImmutableIssueMetadata).
 */
module IssueMetadata {
  import opened Base
  import opened Assoc
  import opened Text
  import M = MagicIntMetadata
  import opened ValidateBranch

  /** An integer list as PHP array elements. */
  function Ints(xs: seq<int>): (r: seq<Scalar>)
    ensures |r| == |xs| && forall i :: 0 <= i < |xs| ==> r[i] == Int(xs[i])
  {
    seq(|xs|, i requires 0 <= i < |xs| => Int(xs[i]))
  }

  /** The list is given as short labels: its first element is a string. */
  predicate LabelList(data: seq<Scalar>)
  {
    |data| > 0 && data[0].Str?
  }

  /** A string that the table knows as a short label. */
  predicate KnownLabel(x: Scalar, valid: M.Table)
  {
    x.Str? && x.s in KeySet(valid)
  }

  /** The exception a rejected element of a label list raises. */
  function LabelError(x: Scalar): Error
  {
    if x.Str? then UnknownLabel(x.s) else MixedTypeFilter
  }

  /** validateData accepts the list: it is not a label list, or every element is a known label. */
  predicate Accepted(data: seq<Scalar>, valid: M.Table)
  {
    !LabelList(data) || forall i :: 0 <= i < |data| ==> KnownLabel(data[i], valid)
  }

  /**
   * `out` is what validateData makes of `data`: a label list becomes the codes
   * of its labels, element by element; any other list is kept as given.
   */
  predicate ResolvesTo(data: seq<Scalar>, valid: M.Table, out: seq<Scalar>)
  {
    if LabelList(data) then
      |out| == |data| &&
      forall i :: 0 <= i < |data| ==> KnownLabel(data[i], valid) && out[i] == Int(Get(valid, data[i].s).value)
    else out == data
  }

  /** The failure of validateData: the first element that is not a known label. */
  predicate FirstRejected(data: seq<Scalar>, valid: M.Table, e: Error)
  {
    exists i :: 0 <= i < |data| && !KnownLabel(data[i], valid) && e == LabelError(data[i]) &&
      forall j :: 0 <= j < i ==> KnownLabel(data[j], valid)
  }

  /**
   * ImmutableIssueMetadata::validateData: a list whose first element is a
   * string must consist of known labels, which are replaced by their codes;
   * a list whose first element is an integer is returned unchanged.
   */
  method ValidateData(data: seq<Scalar>, valid: M.Table) returns (r: Result<seq<Scalar>>)
    ensures r.Ok? <==> Accepted(data, valid)
    ensures r.Ok? ==> ResolvesTo(data, valid, r.value)
    ensures r.Err? ==> FirstRejected(data, valid, r.error)
  {
    if !LabelList(data) {
      return Ok(data);
    }
    var out := data;
    var i := 0;
    while i < |data|
      invariant 0 <= i <= |data|
      invariant |out| == |data|
      invariant forall j :: 0 <= j < i ==> KnownLabel(data[j], valid) && out[j] == Int(Get(valid, data[j].s).value)
    {
      var x := data[i];
      if !x.Str? {
        return Err(MixedTypeFilter);
      }
      match Get(valid, x.s)
      case None =>
        return Err(UnknownLabel(x.s));
      case Some(code) =>
        out := out[i := Int(code)];
      i := i + 1;
    }
    return Ok(out);
  }

  /** Every branch of the list passes validateCoreBranch. */
  predicate AllValid(branches: seq<string>)
  {
    forall i :: 0 <= i < |branches| ==> ValidateCoreBranch(branches[i], true, true).Ok?
  }

  /** Every branch of the list converts to issue format, and `out` holds the conversions in order. */
  predicate InIssueFormat(branches: seq<string>, out: seq<string>)
  {
    |out| == |branches| &&
    forall i :: 0 <= i < |branches| ==> ValidateCoreBranch(branches[i], true, true) == Ok(out[i])
  }

  /** The failure of the conversion loop: the first branch that does not validate. */
  predicate FirstInvalidBranch(branches: seq<string>, e: Error)
  {
    exists i :: 0 <= i < |branches| && ValidateCoreBranch(branches[i], true, true) == Err(e) &&
      forall j :: 0 <= j < i ==> ValidateCoreBranch(branches[j], true, true).Ok?
  }

  /** The loop of setVersions: every branch through validateCoreBranch in issue format, stopping at the first exception. */
  method ToIssueFormat(branches: seq<string>) returns (r: Result<seq<string>>)
    ensures r.Ok? <==> AllValid(branches)
    ensures r.Ok? ==> InIssueFormat(branches, r.value)
    ensures r.Ok? ==> forall i :: 0 <= i < |r.value| ==> HasDevSuffix(r.value[i])
    ensures r.Err? ==> FirstInvalidBranch(branches, r.error)
  {
    var out := branches;
    var i := 0;
    while i < |branches|
      invariant 0 <= i <= |branches|
      invariant |out| == |branches|
      invariant forall j :: 0 <= j < i ==> ValidateCoreBranch(branches[j], true, true) == Ok(out[j])
    {
      match ValidateCoreBranch(branches[i], true, true)
      case Err(e) =>
        return Err(e);
      case Ok(b) =>
        out := out[i := b];
      i := i + 1;
    }
    return Ok(out);
  }

  /**
   * setVersions as written: neither IssueMetadata nor ImmutableIssueMetadata
   * uses ValidateBranchTrait, so `static::validateCoreBranch` names no method
   * and the first branch of a non-empty list raises an Error.
   */
  function AsWrittenSetVersions(branches: seq<string>): (r: Outcome)
    ensures r.Pass? <==> |branches| == 0
    ensures r.Fail? ==> r.error == UndefinedMethod("validateCoreBranch")
  {
    if |branches| == 0 then Pass else Fail(UndefinedMethod("validateCoreBranch"))
  }

  /** The versions the builder starts from: array_unique of the active branches, in issue format. */
  const DefaultVersions: seq<string> := ["11.x-dev", "10.3.x-dev", "11.1.x-dev", "10.4.x-dev", "11.0.x-dev"]

  /** The active branch values, in table order. */
  function ActiveBranchNames(): (r: seq<string>)
    ensures |r| == |M.ActiveBranches| && forall i :: 0 <= i < |r| ==> r[i] == M.ActiveBranches[i].1
  {
    seq(|M.ActiveBranches|, i requires 0 <= i < |M.ActiveBranches| => M.ActiveBranches[i].1)
  }

  /** One active branch in git format converts to the same name with -dev. */
  lemma ActiveBranchIssueFormat(d1: string, d2: string, b: string, v: string)
    requires IsDigits(d1) && IsDigits(d2)
    requires b == d1 + "." + d2 + ".x" && v == d1 + "." + d2 + ".x-dev"
    ensures ValidateCoreBranch(b, true, true) == Ok(v)
  {
    GitBranchToIssueFormat(d1, d2, b);
    assert b + "-dev" == v;
  }

  /** The active branch names converted one by one to issue format. */
  lemma ActiveBranchesIssueFormat()
    ensures InIssueFormat(["11.x", "10.3.x", "11.1.x", "10.4.x", "11.0.x"], DefaultVersions)
  {
    var bs := ["11.x", "10.3.x", "11.1.x", "10.4.x", "11.0.x"];
    forall i | 0 <= i < |bs|
      ensures ValidateCoreBranch(bs[i], true, true) == Ok(DefaultVersions[i])
    {
      if i == 1 {
        ActiveBranchIssueFormat("10", "3", "10.3.x", "10.3.x-dev");
      } else if i == 2 {
        ActiveBranchIssueFormat("11", "1", "11.1.x", "11.1.x-dev");
      } else if i == 3 {
        ActiveBranchIssueFormat("10", "4", "10.4.x", "10.4.x-dev");
      } else if i == 4 {
        ActiveBranchIssueFormat("11", "0", "11.0.x", "11.0.x-dev");
      }
    }
  }

  /** The active branches are distinct, and every one passes validateCoreBranch: in issue format they are the default versions. */
  lemma ActiveBranchesValid()
    ensures NoDuplicates(ActiveBranchNames())
    ensures InIssueFormat(Dedupe(ActiveBranchNames()), DefaultVersions)
  {
    var names := ActiveBranchNames();
    assert names == ["11.x", "10.3.x", "11.1.x", "10.4.x", "11.0.x"];
    DedupeDistinct(names);
    ActiveBranchesIssueFormat();
  }

  /**
   * The constructor's own call, as written: the active branches all convert
   * under validateCoreBranch, yet setVersions throws on them, so
   * `new IssueMetadata()` (and with it `new IssueQuery()`) never completes.
   */
  lemma AsWrittenConstructorThrows()
    ensures AsWrittenSetVersions(Dedupe(ActiveBranchNames())) == Fail(UndefinedMethod("validateCoreBranch"))
    ensures AllValid(Dedupe(ActiveBranchNames()))
  {
    ActiveBranchesValid();
  }

  /** ImmutableIssueMetadata: the filter as the query runners receive it. */
  datatype IssueFilter = IssueFilter(
    versions: seq<string>,
    categories: seq<Scalar>,
    priorities: seq<Scalar>,
    statuses: seq<Scalar>,
    components: seq<string>,
    tids: seq<Scalar>,
    excludeTerms: bool)
  {
    /** getTypes() is an alias of getCategories(). */
    function Types(): (r: seq<Scalar>)
      ensures r == categories
    {
      categories
    }

    /** getBranches() is an alias of getVersions(). */
    function Branches(): (r: seq<string>)
      ensures r == versions
    {
      versions
    }
  }

  /** The builder: each setter validates its argument and replaces one field. */
  class IssueMetadata {
    var versions: seq<string>
    var categories: seq<Scalar>
    var priorities: seq<Scalar>
    var statuses: seq<Scalar>
    var components: seq<string>
    var tids: seq<Scalar>
    var excludeTerms: bool

    /** Open issues in the relevant statuses on the active branches; every other filter empty. */
    constructor ()
      ensures statuses == Ints(M.Open)
      ensures versions == DefaultVersions
      ensures categories == [] && priorities == [] && components == [] && tids == [] && !excludeTerms
    {
      versions := [];
      categories := [];
      priorities := [];
      components := [];
      tids := [];
      excludeTerms := false;
      statuses := Ints(M.Open);
      new;
      ActiveBranchesValid();
      var _ := SetVersions(Dedupe(ActiveBranchNames()));
    }

    /** new ImmutableIssueMetadata($this): a copy of every property. */
    function Snapshot(): (m: IssueFilter)
      reads this
      ensures m.versions == versions && m.categories == categories && m.priorities == priorities
      ensures m.statuses == statuses && m.components == components && m.tids == tids
      ensures m.excludeTerms == excludeTerms
    {
      IssueFilter(versions, categories, priorities, statuses, components, tids, excludeTerms)
    }

    /** setVersions: an empty list changes nothing; otherwise every branch is stored in issue format, or nothing is stored. */
    method SetVersions(branches: seq<string>) returns (r: Outcome)
      modifies this`versions
      ensures |branches| == 0 ==> r == Pass && versions == old(versions)
      ensures r.Pass? && |branches| > 0 ==> InIssueFormat(branches, versions)
      ensures r.Fail? ==> FirstInvalidBranch(branches, r.error) && versions == old(versions)
      ensures r.Pass? <==> AllValid(branches)
    {
      if |branches| == 0 {
        return Pass;
      }
      var converted := ToIssueFormat(branches);
      match converted
      case Err(e) =>
        return Fail(e);
      case Ok(bs) =>
        versions := bs;
        return Pass;
    }

    /** setBranches: an alias of setVersions. */
    method SetBranches(branches: seq<string>) returns (r: Outcome)
      modifies this`versions
      ensures |branches| == 0 ==> r == Pass && versions == old(versions)
      ensures r.Pass? && |branches| > 0 ==> InIssueFormat(branches, versions)
      ensures r.Fail? ==> FirstInvalidBranch(branches, r.error) && versions == old(versions)
      ensures r.Pass? <==> AllValid(branches)
    {
      r := SetVersions(branches);
    }

    /** setCategories: issue types given as labels ('bug', 'task') or as codes. */
    method SetCategories(data: seq<Scalar>) returns (r: Outcome)
      modifies this`categories
      ensures |data| == 0 ==> r == Pass && categories == old(categories)
      ensures r.Pass? && |data| > 0 ==> ResolvesTo(data, M.Type, categories)
      ensures r.Fail? ==> FirstRejected(data, M.Type, r.error) && categories == old(categories)
      ensures r.Pass? <==> Accepted(data, M.Type)
    {
      if |data| == 0 {
        return Pass;
      }
      var v := ValidateData(data, M.Type);
      match v
      case Err(e) =>
        return Fail(e);
      case Ok(codes) =>
        categories := codes;
        return Pass;
    }

    /** setTypes: an alias of setCategories. */
    method SetTypes(data: seq<Scalar>) returns (r: Outcome)
      modifies this`categories
      ensures |data| == 0 ==> r == Pass && categories == old(categories)
      ensures r.Pass? && |data| > 0 ==> ResolvesTo(data, M.Type, categories)
      ensures r.Fail? ==> FirstRejected(data, M.Type, r.error) && categories == old(categories)
      ensures r.Pass? <==> Accepted(data, M.Type)
    {
      if |data| == 0 {
        return Pass;
      }
      r := SetCategories(data);
    }

    /** setPriorities: priorities given as labels ('critical', 'major') or as codes. */
    method SetPriorities(data: seq<Scalar>) returns (r: Outcome)
      modifies this`priorities
      ensures |data| == 0 ==> r == Pass && priorities == old(priorities)
      ensures r.Pass? && |data| > 0 ==> ResolvesTo(data, M.Priority, priorities)
      ensures r.Fail? ==> FirstRejected(data, M.Priority, r.error) && priorities == old(priorities)
      ensures r.Pass? <==> Accepted(data, M.Priority)
    {
      if |data| == 0 {
        return Pass;
      }
      var v := ValidateData(data, M.Priority);
      match v
      case Err(e) =>
        return Fail(e);
      case Ok(codes) =>
        priorities := codes;
        return Pass;
    }

    /** setStatuses: statuses given as labels ('fixed', 'postponed') or as codes. */
    method SetStatuses(data: seq<Scalar>) returns (r: Outcome)
      modifies this`statuses
      ensures |data| == 0 ==> r == Pass && statuses == old(statuses)
      ensures r.Pass? && |data| > 0 ==> ResolvesTo(data, M.Status, statuses)
      ensures r.Fail? ==> FirstRejected(data, M.Status, r.error) && statuses == old(statuses)
      ensures r.Pass? <==> Accepted(data, M.Status)
    {
      if |data| == 0 {
        return Pass;
      }
      var v := ValidateData(data, M.Status);
      match v
      case Err(e) =>
        return Fail(e);
      case Ok(codes) =>
        statuses := codes;
        return Pass;
    }

    /** setTaxonomyData: the tags and the include/exclude mode, set together or not at all. */
    method SetTaxonomyData(terms: seq<Scalar>, exclude: bool) returns (r: Outcome)
      modifies this`tids, this`excludeTerms
      ensures |terms| == 0 ==> r == Pass && tids == old(tids) && excludeTerms == old(excludeTerms)
      ensures r.Pass? && |terms| > 0 ==> ResolvesTo(terms, M.Tids, tids) && excludeTerms == exclude
      ensures r.Fail? ==> FirstRejected(terms, M.Tids, r.error) && tids == old(tids) && excludeTerms == old(excludeTerms)
      ensures r.Pass? <==> Accepted(terms, M.Tids)
    {
      if |terms| == 0 {
        return Pass;
      }
      var v := ValidateData(terms, M.Tids);
      match v
      case Err(e) =>
        return Fail(e);
      case Ok(codes) =>
        tids := codes;
        excludeTerms := exclude;
        return Pass;
    }

    /** setComponents: the component names, stored as given unless the list is empty. */
    method SetComponents(names: seq<string>)
      modifies this`components
      ensures components == if |names| == 0 then old(components) else names
    {
      if |names| == 0 {
        return;
      }
      components := names;
    }
  }

  /** A label list of known labels resolves to exactly one list of codes. */
  lemma ResolvesToUnique(data: seq<Scalar>, valid: M.Table, a: seq<Scalar>, b: seq<Scalar>)
    requires ResolvesTo(data, valid, a) && ResolvesTo(data, valid, b)
    ensures a == b
  {
    if LabelList(data) {
      assert forall i :: 0 <= i < |a| ==> a[i] == b[i];
    }
  }

  /** Resolving a label list yields integer codes only, and each is a code of the table. */
  lemma ResolvedAreCodes(data: seq<Scalar>, valid: M.Table, out: seq<Scalar>)
    requires LabelList(data) && ResolvesTo(data, valid, out)
    ensures forall i :: 0 <= i < |out| ==> out[i].Int? && exists j :: 0 <= j < |valid| && valid[j].1 == out[i].i
  {
    forall i | 0 <= i < |out|
      ensures out[i].Int? && exists j :: 0 <= j < |valid| && valid[j].1 == out[i].i
    {
      GetIsEntry(valid, data[i].s);
    }
  }

  /** A successful lookup returns the value of some entry. */
  lemma {:induction false} GetIsEntry(m: M.Table, k: string)
    requires Get(m, k).Some?
    ensures exists j :: 0 <= j < |m| && m[j] == (k, Get(m, k).value)
    decreases |m|
  {
    if m[0].0 != k {
      GetIsEntry(m[1..], k);
      var j :| 0 <= j < |m[1..]| && m[1..][j] == (k, Get(m[1..], k).value);
      assert m[j + 1] == m[1..][j];
    }
  }
}
