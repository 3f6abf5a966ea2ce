/**
 * The Drupal.org REST request builders: each request is a map from a key
 * (a branch, a node id, or a fixed label) to the URL to fetch for it.
 */
module Requests {
  import opened Base
  import opened Text
  import opened Assoc
  import MagicIntMetadata

  const IssueListBaseUrl: string := "https://www.drupal.org/api-d7/node.json?type=project_issue&field_project=3060"
  const CategoryParam: string := "&field_issue_category="
  const VersionParam: string := "&field_issue_version="
  const StatusParam: string := "&field_issue_status="
  const NodeBaseUrl: string := "https://www.drupal.org/api-d7/node/"
  const NodeSuffix: string := ".json?drupalorg_extra_credit=1"
  const CommentAuthorUrl: string := "https://www.drupal.org/api-d7/comment.json?author="
  const CommentSort: string := "&sort=created&direction=DESC"
  const RecentCommentsKey: string := "recent comments"

  /**
   * MagicIntMetadata::$type[$type] as it is concatenated: the decimal code of
   * a known issue type, and the empty string (PHP's null, after a warning)
   * for an unknown one.
   */
  function CategoryCode(issueType: string): (r: string)
    ensures Get(MagicIntMetadata.Type, issueType).Some? ==> IsDigits(r) && r == IntToString(Get(MagicIntMetadata.Type, issueType).value)
    ensures Get(MagicIntMetadata.Type, issueType).None? ==> r == ""
  {
    match Get(MagicIntMetadata.Type, issueType)
    case Some(c) => IntToString(c)
    case None => ""
  }

  /**
   * The part shared by every URL of an issue list request: the base URL, and
   * the category parameter only when the type is not empty() in PHP's sense.
   */
  function ListPrefix(issueType: string): (r: string)
    ensures |r| >= |IssueListBaseUrl| && r[..|IssueListBaseUrl|] == IssueListBaseUrl
    ensures r == IssueListBaseUrl <==> IsEmptyString(issueType)
    ensures !IsEmptyString(issueType) ==> r[|IssueListBaseUrl|..] == CategoryParam + CategoryCode(issueType)
  {
    if IsEmptyString(issueType) then IssueListBaseUrl
    else
      var r := IssueListBaseUrl + (CategoryParam + CategoryCode(issueType));
      assert r[|IssueListBaseUrl|..] == CategoryParam + CategoryCode(issueType);
      r
  }

  /** "bug" is issue type 1, so its list URLs carry "&field_issue_category=1". */
  lemma ListPrefixBug()
    ensures ListPrefix("bug") == IssueListBaseUrl + CategoryParam + "1"
  {
    assert Get(MagicIntMetadata.Type, "bug") == Some(1);
  }

  /** The URL stored under one key: prefix, key and suffix. */
  function KeyedUrl(prefix: string, key: string, suffix: string): string
  {
    prefix + key + suffix
  }

  /**
   * foreach ($keys as $key) $urls[$key] = $prefix . $key . $suffix, starting
   * from the array m.
   */
  function PutAll(m: Assoc<string>, prefix: string, keys: seq<string>, suffix: string): Assoc<string>
    decreases |keys|
  {
    if |keys| == 0 then m
    else
      var k := keys[|keys| - 1];
      Put(PutAll(m, prefix, keys[..|keys| - 1], suffix), k, KeyedUrl(prefix, k, suffix))
  }

  /** Every written key ends up with its own URL, and every other entry is left alone. */
  lemma {:induction false} PutAllGet(m: Assoc<string>, prefix: string, keys: seq<string>, suffix: string)
    ensures forall k :: k in keys ==> Get(PutAll(m, prefix, keys, suffix), k) == Some(KeyedUrl(prefix, k, suffix))
    ensures forall k :: k !in keys ==> Get(PutAll(m, prefix, keys, suffix), k) == Get(m, k)
    ensures KeySet(PutAll(m, prefix, keys, suffix)) == KeySet(m) + (set k | k in keys)
    decreases |keys|
  {
    if |keys| > 0 {
      var init := keys[..|keys| - 1];
      assert keys == init + [keys[|keys| - 1]];
      PutAllGet(m, prefix, init, suffix);
    }
  }

  /** Writing keeps the keys distinct. */
  lemma {:induction false} PutAllDistinct(m: Assoc<string>, prefix: string, keys: seq<string>, suffix: string)
    requires DistinctKeys(m)
    ensures DistinctKeys(PutAll(m, prefix, keys, suffix))
    decreases |keys|
  {
    if |keys| > 0 {
      var k := keys[|keys| - 1];
      PutAllDistinct(m, prefix, keys[..|keys| - 1], suffix);
      PutDistinct(PutAll(m, prefix, keys[..|keys| - 1], suffix), k, KeyedUrl(prefix, k, suffix));
    }
  }

  /** Keys that are all present already keep their places: the key order does not change. */
  lemma {:induction false} PutAllKeysKept(m: Assoc<string>, prefix: string, keys: seq<string>, suffix: string)
    requires forall k :: k in keys ==> k in KeySet(m)
    ensures Keys(PutAll(m, prefix, keys, suffix)) == Keys(m)
    decreases |keys|
  {
    if |keys| > 0 {
      var init := keys[..|keys| - 1];
      var k := keys[|keys| - 1];
      PutAllKeysKept(m, prefix, init, suffix);
      PutAllGet(m, prefix, init, suffix);
      PutKeys(PutAll(m, prefix, init, suffix), k, KeyedUrl(prefix, k, suffix));
    }
  }

  /** Written into an empty array, the keys appear once each, in first-occurrence order. */
  lemma {:induction false} PutAllKeysFresh(prefix: string, keys: seq<string>, suffix: string)
    ensures Keys(PutAll([], prefix, keys, suffix)) == Dedupe(keys)
    decreases |keys|
  {
    if |keys| > 0 {
      var init := keys[..|keys| - 1];
      var k := keys[|keys| - 1];
      assert keys == init + [k];
      PutAllKeysFresh(prefix, init, suffix);
      PutAllGet([], prefix, init, suffix);
      PutKeys(PutAll([], prefix, init, suffix), k, KeyedUrl(prefix, k, suffix));
      assert k in KeySet(PutAll([], prefix, init, suffix)) <==> k in Dedupe(init);
    }
  }

  /** One more key written after the others. */
  lemma PutAllSnoc(m: Assoc<string>, prefix: string, keys: seq<string>, k: string, suffix: string)
    ensures PutAll(m, prefix, keys + [k], suffix) == Put(PutAll(m, prefix, keys, suffix), k, KeyedUrl(prefix, k, suffix))
  {
    assert (keys + [k])[..|keys|] == keys;
  }

  /** The loop step: writing the first i + 1 keys is writing the first i, then key i. */
  lemma PutAllStep(m: Assoc<string>, prefix: string, keys: seq<string>, i: nat, suffix: string)
    requires i < |keys|
    ensures PutAll(m, prefix, keys[..i + 1], suffix) ==
      Put(PutAll(m, prefix, keys[..i], suffix), keys[i], KeyedUrl(prefix, keys[i], suffix))
  {
    assert keys[..i + 1] == keys[..i] + [keys[i]];
    PutAllSnoc(m, prefix, keys[..i], keys[i], suffix);
  }

  /** An array whose keys are the distinct keys of a list holds exactly the keys of that list. */
  lemma KeysOfDedupe(m: Assoc<string>, keys: seq<string>)
    requires Keys(m) == Dedupe(keys)
    ensures forall k :: k in KeySet(m) <==> k in keys
  {
    forall k | k in keys ensures k in KeySet(m) {
      assert k in Dedupe(keys);
      var i :| 0 <= i < |Dedupe(keys)| && Dedupe(keys)[i] == k;
      assert m[i].0 == Keys(m)[i];
    }
    forall k | k in KeySet(m) ensures k in keys {
      var i :| 0 <= i < |m| && m[i].0 == k;
      assert Keys(m)[i] == k;
    }
  }

  /** Writing the same keys again over an array holding exactly them gives the array written afresh. */
  lemma Overwrite(m: Assoc<string>, prefix: string, keys: seq<string>, suffix: string)
    requires DistinctKeys(m) && Keys(m) == Dedupe(keys)
    ensures PutAll(m, prefix, keys, suffix) == PutAll([], prefix, keys, suffix)
  {
    var a := PutAll(m, prefix, keys, suffix);
    var b := PutAll([], prefix, keys, suffix);
    KeysOfDedupe(m, keys);
    PutAllGet(m, prefix, keys, suffix);
    PutAllGet([], prefix, keys, suffix);
    PutAllDistinct(m, prefix, keys, suffix);
    PutAllDistinct([], prefix, keys, suffix);
    PutAllKeysKept(m, prefix, keys, suffix);
    PutAllKeysFresh(prefix, keys, suffix);
    assert forall k :: Get(a, k) == Get(b, k);
    Extensional(a, b);
  }

  /** An issue list request: one URL per distinct branch. */
  class IssueListRequest {
    const branches: seq<string>
    const issueType: string
    /** The URL array; None while PHP's typed property is still uninitialised. */
    const urls: Option<Assoc<string>>

    /**
     * The constructor writes one URL per branch; with no branches the URL
     * array is never initialised.
     */
    constructor (branches: seq<string>, issueType: string)
      ensures this.branches == branches && this.issueType == issueType
      ensures |branches| == 0 ==> urls.None?
      ensures |branches| > 0 ==> urls == Some(PutAll([], ListPrefix(issueType) + VersionParam, branches, "-dev"))
    {
      var baseUrl := IssueListBaseUrl;
      if !IsEmptyString(issueType) {
        baseUrl := baseUrl + (CategoryParam + CategoryCode(issueType));
      }
      var acc: Option<Assoc<string>> := None;
      for i := 0 to |branches|
        invariant i == 0 ==> acc.None?
        invariant i > 0 ==> acc == Some(PutAll([], baseUrl + VersionParam, branches[..i], "-dev"))
      {
        var m := if acc.Some? then acc.value else [];
        PutAllStep([], baseUrl + VersionParam, branches, i, "-dev");
        acc := Some(Put(m, branches[i], KeyedUrl(baseUrl + VersionParam, branches[i], "-dev")));
      }
      assert branches[..|branches|] == branches;
      this.branches := branches;
      this.issueType := issueType;
      urls := acc;
    }

    /**
     * getUrls: an error when no branch was given (the property was never
     * initialised); otherwise exactly the given branches as keys, each in
     * first-occurrence order, each mapped to the list URL of its -dev version.
     */
    function GetUrls(): (r: Result<Assoc<string>>)
      requires |branches| == 0 ==> urls.None?
      requires |branches| > 0 ==> urls == Some(PutAll([], ListPrefix(issueType) + VersionParam, branches, "-dev"))
      ensures r.Err? <==> |branches| == 0
      ensures r.Err? ==> r.error == UninitializedUrls
      ensures r.Ok? ==> DistinctKeys(r.value) && Keys(r.value) == Dedupe(branches)
      ensures r.Ok? ==> forall b :: b in branches ==> Get(r.value, b) == Some(ListPrefix(issueType) + VersionParam + b + "-dev")
    {
      var prefix := ListPrefix(issueType) + VersionParam;
      PutAllGet([], prefix, branches, "-dev");
      PutAllDistinct([], prefix, branches, "-dev");
      PutAllKeysFresh(prefix, branches, "-dev");
      match urls
      case None => Err(UninitializedUrls)
      case Some(m) => Ok(m)
    }

    /** getBaseUrl: the issue list endpoint, which every URL of the request starts with. */
    function GetBaseUrl(): (r: string)
      ensures r == IssueListBaseUrl
      ensures |r| <= |ListPrefix(issueType)| && ListPrefix(issueType)[..|r|] == r
    {
      IssueListBaseUrl
    }

    /** getType: the issue type given to the constructor. */
    function GetType(): (r: string)
      ensures r == issueType
    {
      issueType
    }

    /** getBranches: the branches given to the constructor, duplicates included. */
    function GetBranches(): (r: seq<string>)
      ensures r == branches
    {
      branches
    }
  }

  /** The tail of a fixed issue list URL: the -dev suffix and the last fixed status. */
  function FixedSuffix(): string
  {
    "-dev" + StatusParam + IntToString(MagicIntMetadata.Fixed[|MagicIntMetadata.Fixed| - 1])
  }

  /** The last fixed status is closed_fixed, 7. */
  lemma LastFixedStatus()
    ensures FixedSuffix() == "-dev" + StatusParam + "7"
  {
    assert MagicIntMetadata.Fixed[|MagicIntMetadata.Fixed| - 1] == 7;
    assert NatToString(7) == ['7'];
  }

  /**
   * A fixed issue list request: for each fixed status, and for each branch,
   * the branch's URL is written with that status, so each branch keeps only
   * the URL of the last fixed status.
   */
  class FixedIssueListRequest {
    const branches: seq<string>
    const issueType: string
    const urls: Option<Assoc<string>>

    constructor (branches: seq<string>, issueType: string)
      ensures this.branches == branches && this.issueType == issueType
      ensures |branches| == 0 ==> urls.None?
      ensures |branches| > 0 ==> urls == Some(PutAll([], ListPrefix(issueType) + VersionParam, branches,
                                                     FixedSuffix()))
    {
      var baseUrl := IssueListBaseUrl;
      if !IsEmptyString(issueType) {
        baseUrl := baseUrl + (CategoryParam + CategoryCode(issueType));
      }
      var statuses := MagicIntMetadata.Fixed;
      var acc: Option<Assoc<string>> := None;
      for j := 0 to |statuses|
        invariant j == 0 || |branches| == 0 ==> acc.None?
        invariant j > 0 && |branches| > 0 ==>
          acc == Some(PutAll([], baseUrl + VersionParam, branches, "-dev" + StatusParam + IntToString(statuses[j - 1])))
      {
        var suffix := "-dev" + StatusParam + IntToString(statuses[j]);
        ghost var start := acc;
        for i := 0 to |branches|
          invariant i == 0 ==> acc == start
          invariant i > 0 ==> acc == Some(PutAll(if start.Some? then start.value else [], baseUrl + VersionParam, branches[..i], suffix))
        {
          var m := if acc.Some? then acc.value else [];
          PutAllStep(if start.Some? then start.value else [], baseUrl + VersionParam, branches, i, suffix);
          acc := Some(Put(m, branches[i], KeyedUrl(baseUrl + VersionParam, branches[i], suffix)));
        }
        assert branches[..|branches|] == branches;
        if j > 0 && |branches| > 0 {
          PutAllDistinct([], baseUrl + VersionParam, branches, "-dev" + StatusParam + IntToString(statuses[j - 1]));
          PutAllKeysFresh(baseUrl + VersionParam, branches, "-dev" + StatusParam + IntToString(statuses[j - 1]));
          Overwrite(start.value, baseUrl + VersionParam, branches, suffix);
        }
      }
      this.branches := branches;
      this.issueType := issueType;
      urls := acc;
    }

    /**
     * getUrls: an error when no branch was given; otherwise one URL per
     * distinct branch, each ending in the last fixed status, 7.
     */
    function GetUrls(): (r: Result<Assoc<string>>)
      requires |branches| == 0 ==> urls.None?
      requires |branches| > 0 ==> urls == Some(PutAll([], ListPrefix(issueType) + VersionParam, branches,
                                                      FixedSuffix()))
      ensures r.Err? <==> |branches| == 0
      ensures r.Err? ==> r.error == UninitializedUrls
      ensures r.Ok? ==> DistinctKeys(r.value) && Keys(r.value) == Dedupe(branches)
      ensures r.Ok? ==> forall b :: b in branches ==> Get(r.value, b) == Some(ListPrefix(issueType) + VersionParam + b + ("-dev" + StatusParam + "7"))
    {
      var prefix := ListPrefix(issueType) + VersionParam;
      LastFixedStatus();
      PutAllGet([], prefix, branches, FixedSuffix());
      PutAllDistinct([], prefix, branches, FixedSuffix());
      PutAllKeysFresh(prefix, branches, FixedSuffix());
      match urls
      case None => Err(UninitializedUrls)
      case Some(m) => Ok(m)
    }

    /** getBaseUrl, inherited from IssueListRequest: the endpoint every URL of the request starts with. */
    function GetBaseUrl(): (r: string)
      ensures r == IssueListBaseUrl
      ensures |r| <= |ListPrefix(issueType)| && ListPrefix(issueType)[..|r|] == r
    {
      IssueListBaseUrl
    }

    /** getType, inherited: the issue type given to the constructor ('' by default). */
    function GetType(): (r: string)
      ensures r == issueType
    {
      issueType
    }

    /** getBranches, inherited: the branches given to the constructor, duplicates included. */
    function GetBranches(): (r: seq<string>)
      ensures r == branches
    {
      branches
    }
  }

  /** A request for single nodes: one URL per distinct node id; none given, none built. */
  class SingleIssueRequest {
    const nodeIds: seq<string>
    const urls: Assoc<string>

    constructor (nodeIds: seq<string>)
      ensures this.nodeIds == nodeIds
      ensures urls == PutAll([], NodeBaseUrl, nodeIds, NodeSuffix)
    {
      var m: Assoc<string> := [];
      for i := 0 to |nodeIds|
        invariant m == PutAll([], NodeBaseUrl, nodeIds[..i], NodeSuffix)
      {
        PutAllStep([], NodeBaseUrl, nodeIds, i, NodeSuffix);
        m := Put(m, nodeIds[i], KeyedUrl(NodeBaseUrl, nodeIds[i], NodeSuffix));
      }
      assert nodeIds[..|nodeIds|] == nodeIds;
      this.nodeIds := nodeIds;
      urls := m;
    }

    /** getUrls: the node ids in first-occurrence order, each mapped to base + id + ".json?drupalorg_extra_credit=1". */
    function GetUrls(): (r: Assoc<string>)
      requires urls == PutAll([], NodeBaseUrl, nodeIds, NodeSuffix)
      ensures DistinctKeys(r) && Keys(r) == Dedupe(nodeIds)
      ensures |nodeIds| == 0 ==> r == []
      ensures forall n :: n in nodeIds ==> Get(r, n) == Some(NodeBaseUrl + n + NodeSuffix)
    {
      PutAllGet([], NodeBaseUrl, nodeIds, NodeSuffix);
      PutAllDistinct([], NodeBaseUrl, nodeIds, NodeSuffix);
      PutAllKeysFresh(NodeBaseUrl, nodeIds, NodeSuffix);
      urls
    }

    /** getType: single nodes have no issue type. */
    function GetType(): (r: string)
      ensures IsEmptyString(r) && |r| == 0
    {
      ""
    }
  }

  /** A request for the most recent comments of one user. */
  class UserRecentCommentRequest {
    const uid: int

    constructor (uid: int)
      ensures this.uid == uid
    {
      this.uid := uid;
    }

    /** getBaseUrl: the uid's decimal text sits between "comment.json?author=" and the sort parameters. */
    function GetBaseUrl(): (r: string)
      ensures |r| == |CommentAuthorUrl| + |IntToString(uid)| + |CommentSort|
      ensures r[..|CommentAuthorUrl|] == CommentAuthorUrl
      ensures r[|CommentAuthorUrl|..|r| - |CommentSort|] == IntToString(uid)
      ensures r[|r| - |CommentSort|..] == CommentSort
    {
      var r := CommentAuthorUrl + IntToString(uid) + CommentSort;
      assert r[|CommentAuthorUrl|..|r| - |CommentSort|] == IntToString(uid);
      r
    }

    /** getUrls: a single entry, keyed "recent comments", holding the base URL. */
    function GetUrls(): (r: Assoc<string>)
      ensures |r| == 1 && Keys(r) == [RecentCommentsKey]
      ensures Get(r, RecentCommentsKey) == Some(GetBaseUrl())
    {
      [(RecentCommentsKey, GetBaseUrl())]
    }

    /** getType: comments have no issue type. */
    function GetType(): (r: string)
      ensures IsEmptyString(r) && |r| == 0
    {
      ""
    }
  }

  /** PHP's int to string conversion is injective. */
  lemma IntToStringInjective(a: int, b: int)
    requires IntToString(a) == IntToString(b)
    ensures a == b
  {
    if a < 0 && b < 0 {
      assert IntToString(a)[1..] == NatToString(-a);
      NatToStringInjective(-a, -b);
    } else if a >= 0 && b >= 0 {
      NatToStringInjective(a, b);
    }
  }

  /** Different users get different comment URLs, so the URL identifies the user. */
  lemma CommentUrlIdentifiesUser(p: UserRecentCommentRequest, q: UserRecentCommentRequest)
    requires p.GetBaseUrl() == q.GetBaseUrl()
    ensures p.uid == q.uid
  {
    var r := p.GetBaseUrl();
    assert IntToString(p.uid) == r[|CommentAuthorUrl|..|r| - |CommentSort|] == IntToString(q.uid);
    IntToStringInjective(p.uid, q.uid);
  }

  /** Different type labels can give the same URL prefix: unknown labels all lose their code. */
  lemma UnknownTypesShareUrls()
    ensures ListPrefix("unknown") == ListPrefix("other") == IssueListBaseUrl + CategoryParam
  {
    assert Get(MagicIntMetadata.Type, "unknown").None?;
    assert Get(MagicIntMetadata.Type, "other").None?;
  }
}
