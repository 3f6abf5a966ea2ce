/**
 * assembleQueryString, which QueryRunner, DateQueryRunner and IssueQueryRunner
 * each carry a copy of: the issue filter compiled to an SQL text with `?`
 * placeholders and the list of values bound to them, in order.
 *
 * The SQL text is a list of tokens: constant text, a placeholder, or an
 * integer inlined as a literal (the date bounds).
 */
module QueryCompiler {
  import opened Base
  import opened Text
  import opened IssueMetadata
  import opened IssueQuery

  /** The constant pieces of SQL text a query is assembled from. */
  datatype Fragment =
    | SelectAll | JoinTags | InOpen | InClose | Equals | LineEnd | Comma | ConditionClose
    | Where | And | ExcludeOpen | ExcludeWhere | ExcludeAnd | ExcludeClose
    | ChangedFrom | StatusChangedFrom | ChangedTo | StatusChangedTo | Space

  /** The text of each fragment. */
  function FragmentText(f: Fragment): string
  {
    match f
    case SelectAll => " SELECT * FROM issue_data \n"
    case JoinTags => " LEFT JOIN nid_tid \n ON issue_data.nid = nid_tid.nid AND nid_tid.tid "
    case InOpen => " IN ( \n"
    case InClose => " ) \n"
    case Equals => " = "
    case LineEnd => " \n"
    case Comma => ", "
    case ConditionClose => ") "
    case Where => " WHERE \n"
    case And => "\n AND "
    case ExcludeOpen => " AND issue_data.nid NOT IN ( \n   SELECT id.nid FROM issue_data id \n   INNER JOIN nid_tid nt \n   ON id.nid = nt.nid AND nt.tid = "
    case ExcludeWhere => "\n   WHERE \n"
    case ExcludeAnd => "\n   AND "
    case ExcludeClose => " \n ) \n"
    case ChangedFrom => "\n AND issue_data.changed >= "
    case StatusChangedFrom => "\n AND issue_data.status_changed >= "
    case ChangedTo => "\n AND issue_data.changed <= "
    case StatusChangedTo => "\n AND issue_data.status_changed <= "
    case Space => " "
  }

  /**
   * A token of SQL text: a constant fragment, text built around a column
   * name, a `?` placeholder, or an integer inlined as a literal.
   */
  datatype Token = Fixed(fragment: Fragment) | Sql(text: string) | Placeholder | Literal(value: int)

  /** The SQL text of a token list. */
  function Render(ts: seq<Token>): string
  {
    if |ts| == 0 then ""
    else
      var t := ts[0];
      var text := match t
        case Fixed(f) => FragmentText(f)
        case Sql(x) => x
        case Placeholder => "?"
        case Literal(v) => IntToString(v);
      text + Render(ts[1..])
  }

  /** A compiled query: the SQL tokens and the parameters bound to its placeholders. */
  datatype Query = Query(tokens: seq<Token>, params: seq<Scalar>)

  /** The date bounds of IssueQueryRunner; a bound is given when it is present and not 0. */
  datatype Timestamps = Timestamps(
    changedStart: Option<int>,
    statusChangeStart: Option<int>,
    changedEnd: Option<int>,
    statusChangeEnd: Option<int>)

  /** PHP's !empty() on an optional integer bound. */
  predicate Given(v: Option<int>)
  {
    v.Some? && v.value != 0
  }

  function Placeholders(ts: seq<Token>): nat
  {
    if |ts| == 0 then 0 else (if ts[0].Placeholder? then 1 else 0) + Placeholders(ts[1..])
  }

  lemma {:induction false} PlaceholdersAppend(a: seq<Token>, b: seq<Token>)
    ensures Placeholders(a + b) == Placeholders(a) + Placeholders(b)
    decreases |a|
  {
    if |a| > 0 {
      assert (a + b)[0] == a[0];
      assert (a + b)[1..] == a[1..] + b;
      PlaceholdersAppend(a[1..], b);
    } else {
      assert a + b == b;
    }
  }

  lemma PlaceholdersCons(t: Token, ts: seq<Token>)
    ensures Placeholders([t] + ts) == (if t.Placeholder? then 1 else 0) + Placeholders(ts)
  {
    assert ([t] + ts)[1..] == ts;
  }

  /** implode(', ', array_fill(0, n, '?')). */
  function PlaceholderList(n: nat): (r: seq<Token>)
    ensures Placeholders(r) == n
  {
    if n == 0 then []
    else if n == 1 then [Placeholder]
    else
      var r := [Placeholder, Fixed(Comma)] + PlaceholderList(n - 1);
      PlaceholdersAppend([Placeholder, Fixed(Comma)], PlaceholderList(n - 1));
      r
  }

  /** The condition of one non-empty filter: "`key` = ?" for one value, "`key` IN (?, ...)" for several. */
  function Condition(key: string, n: nat): (r: seq<Token>)
    ensures n > 0 ==> Placeholders(r) == n
  {
    var open := [Sql(" `" + key + "` IN (")];
    var single := [Sql(" `" + key + "` = "), Placeholder];
    PlaceholdersCons(Placeholder, []);
    PlaceholdersCons(Sql(" `" + key + "` = "), [Placeholder]);
    assert single == [Sql(" `" + key + "` = ")] + [Placeholder];
    if n > 1 then
      PlaceholdersAppend(open, PlaceholderList(n));
      PlaceholdersAppend(open + PlaceholderList(n), [Fixed(ConditionClose)]);
      open + PlaceholderList(n) + [Fixed(ConditionClose)]
    else single
  }

  /** One value renders as "`key` = ?". */
  lemma RenderSingleCondition(key: string)
    ensures Render(Condition(key, 1)) == " `" + key + "` = ?"
  {
    var c := Condition(key, 1);
    assert c[1..][1..] == [];
    assert Render(c[1..]) == "?" + Render([]);
  }

  /** Two values render as "`key` IN (?, ?) ". */
  lemma RenderTwoValueCondition(key: string)
    ensures Render(Condition(key, 2)) == " `" + key + "` IN (?, ?) "
  {
    RenderCondition(key, 2);
    assert QuestionMarks(2) == "?, " + QuestionMarks(1);
  }


  /** The text of implode(', ', array_fill(0, n, '?')): n question marks, comma-separated. */
  function QuestionMarks(n: nat): (r: string)
    requires n >= 1
    ensures |r| == 3 * n - 2
  {
    if n == 1 then "?" else "?, " + QuestionMarks(n - 1)
  }

  lemma {:induction false} RenderAppend(a: seq<Token>, b: seq<Token>)
    ensures Render(a + b) == Render(a) + Render(b)
  {
    if |a| > 0 {
      assert (a + b)[1..] == a[1..] + b;
      RenderAppend(a[1..], b);
    } else {
      assert a + b == b;
    }
  }

  lemma {:induction false} RenderPlaceholderList(n: nat)
    requires n >= 1
    ensures Render(PlaceholderList(n)) == QuestionMarks(n)
  {
    if n == 1 {
      assert PlaceholderList(1)[1..] == [];
    } else {
      var t := [Placeholder, Fixed(Comma)];
      assert t[1..][1..] == [];
      assert Render(t) == "?, ";
      RenderAppend(t, PlaceholderList(n - 1));
      RenderPlaceholderList(n - 1);
    }
  }

  /** Several values render as "`key` IN (" then one '?' per value, comma-separated, then ") ". */
  lemma RenderCondition(key: string, n: nat)
    requires n > 1
    ensures Render(Condition(key, n)) == " `" + key + "` IN (" + QuestionMarks(n) + ") "
  {
    var open := [Sql(" `" + key + "` IN (")];
    var close := [Fixed(ConditionClose)];
    assert Condition(key, n) == open + PlaceholderList(n) + close;
    RenderAppend(open + PlaceholderList(n), close);
    RenderAppend(open, PlaceholderList(n));
    RenderPlaceholderList(n);
    assert open[1..] == [] && close[1..] == [];
  }

  /** implode($sep, $conditions) on token lists. */
  function Implode(conds: seq<seq<Token>>, sep: Fragment): seq<Token>
  {
    if |conds| == 0 then []
    else if |conds| == 1 then conds[0]
    else conds[0] + [Fixed(sep)] + Implode(conds[1..], sep)
  }

  function SumPlaceholders(conds: seq<seq<Token>>): nat
  {
    if |conds| == 0 then 0 else SumPlaceholders(conds[..|conds| - 1]) + Placeholders(conds[|conds| - 1])
  }

  /** The filters in the order assembleQueryString lists them, each with its column name. */
  function Filters(f: IssueFilter): seq<(string, seq<Scalar>)>
  {
    [("category", f.Types()), ("version", Strs(f.Branches())), ("priority", f.priorities),
     ("status", f.statuses), ("component", Strs(f.components))]
  }

  /** String values as parameters. */
  function Strs(xs: seq<string>): (r: seq<Scalar>)
    ensures |r| == |xs| && forall i :: 0 <= i < |xs| ==> r[i] == Str(xs[i])
  {
    seq(|xs|, i requires 0 <= i < |xs| => Str(xs[i]))
  }

  /** The values of a list of filters, all concatenated in order. */
  function Values(fs: seq<(string, seq<Scalar>)>): seq<Scalar>
  {
    if |fs| == 0 then [] else Values(fs[..|fs| - 1]) + fs[|fs| - 1].1
  }

  /** How many of a list of filters are non-empty. */
  function NonEmpty(fs: seq<(string, seq<Scalar>)>): nat
  {
    if |fs| == 0 then 0 else NonEmpty(fs[..|fs| - 1]) + (if |fs[|fs| - 1].1| > 0 then 1 else 0)
  }

  /**
   * The foreach over the first k filters: each non-empty one adds one
   * condition and its values; empty ones are skipped.
   */
  function ConditionsUpTo(fs: seq<(string, seq<Scalar>)>, k: nat): (r: (seq<seq<Token>>, seq<Scalar>))
    requires k <= |fs|
    ensures r.1 == Values(fs[..k])
    ensures |r.0| == NonEmpty(fs[..k])
    ensures SumPlaceholders(r.0) == |r.1|
  {
    if k == 0 then ([], [])
    else
      var prev := ConditionsUpTo(fs, k - 1);
      assert fs[..k][..k - 1] == fs[..k - 1];
      var (key, vals) := fs[k - 1];
      if |vals| == 0 then prev
      else
        var conds := prev.0 + [Condition(key, |vals|)];
        assert conds[..|conds| - 1] == prev.0;
        (conds, prev.1 + vals)
  }

  lemma {:induction false} ImplodeCount(conds: seq<seq<Token>>, sep: Fragment)
    ensures Placeholders(Implode(conds, sep)) == SumPlaceholders(conds)
    decreases |conds|
  {
    if |conds| == 1 {
      assert conds[..0] == [];
    } else if |conds| > 1 {
      var rest := conds[1..];
      ImplodeCount(rest, sep);
      PlaceholdersAppend(conds[0], [Fixed(sep)]);
      PlaceholdersAppend(conds[0] + [Fixed(sep)], Implode(rest, sep));
      SumFront(conds);
    }
  }

  /** The sum over a list is its head's count plus the sum over its tail. */
  lemma {:induction false} SumFront(conds: seq<seq<Token>>)
    requires |conds| > 0
    ensures SumPlaceholders(conds) == Placeholders(conds[0]) + SumPlaceholders(conds[1..])
    decreases |conds|
  {
    if |conds| > 1 {
      var init := conds[..|conds| - 1];
      SumFront(init);
      assert init[1..] == conds[1..][..|conds[1..]| - 1];
      assert init[0] == conds[0];
    } else {
      assert conds[..0] == [];
      assert conds[1..] == [];
    }
  }

  /** After `nid_tid.tid`: "= ?" for one tag, "IN ( ?, ... )" for several. */
  function JoinTest(n: nat): (r: seq<Token>)
    requires n > 0
    ensures Placeholders(r) == n
  {
    if n > 1 then
      var open := [Fixed(InOpen)];
      PlaceholdersAppend(open, PlaceholderList(n));
      PlaceholdersAppend(open + PlaceholderList(n), [Fixed(InClose)]);
      open + PlaceholderList(n) + [Fixed(InClose)]
    else
      PlaceholdersCons(Fixed(LineEnd), []);
      PlaceholdersCons(Placeholder, [Fixed(LineEnd)]);
      PlaceholdersCons(Fixed(Equals), [Placeholder, Fixed(LineEnd)]);
      assert [Fixed(Equals), Placeholder, Fixed(LineEnd)] == [Fixed(Equals)] + ([Placeholder] + [Fixed(LineEnd)]);
      [Fixed(Equals), Placeholder, Fixed(LineEnd)]
  }

  /** One tag renders as " = ? \n". */
  lemma RenderJoinTestOne()
    ensures Render(JoinTest(1)) == " = ? \n"
  {
    var one := JoinTest(1);
    assert one[1..][1..][1..] == [];
    assert Render(one[1..]) == "?" + Render(one[1..][1..]);
  }

  /** Two tags render as " IN ( \n?, ? ) \n". */
  lemma RenderJoinTestTwo()
    ensures Render(JoinTest(2)) == " IN ( \n?, ? ) \n"
  {
    var close := [Fixed(InClose)];
    assert Render(close) == " ) \n" by {
      assert close[1..] == [];
    }
    var tail := [Placeholder] + close;
    assert Render(tail) == "? ) \n" by {
      assert tail[1..] == close;
    }
    var rest := [Placeholder, Fixed(Comma)] + tail;
    assert Render(rest) == "?, ? ) \n" by {
      assert rest[1..][1..] == tail;
    }
    assert JoinTest(2) == [Fixed(InOpen)] + rest;
    assert ([Fixed(InOpen)] + rest)[1..] == rest;
  }

  /** One tag renders as " = ? \n"; two as " IN ( \n?, ? ) \n". */
  lemma RenderJoinTest()
    ensures Render(JoinTest(1)) == " = ? \n"
    ensures Render(JoinTest(2)) == " IN ( \n?, ? ) \n"
  {
    RenderJoinTestOne();
    RenderJoinTestTwo();
  }

  /**
   * The join for included tags. As written, several tags reach
   * `sizeof($filter)` with $filter not yet defined, a TypeError in PHP 8; the
   * intended join has one placeholder per tag.
   */
  function IncludeJoin(tids: seq<Scalar>, asWritten: bool): (r: Result<Query>)
    requires |tids| > 0
    ensures r.Err? <==> asWritten && |tids| > 1
    ensures r.Err? ==> r.error == CountOfNull
    ensures r.Ok? ==> r.value.params == tids && Placeholders(r.value.tokens) == |tids|
  {
    var on := [Fixed(JoinTags)];
    if asWritten && |tids| > 1 then Err(CountOfNull)
    else
      PlaceholdersAppend(on, JoinTest(|tids|));
      PlaceholdersCons(on[0], []);
      Ok(Query(on + JoinTest(|tids|), tids))
  }

  /** One inlined date bound, when given. */
  function Bound(v: Option<int>, condition: Fragment, tail: seq<Token>): seq<Token>
  {
    if Given(v) then [Fixed(condition), Literal(v.value)] + tail else []
  }

  lemma BoundNoPlaceholder(v: Option<int>, condition: Fragment, tail: seq<Token>)
    requires Placeholders(tail) == 0
    ensures Placeholders(Bound(v, condition, tail)) == 0
  {
    if Given(v) {
      var h := [Fixed(condition), Literal(v.value)];
      PlaceholdersCons(Literal(v.value), []);
      PlaceholdersCons(Fixed(condition), [Literal(v.value)]);
      assert h == [Fixed(condition)] + [Literal(v.value)];
      PlaceholdersAppend(h, tail);
    }
  }

  /**
   * Both an end on changed and an end on status change, or (as intended, but
   * not as written, where the check reads the undefined $timestampArray) both
   * starts.
   */
  predicate Conflicting(t: Timestamps, asWritten: bool)
  {
    (!asWritten && Given(t.changedStart) && Given(t.statusChangeStart)) ||
    (Given(t.changedEnd) && Given(t.statusChangeEnd))
  }

  /** The date restrictions: literals inlined after the WHERE conditions, or the conflict exception. */
  function DateBlock(t: Timestamps, asWritten: bool): (r: Result<seq<Token>>)
    ensures r.Err? <==> Conflicting(t, asWritten)
    ensures r.Err? ==> r.error == ConflictingDateFilter
    ensures r.Ok? ==> Placeholders(r.value) == 0
  {
    if Conflicting(t, asWritten) then Err(ConflictingDateFilter)
    else
      var b1 := Bound(t.changedStart, ChangedFrom, [Fixed(Space)]);
      var b2 := Bound(t.statusChangeStart, StatusChangedFrom, [Fixed(Space)]);
      var b3 := Bound(t.changedEnd, ChangedTo, []);
      var b4 := Bound(t.statusChangeEnd, StatusChangedTo, []);
      BoundNoPlaceholder(t.changedStart, ChangedFrom, [Fixed(Space)]);
      BoundNoPlaceholder(t.statusChangeStart, StatusChangedFrom, [Fixed(Space)]);
      BoundNoPlaceholder(t.changedEnd, ChangedTo, []);
      BoundNoPlaceholder(t.statusChangeEnd, StatusChangedTo, []);
      PlaceholdersAppend(b1, b2);
      PlaceholdersAppend(b1 + b2, b3);
      PlaceholdersAppend(b1 + b2 + b3, b4);
      Ok(b1 + b2 + b3 + b4)
  }

  /** The NOT IN subquery for one excluded tag, repeating the WHERE conditions. */
  function Subquery(conds: seq<seq<Token>>): (r: seq<Token>)
    ensures Placeholders(r) == 1 + SumPlaceholders(conds)
  {
    var open := [Fixed(ExcludeOpen),
                 Placeholder, Fixed(ExcludeWhere)];
    var body := Implode(conds, ExcludeAnd);
    var close := [Fixed(ExcludeClose)];
    PlaceholdersCons(Fixed(ExcludeWhere), []);
    PlaceholdersCons(Placeholder, [Fixed(ExcludeWhere)]);
    PlaceholdersCons(open[0], [Placeholder, Fixed(ExcludeWhere)]);
    assert open == [open[0]] + [Placeholder, Fixed(ExcludeWhere)];
    PlaceholdersCons(close[0], []);
    ImplodeCount(conds, ExcludeAnd);
    PlaceholdersAppend(open, body);
    PlaceholdersAppend(open + body, close);
    open + body + close
  }

  /** For the given tags in order, each tag followed by the condition parameters. */
  function PerTag(tids: seq<Scalar>, cp: seq<Scalar>): seq<Scalar>
  {
    if |tids| == 0 then [] else PerTag(tids[..|tids| - 1], cp) + [tids[|tids| - 1]] + cp
  }

  /**
   * The foreach over the first k excluded tags: one subquery `sub` each,
   * binding the tag then the condition values.
   */
  function ExcludeUpTo(tids: seq<Scalar>, sub: seq<Token>, cp: seq<Scalar>, k: nat): (r: Query)
    requires k <= |tids| && Placeholders(sub) == 1 + |cp|
    ensures r.params == PerTag(tids[..k], cp)
    ensures Placeholders(r.tokens) == |r.params|
  {
    if k == 0 then Query([], [])
    else
      var prev := ExcludeUpTo(tids, sub, cp, k - 1);
      var front := tids[..k];
      assert front[..k - 1] == tids[..k - 1] && front[k - 1] == tids[k - 1];
      assert PerTag(front, cp) == prev.params + [tids[k - 1]] + cp;
      PlaceholdersAppend(prev.tokens, sub);
      Query(prev.tokens + sub, prev.params + [tids[k - 1]] + cp)
  }

  /** One more excluded tag appends one subquery and its parameters. */
  lemma ExcludeStep(tids: seq<Scalar>, sub: seq<Token>, cp: seq<Scalar>, k: nat)
    requires k < |tids| && Placeholders(sub) == 1 + |cp|
    ensures ExcludeUpTo(tids, sub, cp, k + 1) ==
      Query(ExcludeUpTo(tids, sub, cp, k).tokens + sub, ExcludeUpTo(tids, sub, cp, k).params + [tids[k]] + cp)
  {
  }

  /** The tags are bound in order: the parameters of a concatenation are the concatenation of the parameters. */
  lemma {:induction false} PerTagAppend(a: seq<Scalar>, b: seq<Scalar>, cp: seq<Scalar>)
    ensures PerTag(a + b, cp) == PerTag(a, cp) + PerTag(b, cp)
    decreases |b|
  {
    if |b| == 0 {
      assert a + b == a;
    } else {
      var b' := b[..|b| - 1];
      PerTagAppend(a, b', cp);
      assert (a + b)[..|a + b| - 1] == a + b';
      assert (a + b)[|a + b| - 1] == b[|b| - 1];
    }
  }

  /** Tag i is bound right after the tags before it, and is followed by the condition parameters. */
  lemma PerTagAt(tids: seq<Scalar>, cp: seq<Scalar>, i: nat)
    requires i < |tids|
    ensures PerTag(tids, cp) == PerTag(tids[..i], cp) + [tids[i]] + cp + PerTag(tids[i + 1..], cp)
  {
    assert tids == tids[..i] + ([tids[i]] + tids[i + 1..]);
    PerTagAppend(tids[..i], [tids[i]] + tids[i + 1..], cp);
    PerTagAppend([tids[i]], tids[i + 1..], cp);
    assert PerTag([tids[i]], cp) == [tids[i]] + cp by {
      assert [tids[i]][..0] == [];
    }
  }

  /** Include mode: some tags, not excluded. */
  predicate IncludeMode(f: IssueFilter)
  {
    |f.tids| > 0 && !f.excludeTerms
  }

  /** Exclude mode: some tags, excluded. */
  predicate ExcludeMode(f: IssueFilter)
  {
    |f.tids| > 0 && f.excludeTerms
  }

  /** The constant head of every query. */
  const Head: seq<Token> := [Fixed(SelectAll)]

  /** " WHERE " followed by the conditions joined by AND. */
  function WhereClause(conds: seq<seq<Token>>): (r: seq<Token>)
    ensures Placeholders(r) == SumPlaceholders(conds)
  {
    var open := [Fixed(Where)];
    var close := [Fixed(LineEnd)];
    PlaceholdersCons(open[0], []);
    PlaceholdersCons(close[0], []);
    ImplodeCount(conds, And);
    PlaceholdersAppend(open, Implode(conds, And));
    PlaceholdersAppend(open + Implode(conds, And), close);
    open + Implode(conds, And) + close
  }

  /**
   * assembleQueryString. `dates` is None for QueryRunner and DateQueryRunner,
   * which have no date block, and the timestamps for IssueQueryRunner.
   * `asWritten` selects the source's two defects (the multi-tag join and the
   * start-bound check); the runners use the corrected behaviour.
   *
   * It fails exactly when the source throws: as written, on several included
   * tags, and on conflicting date bounds. A compiled query has one
   * placeholder per parameter.
   */
  function Compile(f: IssueFilter, dates: Option<Timestamps>, asWritten: bool): (r: Result<Query>)
    ensures r.Err? <==>
      ((asWritten && IncludeMode(f) && |f.tids| > 1) || (dates.Some? && Conflicting(dates.value, asWritten)))
    ensures r.Err? ==> r.error == (if asWritten && IncludeMode(f) && |f.tids| > 1 then CountOfNull else ConflictingDateFilter)
    ensures r.Ok? ==> Placeholders(r.value.tokens) == |r.value.params|
  {
    var join := Join(f, asWritten);
    if join.Err? then Err(join.error)
    else
      var cs := ConditionsUpTo(Filters(f), 5);
      var dateBlock := if dates.None? then Ok([]) else DateBlock(dates.value, asWritten);
      if dateBlock.Err? then Err(dateBlock.error)
      else
        Ok(Assembled(join.value, cs.0, cs.1, dateBlock.value, Exclusions(f, cs.0, cs.1)))
  }

  /** The query text in order: head, join, WHERE conditions, date block, exclusions. */
  function Assembled(join: Query, conds: seq<seq<Token>>, cp: seq<Scalar>, dateBlock: seq<Token>, excl: Query): (r: Query)
    requires Placeholders(join.tokens) == |join.params| && SumPlaceholders(conds) == |cp|
    requires Placeholders(dateBlock) == 0 && Placeholders(excl.tokens) == |excl.params|
    ensures r.params == join.params + cp + excl.params
    ensures Placeholders(r.tokens) == |r.params|
  {
    var front := Head + join.tokens + WhereClause(conds);
    FrontCount(join.tokens, conds);
    PlaceholdersAppend(front, dateBlock);
    PlaceholdersAppend(front + dateBlock, excl.tokens);
    Query(front + dateBlock + excl.tokens, join.params + cp + excl.params)
  }

  /** The tag join: present in include mode only, binding the tags. */
  function Join(f: IssueFilter, asWritten: bool): (r: Result<Query>)
    ensures r.Err? <==> asWritten && IncludeMode(f) && |f.tids| > 1
    ensures r.Err? ==> r.error == CountOfNull
    ensures r.Ok? ==> r.value.params == (if IncludeMode(f) then f.tids else [])
    ensures r.Ok? ==> Placeholders(r.value.tokens) == |r.value.params|
  {
    if IncludeMode(f) then IncludeJoin(f.tids, asWritten) else Ok(Query([], []))
  }

  /** The exclusion subqueries: present in exclude mode only, one per tag. */
  function Exclusions(f: IssueFilter, conds: seq<seq<Token>>, cp: seq<Scalar>): (r: Query)
    requires SumPlaceholders(conds) == |cp|
    ensures r.params == (if ExcludeMode(f) then PerTag(f.tids, cp) else [])
    ensures Placeholders(r.tokens) == |r.params|
  {
    assert f.tids[..|f.tids|] == f.tids;
    if ExcludeMode(f) then ExcludeUpTo(f.tids, Subquery(conds), cp, |f.tids|) else Query([], [])
  }

  /** The head adds no placeholder; the join and the conditions add theirs. */
  lemma FrontCount(join: seq<Token>, conds: seq<seq<Token>>)
    ensures Placeholders(Head + join + WhereClause(conds)) == Placeholders(join) + SumPlaceholders(conds)
  {
    PlaceholdersCons(Head[0], []);
    PlaceholdersAppend(Head, join);
    PlaceholdersAppend(Head + join, WhereClause(conds));
  }

  /** The values of a list of filters: those of its prefix, then those of its last filter. */
  lemma ValuesSnoc(fs: seq<(string, seq<Scalar>)>, k: nat)
    requires 0 < k <= |fs|
    ensures Values(fs[..k]) == Values(fs[..k - 1]) + fs[k - 1].1
    ensures NonEmpty(fs[..k]) == NonEmpty(fs[..k - 1]) + (if |fs[k - 1].1| > 0 then 1 else 0)
  {
    assert fs[..k][..k - 1] == fs[..k - 1];
  }

  /** The parameters of all five filters, in the order category, version, priority, status, component. */
  lemma FilterValues(f: IssueFilter)
    ensures Values(Filters(f)) == f.categories + Strs(f.versions) + f.priorities + f.statuses + Strs(f.components)
    ensures NonEmpty(Filters(f)) ==
      (if |f.categories| > 0 then 1 else 0) + (if |f.versions| > 0 then 1 else 0) +
      (if |f.priorities| > 0 then 1 else 0) + (if |f.statuses| > 0 then 1 else 0) +
      (if |f.components| > 0 then 1 else 0)
  {
    var fs := Filters(f);
    assert fs[..5] == fs;
    assert fs[..0] == [];
    ValuesSnoc(fs, 1);
    ValuesSnoc(fs, 2);
    ValuesSnoc(fs, 3);
    ValuesSnoc(fs, 4);
    ValuesSnoc(fs, 5);
  }

  /**
   * The parameters are the included tags, then the filter values in filter
   * order, then for each excluded tag that tag and the filter values again;
   * there is one condition per non-empty filter.
   */
  lemma CompileParams(f: IssueFilter, dates: Option<Timestamps>, asWritten: bool)
    requires Compile(f, dates, asWritten).Ok?
    ensures var cp := f.categories + Strs(f.versions) + f.priorities + f.statuses + Strs(f.components);
      Compile(f, dates, asWritten).value.params ==
        (if IncludeMode(f) then f.tids else []) + cp + (if ExcludeMode(f) then PerTag(f.tids, cp) else [])
    ensures |ConditionsUpTo(Filters(f), 5).0| ==
      (if |f.categories| > 0 then 1 else 0) + (if |f.versions| > 0 then 1 else 0) +
      (if |f.priorities| > 0 then 1 else 0) + (if |f.statuses| > 0 then 1 else 0) +
      (if |f.components| > 0 then 1 else 0)
  {
    var fs := Filters(f);
    FilterValues(f);
    assert fs[..5] == fs;
    var cs := ConditionsUpTo(fs, 5);
    var join := Join(f, asWritten);
    var dateBlock := if dates.None? then Ok([]) else DateBlock(dates.value, asWritten);
    assert Compile(f, dates, asWritten).value.params == join.value.params + cs.1 + Exclusions(f, cs.0, cs.1).params;
  }

  /**
   * The date bounds are inlined as literals: they do not change the
   * parameters, and when none is given the query is the one without a date
   * block.
   */
  lemma DatesKeepParams(f: IssueFilter, t: Timestamps, asWritten: bool)
    requires Compile(f, Some(t), asWritten).Ok?
    ensures Compile(f, None, asWritten).Ok?
    ensures Compile(f, Some(t), asWritten).value.params == Compile(f, None, asWritten).value.params
    ensures !Given(t.changedStart) && !Given(t.statusChangeStart) && !Given(t.changedEnd) && !Given(t.statusChangeEnd) ==>
      Compile(f, Some(t), asWritten) == Compile(f, None, asWritten)
  {
  }

  /**
   * As written, two or more included tags make the join count an undefined
   * variable, a TypeError in PHP 8; the corrected join binds every tag.
   */
  lemma AsWrittenMultiTagInclude(f: IssueFilter, dates: Option<Timestamps>)
    requires IncludeMode(f) && |f.tids| > 1
    ensures Compile(f, dates, true) == Err(CountOfNull)
    ensures !(dates.Some? && Conflicting(dates.value, false)) ==>
      Compile(f, dates, false).Ok? && Compile(f, dates, false).value.params[..|f.tids|] == f.tids
  {
    if !(dates.Some? && Conflicting(dates.value, false)) {
      CompileParams(f, dates, false);
    }
  }

  /**
   * As written, both start bounds given is not detected, because the check
   * reads a variable that is never set; the corrected check rejects it.
   */
  lemma AsWrittenStartConflict(f: IssueFilter, changed: int, statusChanged: int)
    requires changed != 0 && statusChanged != 0
    requires !(IncludeMode(f) && |f.tids| > 1)
    ensures var t := Timestamps(Some(changed), Some(statusChanged), None, None);
      Compile(f, Some(t), true).Ok? && Compile(f, Some(t), false) == Err(ConflictingDateFilter)
  {
  }

  /** The foreach over the filters: one condition per non-empty filter, and its values. */
  method CollectConditions(filters: seq<(string, seq<Scalar>)>) returns (conditions: seq<seq<Token>>, conditionParameters: seq<Scalar>)
    ensures (conditions, conditionParameters) == ConditionsUpTo(filters, |filters|)
  {
    conditions, conditionParameters := [], [];
    for i := 0 to |filters|
      invariant (conditions, conditionParameters) == ConditionsUpTo(filters, i)
    {
      var (key, filter) := filters[i];
      if |filter| > 0 {
        conditions := conditions + [Condition(key, |filter|)];
        conditionParameters := conditionParameters + filter;
      }
    }
  }

  /** The foreach over the excluded tags: a subquery each, binding the tag and the condition values again. */
  method AppendExclusions(f: IssueFilter, conditions: seq<seq<Token>>, conditionParameters: seq<Scalar>,
                          query: seq<Token>, queryParameters: seq<Scalar>)
    returns (query': seq<Token>, queryParameters': seq<Scalar>)
    requires SumPlaceholders(conditions) == |conditionParameters|
    ensures query' == query + Exclusions(f, conditions, conditionParameters).tokens
    ensures queryParameters' == queryParameters + Exclusions(f, conditions, conditionParameters).params
  {
    query', queryParameters' := query, queryParameters;
    if ExcludeMode(f) {
      var sub := Subquery(conditions);
      for i := 0 to |f.tids|
        invariant query' == query + ExcludeUpTo(f.tids, sub, conditionParameters, i).tokens
        invariant queryParameters' == queryParameters + ExcludeUpTo(f.tids, sub, conditionParameters, i).params
      {
        ghost var prev := ExcludeUpTo(f.tids, sub, conditionParameters, i);
        ExcludeStep(f.tids, sub, conditionParameters, i);
        query' := query' + sub;
        assert query' == query + (prev.tokens + sub);
        queryParameters' := queryParameters' + [f.tids[i]];
        queryParameters' := queryParameters' + conditionParameters;
        assert queryParameters' == queryParameters + (prev.params + [f.tids[i]] + conditionParameters);
      }
    } else {
      assert Exclusions(f, conditions, conditionParameters) == Query([], []);
    }
  }

  /**
   * assembleQueryString as the source runs it: the text and the parameters
   * accumulated in order, with the corrected join and start-bound check.
   */
  method AssembleQuery(f: IssueFilter, dates: Option<Timestamps>) returns (r: Result<Query>)
    ensures r == Compile(f, dates, false)
  {
    var join := Join(f, false);
    var query := Head + join.value.tokens;
    var queryParameters := join.value.params;

    var filters := Filters(f);
    var conditions, conditionParameters := CollectConditions(filters);
    queryParameters := queryParameters + conditionParameters;
    query := query + WhereClause(conditions);

    var dateBlock: seq<Token> := [];
    if dates.Some? {
      var d := DateBlock(dates.value, false);
      if d.Err? {
        return Err(d.error);
      }
      dateBlock := d.value;
    }
    query := query + dateBlock;
    query, queryParameters := AppendExclusions(f, conditions, conditionParameters, query, queryParameters);
    r := Ok(Query(query, queryParameters));
  }

  /** QueryRunner: the query over a filter, without date bounds. */
  class QueryRunner {
    const metadata: IssueFilter
    var queryString: seq<Token>
    var queryParameters: seq<Scalar>

    constructor (query: IssueQuery)
      ensures metadata == query.GetMetadata()
      ensures Compile(metadata, None, false) == Ok(Query(queryString, queryParameters))
    {
      metadata := query.GetMetadata();
      new;
      AssembleQueryString();
    }

    /** assembleQueryString: it never throws, since there are no date bounds and the join binds every tag. */
    method AssembleQueryString()
      modifies this`queryString, this`queryParameters
      ensures Compile(metadata, None, false) == Ok(Query(queryString, queryParameters))
    {
      var r := AssembleQuery(metadata, None);
      queryString, queryParameters := r.value.tokens, r.value.params;
    }
  }

  /** DateQueryRunner: despite its name, the same query as QueryRunner, without date bounds. */
  class DateQueryRunner {
    const metadata: IssueFilter
    var queryString: seq<Token>
    var queryParameters: seq<Scalar>

    constructor (query: IssueQuery)
      ensures metadata == query.GetMetadata()
      ensures Compile(metadata, None, false) == Ok(Query(queryString, queryParameters))
    {
      metadata := query.GetMetadata();
      new;
      AssembleQueryString();
    }

    /** assembleQueryString, the same as QueryRunner's. */
    method AssembleQueryString()
      modifies this`queryString, this`queryParameters
      ensures Compile(metadata, None, false) == Ok(Query(queryString, queryParameters))
    {
      var r := AssembleQuery(metadata, None);
      queryString, queryParameters := r.value.tokens, r.value.params;
    }
  }

  /**
   * IssueQueryRunner: the query with the date bounds. The bounds are an
   * input here, since the metadata class has no getTimestamps.
   */
  class IssueQueryRunner {
    const metadata: IssueFilter
    const timestamps: Option<Timestamps>
    var queryString: seq<Token>
    var queryParameters: seq<Scalar>

    /**
     * Where the source's constructor throws, the model's leaves the query
     * empty (queryParameters keeps the base class's default []).
     */
    constructor (query: IssueQuery, timestamps: Option<Timestamps>)
      ensures metadata == query.GetMetadata() && this.timestamps == timestamps
      ensures Compile(metadata, timestamps, false).Ok? ==>
        Compile(metadata, timestamps, false) == Ok(Query(queryString, queryParameters))
      ensures Compile(metadata, timestamps, false).Err? ==> queryString == [] && queryParameters == []
    {
      metadata := query.GetMetadata();
      this.timestamps := timestamps;
      queryString := [];
      queryParameters := [];
      new;
      var _ := AssembleQueryString();
    }

    /** assembleQueryString: it throws on conflicting bounds and then changes nothing. */
    method AssembleQueryString() returns (o: Outcome)
      modifies this`queryString, this`queryParameters
      ensures o.Pass? <==> Compile(metadata, timestamps, false).Ok?
      ensures o.Pass? ==> Compile(metadata, timestamps, false) == Ok(Query(queryString, queryParameters))
      ensures o.Fail? ==> Compile(metadata, timestamps, false) == Err(o.error)
      ensures o.Fail? ==> queryString == old(queryString) && queryParameters == old(queryParameters)
    {
      var r := AssembleQuery(metadata, timestamps);
      if r.Ok? {
        queryString, queryParameters := r.value.tokens, r.value.params;
        o := Pass;
      } else {
        o := Fail(r.error);
      }
    }
  }
}
