# Drupal core issue metrics — a Dafny model of the query and request core

The scripts in this repository gather metrics about Drupal core issues. They
query the drupal.org REST API, the git history of core, and a local SQLite
copy of the issue data. This project models the deterministic logic behind
those scripts and proves properties of it:

- **Branch names.** Branch names are validated and converted between git
  format (`9.4.x`) and issue format (`9.4.x-dev`). `11.x` is a special case.
  Branch names for shell use are sanitised.
- **Fix-relevant branches.** For a branch, the model works out which other
  branches received commits at the same time.
- **Issue filter.** A mutable builder (`IssueMetadata`) turns short labels
  (`nw`, `bug`, `critical`, …) into the integer codes of the constant tables
  (`MagicIntMetadata`). It is then frozen into an immutable value.
- **SQL compilation.** Three runner classes compile a filter into a
  parameterised SQL query. Filters become `IN (?, …)` conditions, tags are
  included by a join or excluded by `NOT IN` subqueries, and dates become
  literal bounds.
- **Git log parsing.** `Issue #<nid>` commit messages are parsed into
  node ids.
- **Fetching.** The paginated fetch loop, with its 200-page cap, and the key
  of its weekly cache.
- **REST URLs.** The builders for issue-list, fixed-issue-list, single-issue
  and recent-comment requests.
- **SQLite table names.** Table names are escaped, and the DROP and DELETE
  statements the database updater issues are modelled.

## Layout

| file | module | models |
|---|---|---|
| base.dfy | Base | Option, Result, Outcome, the error kinds, PHP scalar values |
| text.dfy | Text | digits, decimal printing, explode/implode, `str_replace`, `array_unique`, byte-wise `preg_replace` (one `_` per UTF-8 byte of a replaced character) |
| assoc.dfy | Assoc | a PHP ordered array with string keys: `$a[$k] = $v` replaces in place or appends |
| magic_int_metadata.dfy | MagicIntMetadata | the constant tables `$status`, `$fixed`, `$open`, `$priority`, `$type`, `$tids`, `$activeBranches` |
| validate_branch.dfy | ValidateBranch | `validateCoreBranch`, `ImmutableIssueMetadata::validateBranch`, `sanitizeBranch` |
| issue_metadata.dfy | IssueMetadata | `validateData`, the builder class and its setters, and the immutable snapshot |
| issue_query.dfy | IssueQuery | `getFixRelevantBranches` and the query presets |
| query_compiler.dfy | QueryCompiler | `assembleQueryString` of the three runners, as a token list and a parameter list |
| git_log.dfy | GitLog | `parseLog`, `getNids`, `sanitizeDirectoryName` |
| fetcher.dfy | Fetching | `fetch` and `doFetch`, the cache key, the two cutoff predicates |
| requests.dfy | Requests | the four request URL builders |
| database_updater.dfy | DatabaseUpdater | `escapeTableName`, `dropTables`, `truncateTables` |

### Modelling choices

- **Errors.** PHP exceptions become `Result` or `Outcome` values. A setter
  that throws leaves its field unchanged, and the model returns `Fail`.
- **PHP's `empty`.** On a string, `empty` holds for both `""` and `"0"`
  (`Text.IsEmptyString`).
- **The page source.** The HTTP page source is a function from URL to page,
  and the week stamp `date('Y-W')` is a parameter.
- **Cutoffs.** The cutoff `strtotime('3 months ago')` is a constructor
  parameter.
- **Pre-built input.** The file cache is a map, and the raw git log is a
  string passed in.
- **Executed statements.** SQL statements are appended to a log, `issued`,
  where the source would execute them.
- **Query text and its `?`s.** The query is a list of tokens: fixed SQL
  fragments, `Placeholder` tokens (the `?`s) and inlined date literals.
  `Render` turns it into text.
- **Timestamps.** `getTimestamps()` is called by `IssueQueryRunner` but is
  defined in none of the classes modelled here. The timestamps are therefore
  an explicit `Option<Timestamps>` input of the runner.
- **Uninitialised URL maps.** With no branches, `IssueListRequest` and
  `FixedIssueListRequest` never initialise their typed `$urls` property.
  `getUrls()` then throws, which the model states as `Err(UninitializedUrls)`.
- **Unknown issue types.** An unknown issue type reads `null` from
  `MagicIntMetadata::$type`, which concatenates as the empty string. The URL
  then ends in a bare `&field_issue_category=`.
- **Branch conversion in the builder.** `IssueMetadata::setVersions` calls
  `validateCoreBranch`, a method of `ValidateBranchTrait` that the metadata
  classes do not use, so as written it is undefined there. The builder is
  modelled as it is evidently meant to work, with the trait's method. The
  as-written failure is stated separately (see Findings).
- **findIssuesFixedIn in steps.** `IssueQuery.IssueQuery.FindIssuesFixedIn`
  runs two steps in the source's order. `SetFixedIn` computes the relevant
  branches and sets versions and statuses; `SetLabels` then sets types and
  priorities. Each method's `modifies` clause names the builder fields it may
  change, so every other field is unchanged by its frame.
- **Fetched data.** `fetch` stores each result into `$this->data` as it
  goes. The loop's state after i URLs is `Fetching.StoredUpTo`. The model
  reads the request's URLs as `getUrls()` returns them; the as-written
  property access fails (see Findings).
- **Strings and bytes.** A `char` is a Unicode scalar value. The
  `preg_replace` patterns carry no `u` modifier, so PCRE matches bytes: a
  replaced non-ASCII character becomes one `_` per byte of its UTF-8
  encoding, and a deleted one disappears with all its bytes.
- **Cutoff on an empty page.** On an empty page list, `isFetchComplete`
  reads `null`. `int >= null` compares as booleans there, so an empty page
  counts as complete.

## Model

| member | source | states |
|---|---|---|
| Assoc.Put | src/Request/IssueListRequest.php:38-40 | `$a[$k] = $v`: the key maps to the new value and other keys keep theirs; a present key keeps its position, a new key is appended last |
| Assoc.KeySetCons | src/Request/IssueListRequest.php:38-40 | the keys of a non-empty array are its first key and the keys of the rest |
| Assoc.DistinctCons | src/Request/IssueListRequest.php:38-40 | a non-empty array has distinct keys exactly when its first key is not among the rest and the rest have distinct keys |
| Assoc.PutDistinct | src/Request/IssueListRequest.php:38-40 | writing by key never creates a duplicate key |
| Assoc.PutKeys | src/Request/FixedIssueListRequest.php:29-33 | the key order after a write: unchanged for a present key, the new key appended otherwise |
| Assoc.Extensional | src/Request/FixedIssueListRequest.php:29-33 | two duplicate-free arrays with the same keys in the same order and the same value per key are equal |
| Text.Dedupe | src/GitLogParser.php:117-119 | `array_unique`: no duplicates, the same elements as the input, never longer (the order is stated by DedupeOrder) |
| Text.DedupeOrder | src/GitLogParser.php:117-119 | `array_unique` keeps first occurrences in order: the values of the result appear in the order of their first positions in the input |
| Text.DedupeDistinct | src/IssueMetadata.php:18 | `array_unique` of a duplicate-free list is the list itself |
| Text.Split | src/GitLogParser.php:129 | `explode` on a separator gives at least one piece, and no piece contains the separator |
| Text.JoinSplit | src/GitLogParser.php:129 | joining the pieces of `explode` with the separator gives back the string |
| Text.ReplaceAllAbsent | src/Fetcher.php:60-62 | `str_replace` changes nothing when the pattern does not occur |
| Text.Utf8Length | src/GitLogParser.php:111 | a character takes one to four bytes, and exactly one when it is ASCII |
| Text.ReplacedChar | src/GitLogParser.php:111 | an allowed character is kept; any other becomes one `_` per byte of its UTF-8 encoding |
| Text.ReplaceDisallowedAppend | src/GitLogParser.php:111 | the replacement works piecewise: replacing `a + b` is replacing `a`, then `b` |
| Text.ReplaceDisallowedChar | src/GitLogParser.php:111 | replacing a one-character string gives that character's replacement |
| Text.ReplaceDisallowedLength | src/GitLogParser.php:111 | the result is never shorter, and it is exactly as long if and only if the input is ASCII |
| Text.ReplaceDisallowedAscii | src/GitLogParser.php:110-112 | on an ASCII string the replacement keeps the length, keeps each allowed character and turns every other one into `_` |
| Text.ReplaceDisallowedCafe | src/GitLogParser.php:111 | `café` becomes `caf__`: the two bytes of `é` give two `_` |
| Text.ReplaceDisallowedClean | src/GitLogParser.php:110-112 | the replacement leaves only allowed characters, and applying it twice is applying it once |
| Text.IntToString | src/Request/UserRecentCommentRequest.php:34-36 | decimal printing of an integer: digits only, with a leading `-` exactly for negatives |
| Text.NatToStringInjective | src/Request/UserRecentCommentRequest.php:34-36 | different numbers print differently |
| MagicIntMetadata.FixedAreFixedStatuses | src/MagicIntMetadata.php:97-112 | `$fixed` is exactly the codes of `fixed` and `closed_fixed`, in that order |
| MagicIntMetadata.OpenAreOpenStatuses | src/MagicIntMetadata.php:97-119 | `$open` is exactly the codes of active, nw, nr, rtbc and postponed, in that order |
| MagicIntMetadata.FixedOpenDisjoint | src/MagicIntMetadata.php:112-119 | no status is both fixed and open |
| MagicIntMetadata.StatusInvertible | src/MagicIntMetadata.php:97-105 | the status table has distinct labels and distinct codes, so flipping it is well defined |
| MagicIntMetadata.PriorityInvertible | src/MagicIntMetadata.php:126-131 | the same for the priority table |
| MagicIntMetadata.TypeInvertible | src/MagicIntMetadata.php:138-143 | the same for the type table |
| MagicIntMetadata.FlipInverts | src/MagicIntMetadata.php:97-143 | for a table with distinct labels and codes, the flipped table maps each label's code back to the label |
| ValidateBranch.TrailingDigits | src/ValidateBranchTrait.php:32 | the length of the longest run of digits at the end of a string |
| ValidateBranch.MatchBranch | src/ValidateBranchTrait.php:32-36 | the regex `([0-9])+\.([0-9])+\.x(\-dev)?\z` as a suffix match: a match is well formed and spells out the input |
| ValidateBranch.MatchBranchComplete | src/ValidateBranchTrait.php:32-36 | every string that ends in `<digits>.<digits>.x`, optionally with `-dev`, matches, whatever precedes it (the regex is not anchored at the start) |
| ValidateBranch.MatchDev | src/ValidateBranchTrait.php:32-39 | the optional `-dev` group is set exactly when the branch ends in `-dev` |
| ValidateBranch.ValidateBranch | src/ImmutableIssueMetadata.php:81-108 | throws exactly when the regex does not match; issue format ends in `-dev`; a branch already in the requested format is returned unchanged; git format of a `-dev` branch is `<digit>.<digit>` |
| ValidateBranch.NextMajorRejected | src/ImmutableIssueMetadata.php:84-88 | without the core special case, `11.x` and `11.x-dev` are rejected |
| ValidateBranch.ValidateCoreBranch | src/ValidateBranchTrait.php:25-56 | with core set, `11.x`/`11.x-dev` give `11.x-dev` or `11.x` before the regex is tried; otherwise the regex decides errors; issue format ends in `-dev`; a branch in the requested format is kept |
| ValidateBranch.CoreFlagOff | src/ValidateBranchTrait.php:27-29 | with core off, validateCoreBranch is validateBranch |
| ValidateBranch.IssueFormatAppendsDev | src/ValidateBranchTrait.php:47-50 | a valid branch without `-dev`, asked for in issue format, gets `-dev` appended |
| ValidateBranch.IssueFormatIdempotent | src/ValidateBranchTrait.php:27-55 | issue-format conversion applied twice is the same as once |
| ValidateBranch.GitFormatKeepsLastDigits | src/ValidateBranchTrait.php:32-43 | git format of `<p><d1>.<d2>.x-dev` is the last digit of d1, a dot, and the last digit of d2 |
| ValidateBranch.GitFormatExample94 | src/ValidateBranchTrait.php:39-43 | `9.4.x-dev` in git format is `9.4` |
| ValidateBranch.GitFormatExample100 | src/ValidateBranchTrait.php:39-43 | `10.0.x-dev` in git format is `0.0` |
| ValidateBranch.IssueFormat94 | src/ValidateBranchTrait.php:47-50 | `9.4.x` in issue format is `9.4.x-dev` |
| ValidateBranch.IntendedGitFormat94 | src/ValidateBranchTrait.php:39-43 | under the intended conversion, `9.4.x-dev` in git format is `9.4.x` |
| ValidateBranch.DevFormMatches | src/ValidateBranchTrait.php:32-50 | a matching git-format branch with `-dev` appended still matches the pattern |
| ValidateBranch.IssueThenGitFormat | src/ValidateBranchTrait.php:39-50 | `9.4.x` → `9.4.x-dev` → `9.4` as written, and → `9.4.x` under the intended conversion |
| ValidateBranch.IntendedCoreBranch | src/ValidateBranchTrait.php:25-56 | the documented conversion: same errors and the same issue format as validateCoreBranch; git format never ends in `-dev` |
| ValidateBranch.IntendedRoundTrip | src/ValidateBranchTrait.php:25-56 | under the documented conversion, git format → issue format → git format is the identity |
| ValidateBranch.GitBranchToIssueFormat | src/ValidateBranchTrait.php:47-50 | every branch `<digits>.<digits>.x` passes the core check and becomes itself followed by `-dev` |
| ValidateBranch.SanitizeBranch | src/ValidateBranchTrait.php:73-79 | returns the input unchanged exactly when it is one or more characters of `[A-Za-z0-9_./-]`, optionally followed by one final newline (PCRE's `$` without the D modifier); otherwise it fails with the name |
| ValidateBranch.SanitizeBranchNewline | src/ValidateBranchTrait.php:74-78 | an allowed name followed by one newline is returned unchanged; two newlines, or a leading newline, fail |
| ValidateBranch.SanitizeMainNewline | src/ValidateBranchTrait.php:74-78 | `main` followed by a newline is returned unchanged |
| IssueMetadata.Ints | src/MagicIntMetadata.php:119 | an integer list as PHP integer values, element by element |
| IssueMetadata.ValidateData | src/ImmutableIssueMetadata.php:120-136 | passes exactly when the first element is not a string or every element is a known label; then a string list is replaced code by code and an integer-first list is returned unchanged; otherwise the error names the first rejected element (a non-string or an unknown label) |
| IssueMetadata.ResolvesToUnique | src/ImmutableIssueMetadata.php:122-133 | the resolved list is determined by the input and the table |
| IssueMetadata.ResolvedAreCodes | src/ImmutableIssueMetadata.php:124-131 | each element of a resolved label list is an integer code of the table |
| IssueMetadata.ToIssueFormat | src/IssueMetadata.php:32-34 | with ValidateBranchTrait's `validateCoreBranch` (the corrected loop): every branch in issue format, order kept; fails with the first invalid branch |
| IssueMetadata.AsWrittenSetVersions | src/IssueMetadata.php:28-36 | as written: passes exactly on the empty list; any other list fails with the undefined `validateCoreBranch` |
| IssueMetadata.AsWrittenConstructorThrows | src/IssueMetadata.php:13-19 | as written the constructor's own `setVersions` call fails, although every active branch passes `validateCoreBranch` |
| IssueMetadata.ActiveBranchNames | src/MagicIntMetadata.php:150-168 | the branch names of `$activeBranches`, in order |
| IssueMetadata.ActiveBranchIssueFormat | src/MagicIntMetadata.php:150-168 | each active branch name becomes its `-dev` form |
| IssueMetadata.ActiveBranchesIssueFormat | src/IssueMetadata.php:18 | the default versions are the active branches in issue format |
| IssueMetadata.ActiveBranchesValid | src/IssueMetadata.php:18 | the active branches are duplicate-free, and their `array_unique` in issue format is the default versions |
| IssueMetadata.IssueFilter.Types | src/ImmutableIssueMetadata.php:154-156 | `getTypes` is `getCategories` |
| IssueMetadata.IssueFilter.Branches | src/ImmutableIssueMetadata.php:171-173 | `getBranches` is `getVersions` |
| IssueMetadata.IssueMetadata.constructor | src/IssueMetadata.php:13-19 | with the corrected setVersions: statuses are `$open`, versions are the active branches in `-dev` form, all other lists empty, excludeTerms false |
| IssueMetadata.IssueMetadata.Snapshot | src/ImmutableIssueMetadata.php:65-70 | the copy constructor: every field of the frozen value equals the builder's |
| IssueMetadata.IssueMetadata.SetVersions | src/IssueMetadata.php:28-36 | corrected (the trait's `validateCoreBranch` in reach): empty input changes nothing; otherwise stores every branch in issue format, or fails on the first invalid one and keeps the old versions |
| IssueMetadata.IssueMetadata.SetBranches | src/IssueMetadata.php:41-43 | the same as the corrected setVersions |
| IssueMetadata.IssueMetadata.SetCategories | src/IssueMetadata.php:53-59 | empty input changes nothing; otherwise stores the labels resolved through the type table, or fails and keeps the old categories |
| IssueMetadata.IssueMetadata.SetTypes | src/IssueMetadata.php:69-74 | the same as setCategories |
| IssueMetadata.IssueMetadata.SetPriorities | src/IssueMetadata.php:84-90 | the same, through the priority table |
| IssueMetadata.IssueMetadata.SetStatuses | src/IssueMetadata.php:100-106 | the same, through the status table |
| IssueMetadata.IssueMetadata.SetTaxonomyData | src/IssueMetadata.php:119-126 | non-empty terms set tids (resolved through the tag table) and excludeTerms together; empty terms or a failure change neither |
| IssueMetadata.IssueMetadata.SetComponents | src/IssueMetadata.php:134-139 | non-empty names are stored verbatim; empty input changes nothing |
| IssueMetadata.GetIsEntry | src/ImmutableIssueMetadata.php:128-131 | a label that resolves is an entry of its table |
| IssueQuery.BranchName | src/IssueQuery.php:104 | `<major>.<minor>.x` ends in `.x` |
| IssueQuery.BranchNameInjective | src/IssueQuery.php:104-163 | different (major, minor) pairs give different branch names |
| IssueQuery.BranchNameValid | src/IssueQuery.php:104 | every computed branch name passes validateCoreBranch in both formats and sanitizeBranch |
| IssueQuery.Names | src/IssueQuery.php:104-120 | each (major, minor) pair named as `<major>.<minor>.x`, in order |
| IssueQuery.NamesMember | src/IssueQuery.php:163 | a name occurs in the named list exactly when its pair does |
| IssueQuery.TwoSteps | src/IssueQuery.php:111-120 | the two loops add minor−1 then minor−2 while ≥ 0, and minor+1 then minor+2 while ≤ the maximum minor |
| IssueQuery.FixRelevantBranches | src/IssueQuery.php:81-164 | fails exactly when the minor exceeds the maximum minor of its major (9 for 8, 5 from 9 on); otherwise duplicate-free, and the input branch comes first |
| IssueQuery.GetFixRelevantBranches | src/IssueQuery.php:81-164 | the loop version computes FixRelevantBranches |
| IssueQuery.LowerAppend | src/IssueQuery.php:111-115 | one step of the first loop appends `<major>.<minor - i>.x` exactly when minor − i ≥ 0 |
| IssueQuery.UpperAppend | src/IssueQuery.php:116-120 | one step of the second loop appends `<major>.<minor + i>.x` exactly when minor + i is within the maximum minor |
| IssueQuery.LowerIff | src/IssueQuery.php:111-115 | the first loop adds exactly the one or two minors below the input, down to 0 |
| IssueQuery.UpperIff | src/IssueQuery.php:116-120 | the second loop adds exactly the one or two minors above the input that are within the maximum minor |
| IssueQuery.NearbyIffNeighbour | src/IssueQuery.php:104-120 | before the additions, the list holds exactly the input and its neighbours of the same major |
| IssueQuery.AdditionsIffOverlap | src/IssueQuery.php:122-161 | the additions are exactly the documented cross-major overlaps |
| IssueQuery.CandidateIffRelevant | src/IssueQuery.php:106-161 | a branch is a candidate exactly when it is the input, a neighbour within two minors and within the bound, or a documented overlap |
| IssueQuery.FixRelevantMembers | src/IssueQuery.php:104-163 | a name is in the result exactly when it names the input, a bounded neighbour or an overlap branch |
| IssueQuery.FixRelevantValid | src/IssueQuery.php:81-164 | every branch in the result passes validateCoreBranch and sanitizeBranch unchanged |
| IssueQuery.FixRelevantExample94 | src/IssueQuery.php:122-155 | `9.4.x` gives `9.4.x, 9.3.x, 9.2.x, 9.5.x, 10.0.x` |
| IssueQuery.AsWrittenFixRelevantBranches | src/IssueQuery.php:87-161 | with `explode` strings compared to integers by `===`: fails exactly when the major is below 9 or the minor above 5; duplicate-free, input first |
| IssueQuery.AsWrittenMisses100 | src/IssueQuery.php:141-144 | as written, `9.4.x` does not get `10.0.x`, which the documented rule adds |
| IssueQuery.AsWrittenRejects87 | src/IssueQuery.php:94-102 | as written, `8.7.x` is rejected, while the documented rule accepts it and adds `9.0.x` |
| IssueQuery.FixRelevantIssueFormat | src/IssueQuery.php:56-57 | the relevant branches are non-empty, all pass validateCoreBranch, and their issue format is exactly their `-dev` forms |
| IssueQuery.BugIsType | src/IssueQuery.php:34 | the label `bug` is accepted as a type and resolves to [1] |
| IssueQuery.CriticalIsPriority | src/IssueQuery.php:35 | the label `critical` is accepted as a priority and resolves to [400] |
| IssueQuery.UntriagedTags | src/IssueQuery.php:36 | the two triage tags are accepted and resolve to [197921, 197925] |
| IssueQuery.DevForms | src/IssueQuery.php:58 | each branch with `-dev` appended, in order |
| IssueQuery.IssueQuery.constructor | src/IssueQuery.php:20-22 | a fresh builder with the default filter of the corrected IssueMetadata constructor |
| IssueQuery.IssueQuery.WithMetadata | src/IssueQuery.php:20 | `new IssueQuery($metadata)` with an explicit builder: the query holds that same builder object |
| IssueQuery.IssueQuery.GetMetadata | src/IssueQuery.php:27-29 | a frozen copy whose fields equal the builder's at the time of the call |
| IssueQuery.IssueQuery.FindUntriagedCriticalBugs | src/IssueQuery.php:34-38 | categories [1], priorities [400], tids [197921, 197925] with excludeTerms set; its frame leaves versions, statuses and components unchanged |
| IssueQuery.IssueQuery.SetFixedIn | src/IssueQuery.php:55-58 | with the corrected setBranches: fails exactly when the branch is out of range, with that error and versions and statuses unchanged; otherwise versions become the relevant branches in `-dev` form and statuses the fixed codes |
| IssueQuery.IssueQuery.SetFixedBranches | src/IssueQuery.php:57-58 | with the corrected setBranches, on branches that convert to their `-dev` forms, versions become those forms and statuses [2, 7] |
| IssueQuery.IssueQuery.SetLabels | src/IssueQuery.php:59-60 | passes exactly when both lists are accepted; an accepted list, when given, replaces its field with the resolved codes, and an empty one leaves it; rejected types fail with their first bad label before either field is set; rejected priorities fail after the types are set, keeping the old priorities |
| IssueQuery.IssueQuery.FindIssuesFixedIn | src/IssueQuery.php:55-61 | with the corrected setBranches: versions become the fix-relevant branches in `-dev` form and statuses [2, 7]; an out-of-range branch fails first and leaves every field; otherwise types and priorities change as in SetLabels, including which survive a rejected label; fails exactly when the branch is out of range or a label is rejected |
| QueryCompiler.PlaceholdersAppend | src/IssueQueryRunner.php:46-120 | `?` counts add up over concatenation |
| QueryCompiler.Condition | src/IssueQueryRunner.php:70-77 | a condition over n values holds n placeholders |
| QueryCompiler.RenderSingleCondition | src/IssueQueryRunner.php:70-72 | one value renders as `` `key` = ?`` |
| QueryCompiler.RenderTwoValueCondition | src/IssueQueryRunner.php:70-73 | two values render as `` `key` IN (?, ?) `` |
| QueryCompiler.RenderCondition | src/IssueQueryRunner.php:70-73 | n > 1 values render as `` `key` IN (`` followed by n `?` separated by `, ` and a closing `) ` |
| QueryCompiler.ConditionsUpTo | src/IssueQueryRunner.php:66-79 | one condition per non-empty filter, the parameters are the filter values in order, and the placeholders match them |
| QueryCompiler.ImplodeCount | src/IssueQueryRunner.php:82 | joining conditions with AND keeps their placeholder total |
| QueryCompiler.JoinTest | src/IssueQueryRunner.php:52-58 | the include-join tag test holds one placeholder per tag |
| QueryCompiler.RenderJoinTestOne | src/IssueQueryRunner.php:52-58 | one tag renders `= ?` |
| QueryCompiler.RenderJoinTestTwo | src/IssueQueryRunner.php:52-58 | two tags render `IN ( ?, ? )` |
| QueryCompiler.IncludeJoin | src/IssueQueryRunner.php:49-61 | the include join takes the tags as parameters, one placeholder each; as written, more than one tag fails |
| QueryCompiler.BoundNoPlaceholder | src/IssueQueryRunner.php:92-103 | a date bound is inlined and adds no placeholder |
| QueryCompiler.DateBlock | src/IssueQueryRunner.php:85-104 | fails exactly on the conflicting bounds; otherwise adds no placeholder |
| QueryCompiler.Subquery | src/IssueQueryRunner.php:107-118 | a NOT IN subquery holds the tag's placeholder plus those of the conditions |
| QueryCompiler.ExcludeUpTo | src/IssueQueryRunner.php:107-118 | each excluded tag adds [tid] ++ condition parameters, in tag order, with matching placeholders |
| QueryCompiler.PerTagAppend | src/IssueQueryRunner.php:107-118 | per-tag parameters of consecutive tag lists concatenate |
| QueryCompiler.PerTagAt | src/IssueQueryRunner.php:114-116 | the i-th excluded tag's parameters sit at their place in the list |
| QueryCompiler.WhereClause | src/IssueQueryRunner.php:80-82 | the WHERE clause holds exactly the conditions' placeholders |
| QueryCompiler.Join | src/IssueQueryRunner.php:49-61 | the join's parameters are the tags in include mode and nothing otherwise |
| QueryCompiler.Exclusions | src/IssueQueryRunner.php:107-118 | the exclusion parameters are the per-tag lists in exclude mode and nothing otherwise |
| QueryCompiler.Assembled | src/IssueQueryRunner.php:46-120 | parameters are join, then conditions, then exclusions, and the `?` count equals the parameter count |
| QueryCompiler.Compile | src/IssueQueryRunner.php:35-121 | fails exactly on a multi-tag include (as written) or conflicting dates; otherwise the number of `?` equals the number of parameters |
| QueryCompiler.FilterValues | src/IssueQueryRunner.php:39-78 | condition parameters follow the order category, version, priority, status, component |
| QueryCompiler.CompileParams | src/QueryRunner.php:89-122 | the parameters are the include tags, then the condition values, then [tid] ++ condition values per excluded tag; one condition per non-empty filter |
| QueryCompiler.DatesKeepParams | src/IssueQueryRunner.php:92-103 | date bounds never change the parameter list, and without bounds the query is the undated one |
| QueryCompiler.AsWrittenMultiTagInclude | src/IssueQueryRunner.php:54 | as written, include mode with several tags fails (`sizeof` of an undefined variable), whereas the corrected join compiles |
| QueryCompiler.AsWrittenStartConflict | src/IssueQueryRunner.php:88-90 | as written, two start bounds never conflict, whereas the corrected check rejects them |
| QueryCompiler.CollectConditions | src/IssueQueryRunner.php:66-79 | the filter loop builds the conditions and parameters ConditionsUpTo describes |
| QueryCompiler.AppendExclusions | src/IssueQueryRunner.php:107-118 | the tag loop appends the exclusion tokens and parameters |
| QueryCompiler.AssembleQuery | src/IssueQueryRunner.php:35-121 | the whole assembly computes the corrected Compile |
| QueryCompiler.QueryRunner.constructor | src/QueryRunner.php:36-50 | the runner's query string and parameters are the undated compilation of its filter |
| QueryCompiler.QueryRunner.AssembleQueryString | src/QueryRunner.php:65-127 | the query string and parameters are the undated compilation of the filter |
| QueryCompiler.DateQueryRunner.constructor | src/DateQueryRunner.php:21-28 | the metadata snapshot and the undated compilation that the body after `parent::__construct()` computes (the call itself throws as written; see Left out) |
| QueryCompiler.DateQueryRunner.AssembleQueryString | src/DateQueryRunner.php:33-95 | identical to QueryRunner's compilation |
| QueryCompiler.IssueQueryRunner.constructor | src/IssueQueryRunner.php:21-30 | the query is the dated compilation; on a conflict it stays empty |
| QueryCompiler.IssueQueryRunner.AssembleQueryString | src/IssueQueryRunner.php:35-121 | passes exactly when the dated compilation succeeds and then stores it; on failure the error is the compilation's and nothing changes |
| GitLog.DigitRun | src/GitLogParser.php:128 | the longest run of digits at the front of a string |
| GitLog.IssueNid | src/GitLogParser.php:128-135 | a line yields a nid exactly when it starts with `Issue #` and a digit; the nid is the whole digit run |
| GitLog.NidsOfAppend | src/GitLogParser.php:131-136 | nids of consecutive lines concatenate, in line order |
| GitLog.NidsOfDigits | src/GitLogParser.php:128-136 | every nid is a non-empty decimal string taken from some line; there are at most as many nids as lines |
| GitLog.NidsOfSkips | src/GitLogParser.php:133-135 | a non-matching line contributes nothing |
| GitLog.IssueNidOf | src/GitLogParser.php:128-134 | `Issue #<digits>` followed by a non-digit yields exactly those digits |
| GitLog.IssueNidExample | src/GitLogParser.php:128-134 | `Issue #123 by al` yields `123` |
| GitLog.IssueNidNotAtStart | src/GitLogParser.php:128 | the match is anchored: `Revert "Issue #123 …"` yields nothing |
| GitLog.SanitizeDirectoryName | src/GitLogParser.php:110-112 | only `[A-Za-z0-9_-]` is left and the name never shrinks; on an ASCII name the length is kept, each allowed character is kept and every other one becomes `_` |
| GitLog.SanitizeDirectoryNameIdempotent | src/GitLogParser.php:110-112 | sanitising twice is sanitising once, and a clean name is kept |
| GitLog.GitLogParser.constructor | src/GitLogParser.php:73-101 | a non-empty log is parsed into its nids (the branch check and git call are not modelled; see Left out) |
| GitLog.GitLogParser.ParseLog | src/GitLogParser.php:124-138 | fails exactly on an empty log, keeping the nids; otherwise the nids of its lines |
| GitLog.GitLogParser.GetNids | src/GitLogParser.php:117-119 | no duplicates, the same elements as the parsed nids, and the first one first |
| Fetching.Crawl | src/Fetcher.php:55-66 | at least one and at most 200 pages are requested, the first being the given URL |
| Fetching.CrawlChain | src/Fetcher.php:57-66 | each later URL is the rewritten `next` of the page before; a stop before the cap means the last page had no `next` |
| Fetching.CrawlStops | src/Fetcher.php:60-66 | a first page without `next` ends the fetch after it, and its list is the data |
| Fetching.CacheKey | src/Fetcher.php:49 | the file name is at least five characters longer than the URL and the week stamp together |
| Fetching.CacheKeyParts | src/Fetcher.php:49 | the file name is the URL with disallowed characters replaced (only `[A-Za-z0-9_-]` left), then `_`, the week stamp and `.txt`; on an ASCII URL each position keeps its allowed character or becomes `_` |
| Fetching.CacheKeyWeekly | src/Fetcher.php:49 | the same URL in two different weeks has two different cache files |
| Fetching.CacheKeyCollision | src/Fetcher.php:49 | URLs that differ only in replaced characters share a cache file |
| Fetching.ListsOfSnoc | src/Fetcher.php:63 | the data is the page lists concatenated in fetch order |
| Fetching.FetchPages | src/Fetcher.php:55-66 | the do-while loop requests exactly the crawl's URLs and returns their lists concatenated |
| Fetching.Fetcher.constructor | src/Fetcher.php:17-22 | empty data |
| Fetching.Fetcher.GetData | src/Fetcher.php:27-29 | the stored data |
| Fetching.Fetcher.DoFetch | src/Fetcher.php:47-70 | a cache hit returns the stored data with no request; a miss fetches the pages and stores the result under the cache key |
| Fetching.StoreStep | src/Fetcher.php:35-38 | storing one URL's data adds its key, keeps every earlier key, leaves keys of no URL alone and keeps keys distinct |
| Fetching.Fetcher.Fetch | src/Fetcher.php:34-39 | with the URLs read through `getUrls()`: one entry per URL key of the request, other keys untouched, keys kept distinct |
| Fetching.Fetcher.FetchOne | src/Fetcher.php:35-38 | one pass of the loop stores under the URL's key the cached data on a hit, or the merged lists of the crawled pages on a miss |
| Fetching.AsWrittenFetch | src/Fetcher.php:35 | as written, fetch fails with an Error on the protected `$urls` |
| Fetching.AsWrittenFetchFails | src/Fetcher.php:35-37 | even a request with a URL to fetch fails as written, while the corrected first pass stores the fetched data under that URL's key and keeps every other key |
| Fetching.FixedIssueListFetcher.constructor | src/Fetcher/FixedIssueListFetcher.php:14-21 | a non-zero cutoff is kept; zero means three months ago |
| Fetching.UserRecentCommentFetcher.constructor | src/Fetcher/UserRecentCommentFetcher.php:14-21 | the same for the comment cutoff |
| Fetching.FixedIssueCompletion | src/Fetcher/FixedIssueListFetcher.php:26-34 | complete exactly when the last issue's status change is not after the cutoff; an empty page is complete; monotone in the cutoff |
| Fetching.CommentCompletion | src/Fetcher/UserRecentCommentFetcher.php:26-34 | complete exactly when the last comment's creation is not after the cutoff; an empty page is complete; monotone in the cutoff |
| Requests.CategoryCode | src/Request/IssueListRequest.php:35 | a known type gives its code in decimal, an unknown one the empty string |
| Requests.ListPrefix | src/Request/IssueListRequest.php:32-36 | starts with the base URL; the category parameter with the type's code is added exactly when the type is non-empty |
| Requests.ListPrefixBug | src/Request/IssueListRequest.php:34-36 | the `bug` type adds `&field_issue_category=1` |
| Requests.PutAllGet | src/Request/IssueListRequest.php:38-40 | after the loop each key maps to its URL, other keys keep theirs, and the key set is the union |
| Requests.PutAllStep | src/Request/IssueListRequest.php:38-40 | one step of the loop: writing the first i + 1 keys is writing the first i, then key i |
| Requests.PutAllDistinct | src/Request/IssueListRequest.php:38-40 | the loop never creates a duplicate key |
| Requests.PutAllKeysFresh | src/Request/IssueListRequest.php:38-40 | from an empty map, the keys are the distinct inputs in first-occurrence order |
| Requests.PutAllKeysKept | src/Request/FixedIssueListRequest.php:29-33 | rewriting only present keys keeps the key order |
| Requests.Overwrite | src/Request/FixedIssueListRequest.php:29-33 | a second pass over the same keys replaces every URL of the first pass |
| Requests.IssueListRequest.constructor | src/Request/IssueListRequest.php:30-41 | one URL per branch, keyed by the branch; no branches leaves the map uninitialised; the branches and type are kept as given |
| Requests.IssueListRequest.GetUrls | src/Request/IssueListRequest.php:53-55 | fails exactly when there are no branches; otherwise one URL per distinct branch: prefix, `&field_issue_version=`, branch, `-dev` |
| Requests.IssueListRequest.GetBaseUrl | src/Request/IssueListRequest.php:46-48 | the issue list endpoint, a prefix of every URL the request builds |
| Requests.IssueListRequest.GetType | src/Request/IssueListRequest.php:60-62 | the type given to the constructor |
| Requests.IssueListRequest.GetBranches | src/Request/IssueListRequest.php:70-72 | the branches given to the constructor, duplicates included |
| Requests.LastFixedStatus | src/Request/FixedIssueListRequest.php:29-33 | the surviving suffix carries status 7, the last of `$fixed` |
| Requests.FixedIssueListRequest.constructor | src/Request/FixedIssueListRequest.php:20-34 | after the status loop each branch's URL is the one for the last fixed status |
| Requests.FixedIssueListRequest.GetUrls | src/Request/FixedIssueListRequest.php:20-34 | one URL per distinct branch, ending in `-dev&field_issue_status=7`; no branches fails |
| Requests.FixedIssueListRequest.GetBaseUrl | src/Request/IssueListRequest.php:46-48 | inherited: the issue list endpoint, a prefix of every URL the request builds |
| Requests.FixedIssueListRequest.GetType | src/Request/IssueListRequest.php:60-62 | inherited: the type given to the constructor |
| Requests.FixedIssueListRequest.GetBranches | src/Request/IssueListRequest.php:70-72 | inherited: the branches given to the constructor |
| Requests.SingleIssueRequest.constructor | src/Request/SingleIssueRequest.php:27-34 | one URL per node id |
| Requests.SingleIssueRequest.GetUrls | src/Request/SingleIssueRequest.php:46-48 | one URL per distinct node id: base, id, `.json?drupalorg_extra_credit=1`; empty input gives an empty map |
| Requests.SingleIssueRequest.GetType | src/Request/SingleIssueRequest.php:53-55 | the empty type |
| Requests.UserRecentCommentRequest.constructor | src/Request/UserRecentCommentRequest.php:27 | the promoted `$uid` holds the given user id |
| Requests.UserRecentCommentRequest.GetBaseUrl | src/Request/UserRecentCommentRequest.php:34-36 | the uid in decimal between `comment.json?author=` and `&sort=created&direction=DESC` |
| Requests.UserRecentCommentRequest.GetUrls | src/Request/UserRecentCommentRequest.php:41-43 | exactly one entry, `recent comments`, holding the base URL |
| Requests.UserRecentCommentRequest.GetType | src/Request/UserRecentCommentRequest.php:48-50 | the empty type |
| Requests.CommentUrlIdentifiesUser | src/Request/UserRecentCommentRequest.php:34-36 | equal comment URLs mean equal users |
| Requests.UnknownTypesShareUrls | src/Request/IssueListRequest.php:34-36 | unknown types all give the same bare category parameter |
| DatabaseUpdater.EscapeTableName | src/DatabaseUpdaterBase.php:67-69 | only `[A-Za-z0-9_.]` is left, and the name never grows |
| DatabaseUpdater.EscapeAppend | src/DatabaseUpdaterBase.php:68 | the escape works piecewise: escaping `a + b` is escaping `a`, then `b` |
| DatabaseUpdater.EscapeChar | src/DatabaseUpdaterBase.php:68 | one character is kept when it is in `[A-Za-z0-9_.]` and deleted otherwise |
| DatabaseUpdater.EscapeIsSubsequence | src/DatabaseUpdaterBase.php:67-69 | escaping only deletes: the result is a subsequence of the name |
| DatabaseUpdater.EscapeIdentity | src/DatabaseUpdaterBase.php:67-69 | a clean name is kept as it is |
| DatabaseUpdater.EscapeIdempotent | src/DatabaseUpdaterBase.php:67-69 | escaping twice is escaping once |
| DatabaseUpdater.EscapeKeepsExactlyClean | src/DatabaseUpdaterBase.php:67-69 | a name is kept exactly when it is already clean |
| DatabaseUpdater.EscapeExamples | src/DatabaseUpdaterBase.php:67-69 | `issues` is kept; `a;b c` becomes `abc` |
| DatabaseUpdater.Statements | src/DatabaseUpdaterBase.php:74-87 | one statement per table, in order: the command followed by the escaped name |
| DatabaseUpdater.DatabaseUpdaterBase.constructor | src/DatabaseUpdaterBase.php:25 | the base table list is empty |
| DatabaseUpdater.DatabaseUpdaterBase.WithTables | src/DatabaseUpdaterBase.php:25 | a subclass's own `static::$dbTables` list is the table list, and nothing has been issued yet |
| DatabaseUpdater.DatabaseUpdaterBase.DropTables | src/DatabaseUpdaterBase.php:74-78 | issues `DROP TABLE <escaped>` for each table, in order |
| DatabaseUpdater.DatabaseUpdaterBase.TruncateTables | src/DatabaseUpdaterBase.php:83-87 | issues `DELETE FROM <escaped>` for each table, in order |
| DatabaseUpdater.DatabaseUpdaterBase.IssueAll | src/DatabaseUpdaterBase.php:74-87 | the shared loop appends exactly the statement list |

## Left out

- **HTTP.** `Fetcher::doFetchPage` and the Guzzle client are left out. The page source is a function parameter.
- **The file cache.** `file_get_contents`, `file_put_contents` and `json_encode`/`json_decode` are left out. The cache is a map from file name to data.
- **The clock.** `date('Y-W')` and `strtotime('3 months ago')` are left out, because they read the clock. They are parameters instead.
- **Output.** Progress lines printed while fetching are left out.
- **The git constructor.** The `GitLogParser` constructor runs `chdir` and `shell_exec` with `DateTime` defaults, which is I/O. The raw log is a parameter.
- **Database execution.** SQLite execution, `getResults`, `writeData`, `createTables` and `getDbPath` are left out. The statements are collected in `issued` instead.
- **Constructors that throw.** A PHP constructor that throws produces no object. The model's constructors cannot fail. `IssueQueryRunner` and `GitLogParser` therefore leave their state empty and report the error through `AssembleQueryString`/`ParseLog`. The constructors of `IssueMetadata`, `IssueQuery` (by default), `DateQueryRunner`, `IssueQueryRunner` (through the undefined `initializeDatabase()` at `src/IssueQueryRunner.php:24`) and `GitLogParser` always throw as written; the lines below, one per constructor, say what each models instead.
- **`getTimestamps` and `initializeDatabase`.** Neither is defined in the classes modelled here. The runner takes the timestamps as an input. The `initializeDatabase()` call at `src/IssueQueryRunner.php:24` would, as written, raise an undefined-method Error; the model leaves the database out.
- **`?` in the rendered text.** Placeholders are counted as `Placeholder` tokens. It is not proved that the rendered SQL string contains no other `?` character; the fixed fragments are string constants.
- **Integer-like array keys.** PHP turns a numeric-string array key (a node id such as `"123"`) into an integer key. The model keeps string keys. Order and lookup are the same.
- **Warnings.** PHP's "undefined array key" warning for an unknown issue type is not modelled. Only the resulting empty code is.
- **The old root-namespace request and fetcher classes.** `src/IssueListRequest.php`, `src/IssueRequest.php`, `src/UserRecentCommentRequest.php`, `src/UserRecentCommentFetcher.php` and `src/RequestInterface.php` are left out. They are superseded copies, some with syntax errors.
- **The one-line `empty($page->next)` completion predicates.** They are the stop condition `Fetching.Crawl` already models, and their base class `FetcherBase` is not part of this model.
- **The command-line scripts.** They handle arguments, print, and orchestrate network and database calls.
- **Labels other than statuses, priorities and types.** The constant tables `$project`, `$coreAddDates`, `$contribBranches`, `$branchDates`, `$uids`, `$orgs` and the people lists are used only by the scripts.
- Fetching.Fetcher.Fetch: states which keys the data gains and that the others are untouched. It does not state the value stored under each key, because that depends on the cache, which the earlier fetches of the same call update; `Fetching.Fetcher.FetchOne` states the value for one pass. It reads the URLs through `getUrls()`: as written, `$this->issueRequest->urls` at `src/Fetcher.php:35` reads a protected property from outside the request class and raises an Error before anything is fetched (`Fetching.AsWrittenFetchFails`, see Findings).
- GitLog.GitLogParser.GetNids: `array_unique` keeps each survivor's original key, so the PHP result can have gaps in its integer keys. The model returns a list and re-indexes.
- **Runners as written.** `QueryCompiler.QueryRunner`, `QueryCompiler.DateQueryRunner` and `QueryCompiler.IssueQueryRunner` use the corrected compilation. In the source, all three evaluate `sizeof($filter)` on an undefined variable in multi-tag include mode, at `src/QueryRunner.php:83`, `src/DateQueryRunner.php:51` and `src/IssueQueryRunner.php:54`. The as-written behaviour is stated by `QueryCompiler.AsWrittenMultiTagInclude`. `QueryCompiler.IssueQueryRunner` also uses the corrected start-bound conflict check: as written, `src/IssueQueryRunner.php:88` tests the misspelt, never-set `$timestampArray`, so two start bounds are never rejected (`QueryCompiler.AsWrittenStartConflict`).
- **`getFixRelevantBranches` as written.** `IssueQuery.IssueQuery.FindIssuesFixedIn` uses the documented integer semantics. The string semantics PHP 8 actually applies are stated by `IssueQuery.AsWrittenFixRelevantBranches`.
- IssueMetadata.IssueMetadata.SetVersions: models the evident intent, with ValidateBranchTrait's `validateCoreBranch` in reach. As written, neither `IssueMetadata` nor `ImmutableIssueMetadata` uses the trait, so every non-empty call raises an Error at `src/IssueMetadata.php:33`. `IssueMetadata.AsWrittenSetVersions` states the as-written behaviour (see Findings).
- IssueMetadata.IssueMetadata.SetBranches: the same as SetVersions; as written, every non-empty call raises the same Error.
- IssueMetadata.ToIssueFormat: the conversion loop of the corrected setVersions; as written, its first call fails.
- IssueMetadata.IssueMetadata.constructor: completes with the default filter. As written, its own `setVersions` call on the five active branches raises the undefined-method Error, so `new IssueMetadata()` never returns (`IssueMetadata.AsWrittenConstructorThrows`).
- IssueQuery.IssueQuery.constructor: builds the default filter. As written, the default argument `new IssueMetadata()` throws, so `new IssueQuery()` without an argument never returns.
- IssueQuery.IssueQuery.SetFixedIn: uses the corrected setBranches. As written, the non-empty list of relevant branches makes `setBranches` throw at `src/IssueMetadata.php:33`.
- IssueQuery.IssueQuery.SetFixedBranches: uses the corrected setBranches, as in SetFixedIn.
- IssueQuery.IssueQuery.FindIssuesFixedIn: uses the corrected setBranches. As written, every in-range branch throws in `setBranches`, before the statuses, types and priorities are set.
- QueryCompiler.DateQueryRunner.constructor: models the body after the parent call. As written, `parent::__construct()` at `src/DateQueryRunner.php:23` omits the required `$query` of `QueryRunnerBase::__construct`, so every `new DateQueryRunner(...)` raises an ArgumentCountError.
- GitLog.GitLogParser.constructor: models only the parsing of the log. As written, its first statement calls `static::validateBranch` (`src/GitLogParser.php:76`). `GitLogParser` uses ValidateBranchTrait, which defines only `validateCoreBranch` and `sanitizeBranch`, so that call raises an Error before git runs.
- IssueQuery.FixRelevantBranches: takes the major and minor as numbers. The string front end of `getFixRelevantBranches` is not modelled. That covers the InvalidBranchFormat exception of `validateCoreBranch` at `src/IssueQuery.php:83` for a malformed name. It also covers the `-dev` form: line 83 discards the converted name, so `9.4.x-dev` itself becomes the first element. And it covers `11.x`, which passes the core check but, as written, fails the bound check at `src/IssueQuery.php:100`, because `"x" > 5` compares as strings.
- IssueQuery.GetFixRelevantBranches: takes numbers, like FixRelevantBranches, so the same string front end is not modelled.
- IssueQuery.AsWrittenFixRelevantBranches: takes numbers, like FixRelevantBranches. The as-written failures of malformed names, `-dev` inputs and `11.x` are not modelled.

## Findings

| source | as written | input that shows it | evidently intended | confidence | as-written member | corrected member |
|---|---|---|---|---|---|---|
| src/ValidateBranchTrait.php:32,39-43 (also src/ImmutableIssueMetadata.php:84,91-95) | each `([0-9])+` group captures only its last digit, so git format of a `-dev` branch is `<digit>.<digit>` with no `.x` | `10.0.x-dev` to git format gives `0.0`; `9.4.x-dev` gives `9.4` | strip `-dev` to give `10.0.x` / `9.4.x`, as the doc comment's `9.4.x` says | high (not executed) | ValidateBranch.GitFormatKeepsLastDigits | ValidateBranch.IntendedRoundTrip |
| src/IssueQuery.php:87,94,123,132,142,153 | `explode` yields strings, so `$major === 8` and the other `===` tests on the major never hold | `8.7.x` throws "unknown branch"; `9.4.x` does not get `10.0.x` | integer comparison, as the comments at :89-93, :122, :131, :141 and :152 describe | high (not executed) | IssueQuery.AsWrittenMisses100 | IssueQuery.FixRelevantMembers |
| src/IssueQueryRunner.php:54 (also src/QueryRunner.php:83, src/DateQueryRunner.php:51) | the join test counts `sizeof($filter)`, a variable not yet defined | include mode with tags `[a, b]`: a TypeError instead of an `IN (?, ?)` join | count the tags, `sizeof($tids)` | high (not executed) | QueryCompiler.AsWrittenMultiTagInclude | QueryCompiler.CompileParams |
| src/IssueQueryRunner.php:88 | the start-bound conflict check reads the misspelt `$timestampArray`, which is never set | both `changed` and `status_changed` start bounds given: no error | reject two start bounds, like two end bounds | medium (not executed) | QueryCompiler.AsWrittenStartConflict | QueryCompiler.DateBlock |
| src/IssueMetadata.php:33 (also :18, and src/IssueQuery.php:20 through its default argument) | `static::validateCoreBranch` is called, but neither `IssueMetadata` nor its parent `ImmutableIssueMetadata` uses `ValidateBranchTrait`, so the method is undefined | `new IssueMetadata()` (its own `setVersions` call on the active branches), or `setVersions(['9.4.x'])`: an Error instead of `['9.4.x-dev']` | `use ValidateBranchTrait;` in the metadata class, so each branch is converted to issue format | high (not executed) | IssueMetadata.AsWrittenConstructorThrows | IssueMetadata.IssueMetadata.SetVersions |
| src/Fetcher.php:35 | `$this->issueRequest->urls` reads `$urls`, which is `protected` in the request class (src/IssueRequest.php:25, src/Request/IssueListRequest.php:22) | any `fetch()`, for instance on a request with one branch: an Error instead of the branch's data | read the URLs through `getUrls()` | high (not executed) | Fetching.AsWrittenFetchFails | Fetching.Fetcher.Fetch |
