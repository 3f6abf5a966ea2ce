/**
 * The constant tables of Drupal.org issue metadata codes: statuses,
 * priorities, issue types (categories), tag term IDs and the branches that
 * currently receive commits. They are read-only configuration.
 */
module MagicIntMetadata {
  import opened Base
  import opened Assoc

  /** A short-label to integer-code table. */
  type Table = Assoc<int>

  const Status: Table := [
    ("active", 1), ("nw", 13), ("nr", 8), ("rtbc", 14), ("postponed", 4),
    ("fixed", 2), ("closed_fixed", 7)
  ]

  /** The fixed statuses. */
  const Fixed: seq<int> := [2, 7]

  /** The relevant open statuses. */
  const Open: seq<int> := [1, 13, 8, 14, 4]

  const Priority: Table := [("critical", 400), ("major", 300), ("normal", 200), ("minor", 100)]

  /** Issue types, which the issue queue calls categories. */
  const Type: Table := [("bug", 1), ("task", 2), ("plan", 5), ("feature", 3)]

  /** The branches receiving commits, keyed by their role. */
  const ActiveBranches: Assoc<string> := [
    ("main", "11.x"), ("stable", "10.3.x"), ("dev", "11.1.x"),
    ("maintenance", "10.4.x"), ("major", "11.0.x")
  ]

  /** Issue tag term IDs. */
  const Tids: Table := [
    ("triaged_critical", 197921), ("triaged_major", 174642),
    ("critical_triage_deferred", 197925), ("major_triage_deferred", 197926),
    ("major_current_state", 197923), ("needs_major_current_state", 180003),
    ("fm_review", 169963), ("fefm_review", 186449), ("pm_review", 170004),
    ("rm_review", 171496), ("js_review", 7488), ("needs_rn", 187468),
    ("vdc", 36416), ("twig", 36330), ("entity", 38578), ("blocker", 38080),
    ("api_first", 177096)
  ]

  /** No two labels of a table share a code. */
  predicate Injective(t: Table)
  {
    forall i, j :: 0 <= i < j < |t| ==> t[i].1 != t[j].1
  }

  /** array_flip: the code-to-label table. */
  function Flip(t: Table): map<int, string>
    requires Injective(t)
  {
    map i | 0 <= i < |t| :: t[i].1 := t[i].0
  }

  /** On a table with distinct labels and codes, array_flip undoes the lookup of every label. */
  lemma FlipInverts(t: Table, k: string)
    requires DistinctKeys(t) && Injective(t)
    requires k in KeySet(t)
    ensures Get(t, k).Some? && Get(t, k).value in Flip(t) && Flip(t)[Get(t, k).value] == k
  {
    var i :| 0 <= i < |t| && t[i].0 == k;
    GetAt(t, i);
    assert t[i].1 in Flip(t);
    var j :| 0 <= j < |t| && t[j].1 == t[i].1 && Flip(t)[t[i].1] == t[j].0;
    assert j == i;
  }

  /** The fixed statuses are the codes of `fixed` and `closed_fixed`, in that order. */
  lemma FixedAreFixedStatuses()
    ensures Fixed == [Get(Status, "fixed").value, Get(Status, "closed_fixed").value]
  {
    StatusInvertible();
    GetAt(Status, 5);
    GetAt(Status, 6);
  }

  /** The open statuses are the codes of active, nw, nr, rtbc and postponed, in that order. */
  lemma OpenAreOpenStatuses()
    ensures Open == [Get(Status, "active").value, Get(Status, "nw").value, Get(Status, "nr").value,
                     Get(Status, "rtbc").value, Get(Status, "postponed").value]
  {
    StatusInvertible();
    GetAt(Status, 0);
    GetAt(Status, 1);
    GetAt(Status, 2);
    GetAt(Status, 3);
    GetAt(Status, 4);
  }

  /** No status is both fixed and open. */
  lemma FixedOpenDisjoint()
    ensures forall c :: c in Fixed ==> c !in Open
  {
  }

  /** The status table can be inverted with array_flip. */
  lemma StatusInvertible()
    ensures DistinctKeys(Status) && Injective(Status)
  {
    forall i, j | 0 <= i < j < |Status| ensures Status[i].0 != Status[j].0 {
      assert |Status[i].0| != |Status[j].0| || Status[i].0[1] != Status[j].0[1];
    }
  }

  /** The priority table can be inverted with array_flip. */
  lemma PriorityInvertible()
    ensures DistinctKeys(Priority) && Injective(Priority)
  {
    forall i, j | 0 <= i < j < |Priority| ensures Priority[i].0 != Priority[j].0 {
      assert |Priority[i].0| != |Priority[j].0| || Priority[i].0[1] != Priority[j].0[1];
    }
  }

  /** The type table can be inverted with array_flip. */
  lemma TypeInvertible()
    ensures DistinctKeys(Type) && Injective(Type)
  {
    forall i, j | 0 <= i < j < |Type| ensures Type[i].0 != Type[j].0 {
      assert |Type[i].0| != |Type[j].0| || Type[i].0[1] != Type[j].0[1];
    }
  }
}
