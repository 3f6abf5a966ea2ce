/**
 * The part of the SQLite database updater that does not touch the database:
 * escaping of table names, and the statements that dropping or truncating
 * the tables issues, one per table. The statements are collected in a log
 * in place of being executed.
 */
module DatabaseUpdater {
  import opened Text

  /** Characters kept by the class `[A-Za-z0-9_.]`. */
  predicate IsTableNameChar(c: char)
  {
    ('A' <= c <= 'Z') || ('a' <= c <= 'z') || IsDigit(c) || c == '_' || c == '.'
  }

  predicate IsTableName(s: string)
  {
    forall i :: 0 <= i < |s| ==> IsTableNameChar(s[i])
  }

  /** a can be obtained from b by deleting characters. */
  predicate IsSubsequence(a: string, b: string)
    decreases |b|
  {
    if |a| == 0 then true
    else if |b| == 0 then false
    else if a[0] == b[0] then IsSubsequence(a[1..], b[1..])
    else IsSubsequence(a, b[1..])
  }

  /**
   * escapeTableName: preg_replace('/[^A-Za-z0-9_.]+/', '', $s) deletes every
   * run of other characters, which is deleting each of them. The pattern
   * matches bytes, and every byte of a non-ASCII character is outside the
   * class, so deleting bytes and deleting characters agree.
   */
  function EscapeTableName(s: string): (r: string)
    ensures IsTableName(r)
    ensures |r| <= |s|
    decreases |s|
  {
    if |s| == 0 then ""
    else if IsTableNameChar(s[0]) then [s[0]] + EscapeTableName(s[1..])
    else EscapeTableName(s[1..])
  }

  /** Escaping works piece by piece: a concatenation escapes to the concatenation of the escaped parts. */
  lemma {:induction false} EscapeAppend(a: string, b: string)
    ensures EscapeTableName(a + b) == EscapeTableName(a) + EscapeTableName(b)
    decreases |a|
  {
    if |a| == 0 {
      assert a + b == b;
    } else {
      assert (a + b)[0] == a[0] && (a + b)[1..] == a[1..] + b;
      EscapeAppend(a[1..], b);
    }
  }

  /** One character is kept exactly when it is in the class, and deleted otherwise. */
  lemma EscapeChar(c: char)
    ensures EscapeTableName([c]) == if IsTableNameChar(c) then [c] else []
  {
    assert [c][1..] == [];
  }

  /** Escaping only deletes: the result is a subsequence of the name. */
  lemma {:induction false} EscapeIsSubsequence(s: string)
    ensures IsSubsequence(EscapeTableName(s), s)
    decreases |s|
  {
    if |s| > 0 {
      EscapeIsSubsequence(s[1..]);
      var r := EscapeTableName(s);
      if IsTableNameChar(s[0]) {
        assert r[1..] == EscapeTableName(s[1..]);
      } else if |r| > 0 {
        assert r[0] != s[0];
      }
    }
  }

  /** A name made only of allowed characters is kept as it is. */
  lemma {:induction false} EscapeIdentity(s: string)
    requires IsTableName(s)
    ensures EscapeTableName(s) == s
    decreases |s|
  {
    if |s| > 0 {
      assert IsTableName(s[1..]) by {
        forall i | 0 <= i < |s[1..]| ensures IsTableNameChar(s[1..][i]) {
          assert s[1..][i] == s[i + 1];
        }
      }
      EscapeIdentity(s[1..]);
      assert s == [s[0]] + s[1..];
    }
  }

  /** Escaping twice is escaping once. */
  lemma EscapeIdempotent(s: string)
    ensures EscapeTableName(EscapeTableName(s)) == EscapeTableName(s)
  {
    EscapeIdentity(EscapeTableName(s));
  }

  /** A name is kept exactly when it is already clean. */
  lemma EscapeKeepsExactlyClean(s: string)
    ensures EscapeTableName(s) == s <==> IsTableName(s)
  {
    if IsTableName(s) {
      EscapeIdentity(s);
    }
  }

  const DropTable: string := "DROP TABLE "
  const DeleteFrom: string := "DELETE FROM "

  /** The statements a loop over the tables issues: the command and the escaped name of each, in table order. */
  function Statements(command: string, tables: seq<string>): (r: seq<string>)
    ensures |r| == |tables|
    ensures forall i :: 0 <= i < |r| ==> |command| <= |r[i]| && r[i][..|command|] == command
    ensures forall i :: 0 <= i < |r| ==> |command| <= |r[i]| && r[i][|command|..] == EscapeTableName(tables[i])
    decreases |tables|
  {
    if |tables| == 0 then []
    else
      var init := Statements(command, tables[..|tables| - 1]);
      var last := command + EscapeTableName(tables[|tables| - 1]);
      assert last[..|command|] == command && last[|command|..] == EscapeTableName(tables[|tables| - 1]);
      init + [last]
  }

  /** The updater base: a static list of tables, and the statements issued so far. */
  class DatabaseUpdaterBase {
    const dbTables: seq<string>
    var issued: seq<string>

    /** The base class's own table list is empty; a subclass supplies its own. */
    constructor ()
      ensures dbTables == [] && issued == []
    {
      dbTables := [];
      issued := [];
    }

    /** A subclass overriding static::$dbTables with its own table list. */
    constructor WithTables(dbTables: seq<string>)
      ensures this.dbTables == dbTables && issued == []
    {
      this.dbTables := dbTables;
      issued := [];
    }

    /** dropTables: one DROP TABLE per table, in order, with the escaped name. */
    method DropTables()
      modifies this`issued
      ensures issued == old(issued) + Statements(DropTable, dbTables)
    {
      IssueAll(DropTable);
    }

    /** truncateTables: one DELETE FROM per table, in order, with the escaped name. */
    method TruncateTables()
      modifies this`issued
      ensures issued == old(issued) + Statements(DeleteFrom, dbTables)
    {
      IssueAll(DeleteFrom);
    }

    /** The loop both operations share: exec(command . escapeTableName($table)) for each table. */
    method IssueAll(command: string)
      modifies this`issued
      ensures issued == old(issued) + Statements(command, dbTables)
    {
      for i := 0 to |dbTables|
        invariant issued == old(issued) + Statements(command, dbTables[..i])
      {
        assert dbTables[..i + 1][..i] == dbTables[..i];
        issued := issued + [command + EscapeTableName(dbTables[i])];
      }
      assert dbTables[..|dbTables|] == dbTables;
    }
  }

  /** A clean name is kept; semicolons and spaces are deleted. */
  lemma EscapeExamples()
    ensures EscapeTableName("issues") == "issues"
    ensures EscapeTableName("a;b c") == "abc"
  {
    EscapeIdentity("issues");
    assert EscapeTableName("c") == "c";
    assert EscapeTableName(" c") == "c";
    assert EscapeTableName("b c") == "bc";
    assert EscapeTableName(";b c") == "bc";
  }
}
