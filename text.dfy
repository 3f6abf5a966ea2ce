/**
 * String helpers shared by the components: PHP's empty() on strings, decimal
 * rendering of integers, explode/implode, str_replace, array_unique and the
 * character-class replacement used for file and directory names.
 */
module Text {
  import opened Base

  predicate IsDigit(c: char)
  {
    '0' <= c <= '9'
  }

  /** A non-empty run of decimal digits, as `[0-9]+` matches. */
  predicate IsDigits(s: string)
  {
    |s| > 0 && forall i :: 0 <= i < |s| ==> IsDigit(s[i])
  }

  /** PHP's empty() on a string: both "" and "0" count as empty. */
  predicate IsEmptyString(s: string)
  {
    s == "" || s == "0"
  }

  function DigitChar(d: nat): (c: char)
    requires d < 10
    ensures IsDigit(c)
  {
    ('0' as int + d) as char
  }

  function DigitValue(c: char): (d: nat)
    requires IsDigit(c)
    ensures d < 10 && DigitChar(d) == c
  {
    c as int - '0' as int
  }

  /** Decimal rendering of a natural number, as PHP's string conversion of an int. */
  function NatToString(n: nat): (s: string)
    ensures IsDigits(s)
    ensures n < 10 <==> |s| == 1
    decreases n
  {
    if n < 10 then [DigitChar(n)] else NatToString(n / 10) + [DigitChar(n % 10)]
  }

  /** The value of a digit string, most significant digit first. */
  function ParseDigits(s: string): nat
    requires forall i :: 0 <= i < |s| ==> IsDigit(s[i])
    decreases |s|
  {
    if |s| == 0 then 0 else ParseDigits(s[..|s| - 1]) * 10 + DigitValue(s[|s| - 1])
  }

  /** Parsing a rendered number gives the number back. */
  lemma {:induction false} ParseNatToString(n: nat)
    ensures ParseDigits(NatToString(n)) == n
    decreases n
  {
    var s := NatToString(n);
    if n < 10 {
      assert s[..0] == [];
    } else {
      ParseNatToString(n / 10);
      assert s[..|s| - 1] == NatToString(n / 10);
    }
  }

  /** Rendering is injective, so an exact string test on rendered numbers is a test on the numbers. */
  lemma NatToStringInjective(m: nat, n: nat)
    requires NatToString(m) == NatToString(n)
    ensures m == n
  {
    ParseNatToString(m);
    ParseNatToString(n);
  }

  /** PHP's string conversion of an int, with a leading '-' for negatives. */
  function IntToString(i: int): (s: string)
    ensures |s| > 0
    ensures i >= 0 ==> IsDigits(s)
    ensures i < 0 ==> s[0] == '-' && IsDigits(s[1..])
  {
    if i < 0 then "-" + NatToString(-i) else NatToString(i)
  }

  /** explode($sep, $s) for a one-character separator. */
  function Split(s: string, sep: char): (pieces: seq<string>)
    ensures |pieces| > 0
    ensures forall k :: 0 <= k < |pieces| ==> sep !in pieces[k]
    decreases |s|
  {
    if |s| == 0 then [""]
    else if s[0] == sep then [""] + Split(s[1..], sep)
    else
      var rest := Split(s[1..], sep);
      [[s[0]] + rest[0]] + rest[1..]
  }

  /** implode($sep, $pieces). */
  function Join(pieces: seq<string>, sep: char): string
    requires |pieces| > 0
    decreases |pieces|
  {
    if |pieces| == 1 then pieces[0] else pieces[0] + [sep] + Join(pieces[1..], sep)
  }

  /** Splitting on a separator and joining the pieces with it restores the text. */
  lemma {:induction false} JoinSplit(s: string, sep: char)
    ensures Join(Split(s, sep), sep) == s
    decreases |s|
  {
    if |s| == 0 {
    } else if s[0] == sep {
      JoinSplit(s[1..], sep);
      assert Split(s, sep)[1..] == Split(s[1..], sep);
    } else {
      JoinSplit(s[1..], sep);
      var rest := Split(s[1..], sep);
      var pieces := Split(s, sep);
      if |rest| == 1 {
        assert pieces == [[s[0]] + rest[0]];
      } else {
        assert pieces[1..] == rest[1..];
        calc {
          Join(pieces, sep);
          ([s[0]] + rest[0]) + [sep] + Join(rest[1..], sep);
          [s[0]] + (rest[0] + [sep] + Join(rest[1..], sep));
          [s[0]] + Join(rest, sep);
        }
      }
    }
  }

  /** The text contains `pat` starting at index i. */
  predicate OccursAt(s: string, pat: string, i: nat)
  {
    i + |pat| <= |s| && s[i..i + |pat|] == pat
  }

  /** str_replace($pat, $rep, $s): every occurrence, scanning left to right without overlap. */
  function ReplaceAll(s: string, pat: string, rep: string): string
    requires |pat| > 0
    decreases |s|
  {
    if |s| < |pat| then s
    else if s[..|pat|] == pat then rep + ReplaceAll(s[|pat|..], pat, rep)
    else [s[0]] + ReplaceAll(s[1..], pat, rep)
  }

  /** A text without any occurrence of the pattern is left as it is. */
  lemma {:induction false} ReplaceAllAbsent(s: string, pat: string, rep: string)
    requires |pat| > 0
    requires forall i: nat :: !OccursAt(s, pat, i)
    ensures ReplaceAll(s, pat, rep) == s
    decreases |s|
  {
    if |s| >= |pat| {
      assert !OccursAt(s, pat, 0);
      assert s[0..|pat|] == s[..|pat|];
      forall i: nat ensures !OccursAt(s[1..], pat, i) {
        assert !OccursAt(s, pat, i + 1);
        if i + |pat| <= |s[1..]| {
          assert s[1..][i..i + |pat|] == s[i + 1..i + 1 + |pat|];
        }
      }
      ReplaceAllAbsent(s[1..], pat, rep);
    }
  }

  /** An occurrence at the very start is replaced and scanning resumes after it. */
  lemma ReplaceAllAtFront(pat: string, rest: string, rep: string)
    requires |pat| > 0
    ensures ReplaceAll(pat + rest, pat, rep) == rep + ReplaceAll(rest, pat, rep)
  {
    assert (pat + rest)[..|pat|] == pat;
    assert (pat + rest)[|pat|..] == rest;
  }

  /** array_unique: keeps the first occurrence of each value, in order. */
  function Dedupe<T(==,!new)>(s: seq<T>): (r: seq<T>)
    ensures NoDuplicates(r)
    ensures forall x :: x in r <==> x in s
    ensures |r| <= |s|
    decreases |s|
  {
    if |s| == 0 then []
    else
      var d := Dedupe(s[..|s| - 1]);
      assert s == s[..|s| - 1] + [s[|s| - 1]];
      if s[|s| - 1] in d then d else d + [s[|s| - 1]]
  }

  /** The first element survives deduplication in first place. */
  lemma {:induction false} DedupeHead<T(!new)>(s: seq<T>)
    requires |s| > 0
    ensures |Dedupe(s)| > 0 && Dedupe(s)[0] == s[0]
    decreases |s|
  {
    if |s| > 1 {
      DedupeHead(s[..|s| - 1]);
    }
  }

  /** The position of the first occurrence of x in s. */
  function FirstIndex<T(==)>(s: seq<T>, x: T): (k: nat)
    requires x in s
    ensures k < |s| && s[k] == x && x !in s[..k]
    decreases |s|
  {
    if s[0] == x then 0
    else
      var k := 1 + FirstIndex(s[1..], x);
      assert s[..k] == [s[0]] + s[1..][..k - 1];
      k
  }

  /** A position holding x with no x before it is the first occurrence. */
  lemma FirstIndexUnique<T>(s: seq<T>, x: T, k: nat)
    requires k < |s| && s[k] == x && x !in s[..k]
    ensures FirstIndex(s, x) == k
  {
  }

  /** Appending after the first occurrence does not move it. */
  lemma FirstIndexSnoc<T>(s: seq<T>, y: T, x: T)
    requires x in s
    ensures FirstIndex(s + [y], x) == FirstIndex(s, x)
  {
    var f := FirstIndex(s, x);
    assert (s + [y])[..f] == s[..f];
    FirstIndexUnique(s + [y], x, f);
  }

  /**
   * array_unique keeps the first occurrences in order: the values of the
   * result appear in the order of their first positions in the input.
   */
  lemma {:induction false} DedupeOrder<T(!new)>(s: seq<T>)
    ensures forall i, j :: 0 <= i < j < |Dedupe(s)| ==> FirstIndex(s, Dedupe(s)[i]) < FirstIndex(s, Dedupe(s)[j])
    decreases |s|
  {
    if |s| > 0 {
      var init := s[..|s| - 1];
      var last := s[|s| - 1];
      assert s == init + [last];
      DedupeOrder(init);
      var d := Dedupe(init);
      forall x | x in d ensures FirstIndex(s, x) == FirstIndex(init, x) {
        FirstIndexSnoc(init, last, x);
      }
      if last !in d {
        FirstIndexUnique(s, last, |init|);
        forall i | 0 <= i < |d| ensures FirstIndex(s, d[i]) < FirstIndex(s, last) {
          FirstIndexSnoc(init, last, d[i]);
        }
      }
    }
  }

  /** On a list that has no duplicates, array_unique changes nothing. */
  lemma {:induction false} DedupeDistinct<T(!new)>(s: seq<T>)
    requires NoDuplicates(s)
    ensures Dedupe(s) == s
    decreases |s|
  {
    if |s| > 0 {
      var init := s[..|s| - 1];
      DedupeDistinct(init);
      assert s[|s| - 1] !in init by {
        forall i | 0 <= i < |init| ensures init[i] != s[|s| - 1] {
          assert init[i] == s[i];
        }
      }
      assert s == init + [s[|s| - 1]];
    }
  }

  /** Characters kept by the class `[A-Za-z0-9_\-]`. */
  predicate IsFileNameChar(c: char)
  {
    ('A' <= c <= 'Z') || ('a' <= c <= 'z') || IsDigit(c) || c == '_' || c == '-'
  }

  /** The number of bytes of c in UTF-8. */
  function Utf8Length(c: char): (n: nat)
    ensures 1 <= n <= 4
    ensures n == 1 <==> (c as int) < 0x80
  {
    if (c as int) < 0x80 then 1
    else if (c as int) < 0x800 then 2
    else if (c as int) < 0x1_0000 then 3
    else 4
  }

  /** Every character is ASCII, one byte in UTF-8. */
  predicate IsAscii(s: string)
  {
    forall i :: 0 <= i < |s| ==> (s[i] as int) < 0x80
  }

  /**
   * What `preg_replace('/[^A-Za-z0-9_\-]/', '_', ...)` makes of one character.
   * The pattern has no u modifier, so PCRE matches bytes: an allowed
   * character is kept, and any other one becomes one '_' per UTF-8 byte.
   */
  function ReplacedChar(c: char): (r: string)
    ensures IsFileNameChar(c) ==> r == [c]
    ensures !IsFileNameChar(c) ==> forall i :: 0 <= i < |r| ==> r[i] == '_'
    ensures |r| == Utf8Length(c)
  {
    if IsFileNameChar(c) then [c] else seq(Utf8Length(c), _ => '_')
  }

  /** preg_replace('/[^A-Za-z0-9_\-]/', '_', $s), byte by byte over the UTF-8 text. */
  function ReplaceDisallowed(s: string): string
    decreases |s|
  {
    if |s| == 0 then ""
    else ReplacedChar(s[0]) + ReplaceDisallowed(s[1..])
  }

  /** The replacement works piece by piece: replacing a concatenation concatenates the replacements. */
  lemma {:induction false} ReplaceDisallowedAppend(a: string, b: string)
    ensures ReplaceDisallowed(a + b) == ReplaceDisallowed(a) + ReplaceDisallowed(b)
    decreases |a|
  {
    if |a| == 0 {
      assert a + b == b;
    } else {
      assert (a + b)[0] == a[0] && (a + b)[1..] == a[1..] + b;
      ReplaceDisallowedAppend(a[1..], b);
      calc {
        ReplaceDisallowed(a + b);
        ReplacedChar(a[0]) + ReplaceDisallowed(a[1..] + b);
        ReplacedChar(a[0]) + (ReplaceDisallowed(a[1..]) + ReplaceDisallowed(b));
        (ReplacedChar(a[0]) + ReplaceDisallowed(a[1..])) + ReplaceDisallowed(b);
      }
    }
  }

  /** The result has one character per UTF-8 byte of the input: never shorter, and as long exactly on ASCII text. */
  lemma {:induction false} ReplaceDisallowedLength(s: string)
    ensures |ReplaceDisallowed(s)| >= |s|
    ensures |ReplaceDisallowed(s)| == |s| <==> IsAscii(s)
    decreases |s|
  {
    if |s| > 0 {
      ReplaceDisallowedLength(s[1..]);
      assert IsAscii(s) <==> (s[0] as int) < 0x80 && IsAscii(s[1..]) by {
        forall k | 0 <= k < |s[1..]| ensures s[1..][k] == s[k + 1] {
        }
      }
    }
  }

  /** A single character is replaced as ReplacedChar says. */
  lemma ReplaceDisallowedChar(c: char)
    ensures ReplaceDisallowed([c]) == ReplacedChar(c)
  {
    assert [c][1..] == [];
  }

  /**
   * On ASCII text the replacement is positional: the length is kept, allowed
   * characters stay in place and every other one becomes '_'.
   */
  lemma {:induction false} ReplaceDisallowedAscii(s: string)
    ensures IsAscii(s) ==> |ReplaceDisallowed(s)| == |s|
    ensures IsAscii(s) ==> forall i :: 0 <= i < |s| ==> ReplaceDisallowed(s)[i] == (if IsFileNameChar(s[i]) then s[i] else '_')
    decreases |s|
  {
    if |s| > 0 && IsAscii(s) {
      assert IsAscii(s[1..]) by {
        forall k | 0 <= k < |s[1..]| ensures (s[1..][k] as int) < 0x80 {
          assert s[1..][k] == s[k + 1];
        }
      }
      ReplaceDisallowedAscii(s[1..]);
      var r := ReplaceDisallowed(s);
      assert r == ReplacedChar(s[0]) + ReplaceDisallowed(s[1..]);
      assert |ReplacedChar(s[0])| == 1;
      forall i | 1 <= i < |s| ensures r[i] == (if IsFileNameChar(s[i]) then s[i] else '_') {
        assert r[i] == ReplaceDisallowed(s[1..])[i - 1] && s[1..][i - 1] == s[i];
      }
    }
  }

  /** A character outside the class that is two bytes in UTF-8 becomes two '_'. */
  lemma ReplaceDisallowedCafe()
    ensures ReplaceDisallowed("caf\U{e9}") == "caf__"
  {
    var s := "caf\U{e9}";
    assert Utf8Length(s[3]) == 2;
    assert ReplacedChar(s[3]) == "__";
    assert s[1..][1..][1..][1..] == [];
  }

  /** The result is made of allowed characters only, and replacing again changes nothing. */
  lemma {:induction false} ReplaceDisallowedClean(s: string)
    ensures forall i :: 0 <= i < |ReplaceDisallowed(s)| ==> IsFileNameChar(ReplaceDisallowed(s)[i])
    ensures ReplaceDisallowed(ReplaceDisallowed(s)) == ReplaceDisallowed(s)
    decreases |s|
  {
    if |s| > 0 {
      ReplaceDisallowedClean(s[1..]);
      var head := ReplacedChar(s[0]);
      var r := ReplaceDisallowed(s);
      assert r == head + ReplaceDisallowed(s[1..]);
      assert forall i :: 0 <= i < |head| ==> IsFileNameChar(head[i]);
      forall i | 0 <= i < |r| ensures IsFileNameChar(r[i]) {
        if i >= |head| {
          assert r[i] == ReplaceDisallowed(s[1..])[i - |head|];
        }
      }
      ReplaceDisallowedIdentity(r);
    }
  }

  /** A name made of allowed characters only is returned unchanged. */
  lemma {:induction false} ReplaceDisallowedIdentity(s: string)
    requires forall i :: 0 <= i < |s| ==> IsFileNameChar(s[i])
    ensures ReplaceDisallowed(s) == s
    decreases |s|
  {
    if |s| > 0 {
      ReplaceDisallowedIdentity(s[1..]);
    }
  }
}
