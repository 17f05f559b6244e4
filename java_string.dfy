/** The few java.lang.String operations the CodeStats core relies on, as
    functions on Dafny strings, each with the property that makes it usable. */
module JavaString {

  /** String.startsWith */
  predicate StartsWith(s: string, prefix: string)
  {
    |prefix| <= |s| && s[..|prefix|] == prefix
  }

  /** String.contains, searched from the left one position at a time */
  predicate Contains(s: string, t: string)
    decreases |s|
  {
    StartsWith(s, t) || (|s| > 0 && Contains(s[1..], t))
  }

  /** The reference meaning of `contains`: t occurs at some index of s. */
  ghost predicate OccursAt(s: string, t: string, i: int)
  {
    0 <= i && i + |t| <= |s| && s[i..i + |t|] == t
  }

  lemma {:induction false} ContainsIffOccurs(s: string, t: string)
    ensures Contains(s, t) <==> exists i :: OccursAt(s, t, i)
    decreases |s|
  {
    if Contains(s, t) {
      if StartsWith(s, t) {
        assert OccursAt(s, t, 0);
      } else {
        ContainsIffOccurs(s[1..], t);
        var i :| OccursAt(s[1..], t, i);
        assert s[1..][i..i + |t|] == s[i + 1..i + 1 + |t|];
        assert OccursAt(s, t, i + 1);
      }
    }
    if exists i :: OccursAt(s, t, i) {
      var i :| OccursAt(s, t, i);
      if i > 0 {
        assert s[1..][i - 1..i - 1 + |t|] == s[i..i + |t|];
        assert OccursAt(s[1..], t, i - 1);
        ContainsIffOccurs(s[1..], t);
      } else {
        assert StartsWith(s, t);
      }
    }
  }

  /** A string that starts with t also contains it. */
  lemma StartsWithContains(s: string, t: string)
    requires StartsWith(s, t)
    ensures Contains(s, t)
  {
  }

  /** The characters String.trim() removes: every code point up to U+0020. */
  predicate IsTrimmed(c: char)
  {
    c <= ' '
  }

  ghost predicate AllTrimmed(s: string)
  {
    forall k :: 0 <= k < |s| ==> IsTrimmed(s[k])
  }

  /** Drops the leading run of trimmed characters. */
  function TrimStart(s: string): (r: string)
    ensures |r| <= |s| && r == s[|s| - |r|..]
    ensures AllTrimmed(s[..|s| - |r|])
    ensures r != [] ==> !IsTrimmed(r[0])
    decreases |s|
  {
    if |s| > 0 && IsTrimmed(s[0]) then
      var r := TrimStart(s[1..]);
      assert s[..|s| - |r|] == [s[0]] + s[1..][..|s| - 1 - |r|];
      r
    else s
  }

  /** Drops the trailing run of trimmed characters. */
  function TrimEnd(s: string): (r: string)
    ensures |r| <= |s| && r == s[..|r|]
    ensures AllTrimmed(s[|r|..])
    ensures r != [] ==> !IsTrimmed(r[|r| - 1])
    decreases |s|
  {
    if |s| > 0 && IsTrimmed(s[|s| - 1]) then
      var r := TrimEnd(s[..|s| - 1]);
      assert s[|r|..] == s[..|s| - 1][|r|..] + [s[|s| - 1]];
      r
    else s
  }

  /** String.trim(): the part of s between its leading and trailing runs of
      characters up to U+0020. */
  function Trim(s: string): (r: string)
    ensures |r| <= |s|
    ensures r != [] ==> !IsTrimmed(r[0]) && !IsTrimmed(r[|r| - 1])
  {
    TrimEnd(TrimStart(s))
  }

  /** The trimmed string is a piece of the original. */
  lemma TrimIsInfix(s: string)
    ensures exists i :: OccursAt(s, Trim(s), i)
  {
    var front := TrimStart(s);
    var r := TrimEnd(front);
    assert Trim(s) == r;
    assert s[|s| - |front|..][..|r|] == r;
    assert OccursAt(s, r, |s| - |front|);
  }

  /** The trimmed string is empty exactly when every character of the
      original is whitespace. */
  lemma TrimEmptyIffBlank(s: string)
    ensures Trim(s) == [] <==> AllTrimmed(s)
  {
    var front := TrimStart(s);
    var r := TrimEnd(front);
    assert Trim(s) == r;
    if r == [] {
      assert AllTrimmed(front) by {
        assert front[|r|..] == front;
      }
      assert s == s[..|s| - |front|] + front;
    } else {
      assert front[0] == r[0];
      assert !IsTrimmed(s[|s| - |front|]);
    }
  }

  /** A string with no whitespace at either end is its own trim. */
  lemma TrimKeeps(s: string)
    requires |s| > 0 && !IsTrimmed(s[0]) && !IsTrimmed(s[|s| - 1])
    ensures Trim(s) == s
  {
    assert TrimStart(s) == s;
    assert TrimEnd(s) == s;
  }

  /** Every field of s between occurrences of sep, empty ones included
      (the pieces String.split scans before it drops trailing empties). */
  function Fields(s: string, sep: char): (r: seq<string>)
    ensures |r| >= 1
    ensures forall i :: 0 <= i < |r| ==> sep !in r[i]
    decreases |s|
  {
    if |s| == 0 then [""]
    else
      var rest := Fields(s[1..], sep);
      if s[0] == sep then [""] + rest
      else [[s[0]] + rest[0]] + rest[1..]
  }

  /** The fields put back together with sep between neighbours. */
  function Join(fields: seq<string>, sep: char): string
    decreases |fields|
  {
    if |fields| == 0 then ""
    else if |fields| == 1 then fields[0]
    else fields[0] + [sep] + Join(fields[1..], sep)
  }

  lemma {:induction false} JoinFields(s: string, sep: char)
    ensures Join(Fields(s, sep), sep) == s
    decreases |s|
  {
    if |s| > 0 {
      JoinFields(s[1..], sep);
      var rest := Fields(s[1..], sep);
      if s[0] == sep {
        assert Fields(s, sep) == [""] + rest;
        assert s == [sep] + s[1..];
      } else {
        var r := Fields(s, sep);
        assert r == [[s[0]] + rest[0]] + rest[1..];
        if |rest| == 1 {
          assert s == [s[0]] + s[1..];
        } else {
          assert r[1..] == rest[1..];
          assert Join(rest, sep) == rest[0] + [sep] + Join(rest[1..], sep);
          assert s == [s[0]] + s[1..];
        }
      }
    }
  }

  /** Drops trailing empty strings, as String.split does with limit 0. */
  function DropTrailingEmpty(parts: seq<string>): (r: seq<string>)
    ensures |r| <= |parts| && r == parts[..|r|]
    ensures r != [] ==> r[|r| - 1] != ""
    ensures forall k :: |r| <= k < |parts| ==> parts[k] == ""
    decreases |parts|
  {
    if |parts| > 0 && parts[|parts| - 1] == "" then DropTrailingEmpty(parts[..|parts| - 1])
    else parts
  }

  /** String.split(sep) for a one-character separator: a string without any
      separator comes back whole (so "" gives [""]); otherwise the fields with
      the trailing empty ones removed. */
  function Split(s: string, sep: char): (r: seq<string>)
    ensures forall i :: 0 <= i < |r| ==> sep !in r[i]
    ensures sep !in s ==> r == [s]
    ensures s != "" ==> r == DropTrailingEmpty(Fields(s, sep))
  {
    if sep !in s then
      assert s != "" ==> Fields(s, sep) == [s] by {
        if s != "" { FieldsWithoutSeparator(s, sep); }
      }
      [s]
    else DropTrailingEmpty(Fields(s, sep))
  }

  lemma {:induction false} FieldsWithoutSeparator(s: string, sep: char)
    requires sep !in s
    ensures Fields(s, sep) == [s]
    decreases |s|
  {
    if |s| > 0 {
      assert sep !in s[1..];
      FieldsWithoutSeparator(s[1..], sep);
      assert s == [s[0]] + s[1..];
    }
  }

  /** A field followed by the separator is split off whole. */
  lemma {:induction false} FieldsOfConcat(a: string, sep: char, b: string)
    requires sep !in a
    ensures Fields(a + [sep] + b, sep) == [a] + Fields(b, sep)
    decreases |a|
  {
    var s := a + [sep] + b;
    if |a| == 0 {
      assert s[0] == sep && s[1..] == b;
    } else {
      assert s[0] == a[0] && s[1..] == a[1..] + [sep] + b;
      FieldsOfConcat(a[1..], sep, b);
      assert [a[0]] + a[1..] == a;
    }
  }

  /** Fields undoes Join when no field holds the separator. */
  lemma {:induction false} FieldsOfJoin(fields: seq<string>, sep: char)
    requires |fields| >= 1
    requires forall i :: 0 <= i < |fields| ==> sep !in fields[i]
    ensures Fields(Join(fields, sep), sep) == fields
    decreases |fields|
  {
    if |fields| == 1 {
      FieldsWithoutSeparator(fields[0], sep);
    } else {
      FieldsOfJoin(fields[1..], sep);
      FieldsOfConcat(fields[0], sep, Join(fields[1..], sep));
    }
  }

  /** split undoes a join by the same separator, as long as no part holds
      the separator and the last part is not empty (split drops trailing
      empty parts). */
  lemma SplitJoin(parts: seq<string>, sep: char)
    requires |parts| >= 1 && parts[|parts| - 1] != ""
    requires forall i :: 0 <= i < |parts| ==> sep !in parts[i]
    ensures Split(Join(parts, sep), sep) == parts
  {
    var s := Join(parts, sep);
    FieldsOfJoin(parts, sep);
    if |parts| > 1 {
      assert s[|parts[0]|] == sep;
    }
    assert s != "" by {
      if |parts| == 1 {
        assert s == parts[0];
      }
    }
  }

  /** String.lastIndexOf(char): -1 when c does not occur. */
  function LastIndexOf(s: string, c: char): (r: int)
    ensures -1 <= r < |s|
    ensures r == -1 <==> c !in s
    ensures r >= 0 ==> s[r] == c && c !in s[r + 1..]
    decreases |s|
  {
    if |s| == 0 then -1
    else if s[|s| - 1] == c then |s| - 1
    else
      var r := LastIndexOf(s[..|s| - 1], c);
      LastIndexOfExtend(s, c, r);
      r
  }

  /** One more character that is not c keeps the last position of c. */
  lemma LastIndexOfExtend(s: string, c: char, r: int)
    requires |s| > 0 && s[|s| - 1] != c
    requires -1 <= r < |s| - 1
    requires r == -1 <==> c !in s[..|s| - 1]
    requires r >= 0 ==> s[r] == c && c !in s[..|s| - 1][r + 1..]
    ensures r == -1 <==> c !in s
    ensures r >= 0 ==> s[r] == c && c !in s[r + 1..]
  {
    var init := s[..|s| - 1];
    assert s == init + [s[|s| - 1]];
    if r >= 0 {
      assert s[r + 1..] == init[r + 1..] + [s[|s| - 1]];
      assert c in s by {
        assert s[r] == c;
      }
    } else {
      assert c !in init;
    }
  }

  /** The decimal digit character for 0 <= d < 10. */
  function Digit(d: nat): char
    requires d < 10
  {
    "0123456789"[d]
  }

  /** The value of a decimal digit character. */
  function DigitValue(c: char): int
  {
    c as int - '0' as int
  }

  lemma DigitRoundTrip(d: nat)
    requires d < 10
    ensures DigitValue(Digit(d)) == d
  {
    if d == 0 {} else if d == 1 {} else if d == 2 {} else if d == 3 {} else if d == 4 {}
    else if d == 5 {} else if d == 6 {} else if d == 7 {} else if d == 8 {} else {}
  }

  /** Decimal rendering of a natural number, as Java prints it (no leading zeros). */
  function NatToString(n: nat): (r: string)
    ensures |r| >= 1
    ensures forall k :: 0 <= k < |r| ==> '0' <= r[k] <= '9'
    ensures r[0] == '0' ==> n == 0
    decreases n
  {
    if n < 10 then [Digit(n)] else NatToString(n / 10) + [Digit(n % 10)]
  }

  /** The int-to-String conversion that string concatenation performs. */
  function IntToString(i: int): string
  {
    if i < 0 then "-" + NatToString(-i) else NatToString(i)
  }

  /** Reads a run of decimal digits back as a number. */
  function DigitsValue(s: string): int
    decreases |s|
  {
    if |s| == 0 then 0 else 10 * DigitsValue(s[..|s| - 1]) + DigitValue(s[|s| - 1])
  }

  /** Reads a decimal integer, with an optional leading minus sign. */
  function DecimalValue(s: string): int
  {
    if |s| > 0 && s[0] == '-' then -DigitsValue(s[1..]) else DigitsValue(s)
  }

  lemma {:induction false} NatToStringRoundTrip(n: nat)
    ensures DigitsValue(NatToString(n)) == n
    decreases n
  {
    if n < 10 {
      DigitRoundTrip(n);
    } else {
      NatToStringRoundTrip(n / 10);
      DigitRoundTrip(n % 10);
      var r := NatToString(n);
      assert r[..|r| - 1] == NatToString(n / 10);
      assert r[|r| - 1] == Digit(n % 10);
    }
  }

  /** The decimal text of an int reads back as that int. */
  lemma IntToStringRoundTrip(i: int)
    ensures DecimalValue(IntToString(i)) == i
  {
    if i < 0 {
      NatToStringRoundTrip(-i);
      assert IntToString(i)[1..] == NatToString(-i);
    } else {
      NatToStringRoundTrip(i);
    }
  }
}
