/** String helpers, each with the meaning its Python counterpart has on the
    inputs the pipeline gives it. Strings are sequences of characters;
    lower-casing is restricted to ASCII. */
module Text {

  /** `c.lower()` for an ASCII character; every other character is kept. */
  function LowerChar(c: char): char
  {
    if 'A' <= c <= 'Z' then (c as int + 32) as char else c
  }

  /** `s.lower()`, character by character. */
  function Lower(s: string): string
  {
    seq(|s|, i requires 0 <= i < |s| => LowerChar(s[i]))
  }

  lemma LowerAppend(a: string, b: string)
    ensures Lower(a + b) == Lower(a) + Lower(b)
  {
    assert forall i :: 0 <= i < |a + b| ==> Lower(a + b)[i] == (Lower(a) + Lower(b))[i];
  }

  /** Lower-casing never produces a lower-case letter from anything but that
      letter or its upper-case form. */
  lemma LowerCharInverse(c: char, l: char)
    requires 'a' <= l <= 'z'
    ensures LowerChar(c) == l <==> c == l || c as int == l as int - 32
  {
  }

  /** A lower-case letter occurs in `Lower(s)` only where `s` has it in one of its two cases. */
  lemma LowerMembership(s: string, l: char)
    requires 'a' <= l <= 'z'
    ensures l in Lower(s) <==> l in s || (l as int - 32) as char in s
  {
    var u := (l as int - 32) as char;
    if l in Lower(s) {
      var i :| 0 <= i < |s| && Lower(s)[i] == l;
      LowerCharInverse(s[i], l);
    }
    if l in s {
      var i :| 0 <= i < |s| && s[i] == l;
      assert Lower(s)[i] == l;
    }
    if u in s {
      var i :| 0 <= i < |s| && s[i] == u;
      assert Lower(s)[i] == l;
    }
  }

  /** `needle` occurs in `hay` starting at offset `i`. */
  predicate OccursAt(needle: string, hay: string, i: int)
  {
    0 <= i && i + |needle| <= |hay| && hay[i..i + |needle|] == needle
  }

  /** Python's `needle in hay` for two strings. */
  predicate Contains(needle: string, hay: string)
  {
    exists i | 0 <= i <= |hay| - |needle| :: OccursAt(needle, hay, i)
  }

  /** The empty string is in every string, and only the empty string is in "". */
  lemma ContainsEmpty(needle: string, hay: string)
    ensures needle == [] ==> Contains(needle, hay)
    ensures Contains(needle, []) <==> needle == []
  {
    if needle == [] {
      assert OccursAt(needle, hay, 0);
      assert OccursAt(needle, [], 0);
    }
  }

  /** A non-empty needle whose first character is absent from `hay` is not in `hay`. */
  lemma FirstCharAbsent(needle: string, hay: string)
    requires needle != [] && needle[0] !in hay
    ensures !Contains(needle, hay)
  {
    forall i | 0 <= i <= |hay| - |needle|
      ensures !OccursAt(needle, hay, i)
    {
      assert hay[i] in hay;
    }
  }

  /** `s.endswith(suffix)`. */
  predicate EndsWith(s: string, suffix: string)
  {
    |suffix| <= |s| && s[|s| - |suffix|..] == suffix
  }

  /** A string ends only with suffixes whose last character is its own. */
  lemma EndsWithLastChar(s: string, suffix: string)
    requires suffix != [] && EndsWith(s, suffix)
    ensures s[|s| - 1] == suffix[|suffix| - 1]
  {
    assert s[|s| - |suffix|..][|suffix| - 1] == s[|s| - 1];
  }

  lemma EndsWithAppend(s: string, suffix: string)
    ensures EndsWith(s + suffix, suffix)
  {
    assert (s + suffix)[|s|..] == suffix;
  }

  /** The decimal digit character for `d`. */
  function DigitChar(d: nat): char
    requires d < 10
  {
    ('0' as int + d) as char
  }

  /** `str(n)` (the `{n}` of an f-string) for a natural number. */
  function NatToString(n: nat): (r: string)
    ensures |r| >= 1
    ensures n >= 10 ==> |r| >= 2
    decreases n
  {
    if n < 10 then [DigitChar(n)] else NatToString(n / 10) + [DigitChar(n % 10)]
  }

  /** Distinct numbers have distinct decimal spellings. */
  lemma {:induction false} NatToStringInjective(a: nat, b: nat)
    requires NatToString(a) == NatToString(b)
    ensures a == b
    decreases a
  {
    var s := NatToString(a);
    if a < 10 && b < 10 {
      assert DigitChar(a) == s[0] == DigitChar(b);
    } else if a >= 10 && b >= 10 {
      var pa, pb := NatToString(a / 10), NatToString(b / 10);
      assert s == pa + [DigitChar(a % 10)] == pb + [DigitChar(b % 10)];
      assert |pa| == |pb|;
      assert DigitChar(a % 10) == s[|s| - 1] == DigitChar(b % 10);
      assert pa == s[..|s| - 1] == pb;
      NatToStringInjective(a / 10, b / 10);
    }
  }

  /** `os.path.join(a, b)` on a POSIX system. */
  function PathJoin(a: string, b: string): string
  {
    if b != [] && b[0] == '/' then b
    else if a == [] || a[|a| - 1] == '/' then a + b
    else a + "/" + b
  }

  /** `s.replace(target, with)` for a one-character `target`. */
  function Replace(s: string, target: char, with: string): string
  {
    if s == [] then [] else (if s[0] == target then with else [s[0]]) + Replace(s[1..], target, with)
  }

  lemma {:induction false} ReplaceAppend(a: string, b: string, target: char, with: string)
    ensures Replace(a + b, target, with) == Replace(a, target, with) + Replace(b, target, with)
    decreases |a|
  {
    if a == [] {
      assert a + b == b;
    } else {
      assert (a + b)[0] == a[0];
      assert (a + b)[1..] == a[1..] + b;
      ReplaceAppend(a[1..], b, target, with);
    }
  }

  /** The number of times `c` occurs in `s` (`s.count(c)`). */
  function Count(s: string, c: char): nat
  {
    if s == [] then 0 else (if s[0] == c then 1 else 0) + Count(s[1..], c)
  }
}
