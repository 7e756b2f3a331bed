/**
 * The JavaScript string built-ins the log parser relies on: `trim`,
 * `toLowerCase`, `includes`, `split` and `parseInt(_, 10)`, each stated on
 * `string` (a sequence of characters).
 */
module JsText {

  /** The characters JavaScript's `\s` class and `String.prototype.trim` treat as white space. */
  predicate IsWhitespace(c: char)
  {
    c == '\t' || c == '\n' || c == '\U{000B}' || c == '\U{000C}' || c == '\r' || c == ' '
    || c == '\U{00A0}' || c == '\U{1680}' || ('\U{2000}' <= c <= '\U{200A}')
    || c == '\U{2028}' || c == '\U{2029}' || c == '\U{202F}' || c == '\U{205F}'
    || c == '\U{3000}' || c == '\U{FEFF}'
  }

  predicate AllWhitespace(s: string)
  {
    forall k :: 0 <= k < |s| ==> IsWhitespace(s[k])
  }

  // ---------------------------------------------------------------- trim

  function TrimStart(s: string): (r: string)
    ensures |r| <= |s|
    ensures r == s[|s| - |r|..]
    ensures AllWhitespace(s[..|s| - |r|])
    ensures r != [] ==> !IsWhitespace(r[0])
  {
    if |s| > 0 && IsWhitespace(s[0]) then
      var r := TrimStart(s[1..]);
      assert s[..|s| - |r|] == [s[0]] + s[1..][..|s| - 1 - |r|];
      r
    else s
  }

  function TrimEnd(s: string): (r: string)
    ensures |r| <= |s|
    ensures r == s[..|r|]
    ensures AllWhitespace(s[|r|..])
    ensures r != [] ==> !IsWhitespace(r[|r| - 1])
  {
    if |s| > 0 && IsWhitespace(s[|s| - 1]) then
      var r := TrimEnd(s[..|s| - 1]);
      assert s[|r|..] == s[..|s| - 1][|r|..] + [s[|s| - 1]];
      r
    else s
  }

  /**
   * `String.prototype.trim`: the longest slice of `s` that neither starts
   * nor ends with white space; only white space is removed around it.
   */
  function Trim(s: string): (r: string)
    ensures exists lead :: 0 <= lead <= |s| - |r| && r == s[lead..lead + |r|]
              && AllWhitespace(s[..lead]) && AllWhitespace(s[lead + |r|..])
    ensures r != [] ==> !IsWhitespace(r[0]) && !IsWhitespace(r[|r| - 1])
    ensures r == [] <==> AllWhitespace(s)
  {
    var t := TrimStart(s);
    var r := TrimEnd(t);
    TrimLeavesSlice(s, t, r);
    TrimEmptyOnlyWhenBlank(s, t, r);
    r
  }

  /**
   * Cutting white space off the start of `s` (giving `t`) and then off the
   * end of `t` (giving `r`) leaves a slice of `s` with only white space
   * around it.
   */
  lemma TrimLeavesSlice(s: string, t: string, r: string)
    requires |t| <= |s| && t == s[|s| - |t|..] && AllWhitespace(s[..|s| - |t|])
    requires |r| <= |t| && r == t[..|r|] && AllWhitespace(t[|r|..])
    ensures exists lead :: 0 <= lead <= |s| - |r| && r == s[lead..lead + |r|]
              && AllWhitespace(s[..lead]) && AllWhitespace(s[lead + |r|..])
  {
    var lead := |s| - |t|;
    assert r == s[lead..lead + |r|];
    assert s[lead + |r|..] == t[|r|..];
  }

  /** Such a slice is empty exactly when `s` is all white space. */
  lemma TrimEmptyOnlyWhenBlank(s: string, t: string, r: string)
    requires |t| <= |s| && t == s[|s| - |t|..] && AllWhitespace(s[..|s| - |t|])
    requires t != [] ==> !IsWhitespace(t[0])
    requires |r| <= |t| && r == t[..|r|] && AllWhitespace(t[|r|..])
    ensures r == [] <==> AllWhitespace(s)
  {
    var lead := |s| - |t|;
    if r == [] {
      assert s == s[..lead] + t;
    } else {
      assert s[lead] == t[0];
    }
  }

  /** A string that neither starts nor ends with white space is its own trim. */
  lemma TrimKeepsTrimmed(s: string)
    requires s != [] && !IsWhitespace(s[0]) && !IsWhitespace(s[|s| - 1])
    ensures Trim(s) == s
  {
    assert TrimStart(s) == s;
    assert TrimEnd(s) == s;
  }

  /** Trimming a string that is already trimmed changes nothing. */
  lemma TrimIdempotent(s: string)
    ensures Trim(Trim(s)) == Trim(s)
  {
    var t := Trim(s);
    if t != [] {
      TrimKeepsTrimmed(t);
    } else {
      TrimOfEmpty(t);
    }
  }

  /** The empty string trims to itself. */
  lemma TrimOfEmpty(s: string)
    requires s == []
    ensures Trim(s) == []
  {
    assert AllWhitespace(s);
  }

  // ---------------------------------------------------------- lower case

  /** `toLowerCase` on one character of the ASCII range: `A`-`Z` map to `a`-`z`. */
  function LowerChar(c: char): char
  {
    if 'A' <= c <= 'Z' then (c as int + ('a' as int - 'A' as int)) as char else c
  }

  function Lower(s: string): string
  {
    seq(|s|, k requires 0 <= k < |s| => LowerChar(s[k]))
  }

  /** The capital of a lower-case ASCII letter. */
  function UpperChar(c: char): char
  {
    if 'a' <= c <= 'z' then (c as int - ('a' as int - 'A' as int)) as char else c
  }

  /** A lower-case letter occurs in the lower-cased text exactly when it or its capital occurs in the text. */
  lemma LowerHasLetter(s: string, c: char)
    requires 'a' <= c <= 'z'
    ensures c in Lower(s) <==> c in s || UpperChar(c) in s
  {
    if c in Lower(s) {
      var k :| 0 <= k < |s| && Lower(s)[k] == c;
      assert s[k] == c || s[k] == UpperChar(c);
    }
    if c in s {
      var k :| 0 <= k < |s| && s[k] == c;
      assert Lower(s)[k] == c;
    } else if UpperChar(c) in s {
      var k :| 0 <= k < |s| && s[k] == UpperChar(c);
      assert Lower(s)[k] == c;
    }
  }

  /** Lower-casing leaves no upper-case ASCII letter, so doing it twice changes nothing. */
  lemma LowerIdempotent(s: string)
    ensures forall k :: 0 <= k < |s| ==> !('A' <= Lower(s)[k] <= 'Z')
    ensures Lower(Lower(s)) == Lower(s)
  {
  }

  // ------------------------------------------------------------ includes

  ghost predicate OccursAt(hay: string, needle: string, i: int)
  {
    0 <= i && i + |needle| <= |hay| && hay[i..i + |needle|] == needle
  }

  /** `hay.includes(needle)`: `needle` occurs somewhere in `hay` (the empty string occurs everywhere). */
  function Contains(hay: string, needle: string): bool
    decreases |hay|
  {
    if |needle| > |hay| then false
    else if hay[..|needle|] == needle then true
    else Contains(hay[1..], needle)
  }

  lemma {:induction false} ContainsOccurs(hay: string, needle: string)
    ensures Contains(hay, needle) <==> exists i :: OccursAt(hay, needle, i)
    decreases |hay|
  {
    if |needle| > |hay| {
    } else if hay[..|needle|] == needle {
      assert OccursAt(hay, needle, 0);
    } else {
      ContainsOccurs(hay[1..], needle);
      assert forall i :: OccursAt(hay[1..], needle, i) <==> OccursAt(hay, needle, i + 1) by {
        forall i ensures OccursAt(hay[1..], needle, i) <==> OccursAt(hay, needle, i + 1) {
          if 0 <= i && i + |needle| <= |hay| - 1 {
            assert hay[1..][i..i + |needle|] == hay[i + 1..i + 1 + |needle|];
          }
        }
      }
      assert forall i :: OccursAt(hay, needle, i) ==> i >= 1;
      assert forall i :: OccursAt(hay, needle, i) ==> OccursAt(hay[1..], needle, i - 1);
    }
  }

  /** A needle holding a character that the haystack lacks does not occur in it. */
  lemma MissingCharNotContained(hay: string, needle: string, c: char)
    requires c in needle && c !in hay
    ensures !Contains(hay, needle)
  {
    ContainsOccurs(hay, needle);
  }

  // --------------------------------------------------------------- split

  /** Reassembles pieces with `sep` between consecutive ones (`Array.prototype.join`). */
  function Join(parts: seq<string>, sep: char): string
    requires |parts| > 0
  {
    if |parts| == 1 then parts[0] else parts[0] + [sep] + Join(parts[1..], sep)
  }

  /**
   * `s.split(sep)` for a one-character separator: at least one piece, no
   * piece contains the separator, and joining the pieces gives `s` back.
   */
  function Split(s: string, sep: char): (r: seq<string>)
    ensures |r| > 0
    ensures forall k :: 0 <= k < |r| ==> sep !in r[k]
    ensures Join(r, sep) == s
  {
    if s == [] then [[]]
    else
      var rest := Split(s[1..], sep);
      if s[0] == sep then
        assert s == [] + [sep] + Join(rest, sep);
        [[]] + rest
      else
        var r := [[s[0]] + rest[0]] + rest[1..];
        assert r[1..] == rest[1..];
        assert Join(r, sep) == [s[0]] + Join(rest, sep) by {
          if |rest| > 1 {
            assert Join(rest, sep) == rest[0] + [sep] + Join(rest[1..], sep);
          }
        }
        r
  }

  /** A text without the separator is a single piece. */
  lemma {:induction false} SplitWithoutSeparator(s: string, sep: char)
    requires sep !in s
    ensures Split(s, sep) == [s]
  {
    if s != [] {
      SplitWithoutSeparator(s[1..], sep);
    }
  }

  // ------------------------------------------------------------ parseInt

  predicate IsDigit(c: char)
  {
    '0' as int <= c as int <= '9' as int
  }

  predicate IsDigits(s: string)
  {
    |s| > 0 && forall k :: 0 <= k < |s| ==> IsDigit(s[k])
  }

  /** The text of the shape `[+-]?\d+`, which is all the number capture can hold. */
  predicate IsNumberText(s: string)
  {
    IsDigits(s) || (|s| > 1 && (s[0] == '+' || s[0] == '-') && IsDigits(s[1..]))
  }

  type NumberText = s: string | IsNumberText(s) witness "0"

  /** Base-10 value of a run of digits, read left to right. */
  function DigitsValue(s: string): nat
    requires forall k :: 0 <= k < |s| ==> IsDigit(s[k])
  {
    if s == [] then 0
    else
      assert IsDigit(s[|s| - 1]);
      DigitsValue(s[..|s| - 1]) * 10 + (s[|s| - 1] as int - '0' as int)
  }

  /** `parseInt(s, 10)` on a number capture: an optional sign, then the digits' value. */
  function ParseInt(s: NumberText): int
  {
    if s[0] == '-' then 0 - DigitsValue(s[1..])
    else if s[0] == '+' then DigitsValue(s[1..])
    else DigitsValue(s)
  }

  /** Shortest decimal spelling of a natural number. */
  function Digits(n: nat): (r: string)
    ensures IsDigits(r)
    ensures DigitsValue(r) == n
    ensures n > 0 ==> r[0] != '0'
  {
    if n < 10 then ["0123456789"[n]]
    else
      var r := Digits(n / 10) + ["0123456789"[n % 10]];
      assert r[..|r| - 1] == Digits(n / 10);
      r
  }

  /** Decimal spelling of an integer, with a leading `-` when it is negative. */
  function Show(n: int): (r: NumberText)
  {
    if n < 0 then "-" + Digits(-n) else Digits(n)
  }

  /** Reading back the decimal spelling of any integer gives that integer. */
  lemma ParseShow(n: int)
    ensures ParseInt(Show(n)) == n
  {
    if n < 0 {
      assert Show(n)[1..] == Digits(-n);
    }
  }

  /** A leading `+` and leading zeros do not change the value read. */
  lemma ParseIgnoresPlusAndZeros(zeros: nat, n: nat)
    ensures IsNumberText("+" + seq(zeros, _ => '0') + Digits(n))
    ensures ParseInt("+" + seq(zeros, _ => '0') + Digits(n)) == n
  {
    var z := seq(zeros, _ => '0');
    var s := "+" + z + Digits(n);
    assert s[1..] == z + Digits(n);
    LeadingZeros(z, Digits(n));
  }

  lemma {:induction false} LeadingZeros(z: string, d: string)
    requires forall k :: 0 <= k < |z| ==> z[k] == '0'
    requires forall k :: 0 <= k < |d| ==> IsDigit(d[k])
    ensures DigitsValue(z + d) == DigitsValue(z) * Pow10(|d|) + DigitsValue(d)
    ensures DigitsValue(z) == 0
    decreases |z| + |d|
  {
    if d == [] {
      assert z + d == z;
      ZerosValue(z);
    } else {
      var s := z + d;
      assert s[..|s| - 1] == z + d[..|d| - 1];
      LeadingZeros(z, d[..|d| - 1]);
    }
  }

  lemma {:induction false} ZerosValue(z: string)
    requires forall k :: 0 <= k < |z| ==> z[k] == '0'
    ensures DigitsValue(z) == 0
  {
    if z != [] {
      ZerosValue(z[..|z| - 1]);
    }
  }

  function Pow10(n: nat): nat
  {
    if n == 0 then 1 else 10 * Pow10(n - 1)
  }
}
