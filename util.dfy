/** String and number helpers shared by the relay, the router and the
    management handlers: JavaScript's `split`, `startsWith`, `includes`,
    `substring`, and the decimal digits that `\d+` matches and `parseInt`
    reads. Strings are sequences of Dafny characters (Unicode scalar
    values), not JavaScript's UTF-16 code units. */
module Util {

  datatype Option<+T> = None | Some(value: T)

  /** True when `p` is the first |p| characters of `s` (`s.startsWith(p)`). */
  predicate StartsWith(s: string, p: string) {
    |p| <= |s| && s[..|p|] == p
  }

  /** True when `sub` occurs somewhere in `s` (`s.includes(sub)`). */
  predicate Contains(s: string, sub: string) {
    exists i :: 0 <= i <= |s| - |sub| && OccursAt(s, sub, i)
  }

  predicate OccursAt(s: string, sub: string, i: nat)
    requires i + |sub| <= |s|
  {
    s[i..i + |sub|] == sub
  }

  predicate NoChar(s: string, c: char) {
    forall i :: 0 <= i < |s| ==> s[i] != c
  }

  // ---------------------------------------------------------------------
  // split(sep)
  // ---------------------------------------------------------------------

  /** `s.split(sep)`: the pieces between occurrences of `sep`. There is
      always at least one piece, and an empty string gives `[""]`. */
  function Split(s: string, sep: char): (parts: seq<string>)
    ensures |parts| >= 1
    decreases |s|
  {
    if |s| == 0 then [""]
    else
      var rest := Split(s[1..], sep);
      if s[0] == sep then [""] + rest else [[s[0]] + rest[0]] + rest[1..]
  }

  /** `parts.join(sep)`. */
  function Join(parts: seq<string>, sep: char): string
    requires |parts| >= 1
    decreases |parts|
  {
    if |parts| == 1 then parts[0] else parts[0] + [sep] + Join(parts[1..], sep)
  }

  /** Joining the pieces of a split with the same separator gives back the
      string: no character is lost or added by `split`. */
  lemma {:induction false} JoinSplit(s: string, sep: char)
    ensures Join(Split(s, sep), sep) == s
    decreases |s|
  {
    if |s| > 0 {
      var rest := Split(s[1..], sep);
      JoinSplit(s[1..], sep);
      if s[0] == sep {
        assert Split(s, sep) == [""] + rest;
        assert (([""] + rest)[1..]) == rest;
      } else {
        var parts := Split(s, sep);
        assert parts == [[s[0]] + rest[0]] + rest[1..];
        if |rest| == 1 {
          assert Join(parts, sep) == [s[0]] + rest[0];
        } else {
          assert parts[1..] == rest[1..];
          assert Join(rest, sep) == rest[0] + [sep] + Join(rest[1..], sep);
          assert Join(parts, sep) == [s[0]] + rest[0] + [sep] + Join(rest[1..], sep);
        }
      }
    }
  }

  /** `s.split(".")[0]`: the text of `s` before its first dot, or all of
      `s` when it has no dot. */
  function FirstLabel(s: string): (r: string)
    ensures r <= s
    ensures NoChar(r, '.')
    ensures r == s || s[|r|] == '.'
    ensures r == Split(s, '.')[0]
    decreases |s|
  {
    if |s| == 0 || s[0] == '.' then "" else [s[0]] + FirstLabel(s[1..])
  }

  /** The first label is the whole string exactly when the string has no dot. */
  lemma FirstLabelIsWholeIffNoDot(s: string)
    ensures FirstLabel(s) == s <==> NoChar(s, '.')
  {
  }

  // ---------------------------------------------------------------------
  // Decimal digits: what the route patterns' `(\d+)` match and what
  // `parseInt` then reads.
  // ---------------------------------------------------------------------

  predicate IsDigit(c: char) {
    '0' <= c <= '9'
  }

  /** One or more ASCII digits, the language of `\d+`. */
  predicate IsDigits(s: string) {
    |s| >= 1 && forall i :: 0 <= i < |s| ==> IsDigit(s[i])
  }

  /** The value of a string of digits, read left to right. */
  function DigitsValue(s: string): (n: nat)
    requires forall i :: 0 <= i < |s| ==> IsDigit(s[i])
    decreases |s|
  {
    if |s| == 0 then 0
    else
      assert IsDigit(s[|s| - 1]);
      DigitsValue(s[..|s| - 1]) * 10 + (s[|s| - 1] as int - '0' as int)
  }

  /** `String(n)` for a natural number: its decimal digits, no leading zero. */
  function NatToDigits(n: nat): (s: string)
    ensures IsDigits(s)
    ensures n > 0 ==> s[0] != '0'
    decreases n
  {
    if n < 10 then [('0' as int + n) as char]
    else NatToDigits(n / 10) + [('0' as int + n % 10) as char]
  }

  /** Reading back the digits of `n` gives `n`. */
  lemma {:induction false} DigitsRoundTrip(n: nat)
    ensures DigitsValue(NatToDigits(n)) == n
    decreases n
  {
    var s := NatToDigits(n);
    if n >= 10 {
      DigitsRoundTrip(n / 10);
      assert s[..|s| - 1] == NatToDigits(n / 10);
    }
  }

  /** JavaScript's `parseInt(s)` restricted to strings that neither start
      with whitespace nor with a `0x`/`0X` prefix: an optional sign followed
      by the longest run of leading digits; `None` stands for NaN (no digit
      at the start). The real function also skips leading whitespace and
      reads a `0x` prefix as hexadecimal; neither is modelled, and the
      subjects this program parses are decimal user ids. */
  function ParseInt(s: string): (r: Option<int>)
    ensures IsDigits(s) ==> r == Some(DigitsValue(s))
    ensures |s| > 0 && s[0] == '-' && IsDigits(s[1..]) ==> r == Some(-(DigitsValue(s[1..]) as int))
    ensures s == "" || !(IsDigit(s[0]) || s[0] == '-' || s[0] == '+') ==> r.None?
  {
    if |s| > 0 && (s[0] == '-' || s[0] == '+') then
      var d := LeadingDigits(s[1..]);
      if d == "" then None
      else
        var v: int := DigitsValue(d);
        if s[0] == '-' then Some(-v) else Some(v)
    else
      var d := LeadingDigits(s);
      if d == "" then None else Some(DigitsValue(d))
  }

  /** The longest prefix of `s` made of digits. */
  function LeadingDigits(s: string): (d: string)
    ensures d <= s
    ensures forall i :: 0 <= i < |d| ==> IsDigit(d[i])
    ensures |d| < |s| ==> !IsDigit(s[|d|])
    ensures (forall i :: 0 <= i < |s| ==> IsDigit(s[i])) ==> d == s
    decreases |s|
  {
    if |s| == 0 || !IsDigit(s[0]) then "" else [s[0]] + LeadingDigits(s[1..])
  }

  // ---------------------------------------------------------------------
  // substring
  // ---------------------------------------------------------------------

  function Clamp(i: int, len: nat): (r: nat)
    ensures r <= len
  {
    if i < 0 then 0 else if i > len then len else i
  }

  /** `s.substring(start, end)`: both ends are clamped into 0..|s| and
      swapped when `start > end`. */
  function Substring(s: string, start: int, end: int): (r: string)
    ensures |r| <= |s|
    ensures 0 <= start <= end <= |s| ==> r == s[start..end]
    ensures start <= 0 && 0 <= end <= |s| ==> r == s[..end]
    ensures 0 <= start <= |s| && |s| <= end ==> r == s[start..]
    ensures 0 <= end <= start <= |s| ==> r == s[end..start]
  {
    var a, b := Clamp(start, |s|), Clamp(end, |s|);
    if a <= b then s[a..b] else s[b..a]
  }

  // ---------------------------------------------------------------------
  // Text order, as SQLite's BINARY collation compares ASCII text
  // ---------------------------------------------------------------------

  /** `a` sorts no later than `b`: character by character, a proper prefix first. */
  predicate TextLe(a: string, b: string)
    decreases |a|
  {
    |a| == 0 || (|b| > 0 && (a[0] < b[0] || (a[0] == b[0] && TextLe(a[1..], b[1..]))))
  }

  lemma {:induction false} TextLeTotal(a: string, b: string)
    ensures TextLe(a, b) || TextLe(b, a)
    decreases |a|
  {
    if |a| > 0 && |b| > 0 && a[0] == b[0] {
      TextLeTotal(a[1..], b[1..]);
    }
  }

  lemma {:induction false} TextLeTrans(a: string, b: string, c: string)
    requires TextLe(a, b) && TextLe(b, c)
    ensures TextLe(a, c)
    decreases |a|
  {
    if |a| > 0 && a[0] == b[0] && b[0] == c[0] {
      TextLeTrans(a[1..], b[1..], c[1..]);
    }
  }
}
