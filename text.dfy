/**
 The string operations the backend uses: `str.lower`, `str.capitalize`, the
 substring test `kw in s`, `s.rsplit(".", 1)[0]`, `sep.join(parts)` and `str`
 of an integer. Case mapping covers the ASCII letters only.
 */
module Text {

  predicate IsUpper(c: char) { 'A' <= c <= 'Z' }

  predicate IsLower(c: char) { 'a' <= c <= 'z' }

  function LowerChar(c: char): char
  {
    if IsUpper(c) then (c as int + 32) as char else c
  }

  function UpperChar(c: char): char
  {
    if IsLower(c) then (c as int - 32) as char else c
  }

  /** `s.lower()`. */
  function Lower(s: string): (r: string)
    ensures |r| == |s|
    ensures forall i :: 0 <= i < |s| ==> r[i] == LowerChar(s[i])
  {
    seq(|s|, i requires 0 <= i < |s| => LowerChar(s[i]))
  }

  predicate IsLowerCase(s: string)
  {
    forall i :: 0 <= i < |s| ==> !IsUpper(s[i])
  }

  /** Lower-casing leaves no upper-case letter, and a lower-case string is its own lower-casing. */
  lemma LowerIsLowerCase(s: string)
    ensures IsLowerCase(Lower(s))
    ensures IsLowerCase(s) ==> Lower(s) == s
  {
  }

  /** `s.capitalize()`: the first character upper-cased, the rest lower-cased. */
  function Capitalize(s: string): (r: string)
    ensures |r| == |s|
    ensures s != [] ==> r[0] == UpperChar(s[0]) && r[1..] == Lower(s[1..])
  {
    if s == [] then [] else [UpperChar(s[0])] + Lower(s[1..])
  }

  /** `kw` occurs in `s` starting at position `i`. */
  predicate OccursAt(s: string, kw: string, i: int)
  {
    0 <= i && i + |kw| <= |s| && s[i..i + |kw|] == kw
  }

  lemma OccursAtTail(s: string, kw: string, i: int)
    requires |kw| <= |s| && s[..|kw|] != kw
    ensures OccursAt(s, kw, i) <==> i >= 1 && OccursAt(s[1..], kw, i - 1)
  {
    if i >= 1 && i + |kw| <= |s| {
      var t := s[1..];
      var here, there := s[i..i + |kw|], t[i - 1..i - 1 + |kw|];
      forall j | 0 <= j < |kw| ensures here[j] == there[j] {
        assert here[j] == s[i + j] && there[j] == t[i - 1 + j];
      }
      assert here == there;
    }
  }

  /** `kw in s` on strings: true exactly when `kw` occurs somewhere in `s`. */
  function Contains(s: string, kw: string): (b: bool)
    ensures b <==> exists i :: OccursAt(s, kw, i)
    decreases |s|
  {
    if |kw| > |s| then false
    else if s[..|kw|] == kw then assert OccursAt(s, kw, 0); true
    else
      var b := Contains(s[1..], kw);
      assert forall i :: OccursAt(s, kw, i) <==> i >= 1 && OccursAt(s[1..], kw, i - 1) by {
        forall i ensures OccursAt(s, kw, i) <==> i >= 1 && OccursAt(s[1..], kw, i - 1) {
          OccursAtTail(s, kw, i);
        }
      }
      assert b ==> exists i :: OccursAt(s, kw, i) by {
        if b {
          var j :| OccursAt(s[1..], kw, j);
          assert OccursAt(s, kw, j + 1);
        }
      }
      b
  }

  /** `s.rsplit(".", 1)[0]`: everything before the last dot, or `s` itself when it has none. */
  function StripExtension(s: string): (r: string)
    ensures '.' !in s ==> r == s
    ensures '.' in s ==> |r| < |s| && r == s[..|r|] && s[|r|] == '.' && '.' !in s[|r| + 1..]
    decreases |s|
  {
    if '.' !in s then s
    else if s[|s| - 1] == '.' then s[..|s| - 1]
    else
      var t := s[..|s| - 1];
      assert '.' in t by {
        var i :| 0 <= i < |s| && s[i] == '.';
        assert t[i] == '.';
      }
      var r := StripExtension(t);
      assert s[|r| + 1..] == t[|r| + 1..] + [s[|s| - 1]];
      r
  }

  /** The number of characters in a list of strings. */
  function TotalLength(parts: seq<string>): nat
  {
    if parts == [] then 0 else |parts[0]| + TotalLength(parts[1..])
  }

  /**
   `sep.join(parts)`: the parts' characters plus one separator between each pair of neighbours,
   opening with the first part and closing with the last.
   */
  function Join(sep: string, parts: seq<string>): (r: string)
    ensures parts == [] ==> r == []
    ensures parts != [] ==> |r| == TotalLength(parts) + (|parts| - 1) * |sep|
    ensures parts != [] ==> |parts[0]| <= |r| && r[..|parts[0]|] == parts[0]
    ensures parts != [] ==> |parts[|parts| - 1]| <= |r| && r[|r| - |parts[|parts| - 1]|..] == parts[|parts| - 1]
  {
    if parts == [] then []
    else if |parts| == 1 then parts[0]
    else parts[0] + sep + Join(sep, parts[1..])
  }

  /** Joining puts exactly one separator between neighbours. */
  lemma {:induction false} JoinAppend(sep: string, parts: seq<string>, p: string)
    requires parts != []
    ensures Join(sep, parts + [p]) == Join(sep, parts) + sep + p
  {
    if |parts| == 1 {
      assert parts + [p] == [parts[0], p];
    } else {
      assert (parts + [p])[1..] == parts[1..] + [p];
      JoinAppend(sep, parts[1..], p);
    }
  }

  function DigitChar(d: int): (c: char)
    requires 0 <= d < 10
    ensures c as int - '0' as int == d
  {
    (d + '0' as int) as char
  }

  /** The number a string of decimal digits denotes, most significant digit first. */
  function DigitsValue(s: string): int
  {
    if s == [] then 0 else DigitsValue(s[..|s| - 1]) * 10 + (s[|s| - 1] as int - '0' as int)
  }

  /** `str(n)` for a natural number: its decimal digits, without leading zeros. */
  function NatToString(n: nat): (r: string)
    ensures |r| >= 1
    ensures forall i :: 0 <= i < |r| ==> '0' <= r[i] <= '9'
    ensures DigitsValue(r) == n
    ensures |r| > 1 ==> r[0] != '0'
    ensures n < 10 <==> |r| == 1
    decreases n
  {
    if n < 10 then
      assert [DigitChar(n)][..0] == [];
      [DigitChar(n)]
    else
      var prefix := NatToString(n / 10);
      var r := prefix + [DigitChar(n % 10)];
      assert r[..|r| - 1] == prefix;
      r
  }

  /** `str(n)` for an integer: a minus sign before the digits of a negative number. */
  function IntToString(n: int): (r: string)
    ensures n >= 0 ==> |r| >= 1 && (forall i :: 0 <= i < |r| ==> '0' <= r[i] <= '9') && DigitsValue(r) == n
    ensures n < 0 ==> |r| >= 2 && r[0] == '-' && (forall i :: 1 <= i < |r| ==> '0' <= r[i] <= '9')
    ensures n < 0 ==> DigitsValue(r[1..]) == -n
    ensures |r| > 1 && r[0] != '-' ==> r[0] != '0'
    ensures n < 0 && |r| > 2 ==> r[1] != '0'
  {
    if n < 0 then
      var digits := NatToString(-n);
      assert ("-" + digits)[1..] == digits;
      "-" + digits
    else NatToString(n)
  }
}
