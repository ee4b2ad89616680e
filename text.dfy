/** The string primitives the core applies to status values:
    String.prototype.toLowerCase and String.prototype.replace with a
    one-character string pattern. */
module Text {

  predicate IsUpper(c: char)
  {
    'A' <= c <= 'Z'
  }

  /** Lower-cases an ASCII letter; every other character is left alone. */
  function LowerChar(c: char): (d: char)
    ensures !IsUpper(d)
    ensures d == ' ' <==> c == ' '
  {
    if IsUpper(c) then (c as int + 32) as char else c
  }

  /** String.prototype.toLowerCase, character by character. */
  function ToLower(s: string): (r: string)
    ensures |r| == |s|
  {
    if s == [] then [] else [LowerChar(s[0])] + ToLower(s[1..])
  }

  lemma {:induction false} ToLowerAt(s: string)
    ensures |ToLower(s)| == |s|
    ensures forall i :: 0 <= i < |s| ==> ToLower(s)[i] == LowerChar(s[i])
  {
    if s != [] {
      ToLowerAt(s[1..]);
    }
  }

  /** s equals the lower-case word `lower` when case is ignored. */
  predicate EqualsIgnoringCase(s: string, lower: string)
  {
    |s| == |lower| && forall i :: 0 <= i < |s| ==> LowerChar(s[i]) == lower[i]
  }

  lemma ToLowerMatches(s: string, lower: string)
    ensures ToLower(s) == lower <==> EqualsIgnoringCase(s, lower)
  {
    ToLowerAt(s);
    if EqualsIgnoringCase(s, lower) {
      assert forall i :: 0 <= i < |s| ==> ToLower(s)[i] == lower[i];
    }
  }

  /** How many times c occurs in s. */
  function Occurrences(s: string, c: char): nat
  {
    if s == [] then 0 else (if s[0] == c then 1 else 0) + Occurrences(s[1..], c)
  }

  lemma {:induction false} ToLowerAppend(a: string, b: string)
    ensures ToLower(a + b) == ToLower(a) + ToLower(b)
  {
    if a == [] {
      assert a + b == b;
    } else {
      assert (a + b)[0] == a[0];
      assert (a + b)[1..] == a[1..] + b;
      ToLowerAppend(a[1..], b);
    }
  }

  lemma ToLowerNoSpace(s: string)
    requires ' ' !in s
    ensures ' ' !in ToLower(s)
  {
    ToLowerAt(s);
    forall i | 0 <= i < |s| ensures ToLower(s)[i] != ' ' {
      assert ToLower(s)[i] == LowerChar(s[i]);
    }
  }

  /** Lower-casing keeps every space where it was. */
  lemma {:induction false} ToLowerKeepsSpaces(s: string)
    ensures Occurrences(ToLower(s), ' ') == Occurrences(s, ' ')
  {
    if s != [] {
      ToLowerKeepsSpaces(s[1..]);
      assert ToLower(s)[1..] == ToLower(s[1..]);
    }
  }

  /** The position of the first c in s, or |s| when there is none. */
  function FirstIndex(s: string, c: char): (k: nat)
    ensures k <= |s|
    ensures k < |s| ==> s[k] == c
    ensures forall j :: 0 <= j < k ==> s[j] != c
  {
    if s == [] then 0 else if s[0] == c then 0 else 1 + FirstIndex(s[1..], c)
  }

  /** Lower-casing keeps the first space where it was. */
  lemma {:induction false} FirstIndexOfLowered(s: string)
    ensures FirstIndex(ToLower(s), ' ') == FirstIndex(s, ' ')
  {
    if s != [] {
      FirstIndexOfLowered(s[1..]);
      assert ToLower(s)[1..] == ToLower(s[1..]);
    }
  }

  /** String.prototype.replace(pattern, replacement) for one-character
      string patterns: only the FIRST occurrence is replaced. */
  function ReplaceFirst(s: string, pattern: char, replacement: char): (r: string)
    ensures |r| == |s|
    ensures pattern !in s ==> r == s
  {
    if s == [] then []
    else if s[0] == pattern then [replacement] + s[1..]
    else [s[0]] + ReplaceFirst(s[1..], pattern, replacement)
  }

  /** Position by position: the replacement at the first occurrence, the original elsewhere. */
  lemma {:induction false} ReplaceFirstAt(s: string, pattern: char, replacement: char)
    ensures |ReplaceFirst(s, pattern, replacement)| == |s|
    ensures forall i :: 0 <= i < |s| ==>
              ReplaceFirst(s, pattern, replacement)[i] == if i == FirstIndex(s, pattern) then replacement else s[i]
  {
    if s != [] && s[0] != pattern {
      ReplaceFirstAt(s[1..], pattern, replacement);
    }
  }

  /** A prefix without the pattern is left alone. */
  lemma {:induction false} ReplaceFirstSkips(a: string, b: string, pattern: char, replacement: char)
    requires pattern !in a
    ensures ReplaceFirst(a + b, pattern, replacement) == a + ReplaceFirst(b, pattern, replacement)
  {
    if a == [] {
      assert a + b == b;
    } else {
      assert (a + b)[0] == a[0];
      assert (a + b)[1..] == a[1..] + b;
      ReplaceFirstSkips(a[1..], b, pattern, replacement);
    }
  }

  /** Replacing the first occurrence removes exactly one occurrence, if any. */
  lemma {:induction false} ReplaceFirstOccurrences(s: string, pattern: char, replacement: char)
    requires pattern != replacement
    ensures Occurrences(ReplaceFirst(s, pattern, replacement), pattern) ==
            if Occurrences(s, pattern) == 0 then 0 else Occurrences(s, pattern) - 1
    decreases |s|
  {
    if s != [] {
      var r := ReplaceFirst(s, pattern, replacement);
      if s[0] == pattern {
        assert r[1..] == s[1..];
      } else {
        assert r[1..] == ReplaceFirst(s[1..], pattern, replacement);
        ReplaceFirstOccurrences(s[1..], pattern, replacement);
      }
    }
  }
}
