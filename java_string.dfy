/**
 * The few `java.lang.String` operations the plugins use, over `seq<char>`.
 * Case folding is ASCII-only: the strings compared are fixed English game
 * messages and item names.
 */
module JavaString {
  import opened Wrappers

  function LowerChar(c: char): (r: char)
    ensures 'A' <= c <= 'Z' ==> r as int == c as int + 32
    ensures !('A' <= c <= 'Z') ==> r == c
  {
    if 'A' <= c <= 'Z' then (c as int + 32) as char else c
  }

  /** `s.toLowerCase()` on ASCII letters. */
  function ToLower(s: string): (r: string)
    ensures |r| == |s|
    ensures forall i :: 0 <= i < |s| ==> r[i] == LowerChar(s[i])
  {
    if s == [] then [] else [LowerChar(s[0])] + ToLower(s[1..])
  }

  /** `a.equalsIgnoreCase(b)` on ASCII letters. */
  predicate EqualsIgnoreCase(a: string, b: string)
  {
    |a| == |b| && forall i :: 0 <= i < |a| ==> LowerChar(a[i]) == LowerChar(b[i])
  }

  predicate StartsWith(s: string, prefix: string)
  {
    |prefix| <= |s| && s[..|prefix|] == prefix
  }

  /** `s.endsWith(suffix)`. */
  predicate EndsWith(s: string, suffix: string)
  {
    |suffix| <= |s| && s[|s| - |suffix|..] == suffix
  }

  /** The first index at or after `from` where `t` occurs in `s`. */
  function IndexOfFrom(s: string, t: string, from: nat): (r: Option<nat>)
    requires from <= |s|
    ensures r.Some? ==> from <= r.value <= |s| - |t| && StartsWith(s[r.value..], t)
    ensures r.Some? ==> forall j :: from <= j < r.value ==> !StartsWith(s[j..], t)
    ensures r.None? ==> forall j :: from <= j <= |s| ==> !StartsWith(s[j..], t)
    decreases |s| - from
  {
    if StartsWith(s[from..], t) then Some(from)
    else if from == |s| then None
    else IndexOfFrom(s, t, from + 1)
  }

  /** `s.indexOf(t)`, or None for -1. */
  function IndexOf(s: string, t: string): (r: Option<nat>)
    ensures r.Some? ==> r.value <= |s| - |t| && StartsWith(s[r.value..], t)
    ensures r.Some? ==> forall j :: 0 <= j < r.value ==> !StartsWith(s[j..], t)
    ensures r.None? ==> forall j :: 0 <= j <= |s| ==> !StartsWith(s[j..], t)
  {
    IndexOfFrom(s, t, 0)
  }

  /** `s.contains(t)`. */
  predicate Contains(s: string, t: string)
  {
    IndexOf(s, t).Some?
  }

  lemma ContainsAt(s: string, t: string, i: nat)
    requires i + |t| <= |s| && s[i..i + |t|] == t
    ensures Contains(s, t)
  {
    assert StartsWith(s[i..], t);
  }

  /** `r` is `sep` repeated zero or more times, back to back. */
  predicate OnlySeparators(r: string, sep: string)
    requires sep != []
    decreases |r|
  {
    r == [] || (StartsWith(r, sep) && OnlySeparators(r[|sep|..], sep))
  }

  /**
   * `s.split(sep)[1]` for a separator with no regular-expression
   * metacharacters: None when the array has no element 1, which Java
   * reports with ArrayIndexOutOfBoundsException.  Element 1 is the text
   * between the first and the second occurrence of `sep`; trailing empty
   * elements are dropped, so it exists only if something other than
   * further separators follows the first occurrence.
   */
  function SplitSecond(s: string, sep: string): (r: Option<string>)
    requires sep != []
    ensures r.Some? ==> Contains(s, sep) && !Contains(r.value, sep)
  {
    match IndexOf(s, sep)
    case None => None
    case Some(i) =>
      var rest := s[i + |sep|..];
      if OnlySeparators(rest, sep) then None
      else
        match IndexOf(rest, sep)
        case None => Some(rest)
        case Some(j) =>
          PrefixBeforeFirst(rest, sep, j);
          Some(rest[..j])
  }

  /** Text that stops before the first occurrence of `t` does not contain `t`. */
  lemma PrefixBeforeFirst(s: string, t: string, j: nat)
    requires j <= |s| && t != []
    requires forall k :: 0 <= k < j ==> !StartsWith(s[k..], t)
    ensures !Contains(s[..j], t)
  {
    var p := s[..j];
    forall k | 0 <= k <= |p|
      ensures !StartsWith(p[k..], t)
    {
      if k + |t| <= |p| {
        assert p[k..][..|t|] == s[k..][..|t|];
      }
    }
  }

  /** A message made of the separator and a name free of it splits back to the name. */
  lemma SplitSecondOfPrefixed(sep: string, name: string)
    requires sep != [] && name != [] && !Contains(name, sep)
    requires !Contains(sep[1..], sep)
    ensures SplitSecond(sep + name, sep) == Some(name)
  {
    var s := sep + name;
    assert StartsWith(s[0..], sep);
    assert s[|sep|..] == name;
    assert !OnlySeparators(name, sep);
  }
}
