/** The java.lang.String operations the client relies on: trim, startsWith, endsWith,
    lastIndexOf and indexOf, with Java's index conventions (-1 for "not found"). */
module JavaStrings {

  /** A string with no character above U+0020: what String.trim reduces to "". */
  predicate IsBlank(s: string) {
    forall i :: 0 <= i < |s| ==> s[i] <= ' '
  }

  predicate StartsWith(s: string, prefix: string) {
    |prefix| <= |s| && s[..|prefix|] == prefix
  }

  predicate EndsWith(s: string, suffix: string) {
    |suffix| <= |s| && s[|s| - |suffix|..] == suffix
  }

  /** The first loop of String.trim: the index of the first character above U+0020. */
  function TrimStart(s: string): (st: nat)
    ensures st <= |s|
    ensures forall i :: 0 <= i < st ==> s[i] <= ' '
    ensures st < |s| ==> s[st] > ' '
    decreases |s|
  {
    if |s| == 0 || s[0] > ' ' then 0 else 1 + TrimStart(s[1..])
  }

  /** The second loop of String.trim: moves the end left past characters up to U+0020,
      never past the start. */
  function TrimEnd(s: string, st: nat, len: nat): (end: nat)
    requires st <= len <= |s|
    ensures st <= end <= len
    ensures forall i :: end <= i < len ==> s[i] <= ' '
    ensures st < end ==> s[end - 1] > ' '
    decreases len
  {
    if st < len && s[len - 1] <= ' ' then TrimEnd(s, st, len - 1) else len
  }

  /** String.trim: drops every leading and trailing character up to U+0020. */
  function Trim(s: string): (t: string)
    ensures |t| == 0 <==> IsBlank(s)
    ensures |t| > 0 ==> t[0] > ' ' && t[|t| - 1] > ' '
    ensures |t| <= |s|
  {
    var st := TrimStart(s);
    s[st..TrimEnd(s, st, |s|)]
  }

  /** String.lastIndexOf for a one-character needle. */
  function LastIndexOf(s: string, c: char): (i: int)
    ensures -1 <= i < |s|
    ensures 0 <= i ==> s[i] == c
    ensures forall j :: i < j < |s| ==> s[j] != c
    decreases |s|
  {
    if |s| == 0 then -1
    else if s[|s| - 1] == c then |s| - 1
    else LastIndexOf(s[..|s| - 1], c)
  }

  /** `pat` occurs in `s` starting at index `j`. */
  predicate OccursAt(s: string, pat: string, j: int) {
    0 <= j && j + |pat| <= |s| && s[j..j + |pat|] == pat
  }

  /** String.indexOf(pat, from): the first occurrence at or after `from`, or -1. */
  function IndexOfFrom(s: string, pat: string, from: nat): (i: int)
    ensures i == -1 ==> forall j :: from <= j ==> !OccursAt(s, pat, j)
    ensures i != -1 ==> from <= i && OccursAt(s, pat, i)
    ensures i != -1 ==> forall j :: from <= j < i ==> !OccursAt(s, pat, j)
    decreases |s| - from
  {
    if |s| < from + |pat| then -1
    else if s[from..from + |pat|] == pat then from
    else IndexOfFrom(s, pat, from + 1)
  }

  /** String.indexOf(pat): the first occurrence, or -1. */
  function IndexOf(s: string, pat: string): (i: int)
    ensures i == -1 <==> forall j :: !OccursAt(s, pat, j)
    ensures i != -1 ==> 0 <= i && OccursAt(s, pat, i)
    ensures forall j :: 0 <= j < i ==> !OccursAt(s, pat, j)
  {
    IndexOfFrom(s, pat, 0)
  }
}
