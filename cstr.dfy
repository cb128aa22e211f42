/** C-string views of a character buffer: where `strchrnul` stops, what
    `strcmp` and `printf("%s")` see, and the first line of a buffer. */
module CStr {

  const NUL: char := '\0'

  /** The index `strchrnul(s, c)` points at: the first `c` or NUL of `s`,
      or `|s|` when `s` holds neither. */
  function ChrNul(s: string, c: char): (k: nat)
    ensures k <= |s|
    ensures k < |s| ==> s[k] == c || s[k] == NUL
    ensures forall j :: 0 <= j < k ==> s[j] != c && s[j] != NUL
  {
    if |s| == 0 || s[0] == c || s[0] == NUL then 0 else 1 + ChrNul(s[1..], c)
  }

  /** The three properties of ChrNul determine it. */
  lemma ChrNulUnique(s: string, c: char, k: nat)
    requires k <= |s|
    requires k < |s| ==> s[k] == c || s[k] == NUL
    requires forall j :: 0 <= j < k ==> s[j] != c && s[j] != NUL
    ensures ChrNul(s, c) == k
  {
  }

  /** The string a C routine sees in `s`: everything before the first NUL. */
  function CStringOf(s: string): (r: string)
    ensures r <= s && NUL !in r
    ensures |r| < |s| ==> s[|r|] == NUL
  {
    s[..ChrNul(s, NUL)]
  }

  /** The part of `s` before its first newline or NUL. */
  function Line(s: string): (r: string)
    ensures r <= s && '\n' !in r && NUL !in r
    ensures |r| < |s| ==> s[|r|] == '\n' || s[|r|] == NUL
  {
    s[..ChrNul(s, '\n')]
  }
}
