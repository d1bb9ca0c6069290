/** Colour-key normalisation: `normalize` in script.js trims a name and lower-cases it. */
module Names {
  import opened Coerce

  /** The characters JavaScript's `String.prototype.trim` removes: the
      WhiteSpace and LineTerminator code points of ECMAScript. */
  const Spaces: set<char> := {
    '\t', '\n', '\U{000B}', '\U{000C}', '\r', ' ', '\U{00A0}', '\U{1680}',
    '\U{2000}', '\U{2001}', '\U{2002}', '\U{2003}', '\U{2004}', '\U{2005}',
    '\U{2006}', '\U{2007}', '\U{2008}', '\U{2009}', '\U{200A}',
    '\U{2028}', '\U{2029}', '\U{202F}', '\U{205F}', '\U{3000}', '\U{FEFF}'
  }

  predicate IsSpace(c: char) {
    c in Spaces
  }

  predicate AllSpace(s: string) {
    forall i :: 0 <= i < |s| ==> IsSpace(s[i])
  }

  /** Neither end of `s` is white space. */
  predicate Trimmed(s: string) {
    s == [] || (!IsSpace(s[0]) && !IsSpace(s[|s| - 1]))
  }

  predicate IsUpper(c: char) {
    'A' <= c <= 'Z'
  }

  /** The first index at or after `i` that is not white space (`|s|` if none). */
  function SkipSpaces(s: string, i: nat): (r: nat)
    requires i <= |s|
    ensures i <= r <= |s|
    ensures forall k :: i <= k < r ==> IsSpace(s[k])
    ensures r < |s| ==> !IsSpace(s[r])
    decreases |s| - i
  {
    if i == |s| || !IsSpace(s[i]) then i else SkipSpaces(s, i + 1)
  }

  /** The end of `s[lo..j]` once white space at its end is dropped. */
  function BackSpaces(s: string, lo: nat, j: nat): (r: nat)
    requires lo <= j <= |s|
    ensures lo <= r <= j
    ensures forall k :: r <= k < j ==> IsSpace(s[k])
    ensures lo < r ==> !IsSpace(s[r - 1])
  {
    if j == lo || !IsSpace(s[j - 1]) then j else BackSpaces(s, lo, j - 1)
  }

  /** How many white-space characters `s.trim()` removes at the front. */
  function Lead(s: string): (n: nat)
    ensures n <= |s|
  {
    SkipSpaces(s, 0)
  }

  /** `s.trim()`: the infix of `s` left after removing white space at both ends. */
  function Trim(s: string): (r: string)
    ensures Trimmed(r)
    ensures r == [] <==> AllSpace(s)
    ensures Lead(s) + |r| <= |s| && r == s[Lead(s)..Lead(s) + |r|]
    ensures forall k :: 0 <= k < Lead(s) ==> IsSpace(s[k])
    ensures forall k :: Lead(s) + |r| <= k < |s| ==> IsSpace(s[k])
  {
    var lo := Lead(s);
    var hi := BackSpaces(s, lo, |s|);
    assert lo < |s| ==> lo < hi;
    s[lo..hi]
  }

  /** `s.toLowerCase()`, restricted to the ASCII letters. */
  function LowerChar(c: char): (r: char)
    ensures !IsUpper(r)
    ensures IsSpace(r) == IsSpace(c)
    ensures !IsUpper(c) ==> r == c
    ensures IsUpper(c) ==> 'a' <= r <= 'z' && r as int - 'a' as int == c as int - 'A' as int
  {
    if IsUpper(c) then (c as int + 32) as char else c
  }

  /** `s.toLowerCase()`: one character out for each character in. */
  function Lower(s: string): (r: string)
    ensures |r| == |s|
  {
    seq(|s|, i requires 0 <= i < |s| => LowerChar(s[i]))
  }

  /** What `toLowerCase` does to each character: no upper-case letter is left,
      an upper-case letter becomes the lower-case letter at the same place in
      the alphabet, and every other character is kept. */
  lemma LowerMeaning(s: string)
    ensures forall i :: 0 <= i < |s| ==> !IsUpper(Lower(s)[i])
    ensures forall i :: 0 <= i < |s| && !IsUpper(s[i]) ==> Lower(s)[i] == s[i]
    ensures forall i :: 0 <= i < |s| && IsUpper(s[i]) ==>
              Lower(s)[i] as int - 'a' as int == s[i] as int - 'A' as int
  {
  }

  /** `normalize(name)`: `(name || '').trim().toLowerCase()`. The key is blank
      exactly when the name is missing or all white space; it has no white space
      at either end and no upper-case letter. */
  function Normalize(name: Option<string>): (key: string)
    ensures name.None? ==> key == ""
    ensures name.Some? ==> (key == "" <==> AllSpace(name.value))
    ensures name.Some? ==> |key| <= |name.value|
    ensures Trimmed(key)
    ensures forall i :: 0 <= i < |key| ==> !IsUpper(key[i])
  {
    match name
    case None => ""
    case Some(s) => Lower(Trim(s))
  }

  /** The key of a name is the name's characters from its first to its last
      non-white-space one, each lower-cased. */
  lemma NormalizeIsLoweredTrim(s: string)
    ensures var key := Normalize(Some(s));
            && Lead(s) + |key| <= |s|
            && (forall k :: 0 <= k < Lead(s) ==> IsSpace(s[k]))
            && (forall k :: Lead(s) + |key| <= k < |s| ==> IsSpace(s[k]))
            && (forall i :: 0 <= i < |key| ==> key[i] == LowerChar(s[Lead(s) + i]))
  {
    var r := Trim(s);
    assert forall i :: 0 <= i < |r| ==> r[i] == s[Lead(s) + i];
  }

  /** A string already trimmed is its own trim. */
  lemma TrimOfTrimmed(s: string)
    requires Trimmed(s)
    ensures Trim(s) == s
  {
  }

  /** Lower-casing twice is lower-casing once. */
  lemma LowerTwice(s: string)
    ensures Lower(Lower(s)) == Lower(s)
  {
  }

  /** Normalising a key again changes nothing. */
  lemma NormalizeIdempotent(name: Option<string>)
    ensures Normalize(Some(Normalize(name))) == Normalize(name)
  {
    var key := Normalize(name);
    TrimOfTrimmed(key);
    if name.Some? {
      LowerTwice(Trim(name.value));
    }
  }

  /** Trimming a name before normalising it changes nothing: the option values
      built from trimmed names are the keys built from the raw names. */
  lemma NormalizeTrim(s: string)
    ensures Normalize(Some(Trim(s))) == Normalize(Some(s))
  {
    TrimOfTrimmed(Trim(s));
  }
}
