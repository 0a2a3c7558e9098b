/**
 * The pieces of Python's `str` behaviour the plugin relies on: `sep.join(xs)`,
 * `s.partition(sep)` and `s.lower()`, written over `string` (a `seq<char>`).
 */
module Text {
  import opened Wrappers

  /** Python's `sep.join(xs)`. */
  function Join(sep: string, xs: seq<string>): string
  {
    if |xs| == 0 then ""
    else if |xs| == 1 then xs[0]
    else xs[0] + sep + Join(sep, xs[1..])
  }

  /** Joining with a non-empty separator yields the empty string only when there
      is nothing to join, or a single empty item. */
  lemma {:induction false} JoinEmptyIff(sep: string, xs: seq<string>)
    requires sep != ""
    ensures Join(sep, xs) == "" <==> |xs| == 0 || (|xs| == 1 && xs[0] == "")
  {
    if |xs| >= 2 {
      assert |Join(sep, xs)| >= |sep|;
    }
  }

  /** `sep` occurs in `s` starting at index `j`. */
  predicate OccursAt(s: string, sep: string, j: int)
  {
    0 <= j && j + |sep| <= |s| && s[j..j + |sep|] == sep
  }

  /** The first index at or after `i` where `sep` occurs in `s`, as `str.find` does. */
  function FindFrom(s: string, sep: string, i: nat): (r: Option<nat>)
    requires sep != "" && i <= |s|
    ensures r.Some? ==> i <= r.value && OccursAt(s, sep, r.value)
    ensures r.Some? ==> forall j :: i <= j < r.value ==> !OccursAt(s, sep, j)
    ensures r.None? ==> forall j :: i <= j ==> !OccursAt(s, sep, j)
    decreases |s| - i
  {
    if i + |sep| > |s| then None
    else if s[i..i + |sep|] == sep then Some(i)
    else FindFrom(s, sep, i + 1)
  }

  /**
   * Python's `s.partition(sep)`: the text before the first occurrence of `sep`,
   * `sep` itself and the text after it; or `(s, "", "")` when `sep` does not
   * occur. Python raises `ValueError` for an empty separator.
   */
  function Partition(s: string, sep: string): (r: (string, string, string))
    requires sep != ""
    ensures r.0 + r.1 + r.2 == s
    ensures r.1 == sep || r.1 == ""
    ensures r.1 == sep <==> exists j :: OccursAt(s, sep, j)
    ensures r.1 == sep ==> OccursAt(s, sep, |r.0|)
    ensures forall j :: 0 <= j < |r.0| ==> !OccursAt(s, sep, j)
    ensures r.1 == "" ==> r == (s, "", "")
  {
    match FindFrom(s, sep, 0)
    case None => (s, "", "")
    case Some(k) =>
      assert s == s[..k] + sep + s[k + |sep|..] by {
        assert s[k..k + |sep|] == sep;
        assert s == s[..k] + s[k..k + |sep|] + s[k + |sep|..];
      }
      (s[..k], sep, s[k + |sep|..])
  }

  /** A character is contained in `s` exactly when the one-character string of it occurs there. */
  lemma OccursAtSingle(s: string, c: char)
    ensures (exists j :: OccursAt(s, [c], j)) <==> c in s
  {
    if c in s {
      var j :| 0 <= j < |s| && s[j] == c;
      assert s[j..j + 1] == [c];
      assert OccursAt(s, [c], j);
    } else {
      forall j | 0 <= j < |s|
        ensures !OccursAt(s, [c], j)
      {
        assert s[j..j + 1] == [s[j]];
      }
    }
  }

  predicate IsAsciiUpper(c: char)
  {
    'A' <= c <= 'Z'
  }

  /** ASCII lower-casing of one character. */
  function LowerChar(c: char): (r: char)
    ensures !IsAsciiUpper(r)
    ensures IsAsciiUpper(c) ==> r == "abcdefghijklmnopqrstuvwxyz"[c as int - 'A' as int]
    ensures !IsAsciiUpper(c) ==> r == c
  {
    if IsAsciiUpper(c) then (c as int + 32) as char else c
  }

  /** Python's `s.lower()`, restricted to ASCII letters. */
  function Lower(s: string): (r: string)
    ensures |r| == |s|
    ensures forall i :: 0 <= i < |s| ==> r[i] == LowerChar(s[i])
    ensures forall i :: 0 <= i < |r| ==> !IsAsciiUpper(r[i])
    ensures (forall i :: 0 <= i < |s| ==> !IsAsciiUpper(s[i])) ==> r == s
  {
    if s == "" then "" else [LowerChar(s[0])] + Lower(s[1..])
  }
}
