/**
 * The two JavaScript string operations the core relies on:
 * `String.prototype.includes` and `String.prototype.replace` with a
 * string pattern, which rewrites only the first occurrence.
 */
module Text {
  import opened Wrappers

  /** `pat` occurs in `s` starting at position `i`. */
  predicate OccursAt(s: string, pat: string, i: int) {
    0 <= i && i + |pat| <= |s| && s[i..i + |pat|] == pat
  }

  /** The first position at or after `from` where `pat` occurs in `s`. */
  function IndexFrom(s: string, pat: string, from: nat): (r: Option<nat>)
    ensures r.Some? ==> from <= r.value && OccursAt(s, pat, r.value)
    ensures r.Some? ==> forall j :: from <= j < r.value ==> !OccursAt(s, pat, j)
    ensures r.None? ==> forall j :: from <= j ==> !OccursAt(s, pat, j)
    decreases |s| - from
  {
    if from + |pat| > |s| then None
    else if s[from..from + |pat|] == pat then Some(from)
    else IndexFrom(s, pat, from + 1)
  }

  /** `s.indexOf(pat)`, with `None` for -1. */
  function IndexOf(s: string, pat: string): Option<nat> {
    IndexFrom(s, pat, 0)
  }

  /** `s.includes(pat)`. */
  predicate Contains(s: string, pat: string) {
    IndexOf(s, pat).Some?
  }

  lemma ContainsIff(s: string, pat: string)
    ensures Contains(s, pat) <==> exists i :: OccursAt(s, pat, i)
  {
    var r := IndexOf(s, pat);
    if r.Some? {
      assert OccursAt(s, pat, r.value);
    }
  }

  /** Nothing but the empty string occurs in the empty string. */
  lemma NothingInEmpty(pat: string)
    requires pat != []
    ensures !Contains([], pat)
  {
  }

  /** `s.replace(pat, rep)` for a string `pat`: only the first occurrence is rewritten. */
  function ReplaceFirst(s: string, pat: string, rep: string): string {
    match IndexOf(s, pat)
    case None => s
    case Some(i) => s[..i] + rep + s[i + |pat|..]
  }

  /**
   * When `pat` occurs, the result is `s` with its first occurrence cut out
   * and `rep` put in its place: the text before it holds no occurrence and
   * the text after it is untouched.
   */
  lemma ReplaceFirstShape(s: string, pat: string, rep: string)
    ensures !Contains(s, pat) ==> ReplaceFirst(s, pat, rep) == s
    ensures Contains(s, pat) ==>
      exists i :: OccursAt(s, pat, i)
        && (forall j :: 0 <= j < i ==> !OccursAt(s, pat, j))
        && ReplaceFirst(s, pat, rep) == s[..i] + rep + s[i + |pat|..]
  {
    var r := IndexOf(s, pat);
    if r.Some? {
      var i := r.value;
      assert OccursAt(s, pat, i);
    }
  }

  /** Number of occurrences of the character `c` in `s`. */
  function CountChar(s: string, c: char): nat {
    multiset(s)[c]
  }

  /**
   * Replacing the first occurrence of a `c`-free pattern with a text holding
   * `n` copies of `c` adds exactly `n` copies of `c`.
   */
  lemma {:induction false} ReplaceFirstCountChar(s: string, pat: string, rep: string, c: char)
    requires CountChar(pat, c) == 0
    requires Contains(s, pat)
    ensures CountChar(ReplaceFirst(s, pat, rep), c) == CountChar(s, c) + CountChar(rep, c)
  {
    var i := IndexOf(s, pat).value;
    assert s == s[..i] + s[i..i + |pat|] + s[i + |pat|..];
    assert s[i..i + |pat|] == pat;
    calc {
      multiset(s)[c];
      (multiset(s[..i]) + multiset(pat) + multiset(s[i + |pat|..]))[c];
      multiset(s[..i])[c] + multiset(s[i + |pat|..])[c];
    }
  }
}
