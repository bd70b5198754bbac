/** String helpers the source gets from JavaScript: `startsWith`-style
    regular expressions, unanchored substring search, ASCII lower-casing and
    `split(sep)[0]` / `split(sep)[1]`. */
module Text {

  import opened Common

  /** `pat` occurs in `s` starting at position `i`. */
  predicate OccursAt(pat: string, s: string, i: int) {
    0 <= i && i + |pat| <= |s| && s[i..i + |pat|] == pat
  }

  /** An unanchored regular expression made of the literal `pat`: it matches
      when `pat` occurs anywhere in `s`. */
  function Contains(s: string, pat: string): (r: bool)
    ensures r <==> exists i :: OccursAt(pat, s, i)
    decreases |s|
  {
    if pat <= s then
      assert OccursAt(pat, s, 0);
      true
    else if |s| == 0 then
      assert forall i :: !OccursAt(pat, s, i);
      false
    else
      var rest := Contains(s[1..], pat);
      if rest then
        var i :| OccursAt(pat, s[1..], i);
        assert s[1..][i..i + |pat|] == s[i + 1..i + 1 + |pat|];
        assert OccursAt(pat, s, i + 1);
        true
      else
        assert forall i :: OccursAt(pat, s, i) ==> i > 0 && OccursAt(pat, s[1..], i - 1) by {
          forall i | OccursAt(pat, s, i) ensures i > 0 && OccursAt(pat, s[1..], i - 1) {
            assert s[1..][i - 1..i - 1 + |pat|] == s[i..i + |pat|];
          }
        }
        false
  }

  /** A literal that starts a string also occurs in it. */
  lemma PrefixOccurs(pat: string, s: string)
    requires pat <= s
    ensures Contains(s, pat)
  {
    assert OccursAt(pat, s, 0);
  }

  function LowerChar(c: char): (r: char)
    ensures 'A' <= c <= 'Z' ==> 'a' <= r <= 'z'
    ensures !('A' <= c <= 'Z') ==> r == c
  {
    if 'A' <= c <= 'Z' then (c as int - 'A' as int + 'a' as int) as char else c
  }

  /** Lower-casing, letter by letter; only the ASCII letters change. */
  function Lower(s: string): (r: string)
    ensures |r| == |s|
    ensures forall i :: 0 <= i < |s| ==> r[i] == LowerChar(s[i])
  {
    if s == [] then [] else [LowerChar(s[0])] + Lower(s[1..])
  }

  /** `s.split(sep)[0]`: everything before the first `sep`, or all of `s`. */
  function BeforeFirst(s: string, sep: char): (r: string)
    ensures r <= s
    ensures sep !in r
    ensures |r| < |s| ==> s[|r|] == sep
  {
    if s == [] || s[0] == sep then [] else [s[0]] + BeforeFirst(s[1..], sep)
  }

  /** What follows the first `sep`, if there is one. */
  function AfterFirst(s: string, sep: char): (r: Option<string>)
    ensures r.None? <==> sep !in s
    ensures r.Some? ==> s == BeforeFirst(s, sep) + [sep] + r.value
  {
    if s == [] then None
    else if s[0] == sep then Some(s[1..])
    else match AfterFirst(s[1..], sep)
      case None => None
      case Some(t) => Some(t)
  }

  /** Splitting at the first `sep` takes apart a text built as
      `head + [sep] + tail` when `head` has no `sep`. */
  lemma {:induction false} SplitAtFirst(head: string, sep: char, tail: string)
    requires sep !in head
    ensures BeforeFirst(head + [sep] + tail, sep) == head
    ensures AfterFirst(head + [sep] + tail, sep) == Some(tail)
  {
    if head != [] {
      assert (head + [sep] + tail)[1..] == head[1..] + [sep] + tail;
      SplitAtFirst(head[1..], sep, tail);
    }
  }

  /** Without `sep`, `split(sep)[0]` is the whole text. */
  lemma {:induction false} BeforeAbsent(s: string, sep: char)
    requires sep !in s
    ensures BeforeFirst(s, sep) == s
  {
    if s != [] {
      BeforeAbsent(s[1..], sep);
    }
  }
}
