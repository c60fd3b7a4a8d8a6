/** The two string operations the data layer uses: `String.replace` with a
    string pattern (which rewrites only the first occurrence) and the first
    word of a name, `name.split(' ')[0]`. */
module Text {
  import opened Records

  /** `pat` occurs in `s` starting at position `i`. */
  predicate OccursAt(s: string, pat: string, i: nat) {
    i + |pat| <= |s| && s[i..i + |pat|] == pat
  }

  /** The position of the first occurrence of `pat` in `s`, or `None`. */
  function IndexOf(s: string, pat: string): (r: Option<nat>)
    ensures r.Some? ==> OccursAt(s, pat, r.value)
    ensures r.Some? ==> forall j: nat :: j < r.value ==> !OccursAt(s, pat, j)
    ensures r.None? ==> forall j: nat :: !OccursAt(s, pat, j)
    decreases |s|
  {
    if |pat| <= |s| && s[..|pat|] == pat then Some(0)
    else if s == [] then None
    else
      assert !OccursAt(s, pat, 0) by {
        if |pat| <= |s| { assert s[0..|pat|] == s[..|pat|]; }
      }
      OccursAtTail(s, pat);
      assert forall j: nat :: 0 < j ==> (OccursAt(s, pat, j) <==> OccursAt(s[1..], pat, j - 1));
      match IndexOf(s[1..], pat)
      case None => None
      case Some(i) => Some(i + 1)
  }

  /** An occurrence in the tail of `s` is an occurrence in `s`, one position on. */
  lemma OccursAtTail(s: string, pat: string)
    requires s != []
    ensures forall j: nat :: OccursAt(s[1..], pat, j) <==> OccursAt(s, pat, j + 1)
  {
  }

  /** `s.replace(pat, rep)` with a string pattern: the first occurrence of
      `pat`, if any, becomes `rep`. `rep` is inserted literally; the `$`
      patterns a JavaScript replacement string may hold are not expanded. */
  function ReplaceFirst(s: string, pat: string, rep: string): (r: string)
    ensures (forall j: nat :: !OccursAt(s, pat, j)) ==> r == s
    ensures forall i: nat :: OccursAt(s, pat, i) && (forall j: nat :: j < i ==> !OccursAt(s, pat, j)) ==>
      r == s[..i] + rep + s[i + |pat|..]
  {
    match IndexOf(s, pat)
    case None => s
    case Some(k) =>
      s[..k] + rep + s[k + |pat|..]
  }

  /** A pattern at the very start is the one replaced. */
  lemma {:induction false} ReplaceFirstAtStart(pat: string, rest: string, rep: string)
    ensures ReplaceFirst(pat + rest, pat, rep) == rep + rest
  {
    var s := pat + rest;
    assert s[0..|pat|] == pat;
    assert IndexOf(s, pat) == Some(0);
    assert s[..0] == [];
    assert s[|pat|..] == rest;
  }

  /** `name.split(' ')[0]`: everything before the first space, or the whole
      name when it has none. */
  function FirstWord(name: string): (r: string)
    ensures r <= name
    ensures ' ' !in r
    ensures |r| < |name| ==> name[|r|] == ' '
    decreases |name|
  {
    if name == [] || name[0] == ' ' then []
    else [name[0]] + FirstWord(name[1..])
  }

  /** The first word of a name written as a word, a space and the rest is that word. */
  lemma {:induction false} FirstWordOfJoined(word: string, rest: string)
    requires ' ' !in word
    ensures FirstWord(word + " " + rest) == word
    ensures FirstWord(word) == word
    decreases |word|
  {
    if word != [] {
      assert (word + " " + rest)[0] == word[0];
      assert (word + " " + rest)[1..] == word[1..] + " " + rest;
      FirstWordOfJoined(word[1..], rest);
    }
  }

  /** Taking the first word twice changes nothing. */
  lemma FirstWordIdempotent(name: string)
    ensures FirstWord(FirstWord(name)) == FirstWord(name)
  {
  }
}
