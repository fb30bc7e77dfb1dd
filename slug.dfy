/**
  The identifier derived from a free-text label, `'-'.join(s.lower().split())`
  (tabs.py lines 131 and 168). Group tabs use it to give equal labels the same
  token across tabs blocks; code tabs use it on their title.
*/
module Slugify {
  import opened PyStr

  /** `'-'.join(s.lower().split())`: contains no whitespace and no upper-case letter. */
  function Slug(s: string): (r: string)
    ensures NoSpace(r) && NoUpper(r)
  {
    var words := Split(Lower(s));
    JoinNoSpace("-", words);
    LowerWordsNoUpper(s);
    JoinNoUpper("-", words);
    Join("-", words)
  }

  lemma LowerWordsNoUpper(s: string)
    ensures forall w :: w in Split(Lower(s)) ==> NoUpper(w)
  {
    forall w | w in Split(Lower(s)) ensures NoUpper(w) {
      SplitWordsAreSlices(Lower(s), w);
    }
  }

  /** Every word of a split is a slice of the string split. */
  lemma {:induction false} SplitWordsAreSlices(s: string, w: string)
    requires w in Split(s)
    ensures exists i, j :: 0 <= i <= j <= |s| && w == s[i..j]
    decreases |s|
  {
    assert s != [];
    if IsSpace(s[0]) {
      assert Split(s) == Split(s[1..]);
      SplitWordsAreSlices(s[1..], w);
      var i, j :| 0 <= i <= j <= |s| - 1 && w == s[1..][i..j];
      assert w == s[i + 1..j + 1];
    } else {
      var n := WordLen(s);
      assert Split(s) == [s[..n]] + Split(s[n..]);
      if w == s[..n] {
        assert w == s[0..n];
      } else {
        assert w in Split(s[n..]);
        SplitWordsAreSlices(s[n..], w);
        var i, j :| 0 <= i <= j <= |s| - n && w == s[n..][i..j];
        assert w == s[i + n..j + n];
      }
    }
  }

  lemma LowerAppend(a: string, b: string)
    ensures Lower(a + b) == Lower(a) + Lower(b)
  {
  }

  lemma LowerKeepsLower(s: string)
    requires NoUpper(s)
    ensures Lower(s) == s
  {
  }

  /** Applying the slug twice gives the same result as applying it once. */
  lemma SlugIdempotent(s: string)
    ensures Slug(Slug(s)) == Slug(s)
  {
    var r := Slug(s);
    LowerKeepsLower(r);
    var words := Split(Lower(s));
    if words == [] {
      assert r == [];
    } else {
      assert words[0] in words;
      assert |r| > 0 by {
        assert |Join("-", words)| >= |words[0]|;
      }
      SplitWord(r);
    }
  }

  /** Letter case does not matter: strings equal up to the case of their letters have one slug. */
  lemma SlugIgnoresCase(s: string, t: string)
    requires |s| == |t|
    requires forall i :: 0 <= i < |s| ==> LowerChar(s[i]) == LowerChar(t[i])
    ensures Slug(s) == Slug(t)
  {
    assert Lower(s) == Lower(t);
  }

  /** A run of whitespace inside a label counts as one separator whatever its length and characters. */
  lemma SlugCollapsesSpaceRun(a: string, w1: string, w2: string, b: string)
    requires w1 != [] && AllSpace(w1)
    requires w2 != [] && AllSpace(w2)
    ensures Slug(a + w1 + b) == Slug(a + w2 + b)
  {
    SplitAroundSpaceRun(a, w1, b);
    SplitAroundSpaceRun(a, w2, b);
  }

  lemma SplitAroundSpaceRun(a: string, w: string, b: string)
    requires w != [] && AllSpace(w)
    ensures Split(Lower(a + w + b)) == Split(Lower(a)) + Split(Lower(b))
  {
    LowerAppend(a + w, b);
    LowerAppend(a, w);
    LowerKeepsLower(w);
    assert Lower(a + w + b) == Lower(a) + (w + Lower(b));
    SplitAtSpace(Lower(a), w + Lower(b));
    SplitSkipsSpace(w, Lower(b));
  }

  /** Leading and trailing whitespace do not matter. */
  lemma SlugIgnoresOuterSpace(w1: string, s: string, w2: string)
    requires AllSpace(w1) && AllSpace(w2)
    ensures Slug(w1 + s + w2) == Slug(s)
  {
    LowerAppend(w1 + s, w2);
    LowerAppend(w1, s);
    LowerKeepsLower(w1);
    LowerKeepsLower(w2);
    assert Lower(w1 + s + w2) == w1 + (Lower(s) + w2);
    SplitSkipsSpace(w1, Lower(s) + w2);
    SplitDropsTrailingSpace(Lower(s), w2);
  }

  /** Lower-case words joined by single spaces slug to the same words joined by hyphens. */
  lemma SlugOfSpacedWords(words: seq<string>)
    requires forall w :: w in words ==> IsWord(w) && NoUpper(w)
    ensures Slug(Join(" ", words)) == Join("-", words)
  {
    var plain := Join(" ", words);
    JoinNoUpper(" ", words);
    LowerKeepsLower(plain);
    SplitJoin(" ", words);
  }

  lemma SlugOfMyExample()
    ensures Slug("my example") == "my-example"
  {
    var words := ["my", "example"];
    assert Join(" ", words) == "my example";
    assert Join("-", words) == "my-example";
    assert IsWord("my") && IsWord("example") && NoUpper("my") && NoUpper("example");
    SlugOfSpacedWords(words);
  }

  lemma SlugExampleCase()
    ensures Slug("My Example") == Slug("my example")
  {
    SlugIgnoresCase("My Example", "my example");
  }

  lemma SlugExampleSpaces()
    ensures Slug("my   example") == Slug("my example")
  {
    assert "my   example" == "my" + "   " + "example";
    assert "my example" == "my" + " " + "example";
    SlugCollapsesSpaceRun("my", "   ", " ", "example");
  }

  /** "My Example" and "my   example" both become "my-example". */
  lemma SlugExample()
    ensures Slug("My Example") == "my-example"
    ensures Slug("my   example") == "my-example"
  {
    SlugOfMyExample();
    SlugExampleCase();
    SlugExampleSpaces();
  }
}
