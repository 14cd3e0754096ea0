/** The file-name slug derived from a project name (`slugify`). */
module Slug {
  import opened Common

  /** The regex class \w, over ASCII: letters, digits and underscore. */
  predicate IsWordChar(c: char) {
    IsAsciiLower(c) || IsAsciiUpper(c) || IsDigit(c) || c == '_'
  }

  /** Characters the class [\w\s-] keeps; every other one is deleted. */
  predicate Kept(c: char) {
    IsWordChar(c) || IsSpace(c) || c == '-'
  }

  /** The class [\s_]: runs of these become one hyphen. */
  predicate IsSep(c: char) {
    IsSpace(c) || c == '_'
  }

  predicate IsHyphen(c: char) {
    c == '-'
  }

  /** The characters a slug is made of. */
  predicate SlugChar(c: char) {
    IsAsciiLower(c) || IsDigit(c) || c == '-'
  }

  predicate NoDoubleHyphen(s: string) {
    forall i, j :: 0 <= i < |s| && 0 <= j < |s| && j == i + 1 ==> !(s[i] == '-' && s[j] == '-')
  }

  /** What `slugify` promises of its output: a safe file-name stem. */
  predicate IsSlug(s: string) {
    && (forall i :: 0 <= i < |s| ==> SlugChar(s[i]))
    && NoDoubleHyphen(s)
    && (s != [] ==> s[0] != '-' && s[|s| - 1] != '-')
  }

  /** `re.sub(P + '+', '-', s)` where `P` is the character class `p`:
      every maximal run of characters in `p` becomes a single hyphen. */
  function CollapseRuns(s: string, p: char -> bool): (r: string)
    ensures forall i :: 0 <= i < |r| ==> r[i] == '-' || (!p(r[i]) && r[i] in s)
    ensures s != [] && !p(s[0]) ==> r != [] && r[0] == s[0]
    ensures s != [] && p(s[0]) ==> r != [] && r[0] == '-'
    ensures s == [] ==> r == []
    decreases |s|
  {
    if s == [] then []
    else if p(s[0]) then
      "-" + CollapseRuns(DropWhile(s, p), p)
    else [s[0]] + CollapseRuns(s[1..], p)
  }

  /** `slugify(name)`: lower-case and strip, delete characters outside
      [\w\s-], turn runs of whitespace and underscores into a hyphen,
      collapse runs of hyphens, and strip hyphens from both ends. */
  function Slugify(name: string): (r: string)
    ensures IsSlug(r)
  {
    var lowered := Strip(Lower(name));
    var kept := Filter(lowered, Kept);
    var dashed := CollapseRuns(kept, IsSep);
    var single := CollapseRuns(dashed, IsHyphen);
    LoweredChars(name);
    KeptChars(lowered);
    DashedChars(kept);
    SingleChars(dashed);
    CollapseHyphensNoDouble(dashed);
    StripHyphensSlug(single);
    DropWhileEnd(DropWhile(single, IsHyphen), IsHyphen)
  }

  /** After collapsing hyphen runs no two hyphens are adjacent. */
  lemma {:induction false} CollapseHyphensNoDouble(s: string)
    ensures NoDoubleHyphen(CollapseRuns(s, IsHyphen))
    decreases |s|
  {
    if s != [] {
      if s[0] == '-' {
        var rest := DropWhile(s, IsHyphen);
        CollapseHyphensNoDouble(rest);
      } else {
        CollapseHyphensNoDouble(s[1..]);
      }
    }
  }

  /** Collapsing runs of a class absent from `s` changes nothing. */
  lemma {:induction false} CollapseRunsNone(s: string, p: char -> bool)
    requires forall i :: 0 <= i < |s| ==> !p(s[i])
    ensures CollapseRuns(s, p) == s
    decreases |s|
  {
    if s != [] {
      CollapseRunsNone(s[1..], p);
    }
  }

  /** Collapsing hyphen runs changes nothing when every run has length one. */
  lemma {:induction false} CollapseHyphensSingle(s: string)
    requires NoDoubleHyphen(s)
    ensures CollapseRuns(s, IsHyphen) == s
    decreases |s|
  {
    if s != [] {
      var tail := s[1..];
      NoDoubleTail(s);
      CollapseHyphensSingle(tail);
      if s[0] == '-' {
        SingleHyphenRun(s);
        assert CollapseRuns(s, IsHyphen) == "-" + CollapseRuns(tail, IsHyphen);
      } else {
        assert CollapseRuns(s, IsHyphen) == [s[0]] + CollapseRuns(tail, IsHyphen);
      }
      assert s == [s[0]] + tail;
    }
  }

  lemma NoDoubleTail(s: string)
    requires s != [] && NoDoubleHyphen(s)
    ensures NoDoubleHyphen(s[1..])
  {
    var tail := s[1..];
    forall i, j | 0 <= i < |tail| && 0 <= j < |tail| && j == i + 1
      ensures !(tail[i] == '-' && tail[j] == '-')
    {
      assert tail[i] == s[i + 1] && tail[j] == s[j + 1];
    }
  }

  /** A leading hyphen not followed by another is a run of one. */
  lemma SingleHyphenRun(s: string)
    requires s != [] && s[0] == '-' && NoDoubleHyphen(s)
    ensures DropWhile(s, IsHyphen) == s[1..]
  {
    assert DropWhile(s, IsHyphen) == DropWhile(s[1..], IsHyphen);
    if |s| > 1 {
      assert s[1..][0] == s[1] && s[1] != '-';
    }
  }

  /** Lower-casing leaves no upper-case ASCII letter behind. */
  lemma LoweredChars(name: string)
    ensures forall c :: c in Strip(Lower(name)) ==> !IsAsciiUpper(c)
  {
    StripInside(Lower(name));
  }

  /** The characters left after deleting those outside [\w\s-]. */
  lemma KeptChars(s: string)
    requires forall c :: c in s ==> !IsAsciiUpper(c)
    ensures forall c :: c in Filter(s, Kept) ==> !IsAsciiUpper(c) && Kept(c)
  {
    FilterMembers(s, Kept);
  }

  /** Once whitespace and underscores are turned into hyphens, only slug
      characters remain. */
  lemma DashedChars(s: string)
    requires forall c :: c in s ==> !IsAsciiUpper(c) && Kept(c)
    ensures forall i :: 0 <= i < |CollapseRuns(s, IsSep)| ==> SlugChar(CollapseRuns(s, IsSep)[i])
  {
  }

  /** Collapsing hyphen runs introduces no new kind of character. */
  lemma SingleChars(s: string)
    requires forall i :: 0 <= i < |s| ==> SlugChar(s[i])
    ensures forall i :: 0 <= i < |CollapseRuns(s, IsHyphen)| ==> SlugChar(CollapseRuns(s, IsHyphen)[i])
  {
    var r := CollapseRuns(s, IsHyphen);
    forall i | 0 <= i < |r|
      ensures SlugChar(r[i])
    {
      if r[i] != '-' {
        var k :| 0 <= k < |s| && s[k] == r[i];
      }
    }
  }

  /** Stripping hyphens from both ends of slug characters without a double
      hyphen leaves a slug. */
  lemma StripHyphensSlug(s: string)
    requires forall i :: 0 <= i < |s| ==> SlugChar(s[i])
    requires NoDoubleHyphen(s)
    ensures IsSlug(DropWhileEnd(DropWhile(s, IsHyphen), IsHyphen))
  {
    var off := StrippedWindow(s);
    HyphenEnds(s);
    WindowSlug(s, DropWhileEnd(DropWhile(s, IsHyphen), IsHyphen), off);
  }

  /** A window of slug characters without a double hyphen, whose ends are
      not hyphens, is a slug. */
  lemma WindowSlug(s: string, r: string, off: nat)
    requires forall i :: 0 <= i < |s| ==> SlugChar(s[i])
    requires NoDoubleHyphen(s)
    requires off + |r| <= |s| && forall i :: 0 <= i < |r| ==> r[i] == s[off + i]
    requires r != [] ==> r[0] != '-' && r[|r| - 1] != '-'
    ensures IsSlug(r)
  {
    forall i | 0 <= i < |r|
      ensures SlugChar(r[i])
    {
      assert r[i] == s[off + i];
    }
    forall i, j | 0 <= i < |r| && 0 <= j < |r| && j == i + 1
      ensures !(r[i] == '-' && r[j] == '-')
    {
      assert r[i] == s[off + i] && r[j] == s[off + j];
    }
  }

  /** Stripping hyphens from both ends keeps a window of the string. */
  lemma StrippedWindow(s: string) returns (off: nat)
    ensures var r := DropWhileEnd(DropWhile(s, IsHyphen), IsHyphen);
      off + |r| <= |s| && forall i :: 0 <= i < |r| ==> r[i] == s[off + i]
  {
    var front := DropWhile(s, IsHyphen);
    var r := DropWhileEnd(front, IsHyphen);
    off := |s| - |front|;
    forall i | 0 <= i < |r|
      ensures r[i] == s[off + i]
    {
      assert r[i] == front[i];
    }
  }

  /** Neither end of a string stripped of hyphens is a hyphen. */
  lemma HyphenEnds(s: string)
    ensures var r := DropWhileEnd(DropWhile(s, IsHyphen), IsHyphen);
      r != [] ==> r[0] != '-' && r[|r| - 1] != '-'
  {
    var front := DropWhile(s, IsHyphen);
    var r := DropWhileEnd(front, IsHyphen);
    if r != [] {
      assert r[0] == front[0];
    }
  }

  /** Lower-casing and stripping whitespace leave a slug unchanged. */
  lemma SlugLowerStrip(s: string)
    requires IsSlug(s)
    ensures Strip(Lower(s)) == s
  {
    assert Lower(s) == s;
    assert DropWhile(s, IsSpace) == s by {
      if s != [] {
        VisibleNotSpace(s[0]);
      }
    }
    assert DropWhileEnd(s, IsSpace) == s by {
      if s != [] {
        VisibleNotSpace(s[|s| - 1]);
      }
    }
  }

  /** Stripping hyphens from a slug leaves it unchanged. */
  lemma SlugStripHyphens(s: string)
    requires IsSlug(s)
    ensures DropWhileEnd(DropWhile(s, IsHyphen), IsHyphen) == s
  {
    assert DropWhile(s, IsHyphen) == s by {
      if s != [] {
        assert !IsHyphen(s[0]);
      }
    }
    assert DropWhileEnd(s, IsHyphen) == s by {
      if s != [] {
        assert !IsHyphen(s[|s| - 1]);
      }
    }
  }

  /** A string that is already a slug is its own slug. */
  lemma SlugFixedPoint(s: string)
    requires IsSlug(s)
    ensures Slugify(s) == s
  {
    SlugCleans(s);
    SlugStripHyphens(s);
  }

  /** Every step of `slugify` before the final strip leaves a slug as it is. */
  lemma SlugCleans(s: string)
    requires IsSlug(s)
    ensures CollapseRuns(CollapseRuns(Filter(Strip(Lower(s)), Kept), IsSep), IsHyphen) == s
  {
    SlugLowerStrip(s);
    SlugCharsKept(s);
    CollapseHyphensSingle(s);
    CleanSteps(s);
  }

  /** The steps before the final strip compose when each one fixes `s`. */
  lemma CleanSteps(s: string)
    requires Strip(Lower(s)) == s && Filter(s, Kept) == s
    requires CollapseRuns(s, IsSep) == s && CollapseRuns(s, IsHyphen) == s
    ensures CollapseRuns(CollapseRuns(Filter(Strip(Lower(s)), Kept), IsSep), IsHyphen) == s
  {
  }

  /** Slug characters are all kept, and none is whitespace or underscore. */
  lemma SlugCharsKept(s: string)
    requires forall i :: 0 <= i < |s| ==> SlugChar(s[i])
    ensures Filter(s, Kept) == s && CollapseRuns(s, IsSep) == s
  {
    forall x | x in s
      ensures Kept(x)
    {
      var i :| 0 <= i < |s| && s[i] == x;
      assert SlugChar(s[i]);
    }
    FilterAll(s, Kept);
    NoSeps(s);
  }

  lemma NoSeps(s: string)
    requires forall i :: 0 <= i < |s| ==> SlugChar(s[i])
    ensures CollapseRuns(s, IsSep) == s
  {
    forall i | 0 <= i < |s|
      ensures !IsSep(s[i])
    {
      assert SlugChar(s[i]);
      VisibleNotSpace(s[i]);
    }
    CollapseRunsNone(s, IsSep);
  }

  // ---------------------------------------------------------------------
  // Names made of plain words
  // ---------------------------------------------------------------------

  /** A word of ASCII letters and digits. */
  predicate AlnumWord(w: string) {
    w != [] && forall i :: 0 <= i < |w| ==> IsAsciiLower(w[i]) || IsAsciiUpper(w[i]) || IsDigit(w[i])
  }

  /** A word of lower-case ASCII letters and digits. */
  predicate LowerWord(w: string) {
    w != [] && forall i :: 0 <= i < |w| ==> IsAsciiLower(w[i]) || IsDigit(w[i])
  }

  /** Lower-casing turns letter-and-digit words into lower-case words. */
  lemma {:induction false} LowerWords(ws: seq<string>)
    requires forall i :: 0 <= i < |ws| ==> AlnumWord(ws[i])
    ensures forall i :: 0 <= i < |ws| ==> LowerWord(LowerAll(ws)[i])
  {
    forall i | 0 <= i < |ws|
      ensures LowerWord(LowerAll(ws)[i])
    {
      var w := ws[i];
      assert AlnumWord(w);
      var l := Lower(w);
      forall j | 0 <= j < |l|
        ensures IsAsciiLower(l[j]) || IsDigit(l[j])
      {
        assert l[j] == LowerChar(w[j]);
      }
    }
  }

  /** No character of a lower-case word is whitespace, '_' or '-', and every
      one is kept. */
  lemma {:induction false} LowerWordChars(ws: seq<string>)
    requires forall i :: 0 <= i < |ws| ==> LowerWord(ws[i])
    ensures forall i, j :: 0 <= i < |ws| && 0 <= j < |ws[i]| ==> !IsSep(ws[i][j]) && !IsHyphen(ws[i][j]) && Kept(ws[i][j])
  {
    forall i, j | 0 <= i < |ws| && 0 <= j < |ws[i]|
      ensures !IsSep(ws[i][j]) && !IsHyphen(ws[i][j]) && Kept(ws[i][j])
    {
      assert LowerWord(ws[i]);
      VisibleNotSpace(ws[i][j]);
    }
  }

  /** A prefix without characters of the class passes through unchanged. */
  lemma {:induction false} CollapseRunsSkip(a: string, t: string, p: char -> bool)
    requires forall i :: 0 <= i < |a| ==> !p(a[i])
    ensures CollapseRuns(a + t, p) == a + CollapseRuns(t, p)
    decreases |a|
  {
    if a == [] {
      assert a + t == t;
    } else {
      var s := a + t;
      assert s[0] == a[0] && s[1..] == a[1..] + t;
      CollapseRunsSkip(a[1..], t, p);
      HeadTail(a, CollapseRuns(t, p));
    }
  }

  /** Words separated by single characters of the class come out separated
      by single hyphens. */
  lemma {:induction false} CollapseJoin(ws: seq<string>, sep: char, p: char -> bool)
    requires p(sep)
    requires forall i :: 0 <= i < |ws| ==> ws[i] != []
    requires forall i, j :: 0 <= i < |ws| && 0 <= j < |ws[i]| ==> !p(ws[i][j])
    ensures CollapseRuns(Join(ws, [sep]), p) == Join(ws, "-")
    decreases |ws|
  {
    if |ws| == 1 {
      CollapseRunsNone(ws[0], p);
    } else if |ws| > 1 {
      var tail := ws[1..];
      assert forall i, j :: 0 <= i < |tail| && 0 <= j < |tail[i]| ==> tail[i][j] == ws[i + 1][j];
      CollapseJoin(tail, sep, p);
      var rest := Join(tail, [sep]);
      JoinFirst(tail, [sep]);
      assert !p(rest[0]) by {
        assert rest[0] == ws[1][0];
      }
      var t := [sep] + rest;
      AppendAssoc(ws[0], [sep], rest);
      CollapseRunsSkip(ws[0], t, p);
      assert t[1..] == rest;
      assert DropWhile(t, p) == rest;
      assert CollapseRuns(t, p) == "-" + CollapseRuns(rest, p);
      AppendAssoc(ws[0], "-", Join(tail, "-"));
    }
  }

  /** Lower-casing the name lower-cases the words and keeps the tail. */
  lemma {:induction false} WordsLowered(ws: seq<string>, junk: string)
    requires forall i :: 0 <= i < |junk| ==> !Kept(junk[i])
    ensures Lower(Join(ws, " ") + junk) == Join(LowerAll(ws), " ") + junk
  {
    LowerAppend(Join(ws, " "), junk);
    assert Lower(" ") == " ";
    LowerJoin(ws, " ");
    var l := Lower(junk);
    forall i | 0 <= i < |junk|
      ensures l[i] == junk[i]
    {
      assert !Kept(junk[i]);
    }
  }

  /** Nothing is stripped: the name neither begins nor ends with whitespace. */
  lemma {:induction false} WordsStripped(ws: seq<string>, junk: string)
    requires forall i :: 0 <= i < |ws| ==> LowerWord(ws[i])
    requires forall i :: 0 <= i < |junk| ==> !Kept(junk[i])
    ensures var s := Join(ws, " ") + junk; Strip(s) == s
  {
    var s := Join(ws, " ") + junk;
    WordsFirst(ws, junk);
    WordsLast(ws, junk);
    StripNone(s);
  }

  lemma {:induction false} WordsFirst(ws: seq<string>, junk: string)
    requires forall i :: 0 <= i < |ws| ==> LowerWord(ws[i])
    requires forall i :: 0 <= i < |junk| ==> !Kept(junk[i])
    ensures var s := Join(ws, " ") + junk; s != [] ==> !IsSpace(s[0])
  {
    var j := Join(ws, " ");
    if ws != [] {
      JoinFirst(ws, " ");
      assert LowerWord(ws[0]);
      VisibleNotSpace(j[0]);
      assert (j + junk)[0] == j[0];
    } else if junk != [] {
      assert (j + junk)[0] == junk[0] && !Kept(junk[0]);
    }
  }

  lemma {:induction false} WordsLast(ws: seq<string>, junk: string)
    requires forall i :: 0 <= i < |ws| ==> LowerWord(ws[i])
    requires forall i :: 0 <= i < |junk| ==> !Kept(junk[i])
    ensures var s := Join(ws, " ") + junk; s != [] ==> !IsSpace(s[|s| - 1])
  {
    var j := Join(ws, " ");
    if junk != [] {
      assert (j + junk)[|j + junk| - 1] == junk[|junk| - 1] && !Kept(junk[|junk| - 1]);
    } else if ws != [] {
      JoinLast(ws, " ");
      assert LowerWord(ws[|ws| - 1]);
      VisibleNotSpace(j[|j| - 1]);
      assert j + junk == j;
    }
  }

  /** The filter keeps the words and the spaces and deletes the tail. */
  lemma {:induction false} WordsFiltered(ws: seq<string>, junk: string)
    requires forall i :: 0 <= i < |ws| ==> LowerWord(ws[i])
    requires forall i :: 0 <= i < |junk| ==> !Kept(junk[i])
    ensures Filter(Join(ws, " ") + junk, Kept) == Join(ws, " ")
  {
    var j := Join(ws, " ");
    LowerWordChars(ws);
    assert Kept(' ');
    JoinChars(ws, " ", Kept);
    forall x | x in j
      ensures Kept(x)
    {
      var k :| 0 <= k < |j| && j[k] == x;
    }
    FilterAll(j, Kept);
    FilterNone(junk, Kept);
    FilterAppend(j, junk, Kept);
    assert j + [] == j;
  }

  /** Nothing is left to strip: the hyphen-joined words begin and end with
      a word character. */
  lemma {:induction false} WordsHyphenEnds(ws: seq<string>)
    requires forall i :: 0 <= i < |ws| ==> LowerWord(ws[i])
    ensures var s := Join(ws, "-"); DropWhileEnd(DropWhile(s, IsHyphen), IsHyphen) == s
  {
    var s := Join(ws, "-");
    if ws != [] {
      JoinFirst(ws, "-");
      JoinLast(ws, "-");
      assert LowerWord(ws[0]) && LowerWord(ws[|ws| - 1]);
    }
    HyphenNone(s);
  }

  lemma HyphenNone(s: string)
    requires s != [] ==> s[0] != '-' && s[|s| - 1] != '-'
    ensures DropWhileEnd(DropWhile(s, IsHyphen), IsHyphen) == s
  {
    DropNeither(s, IsHyphen);
  }

  /** A name of letter-and-digit words separated by single spaces, followed
      by characters outside [\w\s-], slugifies to the lower-cased words
      joined by hyphens. */
  lemma {:induction false} SlugifyWords(ws: seq<string>, junk: string)
    requires forall i :: 0 <= i < |ws| ==> AlnumWord(ws[i])
    requires forall i :: 0 <= i < |junk| ==> !Kept(junk[i])
    ensures Slugify(Join(ws, " ") + junk) == Join(LowerAll(ws), "-")
  {
    var lw := LowerAll(ws);
    LowerWords(ws);
    LowerWordChars(lw);
    WordsLowered(ws, junk);
    WordsStripped(lw, junk);
    WordsFiltered(lw, junk);
    CollapseJoin(lw, ' ', IsSep);
    CollapseJoin(lw, '-', IsHyphen);
    WordsHyphenEnds(lw);
    WordsSteps(Join(ws, " ") + junk, Join(lw, " ") + junk, Join(lw, " "), Join(lw, "-"));
  }

  /** The steps of `slugify` compose. */
  lemma WordsSteps(name: string, lowered: string, kept: string, slug: string)
    requires Strip(Lower(name)) == lowered && Filter(lowered, Kept) == kept
    requires CollapseRuns(kept, IsSep) == slug && CollapseRuns(slug, IsHyphen) == slug
    requires DropWhileEnd(DropWhile(slug, IsHyphen), IsHyphen) == slug
    ensures Slugify(name) == slug
  {
  }

  /** "Acme Data Platform" gives "acme-data-platform". */
  lemma SlugifyAcme()
    ensures Slugify("Acme Data Platform") == "acme-data-platform"
  {
    var ws := ["Acme", "Data", "Platform"];
    AcmeWords();
    SlugifyWords(ws, "");
  }

  lemma AcmeWords()
    ensures var ws := ["Acme", "Data", "Platform"];
      && Join(ws, " ") + "" == "Acme Data Platform"
      && Join(LowerAll(ws), "-") == "acme-data-platform"
      && forall i :: 0 <= i < |ws| ==> AlnumWord(ws[i])
  {
    var ws := ["Acme", "Data", "Platform"];
    JoinThree("Acme", "Data", "Platform", " ");
    AcmeLower();
    JoinThree("acme", "data", "platform", "-");
  }

  lemma AcmeLower()
    ensures LowerAll(["Acme", "Data", "Platform"]) == ["acme", "data", "platform"]
  {
    assert Lower("Acme") == "acme";
    assert Lower("Data") == "data";
    assert Lower("Platform") == "platform";
  }

  /** "My Project!!!" gives "my-project": the exclamation marks are deleted. */
  lemma SlugifyMyProject()
    ensures Slugify("My Project!!!") == "my-project"
  {
    var ws := ["My", "Project"];
    MyProjectWords();
    SlugifyWords(ws, "!!!");
  }

  lemma MyProjectWords()
    ensures var ws := ["My", "Project"];
      && Join(ws, " ") + "!!!" == "My Project!!!"
      && Join(LowerAll(ws), "-") == "my-project"
      && (forall i :: 0 <= i < |ws| ==> AlnumWord(ws[i]))
      && forall i :: 0 <= i < |"!!!"| ==> !Kept("!!!"[i])
  {
    var ws := ["My", "Project"];
    JoinTwo("My", "Project", " ");
    assert Lower("My") == "my" && Lower("Project") == "project";
    assert LowerAll(ws) == ["my", "project"];
    JoinTwo("my", "project", "-");
    VisibleNotSpace('!');
  }

  lemma JoinTwo(a: string, b: string, sep: string)
    ensures Join([a, b], sep) == a + sep + b
  {
    assert [a, b][1..] == [b];
  }

  lemma JoinThree(a: string, b: string, c: string, sep: string)
    ensures Join([a, b, c], sep) == a + sep + b + sep + c
  {
    assert [a, b, c][1..] == [b, c];
    JoinTwo(b, c, sep);
  }

  /** Slugifying twice gives the same slug as slugifying once. */
  lemma SlugifyIdempotent(name: string)
    ensures Slugify(Slugify(name)) == Slugify(name)
  {
    SlugFixedPoint(Slugify(name));
  }
}
