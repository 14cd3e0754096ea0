/** `clean_html`: the rich-text cleaner applied to descriptions and
    acceptance criteria before they are written to a template. Block and
    line-break tags become newlines, every other tag is deleted, and the
    result is trimmed. */
module HtmlText {
  import opened Common

  /** A whole match of the line-break pattern of `clean_html`: "<br", any
      whitespace, an optional '/', and '>'. */
  predicate IsBreakTag(t: string) {
    && |t| >= 4 && t[..3] == "<br" && t[|t| - 1] == '>'
    && (forall j :: 3 <= j < |t| - 2 ==> IsSpace(t[j]))
    && (|t| == 4 || IsSpace(t[|t| - 2]) || t[|t| - 2] == '/')
  }

  /** The length of a line-break tag at the start of `s`, or 0. */
  function BreakAt(s: string): (k: nat)
    ensures k == 0 || (4 <= k <= |s| && s[0] == '<' && s[k - 1] == '>')
  {
    if |s| >= 3 && s[..3] == "<br" then
      var t := DropWhile(s[3..], IsSpace);
      var u := if t != [] && t[0] == '/' then t[1..] else t;
      assert s[0] == s[..3][0] == '<';
      if u != [] && u[0] == '>' then |s| - |u| + 1 else 0
    else 0
  }

  /** What BreakAt measures is a line-break tag. */
  lemma BreakAtTag(s: string)
    ensures var k := BreakAt(s); k > 0 ==> IsBreakTag(s[..k])
  {
    var k := BreakAt(s);
    if k > 0 {
      var t := DropWhile(s[3..], IsSpace);
      var w := |s| - |t|;
      var p := s[..k];
      assert t == s[w..];
      assert p[..3] == s[..3];
      assert forall j :: 3 <= j < w ==> IsSpace(p[j]) by {
        assert forall j :: 3 <= j < w ==> p[j] == s[3..][j - 3];
      }
      if t[0] == '/' {
        assert k == w + 2 && p[k - 2] == '/';
      } else {
        assert k == w + 1;
      }
    }
  }

  /** A line-break tag at the start of `s` is the one BreakAt measures: no
      other prefix is one, and none is when BreakAt gives 0. */
  lemma BreakAtExact(s: string, m: nat)
    requires 0 < m <= |s| && IsBreakTag(s[..m])
    ensures BreakAt(s) == m
  {
    BreakTagChars(s, m);
    // the first character after "<br" that is not whitespace
    var q := if m > 4 && IsSpace(s[m - 2]) then m - 1 else if m > 4 then m - 2 else 3;
    BreakTagSpaces(s, m, q);
    var t := s[q..];
    BreakAtAfter(s, t);
    if q == m - 2 {
      assert t[0] == '/' && t[1..] == s[m - 1..];
    } else {
      assert t[0] == '>';
    }
  }

  /** The facts of a line-break tag, read off `s` itself. */
  lemma BreakTagChars(s: string, m: nat)
    requires 0 < m <= |s| && IsBreakTag(s[..m])
    ensures m >= 4 && s[..3] == "<br" && s[m - 1] == '>'
    ensures forall j :: 3 <= j < m - 2 ==> IsSpace(s[j])
    ensures m == 4 || IsSpace(s[m - 2]) || s[m - 2] == '/'
  {
    var p := s[..m];
    assert s[..3] == p[..3];
    assert forall j :: 3 <= j < m ==> s[j] == p[j];
  }

  /** After "<br", whitespace runs up to `q`, the first other character. */
  lemma BreakTagSpaces(s: string, m: nat, q: nat)
    requires m >= 4 && m <= |s| && s[..3] == "<br" && s[m - 1] == '>'
    requires forall j :: 3 <= j < m - 2 ==> IsSpace(s[j])
    requires m == 4 || IsSpace(s[m - 2]) || s[m - 2] == '/'
    requires q == if m > 4 && IsSpace(s[m - 2]) then m - 1 else if m > 4 then m - 2 else 3
    ensures DropWhile(s[3..], IsSpace) == s[q..]
  {
    var u := s[3..];
    assert forall i :: 0 <= i < q - 3 ==> IsSpace(u[i]) by {
      assert forall i :: 0 <= i < q - 3 ==> u[i] == s[i + 3];
    }
    assert u[q - 3] == s[q];
    assert s[q] == '>' || s[q] == '/';
    VisibleNotSpace(s[q]);
    DropWhileAt(u, IsSpace, q - 3);
    assert u[q - 3..] == s[q..];
  }

  /** BreakAt once the whitespace after "<br" is dropped. */
  lemma BreakAtAfter(s: string, t: string)
    requires |s| >= 3 && s[..3] == "<br" && t == DropWhile(s[3..], IsSpace)
    ensures var u := if t != [] && t[0] == '/' then t[1..] else t;
      BreakAt(s) == if u != [] && u[0] == '>' then |s| - |u| + 1 else 0
  {
  }

  /** Every line-break tag replaced by a newline. */
  function ReplaceBreaks(s: string): (r: string)
    ensures forall i :: 0 <= i < |r| ==> r[i] == '\n' || r[i] in s
    ensures '<' !in s ==> r == s
    decreases |s|
  {
    if s == [] then []
    else
      var k := BreakAt(s);
      if k > 0 then "\n" + ReplaceBreaks(s[k..])
      else [s[0]] + ReplaceBreaks(s[1..])
  }

  /** Text before the first '<' is kept as it is. */
  lemma {:induction false} ReplaceBreaksSkip(a: string, t: string)
    requires '<' !in a
    ensures ReplaceBreaks(a + t) == a + ReplaceBreaks(t)
    decreases |a|
  {
    if a == [] {
      assert a + t == t;
    } else {
      HeadTail(a, t);
      ReplaceBreaksCons(a[0], a[1..] + t);
      ReplaceBreaksSkip(a[1..], t);
      HeadTail(a, ReplaceBreaks(t));
    }
  }

  lemma ReplaceBreaksCons(c: char, t: string)
    requires c != '<'
    ensures ReplaceBreaks([c] + t) == [c] + ReplaceBreaks(t)
  {
    var s := [c] + t;
    assert s[0] == c && s[1..] == t;
    assert BreakAt(s) == 0;
  }

  /** A line-break tag after text without '<' becomes one newline, and the
      rest is rewritten in turn. */
  lemma ReplaceBreaksSplice(a: string, tag: string, b: string)
    requires '<' !in a && IsBreakTag(tag)
    ensures ReplaceBreaks(a + tag + b) == a + "\n" + ReplaceBreaks(b)
  {
    var rest := ReplaceBreaks(b);
    ReplaceBreaksAtTag(tag, b);
    AppendAssoc(a, tag, b);
    ReplaceBreaksSkip(a, tag + b);
    AppendAssoc(a, "\n", rest);
  }

  /** A line-break tag at the start becomes one newline. */
  lemma ReplaceBreaksAtTag(tag: string, b: string)
    requires IsBreakTag(tag)
    ensures ReplaceBreaks(tag + b) == "\n" + ReplaceBreaks(b)
  {
    var s := tag + b;
    assert s[..|tag|] == tag && s[|tag|..] == b;
    BreakAtExact(s, |tag|);
  }

  /** The three usual spellings of a line break. */
  lemma BreakTags()
    ensures IsBreakTag("<br>") && IsBreakTag("<br/>") && IsBreakTag("<br />")
  {
    assert IsSpace(' ');
  }

  /** The length of a `<[^>]+>` match at the start of `s`, or 0: a '<', at
      least one character other than '>', and the first '>' after it. */
  function TagAt(s: string): (k: nat)
    ensures k == 0 || (3 <= k <= |s| && s[0] == '<' && s[k - 1] == '>' && '>' !in s[1..k - 1])
    ensures k == 0 && s != [] && s[0] == '<' ==> '>' !in s[1..] || s[1] == '>'
  {
    if s != [] && s[0] == '<' && '>' in s[1..] then
      var j := FirstIndex(s[1..], '>');
      assert s[1..][..j] == s[1..j + 1];
      if j > 0 then j + 2 else 0
    else 0
  }

  /** `re.sub(r"<[^>]+>", "", s)` */
  function StripTags(s: string): (r: string)
    ensures forall i :: 0 <= i < |r| ==> r[i] in s
    ensures s != [] && TagAt(s) == 0 ==> r != [] && r[0] == s[0]
    ensures '<' !in s ==> r == s
    decreases |s|
  {
    if s == [] then []
    else
      var k := TagAt(s);
      if k > 0 then StripTags(s[k..])
      else [s[0]] + StripTags(s[1..])
  }

  /** Text before the first '<' is kept as it is. */
  lemma {:induction false} StripTagsSkip(a: string, t: string)
    requires '<' !in a
    ensures StripTags(a + t) == a + StripTags(t)
    decreases |a|
  {
    if a == [] {
      assert a + t == t;
    } else {
      HeadTail(a, t);
      StripTagsCons(a[0], a[1..] + t);
      StripTagsSkip(a[1..], t);
      HeadTail(a, StripTags(t));
    }
  }

  lemma StripTagsCons(c: char, t: string)
    requires c != '<'
    ensures StripTags([c] + t) == [c] + StripTags(t)
  {
    var s := [c] + t;
    assert s[0] == c && s[1..] == t;
    assert TagAt(s) == 0;
  }



  /** A tag after text without '<' is deleted, and the rest is stripped in
      turn. */
  lemma StripTagsSplice(a: string, name: string, b: string)
    requires '<' !in a && name != [] && '>' !in name
    ensures StripTags(a + "<" + name + ">" + b) == a + StripTags(b)
  {
    var s := "<" + name + ">" + b;
    assert s[1..] == name + ">" + b;
    assert s[1..][|name|] == '>' && s[1..][..|name|] == name;
    FirstIndexAt(s[1..], '>', |name|);
    assert TagAt(s) == |name| + 2;
    assert s[|name| + 2..] == b;
    assert a + "<" + name + ">" + b == a + s;
    StripTagsSkip(a, s);
  }

  /** Tag stripping of "<b>bold</b>" gives "bold". */
  lemma StripTagsBold()
    ensures StripTags("<b>bold</b>") == "bold"
  {
    BoldOpen();
    BoldClose();
  }

  lemma BoldOpen()
    ensures StripTags("<b>bold</b>") == StripTags("bold</b>")
  {
    assert "<b>bold</b>" == "" + "<" + "b" + ">" + "bold</b>";
    StripTagsSplice("", "b", "bold</b>");
  }

  lemma BoldClose()
    ensures StripTags("bold</b>") == "bold"
  {
    assert "bold</b>" == "bold" + "<" + "/b" + ">" + "";
    StripTagsSplice("bold", "/b", "");
  }

  /** `clean_html(text)`: empty text stays empty; anything else comes back
      with no tag left and no leading or trailing whitespace. */
  function CleanHtml(text: string): (r: string)
    ensures text == "" ==> r == ""
    ensures NoTag(r)
    ensures r != [] ==> !IsSpace(r[0]) && !IsSpace(r[|r| - 1])
  {
    if text == "" then ""
    else
      var a := ReplaceAll(text, "<div>", "\n");
      var b := ReplaceAll(a, "</div>", "");
      var d := StripTags(ReplaceBreaks(b));
      StripTagsNoTag(ReplaceBreaks(b));
      var front := DropWhile(d, IsSpace);
      NoTagSlice(d, |d| - |front|, |d|);
      NoTagSlice(front, 0, |DropWhileEnd(front, IsSpace)|);
      Strip(d)
  }

  /** No `<[^>]+>` match anywhere: each '<' is directly followed by '>' or
      by no '>' at all. */
  predicate NoTag(s: string) {
    forall i :: 0 <= i < |s| && s[i] == '<' ==> (i + 1 < |s| && s[i + 1] == '>') || '>' !in s[i + 1..]
  }

  /** After tag stripping no tag is left. */
  lemma {:induction false} StripTagsNoTag(s: string)
    ensures NoTag(StripTags(s))
    decreases |s|
  {
    if s != [] {
      var k := TagAt(s);
      if k > 0 {
        StripTagsNoTag(s[k..]);
      } else {
        var rest := StripTags(s[1..]);
        StripTagsNoTag(s[1..]);
        var r := [s[0]] + rest;
        forall i | 0 <= i < |r| && r[i] == '<'
          ensures (i + 1 < |r| && r[i + 1] == '>') || '>' !in r[i + 1..]
        {
          if i == 0 {
            assert r[1..] == rest;
            if '>' in s[1..] {
              assert s[1] == '>' && rest[0] == '>';
            } else {
              assert forall j :: 0 <= j < |rest| ==> rest[j] in s[1..];
            }
          } else {
            assert r[i + 1..] == rest[i..];
          }
        }
      }
    }
  }

  /** A slice of text without tags has none either. */
  lemma NoTagSlice(s: string, a: nat, b: nat)
    requires a <= b <= |s| && NoTag(s)
    ensures NoTag(s[a..b])
  {
    var t := s[a..b];
    forall i | 0 <= i < |t| && t[i] == '<'
      ensures (i + 1 < |t| && t[i + 1] == '>') || '>' !in t[i + 1..]
    {
      if '>' in t[i + 1..] {
        var j :| i + 1 <= j < |t| && t[j] == '>';
        assert s[a + j] == '>' && s[a + i] == '<';
        assert s[a + j] in s[a + i + 1..];
      }
    }
  }

  /** Text without '<' is only trimmed. */
  lemma CleanHtmlPlain(text: string)
    requires '<' !in text && text != ""
    ensures CleanHtml(text) == Strip(text)
  {
    if Contains(text, "<div>") {
      ContainsHead(text, "<div>");
    }
    ReplaceAllAbsent(text, "<div>", "\n");
    if Contains(text, "</div>") {
      ContainsHead(text, "</div>");
    }
    ReplaceAllAbsent(text, "</div>", "");
  }
}
