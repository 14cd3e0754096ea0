/** `_to_html`: plain text turned into the rich text the service stores.
    Blank lines are dropped, each run of consecutive lines starting with a
    bullet becomes one list, and every other line becomes a paragraph. */
module HtmlBlocks {
  import opened Common

  const Bullet: char := '\U{2022}'

  /** The line boundaries of `str.splitlines()`. */
  predicate IsLineBreak(c: char) {
    c == '\n' || c == '\r' || c == '\U{0B}' || c == '\U{0C}' || '\U{1C}' <= c <= '\U{1E}'
    || c == '\U{85}' || c == '\U{2028}' || c == '\U{2029}'
  }

  /** The text cut at every line-break character. `"\r\n"` gives one extra
      empty line here, and a trailing break one extra empty last line; both
      are blank and so are dropped below. */
  function Lines(s: string): (ls: seq<string>)
    ensures |ls| >= 1
    ensures forall i, j :: 0 <= i < |ls| && 0 <= j < |ls[i]| ==> !IsLineBreak(ls[i][j])
  {
    if s == [] then [""]
    else
      var rest := Lines(s[1..]);
      if IsLineBreak(s[0]) then [""] + rest else [[s[0]] + rest[0]] + rest[1..]
  }

  /** A paragraph, or a list of bullet items. */
  datatype Block = Para(text: string) | Bullets(items: seq<string>)

  /** `stripped.lstrip("• ").strip()`: the text of a bullet line. */
  function BulletText(s: string): string {
    Strip(DropWhile(s, c => c == Bullet || c == ' '))
  }

  /** A bullet item added to the blocks so far: it joins a list that is
      still open, or opens a new one. */
  function AddBullet(bs: seq<Block>, b: string): seq<Block> {
    if bs != [] && bs[|bs| - 1].Bullets? then bs[..|bs| - 1] + [Bullets(bs[|bs| - 1].items + [b])]
    else bs + [Bullets([b])]
  }

  /** A non-blank line as it is written: whether it is a bullet, and its
      text. */
  datatype Entry = Entry(bullet: bool, text: string)

  /** What a line contributes, from its stripped text: nothing when blank,
      else a bullet item or a paragraph. */
  function Classify(s: string): Option<Entry> {
    if s == "" then None
    else if s[0] == Bullet then Some(Entry(true, BulletText(s)))
    else Some(Entry(false, s))
  }

  function EntryOf(line: string): Option<Entry> {
    Classify(Strip(line))
  }

  /** The blocks after one more entry. */
  function Apply(bs: seq<Block>, e: Option<Entry>): seq<Block> {
    match e
    case None => bs
    case Some(Entry(bullet, t)) => if bullet then AddBullet(bs, t) else bs + [Para(t)]
  }

  /** The blocks after one more line. */
  function Step(bs: seq<Block>, line: string): seq<Block> {
    Apply(bs, EntryOf(line))
  }

  /** The blocks of a list of lines. */
  function Blocks(lines: seq<string>): seq<Block> {
    if lines == [] then [] else Step(Blocks(lines[..|lines| - 1]), lines[|lines| - 1])
  }

  /** `"".join(f"<li>{b}</li>" for b in items)` */
  function ListItems(items: seq<string>): string {
    if items == [] then "" else ListItems(items[..|items| - 1]) + "<li>" + items[|items| - 1] + "</li>"
  }

  function RenderBlock(b: Block): string {
    match b
    case Para(s) => "<p>" + s + "</p>"
    case Bullets(items) => "<ul>" + ListItems(items) + "</ul>"
  }

  /** The rendered parts, one per block. */
  function Parts(bs: seq<Block>): (ps: seq<string>)
    ensures |ps| == |bs| && forall k :: 0 <= k < |bs| ==> ps[k] == RenderBlock(bs[k])
  {
    seq(|bs|, k requires 0 <= k < |bs| => RenderBlock(bs[k]))
  }

  /** The open list, as a block, if there is one. */
  function Pending(buffer: seq<string>): seq<Block> {
    if buffer == [] then [] else [Bullets(buffer)]
  }

  /** `line.strip()`, and what the line contributes in terms of it. */
  method StripLine(line: string) returns (stripped: string)
    ensures EntryOf(line) == Classify(stripped)
  {
    stripped := Strip(line);
  }

  /** `_to_html(text)`: an empty text is returned as it is; otherwise the
      concatenated rendering of the text's blocks. */
  method ToHtml(text: string) returns (html: string)
    ensures html == if text == "" then "" else Concat(Parts(Blocks(Lines(text))))
  {
    if text == "" {
      return text;
    }
    html := RenderLines(Lines(text));
  }

  /** The loop of `_to_html` over the lines of a non-empty text. */
  method RenderLines(lines: seq<string>) returns (html: string)
    ensures html == Concat(Parts(Blocks(lines)))
  {
    var parts: seq<string> := [];
    var buffer: seq<string> := [];
    ghost var done: seq<Block> := [];
    var i := 0;
    while i < |lines|
      invariant 0 <= i <= |lines|
      invariant parts == Parts(done)
      invariant Blocks(lines[..i]) == done + Pending(buffer)
      invariant done == [] || done[|done| - 1].Para?
    {
      BlocksStep(lines, i);
      var stripped := StripLine(lines[i]);
      parts, buffer, done := AddLine(stripped, parts, buffer, done);
      i := i + 1;
    }
    AllLines(lines, done + Pending(buffer));
    parts, done := FlushBullets(parts, buffer, done);
    html := Concat(parts);
  }

  /** One pass of the loop of `_to_html`: a blank line is skipped, a bullet
      line joins the open list, and any other line closes the open list and
      is written as a paragraph. `done` are the blocks already rendered. */
  method AddLine(stripped: string, parts: seq<string>, buffer: seq<string>, ghost done: seq<Block>)
    returns (parts': seq<string>, buffer': seq<string>, ghost done': seq<Block>)
    requires parts == Parts(done)
    requires done == [] || done[|done| - 1].Para?
    ensures parts' == Parts(done')
    ensures done' + Pending(buffer') == Apply(done + Pending(buffer), Classify(stripped))
    ensures done' == [] || done'[|done'| - 1].Para?
  {
    parts', buffer', done' := parts, buffer, done;
    if stripped == "" {
    } else if stripped[0] == Bullet {
      BulletStep(done, buffer, BulletText(stripped));
      buffer' := buffer + [BulletText(stripped)];
    } else {
      assert Classify(stripped) == Some(Entry(false, stripped));
      parts', done' := FlushBullets(parts, buffer, done);
      buffer' := [];
      PartsAppend(done', Para(stripped));
      parts' := parts' + ["<p>" + stripped + "</p>"];
      done' := done' + [Para(stripped)];
      assert done'[|done'| - 1] == Para(stripped);
    }
  }

  /** `_flush_bullets()`: the open list, if any, is rendered and closed. */
  method FlushBullets(parts: seq<string>, buffer: seq<string>, ghost done: seq<Block>)
    returns (parts': seq<string>, ghost done': seq<Block>)
    requires parts == Parts(done)
    ensures parts' == Parts(done')
    ensures done' == done + Pending(buffer)
  {
    parts', done' := parts, done;
    if buffer != [] {
      PartsAppend(done, Bullets(buffer));
      parts' := parts + ["<ul>" + ListItems(buffer) + "</ul>"];
      done' := done + [Bullets(buffer)];
    }
  }

  lemma AllLines(lines: seq<string>, bs: seq<Block>)
    requires Blocks(lines[..|lines|]) == bs
    ensures Blocks(lines) == bs
  {
    assert lines[..|lines|] == lines;
  }

  lemma BlocksStep(lines: seq<string>, i: nat)
    requires i < |lines|
    ensures Blocks(lines[..i + 1]) == Step(Blocks(lines[..i]), lines[i])
  {
    assert lines[..i + 1][..i] == lines[..i];
  }

  /** A bullet joins the open list, or opens one after a paragraph. */
  lemma BulletStep(done: seq<Block>, buffer: seq<string>, b: string)
    requires done == [] || done[|done| - 1].Para?
    ensures AddBullet(done + Pending(buffer), b) == done + Pending(buffer + [b])
  {
    if buffer != [] {
      var bs := done + [Bullets(buffer)];
      assert bs[..|bs| - 1] == done && bs[|bs| - 1] == Bullets(buffer);
      assert AddBullet(bs, b) == done + [Bullets(buffer + [b])];
    } else {
      assert buffer + [b] == [b];
      assert AddBullet(done, b) == done + [Bullets([b])];
    }
  }

  lemma PartsAppend(bs: seq<Block>, b: Block)
    ensures Parts(bs + [b]) == Parts(bs) + [RenderBlock(b)]
  {
  }

  // ---------------------------------------------------------------------
  // What the blocks hold
  // ---------------------------------------------------------------------

  /** The non-blank lines of the input, in order. */
  function Entries(lines: seq<string>): seq<Entry> {
    if lines == [] then []
    else
      Entries(lines[..|lines| - 1])
        + match EntryOf(lines[|lines| - 1]) case None => [] case Some(e) => [e]
  }

  /** The entries a block holds. */
  function BlockEntries(b: Block): seq<Entry> {
    match b
    case Para(s) => [Entry(false, s)]
    case Bullets(items) => seq(|items|, k requires 0 <= k < |items| => Entry(true, items[k]))
  }

  /** The entries of a list of blocks, in order. */
  function Flatten(bs: seq<Block>): seq<Entry> {
    if bs == [] then [] else Flatten(bs[..|bs| - 1]) + BlockEntries(bs[|bs| - 1])
  }

  lemma FlattenAddBullet(bs: seq<Block>, b: string)
    ensures Flatten(AddBullet(bs, b)) == Flatten(bs) + [Entry(true, b)]
  {
    if bs != [] && bs[|bs| - 1].Bullets? {
      var init := bs[..|bs| - 1];
      var xs := bs[|bs| - 1].items;
      var r := init + [Bullets(xs + [b])];
      assert r[..|r| - 1] == init;
      assert BlockEntries(Bullets(xs + [b])) == BlockEntries(Bullets(xs)) + [Entry(true, b)];
    } else {
      var r := bs + [Bullets([b])];
      assert r[..|r| - 1] == bs;
    }
  }

  /** Every non-blank line ends up in exactly one block, in order and with
      its kind: nothing is dropped but blank lines, nothing is reordered. */
  lemma {:induction false} BlocksKeepEntries(lines: seq<string>)
    ensures Flatten(Blocks(lines)) == Entries(lines)
  {
    if lines != [] {
      var prev := Blocks(lines[..|lines| - 1]);
      BlocksKeepEntries(lines[..|lines| - 1]);
      match EntryOf(lines[|lines| - 1])
      case None =>
      case Some(Entry(bullet, t)) =>
        if bullet {
          FlattenAddBullet(prev, t);
        } else {
          var r := prev + [Para(t)];
          assert r[..|r| - 1] == prev;
        }
    }
  }

  /** Lists are never empty and never follow one another: each run of
      bullet lines is grouped into a single list. */
  predicate Grouped(bs: seq<Block>) {
    && (forall k :: 0 <= k < |bs| && bs[k].Bullets? ==> bs[k].items != [])
    && (forall k :: 0 < k < |bs| && bs[k].Bullets? ==> !bs[k - 1].Bullets?)
  }

  lemma {:induction false} BlocksGrouped(lines: seq<string>)
    ensures Grouped(Blocks(lines))
  {
    if lines != [] {
      BlocksGrouped(lines[..|lines| - 1]);
      ApplyGrouped(Blocks(lines[..|lines| - 1]), EntryOf(lines[|lines| - 1]));
    }
  }

  lemma ApplyGrouped(bs: seq<Block>, e: Option<Entry>)
    requires Grouped(bs)
    ensures Grouped(Apply(bs, e))
  {
    match e
    case None =>
    case Some(Entry(bullet, t)) =>
      if bullet {
        AddBulletGrouped(bs, t);
      } else {
        var r := bs + [Para(t)];
        assert forall k :: 0 <= k < |bs| ==> r[k] == bs[k];
      }
  }

  lemma AddBulletGrouped(bs: seq<Block>, b: string)
    requires Grouped(bs)
    ensures Grouped(AddBullet(bs, b))
  {
    var r := AddBullet(bs, b);
    assert forall k :: 0 <= k < |bs| - 1 ==> r[k] == bs[k];
    if !(bs != [] && bs[|bs| - 1].Bullets?) {
      assert forall k :: 0 <= k < |bs| ==> r[k] == bs[k];
    }
  }
}
