/** The `nav:` lines `generate-toc.py` writes into `mkdocs.yml`: `Page.render`
    over the page tree, with every `Gen` expanded into its index page. */
module TocNav {
  import opened Wrappers
  import opened PyText
  import opened PySort
  import opened TocPages

  /** `"  " * depth` */
  function Indent(depth: nat): (r: string)
    ensures |r| == 2 * depth && forall i | 0 <= i < |r| :: r[i] == ' '
  {
    if depth == 0 then "" else "  " + Indent(depth - 1)
  }

  /** How an f-string prints a file name: Python's `None` prints as `None`. */
  function FileText(filename: Option<string>): string {
    if filename.Some? then filename.value else "None"
  }

  /** `if self.filename:` — present and not empty. */
  predicate Truthy(filename: Option<string>) {
    filename.Some? && filename.value != ""
  }

  /** `{indent}- "{title}` followed by `tail`. */
  function QuotedLine(depth: nat, title: string, tail: string): string {
    Indent(depth) + "- \"" + title + tail
  }

  /** `{indent}- "{title}": {file}` */
  function EntryLine(depth: nat, title: string, file: string): string {
    QuotedLine(depth, title, "\": " + file)
  }

  /** `{indent}- "{title}":` */
  function HeaderLine(depth: nat, title: string): string {
    QuotedLine(depth, title, "\":")
  }

  /** The lines `Page.render` writes for the page itself, before its children:
      nothing at depth 0; one entry for a page without children; otherwise a
      header, then, when the page has a file name, an entry two spaces deeper
      that repeats the title with the file name. */
  function OwnLines(title: string, filename: Option<string>, hasChildren: bool, depth: nat): (r: seq<string>)
    ensures r == [] <==> depth == 0
  {
    if depth == 0 then []
    else if !hasChildren then [EntryLine(depth, title, FileText(filename))]
    else
      [HeaderLine(depth, title)]
      + (if Truthy(filename) then [Indent(depth) + "  - \"" + title + "\": " + filename.value] else [])
  }

  /** The repeated entry under a header is an entry of the next depth. */
  lemma RepeatedEntryIsNested(depth: nat, title: string, file: string)
    ensures Indent(depth) + "  - \"" + title + "\": " + file == EntryLine(depth + 1, title, file)
  {
    assert Indent(depth) + "  " == "  " + Indent(depth) by {
      var a := Indent(depth) + "  ";
      var b := "  " + Indent(depth);
      assert |a| == |b|;
      forall i | 0 <= i < |a| ensures a[i] == b[i] {
        assert a[i] == ' ' && b[i] == ' ';
      }
    }
    var rest := "- \"" + title + "\": " + file;
    calc {
      Indent(depth) + "  - \"" + title + "\": " + file;
      { assert "  - \"" == "  " + "- \""; }
      (Indent(depth) + "  ") + rest;
      ("  " + Indent(depth)) + rest;
      Indent(depth + 1) + rest;
      EntryLine(depth + 1, title, file);
    }
  }

  // ---------------------------------------------------------------------------
  // Rendering

  function Size(n: Node): nat {
    match n
    case Page(_, _, children) => 1 + SizeAll(children)
    case Gen(_, _, _, _, _) => 2
  }

  function SizeAll(nodes: seq<Node>): nat {
    if nodes == [] then 0 else 1 + Size(nodes[0]) + SizeAll(nodes[1..])
  }

  /** The listing with the directory `dirname` taken out: a section is not
      expanded again inside its own expansion. */
  function Without(docs: Docs, dirname: string): (r: Docs)
    ensures r.listing.Keys == docs.listing.Keys - {dirname}
  {
    docs.(listing := docs.listing - {dirname})
  }

  /** `node.render(output, depth)`: a page writes its own lines, then renders
      its children one level deeper; a section renders its index page in its
      place. */
  function Render(n: Node, depth: nat, docs: Docs): seq<string>
    decreases docs.listing.Keys, Size(n), 1
  {
    match n
    case Page(title, filename, children) =>
      OwnLines(title, filename, children != [], depth) + RenderAll(children, depth + 1, docs)
    case Gen(_, dirname, _, _, _) =>
      if dirname in docs.listing then Render(IndexPage(n, docs), depth, Without(docs, dirname))
      else
        assert Globbed(dirname, docs) == [] && Children(n, docs) == [];
        assert Size(IndexPage(n, docs)) == 1;
        Render(IndexPage(n, docs), depth, docs)
  }

  /** The children, rendered in list order, each at `depth`. */
  function RenderAll(nodes: seq<Node>, depth: nat, docs: Docs): seq<string>
    decreases docs.listing.Keys, SizeAll(nodes), 0
  {
    if nodes == [] then [] else Render(nodes[0], depth, docs) + RenderAll(nodes[1..], depth, docs)
  }

  /** The first lines of `mkdocs.yml`. */
  const NavHeader: seq<string> := [
    "# this is auto-generated by docs/generate-toc.py, do not edit",
    "INHERIT: mkdocs-base.yml",
    "nav:"
  ]

  /** The lines of `mkdocs.yml`: the header, then every top-level entry of the
      table of contents rendered at depth 1. */
  function MkdocsNav(toc: seq<Node>, docs: Docs): seq<string> {
    NavHeader + RenderAll(toc, 1, docs)
  }

  // ---------------------------------------------------------------------------
  // Reading a nav line back

  /** A nav line read back: an entry with its file, or a header. */
  datatype NavLine = Entry(depth: nat, title: string, file: string) | Header(depth: nat, title: string)

  /** How many spaces `s` starts with. */
  function LeadingSpaces(s: string): (k: nat)
    ensures k <= |s| && (forall j | 0 <= j < k :: s[j] == ' ') && (k < |s| ==> s[k] != ' ')
  {
    if s != [] && s[0] == ' ' then
      var k := 1 + LeadingSpaces(s[1..]);
      assert forall j | 1 <= j < k :: s[j] == s[1..][j - 1];
      k
    else 0
  }

  /** What follows `- "` on a nav line: the title up to the next quote, then
      either `:` alone (a header) or `: ` and the file. */
  function ParseQuoted(depth: nat, body: string): Option<NavLine> {
    var q := IndexOf(body, '"');
    if q == |body| then None
    else
      var after := body[q + 1..];
      if after == ":" then Some(Header(depth, body[..q]))
      else if |after| >= 2 && after[..2] == ": " then Some(Entry(depth, body[..q], after[2..]))
      else None
  }

  /** Two spaces per level, then `- "` and the quoted part. */
  function ParseNavLine(line: string): Option<NavLine> {
    var k := LeadingSpaces(line);
    var rest := line[k..];
    if k % 2 != 0 || |rest| < 3 || rest[..3] != "- \"" then None
    else ParseQuoted(k / 2, rest[3..])
  }

  /** Indentation is read back as the number of spaces it holds. */
  lemma IndentReadBack(depth: nat, s: string)
    requires s != [] && s[0] != ' '
    ensures LeadingSpaces(Indent(depth) + s) == 2 * depth
    ensures (Indent(depth) + s)[2 * depth..] == s
  {
    var line := Indent(depth) + s;
    assert line[2 * depth] == s[0];
    assert forall j | 0 <= j < 2 * depth :: line[j] == ' ';
    var k := LeadingSpaces(line);
    if k != 2 * depth {
      assert false;
    }
  }

  /** The first quote after a quote-free title is the one that closes it. */
  lemma ClosingQuote(title: string, tail: string)
    requires '"' !in title && tail != [] && tail[0] == '"'
    ensures IndexOf(title + tail, '"') == |title|
    ensures (title + tail)[..|title|] == title && (title + tail)[|title| + 1..] == tail[1..]
  {
    var s := title + tail;
    assert s[|title|] == '"';
    assert forall j | 0 <= j < |title| :: s[j] == title[j];
    var q := IndexOf(s, '"');
    if q < |title| {
      assert false;
    }
  }

  /** A quoted line reads back as its depth and what follows `- "`. */
  lemma QuotedLineReadBack(depth: nat, title: string, tail: string)
    ensures ParseNavLine(QuotedLine(depth, title, tail)) == ParseQuoted(depth, title + tail)
  {
    var line := QuotedLine(depth, title, tail);
    var s := "- \"" + (title + tail);
    assert line == Indent(depth) + s;
    IndentReadBack(depth, s);
    var k := LeadingSpaces(line);
    assert k == 2 * depth && k % 2 == 0 && k / 2 == depth;
    assert line[k..] == s;
    assert s[..3] == "- \"" && s[3..] == title + tail;
  }

  /** The quoted part of an entry line reads back as its title and file. */
  lemma QuotedEntry(depth: nat, title: string, file: string)
    requires '"' !in title
    ensures ParseQuoted(depth, title + ("\": " + file)) == Some(Entry(depth, title, file))
  {
    var tail := "\": " + file;
    ClosingQuote(title, tail);
    assert tail[1..] == ": " + file;
    assert (": " + file)[..2] == ": " && (": " + file)[2..] == file;
  }

  /** The quoted part of a header line reads back as its title. */
  lemma QuotedHeader(depth: nat, title: string)
    requires '"' !in title
    ensures ParseQuoted(depth, title + "\":") == Some(Header(depth, title))
  {
    ClosingQuote(title, "\":");
    assert "\":"[1..] == ":";
  }

  /** An entry line reads back as its depth, title and file. */
  lemma EntryLineRoundTrip(depth: nat, title: string, file: string)
    requires '"' !in title
    ensures ParseNavLine(EntryLine(depth, title, file)) == Some(Entry(depth, title, file))
  {
    QuotedLineReadBack(depth, title, "\": " + file);
    QuotedEntry(depth, title, file);
  }

  /** A header line reads back as its depth and title. */
  lemma HeaderLineRoundTrip(depth: nat, title: string)
    requires '"' !in title
    ensures ParseNavLine(HeaderLine(depth, title)) == Some(Header(depth, title))
  {
    QuotedLineReadBack(depth, title, "\":");
    QuotedHeader(depth, title);
  }

  // ---------------------------------------------------------------------------
  // What the rendering promises

  /** The text of a nav line. */
  function Print(l: NavLine): string {
    match l
    case Entry(depth, title, file) => EntryLine(depth, title, file)
    case Header(depth, title) => HeaderLine(depth, title)
  }

  /** Every nav line with a quote-free title reads back as itself. */
  lemma PrintReadsBack(l: NavLine)
    requires '"' !in l.title
    ensures ParseNavLine(Print(l)) == Some(l)
  {
    match l
    case Entry(depth, title, file) => EntryLineRoundTrip(depth, title, file);
    case Header(depth, title) => HeaderLineRoundTrip(depth, title);
  }

  /** What a page's own lines say: nothing at depth 0; for a page without
      children one entry with its file name (`None` when it has none); for a
      page with children a header, then an entry one level deeper with its file
      name exactly when that name is present and not empty. */
  function OwnNav(title: string, filename: Option<string>, hasChildren: bool, depth: nat): seq<NavLine> {
    if depth == 0 then []
    else if !hasChildren then [Entry(depth, title, FileText(filename))]
    else [Header(depth, title)] + (if Truthy(filename) then [Entry(depth + 1, title, filename.value)] else [])
  }

  /** The page's own lines are the printed nav lines of `OwnNav`, in order. */
  lemma OwnLinesPrinted(title: string, filename: Option<string>, hasChildren: bool, depth: nat)
    ensures var ls := OwnNav(title, filename, hasChildren, depth);
      OwnLines(title, filename, hasChildren, depth) == seq(|ls|, i requires 0 <= i < |ls| => Print(ls[i]))
  {
    if depth > 0 && hasChildren && Truthy(filename) {
      RepeatedEntryIsNested(depth, title, filename.value);
    }
  }

  /** Rendering a list of nodes is rendering its parts one after the other. */
  lemma {:induction false} RenderAllAppend(a: seq<Node>, b: seq<Node>, depth: nat, docs: Docs)
    ensures RenderAll(a + b, depth, docs) == RenderAll(a, depth, docs) + RenderAll(b, depth, docs)
  {
    if a == [] {
      assert a + b == b;
    } else {
      assert (a + b)[0] == a[0];
      assert (a + b)[1..] == a[1..] + b;
      RenderAllAppend(a[1..], b, depth, docs);
    }
  }

  /** The concatenation of a list of line blocks, built from the back. */
  function Flatten(blocks: seq<seq<string>>): seq<string> {
    if blocks == [] then [] else Flatten(blocks[..|blocks| - 1]) + blocks[|blocks| - 1]
  }

  /** A page writes its own lines, then the renderings of its children, in
      list order, each one level deeper. */
  lemma {:induction false} RenderAllIsFlatten(nodes: seq<Node>, depth: nat, docs: Docs)
    ensures RenderAll(nodes, depth, docs) == Flatten(seq(|nodes|, i requires 0 <= i < |nodes| => Render(nodes[i], depth, docs)))
    decreases |nodes|
  {
    if nodes != [] {
      var init := nodes[..|nodes| - 1];
      var last := nodes[|nodes| - 1];
      assert nodes == init + [last];
      RenderAllAppend(init, [last], depth, docs);
      RenderAllIsFlatten(init, depth, docs);
      var blocks := seq(|nodes|, i requires 0 <= i < |nodes| => Render(nodes[i], depth, docs));
      assert blocks[..|blocks| - 1] == seq(|init|, i requires 0 <= i < |init| => Render(init[i], depth, docs));
      assert RenderAll([last], depth, docs) == Render(last, depth, docs);
    }
  }

  lemma RenderPageIsParentThenChildren(title: string, filename: Option<string>, children: seq<Node>, depth: nat, docs: Docs)
    ensures Render(Page(title, filename, children), depth, docs)
      == OwnLines(title, filename, children != [], depth)
         + Flatten(seq(|children|, i requires 0 <= i < |children| => Render(children[i], depth + 1, docs)))
  {
    RenderAllIsFlatten(children, depth + 1, docs);
  }

  // ---------------------------------------------------------------------------
  // Every line written reads back

  /** Titles that can be quoted: no `"` in any title of the tree. */
  predicate TitlesQuoteFree(n: Node) {
    match n
    case Page(title, _, children) => '"' !in title && forall c | c in children :: TitlesQuoteFree(c)
    case Gen(title, _, _, _, _) => '"' !in title
  }

  /** No `"` in any globbed path or any first line. */
  predicate DocsQuoteFree(docs: Docs) {
    && (forall d, p | d in docs.listing && p in docs.listing[d] :: '"' !in p)
    && (forall p | p in docs.firstLine :: '"' !in docs.firstLine[p])
  }

  /** The parts of a path a title is made of hold only characters of the path. */
  lemma PathPartsFromPath(p: string)
    ensures forall c | c in Basename(p) :: c in p
    ensures forall c | c in StripExtension(Basename(p)) :: c in p
    ensures forall c | c in Basename(Dirname(p)) :: c in p
  {
    var i := AfterLast(p, '/');
    forall c | c in Basename(p) ensures c in p {
      var j :| 0 <= j < |Basename(p)| && Basename(p)[j] == c;
      assert p[i + j] == c;
    }
    forall c | c in StripExtension(Basename(p)) ensures c in p {
      var j :| 0 <= j < |StripExtension(Basename(p))| && StripExtension(Basename(p))[j] == c;
      assert Basename(p)[j] == c;
    }
    var d := Dirname(p);
    var k := AfterLast(d, '/');
    forall c | c in Basename(d) ensures c in p {
      var j :| 0 <= j < |Basename(d)| && Basename(d)[j] == c;
      assert d[k + j] == c;
      assert p[k + j] == c;
    }
  }

  /** The children a section finds have quotable titles when its files do. */
  lemma ChildrenQuoteFree(g: Node, docs: Docs)
    requires g.Gen? && DocsQuoteFree(docs)
    ensures forall c | c in Children(g, docs) :: TitlesQuoteFree(c)
  {
    var names := Sorted(Globbed(g.dirname, docs), g.reverse);
    ClassifyKeepsUnskipped(g, names, docs);
    forall c | c in Children(g, docs) ensures TitlesQuoteFree(c) {
      var p :| p in names && !Skipped(g, p) && c == ChildOf(g, p, docs);
      assert p in multiset(names);
      assert p in Globbed(g.dirname, docs);
      assert '"' !in p;
      PathPartsFromPath(p);
      ChildOfShape(g, p, docs);
      if c.Page? && g.extractTitle {
        var line := FirstLine(p, docs);
        assert '"' !in line;
      }
    }
  }

  /** Every line reads back as an entry or a header at `depth` or deeper. */
  predicate ReadsBackFrom(lines: seq<string>, depth: nat) {
    forall line | line in lines :: ParseNavLine(line).Some? && ParseNavLine(line).value.depth >= depth
  }

  /** The first line reads back at exactly `depth`, with the given title. */
  predicate OpensWith(lines: seq<string>, depth: nat, title: string) {
    lines != [] && ParseNavLine(lines[0]).Some?
    && ParseNavLine(lines[0]).value.depth == depth && ParseNavLine(lines[0]).value.title == title
  }

  lemma ReadsBackJoin(a: seq<string>, b: seq<string>, depth: nat)
    requires ReadsBackFrom(a, depth) && ReadsBackFrom(b, depth + 1)
    ensures ReadsBackFrom(a + b, depth)
  {
    forall line | line in a + b
      ensures ParseNavLine(line).Some? && ParseNavLine(line).value.depth >= depth
    {
      if line !in a {
        assert line in b;
      }
    }
  }

  /** A page's own lines, at depth 1 or deeper, read back at its depth or one
      deeper, and the first is its own entry or header. */
  lemma OwnLinesReadBack(title: string, filename: Option<string>, hasChildren: bool, depth: nat)
    requires '"' !in title && depth > 0
    ensures ReadsBackFrom(OwnLines(title, filename, hasChildren, depth), depth)
    ensures OpensWith(OwnLines(title, filename, hasChildren, depth), depth, title)
  {
    var ls := OwnNav(title, filename, hasChildren, depth);
    var r := OwnLines(title, filename, hasChildren, depth);
    OwnLinesPrinted(title, filename, hasChildren, depth);
    assert forall i | 0 <= i < |ls| :: ls[i].title == title && ls[i].depth >= depth;
    forall i | 0 <= i < |ls| ensures ParseNavLine(r[i]) == Some(ls[i]) {
      PrintReadsBack(ls[i]);
    }
    assert ParseNavLine(r[0]) == Some(ls[0]);
  }

  /** Every line a node writes at depth `depth` >= 1 reads back as an entry or
      a header at that depth or deeper, and the first one is the node's own
      line, at exactly that depth and with the node's title. */
  lemma {:induction false} RenderReadsBack(n: Node, depth: nat, docs: Docs)
    requires depth >= 1 && TitlesQuoteFree(n) && DocsQuoteFree(docs)
    ensures ReadsBackFrom(Render(n, depth, docs), depth)
    ensures OpensWith(Render(n, depth, docs), depth, n.title)
    decreases docs.listing.Keys, Size(n), 1
  {
    match n
    case Page(title, filename, children) =>
      var own := OwnLines(title, filename, children != [], depth);
      OwnLinesReadBack(title, filename, children != [], depth);
      RenderAllReadsBack(children, depth + 1, docs);
      ReadsBackJoin(own, RenderAll(children, depth + 1, docs), depth);
      assert Render(n, depth, docs)[0] == own[0];
    case Gen(_, dirname, _, _, _) =>
      ChildrenQuoteFree(n, docs);
      var page := IndexPage(n, docs);
      if dirname in docs.listing {
        RenderReadsBack(page, depth, Without(docs, dirname));
      } else {
        assert Globbed(dirname, docs) == [] && Children(n, docs) == [];
        assert Size(page) == 1;
        RenderReadsBack(page, depth, docs);
      }
  }

  lemma {:induction false} RenderAllReadsBack(nodes: seq<Node>, depth: nat, docs: Docs)
    requires depth >= 1 && DocsQuoteFree(docs)
    requires forall c | c in nodes :: TitlesQuoteFree(c)
    ensures ReadsBackFrom(RenderAll(nodes, depth, docs), depth)
    decreases docs.listing.Keys, SizeAll(nodes), 0
  {
    if nodes != [] {
      RenderReadsBack(nodes[0], depth, docs);
      RenderAllReadsBack(nodes[1..], depth, docs);
      var a := Render(nodes[0], depth, docs);
      var b := RenderAll(nodes[1..], depth, docs);
      forall line | line in a + b
        ensures ParseNavLine(line).Some? && ParseNavLine(line).value.depth >= depth
      {
        if line !in a {
          assert line in b;
        }
      }
    }
  }

  /** `mkdocs.yml` starts with the three header lines; every other line is a
      nav entry or header at depth 1 or deeper. */
  lemma MkdocsNavReadsBack(toc: seq<Node>, docs: Docs)
    requires DocsQuoteFree(docs) && forall c | c in toc :: TitlesQuoteFree(c)
    ensures var r := MkdocsNav(toc, docs);
      && r[..3] == NavHeader
      && forall i | 3 <= i < |r| :: ParseNavLine(r[i]).Some? && ParseNavLine(r[i]).value.depth >= 1
  {
    var r := MkdocsNav(toc, docs);
    RenderAllReadsBack(toc, 1, docs);
    forall i | 3 <= i < |r| ensures ParseNavLine(r[i]).Some? && ParseNavLine(r[i]).value.depth >= 1 {
      assert r[i] == RenderAll(toc, 1, docs)[i - 3];
      assert r[i] in RenderAll(toc, 1, docs);
    }
  }
}
