/** The page tree of `generate-toc.py`: explicit pages, and generated sections
    (`Gen`) whose children come from the Markdown files of a directory. */
module TocPages {
  import opened Wrappers
  import opened PyText
  import opened PySort

  /** A node of the table of contents: `Page(title, filename, children)` or
      `Gen(title, dirname, index, extract_title, reverse)`. */
  datatype Node =
    | Page(title: string, filename: Option<string>, children: seq<Node>)
    | Gen(title: string, dirname: string, index: Option<string>, extractTitle: bool, reverse: bool)

  /** What `Gen.render` reads from disk: the paths the two globs of each
      directory return, and the first line of each file. */
  datatype Docs = Docs(listing: map<string, seq<string>>, firstLine: map<string, string>)

  /** The two globs of `Gen.render` (the Markdown files of the directory, then
      the `_index.md` files of its sub-directories), concatenated, unsorted. */
  function Globbed(dirname: string, docs: Docs): seq<string> {
    if dirname in docs.listing then docs.listing[dirname] else []
  }

  /** `f.readline()` of the file at `path` (empty for an empty file). */
  function FirstLine(path: string, docs: Docs): string {
    if path in docs.firstLine then docs.firstLine[path] else ""
  }

  predicate IsIndexStem(t: string) {
    t == "index" || t == "_index"
  }

  /** A path in `g`'s own directory whose stem is `index` or `_index`: never a child. */
  predicate Skipped(g: Node, path: string)
    requires g.Gen?
  {
    Dirname(path) == g.dirname && IsIndexStem(StripExtension(Basename(path)))
  }

  /** A path in a sub-directory becomes a nested `Gen` for that sub-directory. */
  function NestedGen(path: string): Node {
    Gen(Basename(Dirname(path)), Dirname(path), None, false, false)
  }

  /** The title of a child page: the file's first line without `#`s and blanks
      under `extract_title`, the file name without its extension otherwise. */
  function PageTitle(g: Node, path: string, docs: Docs): string
    requires g.Gen?
  {
    if g.extractTitle then ExtractTitle(FirstLine(path, docs)) else StripExtension(Basename(path))
  }

  /** The child a globbed path that is not skipped becomes. */
  function ChildOf(g: Node, path: string, docs: Docs): Node
    requires g.Gen?
  {
    if Dirname(path) != g.dirname then NestedGen(path) else Page(PageTitle(g, path, docs), Some(path), [])
  }

  /** The shape of the loop of `Gen.render`: walk the names in order and
      append `make(x)` for every name `keep` accepts. */
  function KeepMap<X, Y>(xs: seq<X>, keep: X -> bool, make: X -> Y): (r: seq<Y>)
    ensures |r| <= |xs|
  {
    if xs == [] then []
    else
      var rest := KeepMap(xs[1..], keep, make);
      if keep(xs[0]) then [make(xs[0])] + rest else rest
  }

  /** Everything the loop appends comes from an accepted name. */
  lemma {:induction false} KeepMapSound<X, Y>(xs: seq<X>, keep: X -> bool, make: X -> Y)
    ensures forall y | y in KeepMap(xs, keep, make) :: exists i | 0 <= i < |xs| :: keep(xs[i]) && y == make(xs[i])
  {
    if xs != [] {
      KeepMapSound(xs[1..], keep, make);
      forall y | y in KeepMap(xs, keep, make)
        ensures exists i | 0 <= i < |xs| :: keep(xs[i]) && y == make(xs[i])
      {
        if !(keep(xs[0]) && y == make(xs[0])) {
          assert y in KeepMap(xs[1..], keep, make);
          var i :| 0 <= i < |xs[1..]| && keep(xs[1..][i]) && y == make(xs[1..][i]);
          assert xs[i + 1] == xs[1..][i];
        }
      }
    }
  }

  /** Every accepted name is appended. */
  lemma {:induction false} KeepMapComplete<X, Y>(xs: seq<X>, keep: X -> bool, make: X -> Y)
    ensures forall i | 0 <= i < |xs| && keep(xs[i]) :: make(xs[i]) in KeepMap(xs, keep, make)
  {
    if xs != [] {
      KeepMapComplete(xs[1..], keep, make);
      forall i | 0 <= i < |xs| && keep(xs[i])
        ensures make(xs[i]) in KeepMap(xs, keep, make)
      {
        if i > 0 {
          assert xs[i] == xs[1..][i - 1];
        }
      }
    }
  }

  /** `le` holds between any element of `r` and any later one. */
  predicate Chain<Y>(r: seq<Y>, le: (Y, Y) -> bool) {
    forall i, j | 0 <= i < j < |r| :: le(r[i], r[j])
  }

  /** The loop keeps the order of the names: a relation that holds between the
      results of any two accepted names, in name order, holds between any two
      appended results, in list order. */
  lemma {:induction false} KeepMapOrdered<X, Y>(xs: seq<X>, keep: X -> bool, make: X -> Y, le: (Y, Y) -> bool)
    requires forall i, j | 0 <= i < j < |xs| && keep(xs[i]) && keep(xs[j]) :: le(make(xs[i]), make(xs[j]))
    ensures Chain(KeepMap(xs, keep, make), le)
  {
    if xs != [] {
      var tail := xs[1..];
      assert forall i, j | 0 <= i < j < |tail| && keep(tail[i]) && keep(tail[j]) :: le(make(tail[i]), make(tail[j])) by {
        forall i, j | 0 <= i < j < |tail| && keep(tail[i]) && keep(tail[j])
          ensures le(make(tail[i]), make(tail[j]))
        {
          assert tail[i] == xs[i + 1] && tail[j] == xs[j + 1];
        }
      }
      KeepMapOrdered(tail, keep, make, le);
      var rest := KeepMap(tail, keep, make);
      if keep(xs[0]) {
        var r := [make(xs[0])] + rest;
        KeepMapSound(tail, keep, make);
        assert KeepMap(xs, keep, make) == r;
        forall i, j | 0 <= i < j < |r|
          ensures le(r[i], r[j])
        {
          assert r[j] == rest[j - 1] && r[j] in rest;
          if i == 0 {
            var k :| 0 <= k < |tail| && keep(tail[k]) && r[j] == make(tail[k]);
            assert tail[k] == xs[k + 1] && keep(xs[k + 1]);
            assert le(make(xs[0]), make(xs[k + 1]));
          } else {
            assert r[i] == rest[i - 1];
            assert 0 <= i - 1 < j - 1 < |rest|;
            assert le(rest[i - 1], rest[j - 1]);
          }
        }
      }
    }
  }

  /** Every position moved one place on. */
  function Shift(idx: seq<nat>): (r: seq<nat>)
    ensures |r| == |idx| && forall k | 0 <= k < |idx| :: r[k] == idx[k] + 1
  {
    seq(|idx|, k requires 0 <= k < |idx| => idx[k] + 1)
  }

  /** The positions of the names `keep` accepts, in increasing order. */
  function KeptPositions<X>(xs: seq<X>, keep: X -> bool): (idx: seq<nat>)
    ensures |idx| <= |xs|
  {
    if xs == [] then []
    else if keep(xs[0]) then [0] + Shift(KeptPositions(xs[1..], keep))
    else Shift(KeptPositions(xs[1..], keep))
  }

  predicate Increasing(idx: seq<nat>) {
    forall k, l | 0 <= k < l < |idx| :: idx[k] < idx[l]
  }

  /** Every position in `idx` is one of `xs` that `keep` accepts. */
  predicate AtKept<X>(xs: seq<X>, keep: X -> bool, idx: seq<nat>) {
    forall k | 0 <= k < |idx| :: idx[k] < |xs| && keep(xs[idx[k]])
  }

  /** Every position of `xs` that `keep` accepts is in `idx`. */
  predicate CoversKept<X>(xs: seq<X>, keep: X -> bool, idx: seq<nat>) {
    forall i | 0 <= i < |xs| && keep(xs[i]) :: i in idx
  }

  /** `r[k]` is `make` of the element at position `idx[k]`. */
  predicate MapsAt<X, Y(==)>(xs: seq<X>, make: X -> Y, idx: seq<nat>, r: seq<Y>) {
    |idx| == |r| && forall k | 0 <= k < |idx| && idx[k] < |xs| :: r[k] == make(xs[idx[k]])
  }

  /** `r` is `make` applied to the elements of `xs` at positions `idx`, which
      increase strictly and are exactly the positions `keep` accepts. */
  predicate Picks<X, Y(==)>(xs: seq<X>, keep: X -> bool, make: X -> Y, idx: seq<nat>, r: seq<Y>) {
    Increasing(idx) && AtKept(xs, keep, idx) && CoversKept(xs, keep, idx) && MapsAt(xs, make, idx, r)
  }

  /** The kept positions increase. */
  lemma {:induction false} KeptIncreasing<X>(xs: seq<X>, keep: X -> bool)
    ensures Increasing(KeptPositions(xs, keep))
  {
    if xs != [] {
      KeptIncreasing(xs[1..], keep);
      var sh := Shift(KeptPositions(xs[1..], keep));
      if keep(xs[0]) {
        var idx := [0] + sh;
        forall k, l | 0 <= k < l < |idx| ensures idx[k] < idx[l] {
          assert idx[l] == sh[l - 1];
          if k > 0 { assert idx[k] == sh[k - 1]; }
        }
      }
    }
  }

  /** Every kept position is one `keep` accepts. */
  lemma {:induction false} KeptAccepted<X>(xs: seq<X>, keep: X -> bool)
    ensures AtKept(xs, keep, KeptPositions(xs, keep))
  {
    if xs != [] {
      var tail := xs[1..];
      KeptAccepted(tail, keep);
      var ti := KeptPositions(tail, keep);
      var sh := Shift(ti);
      assert AtKept(xs, keep, sh) by {
        forall k | 0 <= k < |sh| ensures sh[k] < |xs| && keep(xs[sh[k]]) {
          assert xs[sh[k]] == tail[ti[k]];
        }
      }
      if keep(xs[0]) {
        var idx := [0] + sh;
        forall k | 0 <= k < |idx| ensures idx[k] < |xs| && keep(xs[idx[k]]) {
          if k > 0 { assert idx[k] == sh[k - 1]; }
        }
      }
    }
  }

  /** Every position `keep` accepts is kept. */
  lemma {:induction false} KeptComplete<X>(xs: seq<X>, keep: X -> bool)
    ensures CoversKept(xs, keep, KeptPositions(xs, keep))
  {
    if xs != [] {
      var tail := xs[1..];
      KeptComplete(tail, keep);
      var ti := KeptPositions(tail, keep);
      var sh := Shift(ti);
      assert forall i | 1 <= i < |xs| && keep(xs[i]) :: i in sh by {
        forall i | 1 <= i < |xs| && keep(xs[i]) ensures i in sh {
          assert tail[i - 1] == xs[i];
          var k :| 0 <= k < |ti| && ti[k] == i - 1;
          assert sh[k] == i;
        }
      }
      var idx := KeptPositions(xs, keep);
      forall i | 0 <= i < |xs| && keep(xs[i]) ensures i in idx {
        if i == 0 {
          assert idx[0] == 0;
        } else {
          assert i in sh;
        }
      }
    }
  }

  /** The k-th result of the loop is `make` of the k-th kept name. */
  lemma {:induction false} KeepMapAtKept<X, Y>(xs: seq<X>, keep: X -> bool, make: X -> Y)
    ensures MapsAt(xs, make, KeptPositions(xs, keep), KeepMap(xs, keep, make))
  {
    if xs != [] {
      var tail := xs[1..];
      KeepMapAtKept(tail, keep, make);
      var ti, rt := KeptPositions(tail, keep), KeepMap(tail, keep, make);
      var sh := Shift(ti);
      assert MapsAt(xs, make, sh, rt) by {
        forall k | 0 <= k < |sh| && sh[k] < |xs| ensures rt[k] == make(xs[sh[k]]) {
          assert xs[sh[k]] == tail[ti[k]];
        }
      }
      if keep(xs[0]) {
        var idx, r := [0] + sh, [make(xs[0])] + rt;
        forall k | 0 <= k < |idx| && idx[k] < |xs| ensures r[k] == make(xs[idx[k]]) {
          if k > 0 { assert idx[k] == sh[k - 1] && r[k] == rt[k - 1]; }
        }
      }
    }
  }

  /** The loop's result is the accepted names, mapped, as a subsequence: one
      result per accepted name, none for the others, in name order. */
  lemma KeepMapPicks<X, Y>(xs: seq<X>, keep: X -> bool, make: X -> Y)
    ensures Picks(xs, keep, make, KeptPositions(xs, keep), KeepMap(xs, keep, make))
  {
    KeptIncreasing(xs, keep);
    KeptAccepted(xs, keep);
    KeptComplete(xs, keep);
    KeepMapAtKept(xs, keep, make);
  }

  function KeepStep(g: Node): string -> bool
    requires g.Gen?
  {
    p => !Skipped(g, p)
  }

  function MakeStep(g: Node, docs: Docs): string -> Node
    requires g.Gen?
  {
    p => ChildOf(g, p, docs)
  }

  /** The loop of `Gen.render` over the sorted names: every name becomes a
      child, except the index files of the directory itself. */
  function Classify(g: Node, names: seq<string>, docs: Docs): seq<Node>
    requires g.Gen?
  {
    KeepMap(names, KeepStep(g), MakeStep(g, docs))
  }

  /** Every child comes from a name that is not skipped, and every name that is
      not skipped gives a child; none is added and none is lost. */
  lemma ClassifyKeepsUnskipped(g: Node, names: seq<string>, docs: Docs)
    requires g.Gen?
    ensures |Classify(g, names, docs)| <= |names|
    ensures forall c | c in Classify(g, names, docs) :: exists p | p in names :: !Skipped(g, p) && c == ChildOf(g, p, docs)
    ensures forall p | p in names && !Skipped(g, p) :: ChildOf(g, p, docs) in Classify(g, names, docs)
  {
    KeepMapSound(names, KeepStep(g), MakeStep(g, docs));
    KeepMapComplete(names, KeepStep(g), MakeStep(g, docs));
    forall c | c in Classify(g, names, docs)
      ensures exists p | p in names :: !Skipped(g, p) && c == ChildOf(g, p, docs)
    {
      var i :| 0 <= i < |names| && KeepStep(g)(names[i]) && c == MakeStep(g, docs)(names[i]);
      assert names[i] in names;
    }
    forall p | p in names && !Skipped(g, p)
      ensures ChildOf(g, p, docs) in Classify(g, names, docs)
    {
      var i :| 0 <= i < |names| && names[i] == p;
      assert KeepStep(g)(names[i]);
    }
  }

  /** The children `Gen.render` gives `g`: its globbed names, sorted (in reverse
      when `reverse` is set), classified. */
  function Children(g: Node, docs: Docs): seq<Node>
    requires g.Gen?
  {
    Classify(g, Sorted(Globbed(g.dirname, docs), g.reverse), docs)
  }

  /** The page `Gen.render` renders in its place: `{dirname}/index.md`, titled
      like the section, with the classified children. */
  function IndexPage(g: Node, docs: Docs): Node
    requires g.Gen?
  {
    Page(g.title, Some(g.dirname + "/index.md"), Children(g, docs))
  }

  // ---------------------------------------------------------------------------
  // What the classification promises

  /** What a single globbed path becomes: a page for a file of the directory
      itself, titled by its name without extension unless `extract_title` is
      set; a nested section, titled by the sub-directory's name, otherwise. */
  lemma ChildOfShape(g: Node, p: string, docs: Docs)
    requires g.Gen?
    ensures var c := ChildOf(g, p, docs);
      && (c.Page? <==> Dirname(p) == g.dirname)
      && (c.Page? ==> c.filename == Some(p) && c.children == [])
      && (c.Page? && !g.extractTitle ==> c.title == StripExtension(Basename(p)))
      && (c.Page? && g.extractTitle ==> c.title == ExtractTitle(FirstLine(p, docs)))
      && (c.Gen? ==> c == Gen(Basename(Dirname(p)), Dirname(p), None, false, false))
  {
  }

  /** Child pages are files of the directory itself that are not index files;
      without `extract_title` they are titled by their name without extension;
      nested sections come from sub-directories and are titled by their name. */
  lemma ChildrenShape(g: Node, names: seq<string>, docs: Docs)
    requires g.Gen?
    ensures forall c | c in Classify(g, names, docs) && c.Page? ::
      && c.filename.Some? && c.filename.value in names
      && Dirname(c.filename.value) == g.dirname
      && !IsIndexStem(StripExtension(Basename(c.filename.value)))
      && c.children == []
      && (!g.extractTitle ==> c.title == StripExtension(Basename(c.filename.value)))
    ensures forall c | c in Classify(g, names, docs) && c.Gen? ::
      exists p | p in names :: Dirname(p) != g.dirname && c == NestedGen(p)
  {
    ClassifyKeepsUnskipped(g, names, docs);
    forall c | c in Classify(g, names, docs)
      ensures c.Page? ==>
        && c.filename.Some? && c.filename.value in names
        && Dirname(c.filename.value) == g.dirname
        && !IsIndexStem(StripExtension(Basename(c.filename.value)))
        && c.children == []
        && (!g.extractTitle ==> c.title == StripExtension(Basename(c.filename.value)))
      ensures c.Gen? ==> exists p | p in names :: Dirname(p) != g.dirname && c == NestedGen(p)
    {
      var p :| p in names && !Skipped(g, p) && c == ChildOf(g, p, docs);
      ChildOfShape(g, p, docs);
    }
  }

  predicate InOrder(a: string, b: string, reverse: bool) {
    if reverse then StrLe(b, a) else StrLe(a, b)
  }

  /** Two nodes in page order: when both are pages with file names, the names
      are in the order `reverse` asks for. */
  predicate PageOrder(reverse: bool, a: Node, b: Node) {
    a.Page? && b.Page? && a.filename.Some? && b.filename.Some? ==> InOrder(a.filename.value, b.filename.value, reverse)
  }

  /** The pages of `r` appear in the given order of their file names. */
  predicate PagesInOrder(r: seq<Node>, reverse: bool) {
    forall i, j | 0 <= i < j < |r| :: PageOrder(reverse, r[i], r[j])
  }

  predicate NamesInOrder(names: seq<string>, reverse: bool) {
    forall i, j | 0 <= i < j < |names| :: InOrder(names[i], names[j], reverse)
  }

  lemma SortedNamesInOrder(names: seq<string>, reverse: bool)
    requires if reverse then Descending(names) else Ascending(names)
    ensures NamesInOrder(names, reverse)
  {
  }

  function PageOrderStep(reverse: bool): (Node, Node) -> bool {
    (a, b) => PageOrder(reverse, a, b)
  }

  /** Two names in order give children in page order. */
  lemma ChildrenInPageOrder(g: Node, p: string, q: string, docs: Docs, reverse: bool)
    requires g.Gen? && InOrder(p, q, reverse)
    ensures PageOrder(reverse, ChildOf(g, p, docs), ChildOf(g, q, docs))
  {
    ChildOfShape(g, p, docs);
    ChildOfShape(g, q, docs);
  }

  /** Child pages keep the order of the names they come from. */
  lemma PagesKeepNameOrder(g: Node, names: seq<string>, docs: Docs, reverse: bool)
    requires g.Gen?
    requires NamesInOrder(names, reverse)
    ensures PagesInOrder(Classify(g, names, docs), reverse)
  {
    var keep, make, le := KeepStep(g), MakeStep(g, docs), PageOrderStep(reverse);
    forall i, j | 0 <= i < j < |names| && keep(names[i]) && keep(names[j])
      ensures le(make(names[i]), make(names[j]))
    {
      ChildrenInPageOrder(g, names[i], names[j], docs, reverse);
    }
    KeepMapOrdered(names, keep, make, le);
  }

  /** The loop gives one child per name that is not skipped, none for the
      others, in the order of the names. */
  lemma ClassifyPicks(g: Node, names: seq<string>, docs: Docs)
    requires g.Gen?
    ensures Picks(names, KeepStep(g), MakeStep(g, docs), KeptPositions(names, KeepStep(g)), Classify(g, names, docs))
  {
    KeepMapPicks(names, KeepStep(g), MakeStep(g, docs));
  }

  /** The children of a section, nested sections included, follow the sorted
      order of the names they come from, descending when `reverse` is set:
      child k comes from the name at position `idx[k]` of the sorted listing,
      and the positions increase. In particular its pages are in file-name order. */
  lemma ChildrenKeepSortedOrder(g: Node, docs: Docs)
    requires g.Gen?
    ensures var names := Sorted(Globbed(g.dirname, docs), g.reverse);
      && NamesInOrder(names, g.reverse)
      && Picks(names, KeepStep(g), MakeStep(g, docs), KeptPositions(names, KeepStep(g)), Children(g, docs))
    ensures PagesInOrder(Children(g, docs), g.reverse)
  {
    var names := Sorted(Globbed(g.dirname, docs), g.reverse);
    SortedNamesInOrder(names, g.reverse);
    ClassifyPicks(g, names, docs);
    PagesKeepNameOrder(g, names, docs, g.reverse);
  }

  /** What the first glob produces: `{dirname}/{stem}.md` is skipped exactly
      when the stem is `index` or `_index`, and otherwise becomes a page titled
      `stem` (without `extract_title`). */
  lemma GlobbedFile(g: Node, stem: string, docs: Docs)
    requires g.Gen? && g.dirname != [] && g.dirname[|g.dirname| - 1] != '/'
    requires '/' !in stem
    ensures var file := g.dirname + "/" + stem + ".md";
      && (Skipped(g, file) <==> IsIndexStem(stem))
      && (!g.extractTitle ==> ChildOf(g, file, docs) == Page(stem, Some(file), []))
  {
    var file := g.dirname + "/" + stem + ".md";
    assert file == g.dirname + "/" + (stem + ".md");
    assert '/' !in stem + ".md";
    SplitJoined(g.dirname, stem + ".md");
    assert stem + "." + "md" == stem + ".md";
    StripExtensionOf(stem, "md");
    assert Dirname(file) == g.dirname && StripExtension(Basename(file)) == stem;
  }

  /** What the second glob produces: `{dirname}/{sub}/_index.md` is never
      skipped and becomes a nested section for `{dirname}/{sub}`, titled `sub`. */
  lemma GlobbedSubIndex(g: Node, sub: string, docs: Docs)
    requires g.Gen? && g.dirname != [] && g.dirname[|g.dirname| - 1] != '/'
    requires sub != [] && '/' !in sub
    ensures var index := g.dirname + "/" + sub + "/_index.md";
      && !Skipped(g, index)
      && ChildOf(g, index, docs) == Gen(sub, g.dirname + "/" + sub, None, false, false)
  {
    var d := g.dirname + "/" + sub;
    assert d[|d| - 1] == sub[|sub| - 1];
    var index := g.dirname + "/" + sub + "/_index.md";
    assert index == d + "/" + "_index.md";
    SplitJoined(d, "_index.md");
    SplitJoined(g.dirname, sub);
    assert |d| > |g.dirname|;
  }

  // ---------------------------------------------------------------------------
  // The index file

  /** A child that can be linked: every page `Gen.render` creates has a file name. */
  predicate Linkable(c: Node) {
    c.Page? ==> c.filename.Some?
  }

  /** Where the link of a child points: the page's file name, or the nested
      section's own `index.md`. */
  function LinkTarget(c: Node): string
    requires Linkable(c)
  {
    match c
    case Page(_, f, _) => Basename(f.value)
    case Gen(_, d, _, _, _) => Basename(d) + "/index.md"
  }

  /** `f"  - [{title}]({target})"` */
  function LinkLine(title: string, target: string): string {
    "  - [" + title + "](" + target + ")"
  }

  /** The link lines of the index file, one per child, in order. */
  function IndexLinks(children: seq<Node>): (r: seq<string>)
    requires forall c | c in children :: Linkable(c)
    ensures |r| == |children|
  {
    seq(|children|, i requires 0 <= i < |children| => LinkLine(children[i].title, LinkTarget(children[i])))
  }

  /** Lines written to a file, each followed by a newline. */
  function Text(lines: seq<string>): string {
    if lines == [] then "" else lines[0] + "\n" + Text(lines[1..])
  }

  /** `index.md`: the section's own text (else the directory's `_index.md`, when
      there is one) and a blank line, then the links to its children. */
  function IndexText(g: Node, underscoreIndex: Option<string>, children: seq<Node>): (r: string)
    requires g.Gen?
    requires forall c | c in children :: Linkable(c)
    ensures var links := Text(IndexLinks(children));
      && |r| >= |links| && r[|r| - |links|..] == links
      && (g.index.Some? && g.index.value != "" ==> r == g.index.value + "\n\n" + links)
      && (!(g.index.Some? && g.index.value != "") && underscoreIndex.Some? ==> r == underscoreIndex.value + "\n\n" + links)
      && (!(g.index.Some? && g.index.value != "") && underscoreIndex.None? ==> r == links)
  {
    var intro :=
      if g.index.Some? && g.index.value != "" then g.index.value + "\n\n"
      else if underscoreIndex.Some? then underscoreIndex.value + "\n\n"
      else "";
    intro + Text(IndexLinks(children))
  }

  /** A link line read back: the text between `[` and the first `]`, and the
      text between the following `(` and the final `)`. */
  datatype Link = Link(title: string, target: string)

  /** The position of the first `c` in `s`, or `|s|`. */
  function IndexOf(s: string, c: char): (k: nat)
    ensures k <= |s| && (k < |s| ==> s[k] == c) && forall j | 0 <= j < k :: s[j] != c
  {
    if s == [] || s[0] == c then 0
    else
      var k := 1 + IndexOf(s[1..], c);
      assert forall j | 1 <= j < k :: s[j] == s[1..][j - 1];
      k
  }

  function ParseLink(line: string): Option<Link> {
    if |line| < 5 || line[..5] != "  - [" then None
    else
      var rest := line[5..];
      var k := IndexOf(rest, ']');
      if k + 1 < |rest| && rest[k + 1] == '(' && k + 2 <= |rest| - 1 && rest[|rest| - 1] == ')'
      then Some(Link(rest[..k], rest[k + 2..|rest| - 1]))
      else None
  }

  /** A link line gives back its title and target, for titles without `]`. */
  lemma LinkRoundTrip(title: string, target: string)
    requires ']' !in title
    ensures ParseLink(LinkLine(title, target)) == Some(Link(title, target))
  {
    var line := LinkLine(title, target);
    assert line[..5] == "  - [";
    var rest := line[5..];
    assert rest == title + "](" + target + ")";
    assert rest[|title|] == ']';
    assert IndexOf(rest, ']') == |title| by {
      var k := IndexOf(rest, ']');
      if k < |title| { assert false; }
    }
    assert rest[..|title|] == title;
    assert rest[|title| + 2..|rest| - 1] == target;
  }

  /** Each child's link line reads back as its title and its target: a page
      links to its file name, a nested section to `{dir}/index.md`. */
  lemma IndexLinksRoundTrip(children: seq<Node>)
    requires forall c | c in children :: Linkable(c) && ']' !in c.title
    ensures forall i | 0 <= i < |children| ::
      ParseLink(IndexLinks(children)[i]) == Some(Link(children[i].title, LinkTarget(children[i])))
  {
    forall i | 0 <= i < |children|
      ensures ParseLink(IndexLinks(children)[i]) == Some(Link(children[i].title, LinkTarget(children[i])))
    {
      assert children[i] in children;
      LinkRoundTrip(children[i].title, LinkTarget(children[i]));
    }
  }

  /** IndexOf is determined by its defining facts. */
  lemma IndexOfIs(s: string, c: char, k: nat)
    requires k < |s| && s[k] == c && forall j | 0 <= j < k :: s[j] != c
    ensures IndexOf(s, c) == k
  {
    var i := IndexOf(s, c);
    if i != k {
      assert false;
    }
  }

  /** The lines of a text: the pieces between newlines, without a last empty
      piece after a final newline. */
  function Lines(s: string): seq<string>
    decreases |s|
  {
    if s == [] then []
    else
      var k := IndexOf(s, '\n');
      if k == |s| then [s] else [s[..k]] + Lines(s[k + 1..])
  }

  /** A text whose first newline is at `k` is its first line, then the lines after it. */
  lemma LinesSplit(s: string, k: nat)
    requires k < |s| && s[k] == '\n' && forall j | 0 <= j < k :: s[j] != '\n'
    ensures Lines(s) == [s[..k]] + Lines(s[k + 1..])
  {
    IndexOfIs(s, '\n', k);
  }

  /** A line without newlines, a newline, then more text: that line comes first. */
  lemma LinesCons(l: string, rest: string)
    requires '\n' !in l
    ensures Lines(l + "\n" + rest) == [l] + Lines(rest)
  {
    var t := l + "\n" + rest;
    assert t[|l|] == '\n' && forall j | 0 <= j < |l| :: t[j] == l[j];
    LinesSplit(t, |l|);
    assert t[..|l|] == l;
    assert t[|l| + 1..] == rest;
  }

  /** Writing lines without newlines and splitting the text again gives them back. */
  lemma {:induction false} LinesOfText(lines: seq<string>)
    requires forall l | l in lines :: '\n' !in l
    ensures Lines(Text(lines)) == lines
  {
    if lines != [] {
      assert lines[0] in lines;
      LinesCons(lines[0], Text(lines[1..]));
      assert forall m | m in lines[1..] :: m in lines;
      LinesOfText(lines[1..]);
      assert lines == [lines[0]] + lines[1..];
    }
  }

  /** Every child whose title and link target are free of newlines and whose
      title has no `]` can be read back from `index.md`. */
  predicate ReadableLink(c: Node) {
    Linkable(c) && ']' !in c.title && '\n' !in c.title && '\n' !in LinkTarget(c)
  }

  /** `index.md` read back: it ends with the link text, which splits into one
      line per child, in order, each read back as the child's title and link
      target. Without an intro the file holds nothing but those links. */
  lemma IndexTextReadsBack(g: Node, underscoreIndex: Option<string>, children: seq<Node>)
    requires g.Gen?
    requires forall c | c in children :: Linkable(c)
    requires forall c | c in children :: ReadableLink(c)
    ensures var r, links := IndexText(g, underscoreIndex, children), Text(IndexLinks(children));
      && |r| >= |links| && r[|r| - |links|..] == links
      && |Lines(links)| == |children|
      && (forall i | 0 <= i < |children| ::
            ParseLink(Lines(links)[i]) == Some(Link(children[i].title, LinkTarget(children[i]))))
      && (!(g.index.Some? && g.index.value != "") && underscoreIndex.None? ==> r == links)
  {
    var links := IndexLinks(children);
    forall l | l in links ensures '\n' !in l {
      var i :| 0 <= i < |links| && links[i] == l;
      assert children[i] in children;
      assert l == "  - [" + children[i].title + "](" + LinkTarget(children[i]) + ")";
    }
    LinesOfText(links);
    IndexLinksRoundTrip(children);
  }
}
