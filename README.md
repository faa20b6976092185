# Resolver configuration and docs TOC rendering, modelled in Dafny

This project models two small cores of the KumoMTA repository.

**The DNS resolver configuration entry points** (`crates/mod-dns-resolver/src/lib.rs`).
These are `configure_resolver`, `configure_unbound_resolver` and `configure_test_resolver`.
Each turns a `DnsConfig` record into a resolver backend and installs it into the process-wide resolver slot with `reconfigure_resolver`.

- `configure_resolver` (Hickory) parses the optional domain, then every search suffix, then the name-server entries one by one: each entry's socket address, then that entry's bind address when it has one.
- The first string that does not parse aborts the call. Its error message names that string: `domain: '…'`, `search: '…'`, `name server: '…'`, or `name server: '…' bind_addr: '…'`.
- The slot is replaced only after everything has been built.
- `configure_unbound_resolver` configures a libunbound context step by step:
  - one forwarder per name server, using only the socket address;
  - built-in trust anchors when `validate` is set;
  - the hosts file when the policy is `Always` or `Auto`;
  - then the async conversion.
- `configure_test_resolver` seeds a test backend zone by zone.

The module layout:

- `Traverse.MapAll` is the loop shape these functions share: translate each element in order and stop at the first failure.
- `HickorySetup` holds the translation as functions, plus a flat reference description (`Inputs`, `FirstRejected`). It also holds the step-by-step builder (`ResolverConfigBuilder`, `BuildResolverConfig`), proved equal to the functions.
- `UnboundSetup` has the same structure for libunbound (`SetupUnbound`, `UnboundContext`, `BuildUnboundContext`).
- `TestSetup` builds the test backend.
- `ResolverSlot.Slot` is the global slot. It holds the three entry points as methods that replace its `current` field.

Socket-address parsing and `Name::from_str_relaxed` are foreign code. They appear as parameters of function type (`SockParser`, `NameParser`) that may fail on any input. The outcomes of the libunbound calls are likewise a parameter (`UnboundLib`).

**The docs table-of-contents generator** (`docs/generate-toc.py`).

- `Page.render` writes a tree of pages as indented `nav:` lines of `mkdocs.yml`.
- `Gen.render` lists a directory's Markdown files and turns the sorted paths into children:
  - a page for each file of the directory;
  - a nested section for each sub-directory that has an `_index.md`;
  - nothing for the directory's own `index`/`_index` files.
- It renders an index page in its own place, and writes `index.md` with one link line per child.

The module layout:

- `PyText` and `PySort` give the Python library behaviour the script relies on: `os.path.basename`, `os.path.dirname`, `rsplit(".", 1)[0]`, `strip`, string ordering and `sorted(..., reverse=...)`.
- `TocPages` holds the classification and the index file.
- `TocNav` holds the rendering, plus a reader for nav lines that the rendered output is proved to satisfy.

The globbed paths and the first lines of files come in as a `Docs` value in place of the filesystem.

## Model

| member | source | states |
|---|---|---|
| Traverse.MapAll | crates/mod-dns-resolver/src/lib.rs:124-129 | The in-order loop with early return succeeds iff every element's step succeeds. On success it holds one result per element, in order. On failure its error is the first failing element's error, and every earlier element succeeded. |
| Traverse.MapAllFirstFailure | crates/mod-dns-resolver/src/lib.rs:131-167 | When element k fails and all before it succeed, the loop reports exactly element k's error. |
| Traverse.MapAllAllSucceed | crates/mod-dns-resolver/src/lib.rs:131-167 | When every element gives a value, the loop returns exactly those values, in input order. |
| Traverse.MapAllPointwise | crates/mod-dns-resolver/src/lib.rs:185-195 | Two loops whose steps agree element by element give the same outcome. |
| DnsTypes.QuotedNamesValue | crates/mod-dns-resolver/src/lib.rs:120 | Every `key: 'value'` message carries the offending input verbatim, between quotes, right after the key. |
| DnsTypes.BindMessageNamesBoth | crates/mod-dns-resolver/src/lib.rs:157-159 | The bind-address error names both the name server's socket address and the bind string. |
| HickorySetup.FirstRejected | crates/mod-dns-resolver/src/lib.rs:116-167 | Over the ordered list of strings `configure_resolver` parses: none is reported iff every string parses; otherwise the string reported is the first that does not. |
| HickorySetup.ErrorOfAppend | crates/mod-dns-resolver/src/lib.rs:116-167 | The first rejection in the two stages run one after the other comes from the first stage if that stage has one, and from the second stage otherwise. |
| HickorySetup.EntryReportsFirstRejected | crates/mod-dns-resolver/src/lib.rs:132-166 | One name-server entry fails with the message of its first unparsable string: the socket address first, then the bind address. |
| HickorySetup.SearchReportsFirstRejected | crates/mod-dns-resolver/src/lib.rs:124-129 | The search loop fails with `search: '…'` naming the first suffix that does not parse, and succeeds when all do. |
| HickorySetup.ServersReportFirstRejected | crates/mod-dns-resolver/src/lib.rs:131-167 | The name-server loop fails with the message of the first unparsable address or bind address, in entry order. |
| HickorySetup.TranslateReportsFirstRejected | crates/mod-dns-resolver/src/lib.rs:114-172 | All or nothing: the translation succeeds iff the domain, every search suffix, every name-server address and every bind address parse. Otherwise its error is the message naming the first one, in configuration order, that does not parse. |
| HickorySetup.TranslatedContents | crates/mod-dns-resolver/src/lib.rs:117-167 | On success the domain is set iff one is configured, and it is the parsed domain. The search list starts with that domain when there is one, followed by one name per suffix, in input order. There is one server per entry, in input order, and each entry follows the per-entry rules. |
| HickorySetup.NameServerRules | crates/mod-dns-resolver/src/lib.rs:133-165 | A bare address becomes a UDP server with the constructor's default trust flag and no bind address. A detailed entry keeps its protocol and trust flag, and has a bind address iff one is given, equal to its parse. An unparsable bind address fails with the message naming both strings. |
| HickorySetup.ResolverConfigBuilder.constructor | crates/mod-dns-resolver/src/lib.rs:116 | `ResolverConfig::new()` starts with no domain, no search names and no servers. |
| HickorySetup.ResolverConfigBuilder.SetDomain | crates/mod-dns-resolver/src/lib.rs:118-122 | Sets the domain, makes it the whole search list, and leaves the servers unchanged. |
| HickorySetup.ResolverConfigBuilder.AddSearch | crates/mod-dns-resolver/src/lib.rs:128 | Appends one search name and changes nothing else. |
| HickorySetup.ResolverConfigBuilder.AddNameServer | crates/mod-dns-resolver/src/lib.rs:132-166 | Appends one server and changes nothing else. |
| HickorySetup.BuildNameServer | crates/mod-dns-resolver/src/lib.rs:132-166 | The match arm's parse, construct, adjust and early-return sequence computes exactly the per-entry translation. |
| HickorySetup.BuildSearch | crates/mod-dns-resolver/src/lib.rs:124-129 | The search loop returns exactly what the in-order translation of the suffixes gives, error included. On success it has appended those names to the builder's search list and changed nothing else. |
| HickorySetup.BuildNameServers | crates/mod-dns-resolver/src/lib.rs:131-167 | The name-server loop returns exactly what the in-order translation of the entries gives, error included. On success it has appended those servers to the builder and changed nothing else. |
| HickorySetup.BuildResolverConfig | crates/mod-dns-resolver/src/lib.rs:116-167 | Mutating a fresh config step by step with early returns gives exactly the translation's result, error included. |
| UnboundSetup.UnboundSucceedsIff | crates/mod-dns-resolver/src/lib.rs:181-226 | The unbound setup succeeds iff `Context::new` succeeds, and every entry's socket address parses and is accepted by `set_forward`. In addition, trust anchors must load when `validate` is set, the hosts must load when the policy is `Always` or `Auto`, and the async conversion must succeed. |
| UnboundSetup.UnboundOperations | crates/mod-dns-resolver/src/lib.rs:185-219 | On success the context first gets one forwarder per name server, in order, each the entry's parsed socket address; no forwarder comes later. Trust anchors are added iff `validate`. Hosts are loaded iff the policy is `Always` or `Auto`, and never before the trust anchors. |
| UnboundSetup.UnboundIgnoresDetails | crates/mod-dns-resolver/src/lib.rs:185-195 | Only the options and each entry's socket address matter. The domain, the search list, and a detailed entry's protocol, trust flag and bind address do not change the outcome. |
| UnboundSetup.UnboundContext.constructor | crates/mod-dns-resolver/src/lib.rs:183 | A new context has had no operation applied. |
| UnboundSetup.UnboundContext.SetForward | crates/mod-dns-resolver/src/lib.rs:196-199 | Records the forwarder exactly when the library accepts it. |
| UnboundSetup.UnboundContext.AddBuiltinTrustAnchors | crates/mod-dns-resolver/src/lib.rs:205-210 | Records the trust anchors exactly when the library loads them. |
| UnboundSetup.UnboundContext.LoadHosts | crates/mod-dns-resolver/src/lib.rs:211-219 | Records the hosts data exactly when the library loads it. |
| UnboundSetup.BuildUnboundContext | crates/mod-dns-resolver/src/lib.rs:183-224 | Configuring a context call by call with early returns gives exactly the operations, or the error, of the unbound setup. |
| TestSetup.BuildTestResolver | crates/mod-dns-resolver/src/lib.rs:235-238 | The loop over the zones yields a test resolver whose zones are the input list, in order. |
| ResolverSlot.Slot.Reconfigure | crates/mod-dns-resolver/src/lib.rs:172 | `reconfigure_resolver` makes the given resolver the one `get_resolver` returns. |
| ResolverSlot.Slot.ConfigureResolver | crates/mod-dns-resolver/src/lib.rs:111-176 | Succeeds iff every parsed string parses. On failure the slot is unchanged and the error names the first string that does not parse. On success the slot holds the Hickory resolver with the translated config and the given options. |
| ResolverSlot.Slot.ConfigureUnboundResolver | crates/mod-dns-resolver/src/lib.rs:178-230 | Succeeds iff the unbound setup does. On failure the slot is unchanged and the setup's error is returned. On success the slot holds the configured context. |
| ResolverSlot.Slot.ConfigureTestResolver | crates/mod-dns-resolver/src/lib.rs:232-243 | The slot then holds a test resolver serving exactly the given zones, in order. |
| PyText.AfterLast | docs/generate-toc.py:53 | The position after the last occurrence of a character: that character precedes it, and none follows it. |
| PyText.AfterLastIs | docs/generate-toc.py:53 | That position is the only one with both properties. |
| PyText.Basename | docs/generate-toc.py:53 | `os.path.basename` is the part after the last slash and contains no slash. |
| PyText.RStripSlashes | docs/generate-toc.py:52 | `rstrip("/")` removes exactly the trailing slashes. The result is a prefix that does not end in a slash, and everything cut off is slashes. |
| PyText.Dirname | docs/generate-toc.py:52 | `os.path.dirname` is a prefix of the path. |
| PyText.SplitJoined | docs/generate-toc.py:52-57 | For `dir/name` with a slash-free name, `dirname` gives back `dir` and `basename` gives back `name`. |
| PyText.StripExtension | docs/generate-toc.py:57 | `rsplit(".", 1)[0]` is a prefix of the name. |
| PyText.StripExtensionOf | docs/generate-toc.py:57 | Removing the extension of `stem.ext` gives back `stem`. A name without a dot is unchanged. |
| PyText.LeadingIn | docs/generate-toc.py:63 | The run of stripped characters at the start ends at the first character that is kept. |
| PyText.TrailingFrom | docs/generate-toc.py:63 | The run of stripped characters at the end starts after the last character that is kept. |
| PyText.Strip | docs/generate-toc.py:63 | `str.strip` returns a middle slice of the input. Everything cut from either end is in the stripped set, and the result neither starts nor ends with one of those characters. |
| PyText.StripKeepsChars | docs/generate-toc.py:63 | `str.strip` keeps only characters of its input. |
| PyText.ExtractTitle | docs/generate-toc.py:63 | `strip("#").strip()` of a first line neither starts nor ends with whitespace, and uses only characters of the line. |
| PySort.StrLeReflexive | docs/generate-toc.py:44-48 | Python string order is reflexive. |
| PySort.StrLeTotal | docs/generate-toc.py:44-48 | Python string order is total. |
| PySort.StrLeAntisymmetric | docs/generate-toc.py:44-48 | Python string order is antisymmetric. |
| PySort.StrLeTransitive | docs/generate-toc.py:44-48 | Python string order is transitive. |
| PySort.Insert | docs/generate-toc.py:44-48 | Inserting into an ascending list keeps it ascending and adds exactly the one element. |
| PySort.Sort | docs/generate-toc.py:44-48 | The result is an ascending permutation of the input. |
| PySort.AscendingTail | docs/generate-toc.py:44-48 | The tail of an ascending list is ascending. |
| PySort.AscendingHeadLeast | docs/generate-toc.py:44-48 | The head of an ascending list is at or below each of its elements. |
| PySort.MultisetTail | docs/generate-toc.py:44-48 | The tail holds every element of the list except one copy of the head. |
| PySort.AscendingHeadBound | docs/generate-toc.py:44-48 | The head of an ascending list is at or below every element of its tail. |
| PySort.BoundOfMultiset | docs/generate-toc.py:44-48 | A lower bound of a list and of one more element bounds every rearrangement of them. |
| PySort.AscendingUnique | docs/generate-toc.py:44-48 | Only one ascending permutation exists, so any correct sort gives this result. |
| PySort.Reverse | docs/generate-toc.py:44-48 | Reversal puts element i at position n-1-i. |
| PySort.ReverseMultiset | docs/generate-toc.py:44-48 | Reversal is a permutation. |
| PySort.Sorted | docs/generate-toc.py:44-48 | `sorted(names, reverse=r)` is a permutation of the names, ascending, or descending when `r` is set. |
| TocPages.KeepMap | docs/generate-toc.py:50-65 | The loop appends at most one child per name. |
| TocPages.KeepMapSound | docs/generate-toc.py:50-65 | Everything the loop appends comes from an accepted name. |
| TocPages.KeepMapComplete | docs/generate-toc.py:50-65 | Every accepted name contributes its child. |
| TocPages.KeepMapOrdered | docs/generate-toc.py:50-65 | The loop keeps name order. A relation that holds between the results of any two accepted names, in name order, holds between any two appended children, in list order. |
| TocPages.KeptIncreasing | docs/generate-toc.py:50-65 | The positions of the accepted names, as listed, increase strictly. |
| TocPages.KeptAccepted | docs/generate-toc.py:50-65 | Every listed position holds an accepted name. |
| TocPages.KeptComplete | docs/generate-toc.py:50-65 | Every position of an accepted name is listed. |
| TocPages.KeepMapAtKept | docs/generate-toc.py:50-65 | The loop's k-th result is made from the k-th accepted name. |
| TocPages.KeepMapPicks | docs/generate-toc.py:50-65 | The loop's result is the subsequence of accepted names, each mapped: one result per accepted name, none for the others, in name order. |
| TocPages.ClassifyKeepsUnskipped | docs/generate-toc.py:50-65 | The loop over the names yields at most one child per name. Every child comes from a name that is not skipped, and every name that is not skipped yields its child. |
| TocPages.ClassifyPicks | docs/generate-toc.py:50-65 | The children are exactly the names that are not skipped, each turned into its child, once each and in name order. |
| TocPages.ChildOfShape | docs/generate-toc.py:51-65 | A path yields a page iff it lies in the section's own directory. A page has the path as file name and no children, and its title is the stem, or the extracted first line under `extract_title`. Any other path yields a nested section for its directory, titled by that directory's base name. |
| TocPages.ChildrenShape | docs/generate-toc.py:50-65 | Every child page is a file of the directory itself, from the listing, whose stem is not `index`/`_index`. It has no children and, without `extract_title`, is titled by its stem. Every nested section comes from a path in another directory. |
| TocPages.SortedNamesInOrder | docs/generate-toc.py:44-48 | The sorted names are in the order the `reverse` flag asks for. |
| TocPages.ChildrenInPageOrder | docs/generate-toc.py:50-65 | Two names in sorted order give children in page order. |
| TocPages.PagesKeepNameOrder | docs/generate-toc.py:50-65 | Child pages appear in the order of the names they come from. |
| TocPages.ChildrenKeepSortedOrder | docs/generate-toc.py:44-65 | The names are sorted, descending when `reverse` is set. Child k, nested sections included, comes from the name at position idx[k] of that order. The positions idx increase strictly and are exactly those of the names that are not skipped. In particular the child pages are in file-name order. |
| TocPages.GlobbedFile | docs/generate-toc.py:45-65 | `{dirname}/{stem}.md` is skipped iff its stem is `index` or `_index`, dotted stems included. Otherwise, without `extract_title`, it becomes the page `stem` for that file. |
| TocPages.GlobbedSubIndex | docs/generate-toc.py:46-55 | `{dirname}/{sub}/_index.md` is never skipped, and becomes the nested section `sub` for `{dirname}/{sub}`. |
| TocPages.IndexOf | docs/generate-toc.py:81-89 | The first position of a character, or the length when it is absent. |
| TocPages.IndexLinks | docs/generate-toc.py:81-89 | One link line per child. |
| TocPages.LinkRoundTrip | docs/generate-toc.py:81-89 | A link line `  - [title](target)` reads back as its title and target, for titles without `]`. |
| TocPages.IndexLinksRoundTrip | docs/generate-toc.py:81-89 | The i-th link line reads back as the i-th child's title and target: a page links to its file's base name, and a nested section to `{dir base name}/index.md`. |
| TocPages.LinesCons | docs/generate-toc.py:83-89 | A line without newlines, written with its newline, is read back first, followed by the lines of what comes after. |
| TocPages.LinesOfText | docs/generate-toc.py:81-89 | Lines without newlines, each written with a newline, split back into exactly those lines. |
| TocPages.IndexTextReadsBack | docs/generate-toc.py:70-89 | `index.md` ends with the link text. The link text splits into one line per child, in order, and each line reads back as that child's title and link target. Without the section's own text or an `_index.md`, the file is nothing but those links. |
| TocNav.Indent | docs/generate-toc.py:20 | The indentation is two spaces per level. |
| TocNav.OwnLines | docs/generate-toc.py:21-28 | A page writes no line of its own exactly at depth 0. |
| TocNav.RepeatedEntryIsNested | docs/generate-toc.py:27-28 | The repeated entry under a header is an entry line of the next depth. |
| TocNav.LeadingSpaces | docs/generate-toc.py:20 | The leading spaces of a line, up to its first other character. |
| TocNav.IndentReadBack | docs/generate-toc.py:20 | Indentation reads back as the depth that produced it. |
| TocNav.ClosingQuote | docs/generate-toc.py:24-26 | After a title without quotes, the first quote is the closing one. |
| TocNav.QuotedLineReadBack | docs/generate-toc.py:24-26 | A quoted nav line reads back as its depth and what follows `- "`. |
| TocNav.QuotedEntry | docs/generate-toc.py:24 | After `- "`, an entry reads back as its title and its file. |
| TocNav.QuotedHeader | docs/generate-toc.py:26 | After `- "`, a header reads back as its title. |
| TocNav.EntryLineRoundTrip | docs/generate-toc.py:24 | `{indent}- "title": file` reads back as its depth, title and file, for titles without `"`. |
| TocNav.HeaderLineRoundTrip | docs/generate-toc.py:26 | `{indent}- "title":` reads back as its depth and title. |
| TocNav.PrintReadsBack | docs/generate-toc.py:24-28 | Every printed entry or header with a quote-free title reads back as itself. |
| TocNav.OwnLinesPrinted | docs/generate-toc.py:21-28 | The page's own lines are, in order: nothing at depth 0. A childless page writes one entry at depth d, with its title and file name (`None` when absent). A page with children writes a header at depth d, then an entry at depth d+1 with its title and file name iff that name is non-empty. |
| TocNav.OwnLinesReadBack | docs/generate-toc.py:21-28 | At depth d>=1 every own line reads back at depth d or deeper, and the first is the page's own, at depth d with its title. |
| TocNav.ReadsBackJoin | docs/generate-toc.py:29-30 | Lines that read back at depth d, followed by lines that read back one level deeper, read back at depth d. |
| TocNav.RenderAllAppend | docs/generate-toc.py:29-30 | Rendering a list of nodes renders its parts one after another. |
| TocNav.RenderAllIsFlatten | docs/generate-toc.py:29-30 | Rendering a list is the concatenation of each node's rendering, in list order. |
| TocNav.RenderPageIsParentThenChildren | docs/generate-toc.py:19-30 | A page's output is its own lines followed by its children's renderings, in list order, each one level deeper. |
| TocNav.PathPartsFromPath | docs/generate-toc.py:53-57 | Titles made from a path use only characters of the path. |
| TocNav.ChildrenQuoteFree | docs/generate-toc.py:50-65 | When no listed path or first line contains a quote, no child title does either. |
| TocNav.RenderReadsBack | docs/generate-toc.py:19-30 | Every line a node writes at depth d>=1 reads back as an entry or header at depth d or deeper. The first line is the node's own, at depth d and with its title; for a section this is its index page. |
| TocNav.RenderAllReadsBack | docs/generate-toc.py:29-30 | Every line of a rendered list reads back at the list's depth or deeper. |
| TocNav.MkdocsNavReadsBack | docs/generate-toc.py:526-531 | `mkdocs.yml` starts with the three header lines, and every later line is a nav entry or header at depth 1 or deeper. |

## Left out

- The MX resolution engine, its caches, negative caching, the concurrency limiter, timeouts and the `lookup_*` / `resolve_*` functions. They live in the `dns_resolver` crate, which is not part of this model, or are forwarding wrappers over network I/O.
- Deserialising `DnsConfig` from a Lua value, including `deny_unknown_fields` and the untagged `NameServer` enum. The model starts from an already deserialised record. A deserialisation failure is an error raised before any of the modelled steps.
- `ResolverOpts` keeps only `validate` and `use_hosts_file`, the two fields the code inspects. The Hickory path copies the whole options record unchanged, which the model reflects by storing it as given.
- Socket-address and DNS-name parsing, Hickory's resolver construction, and libunbound are not part of this model. Parsing is a parameter that may fail on any input. The outcomes of libunbound calls are a parameter. `TokioResolver::builder_with_config(...).build()` is taken not to fail, as in the source, where it returns no error.
- HickorySetup.ResolverConfigBuilder.SetDomain: Hickory's `ResolverConfig` is not part of this model. The model follows `ResolverConfig::set_domain` in hickory-resolver, which also replaces the search list with the domain alone. So a configured domain ends up as the first search name, ahead of the `search` suffixes.
- HickorySetup.NewTrustsNegative: the default `trust_negative_responses` flag of `NameServerConfig::new` is taken to be `true`. The constructor is not part of this model, so `NameServerRules` states the bare-address rule in terms of this constant.
- Error values carry only the context message, not the underlying cause's text. A failure of `Context::new` is modelled as its own error value without a message, as in the source.
- The concurrency of the global slot: readers that hold the previous resolver and the atomic swap. The slot is one sequential field, replaced as a whole. Its initial contents belong to the `dns_resolver` crate, and the model starts it empty.
- TestSetup.WithZone: zone parsing inside `TestResolver::with_zone` is not part of this model, nor is any failure it may raise. The test resolver records the zone strings in order.
- `RustDoc.render`, the `TOC` literal, and all filesystem work of `generate-toc.py`: `glob`, `open`/`readline`, writing `index.md` and `mkdocs.yml`, and `os.chdir`. The listings and first lines are the `Docs` input. `IndexText` is the text written to `index.md`, and `MkdocsNav` the lines written to `mkdocs.yml`.
- TocNav.Render: it expands each directory at most once along a path of nested sections. If the script ever re-expanded a directory inside its own expansion, the nested section would repeat the same expansion forever and the script would not terminate. So whenever the script terminates, its output is the model's.
- TocNav.RenderReadsBack and the read-back lemmas assume no title, listed path or first line contains `"`. Such a title would break the quoting of the YAML line, both in the script and in the model.
- TocPages.LinkRoundTrip: this, `IndexLinksRoundTrip` and `IndexTextReadsBack` assume titles without `]`. `IndexTextReadsBack` also assumes titles and link targets without newlines. The text before the links (the section's own text or `_index.md`) is free text and is not read back.
- `os.path.dirname` and `os.path.basename` are modelled for POSIX paths. Paths from the globs are relative and have no repeated slashes. `GlobbedFile` and `GlobbedSubIndex` state the glob results for directory names without a trailing slash.
