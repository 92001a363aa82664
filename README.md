# A verified model of a concurrent same-host web crawler

The crawler takes a base URL and a page cap. It follows `<a href>` links
that stay on the base host and counts how often each page is linked to.
It then prints one line per page, sorted by URL. This project models the
sequential logic at its core and proves what that logic promises:

- `NormalizeUrl` (normalize_url.go): the registry key of a URL. The key is
  the host, a slash, the path without its leading and trailing slashes,
  and the raw query, with no `?` between path and query. `strings.Trim(path, "/")`
  is the verified function `TrimSlashes`.
- `GetUrl` (get_url.go): link extraction from a parsed page. The method
  `GetURLsFromHTML` keeps the two loops of the source, the outer one over
  the document's nodes and the inner one over an anchor's attributes with
  its early `break`. It is proved equal to the functional reference
  `AnchorURLs`, and the resolution rules are proved about that reference.
  The three cases of get_url_test.go are proved as lemmas.
- `Crawl` (main.go): the page registry and one crawl task.
  - The `Crawler` class holds the registry `pages: map<string, int>`.
    It also holds the queue of started but not yet run tasks (`tasks`) and
    the WaitGroup counter (`pending`).
  - `AddPageVisit` updates the registry in place.
  - `CrawlPage` follows the source's decision sequence: cap gate, parse,
    host filter, normalise and record, fetch, extract, then one child task
    per link. It is proved against the decision function `Step`.
  - `Wait` runs the started tasks one after another until none is pending.
  - `Run` is the part of `main` that seeds the crawl and waits.
- `Report` (main.go, `printReport`): the keys are collected from the map,
  sorted in place by an insertion sort on an array standing in for
  `sort.Strings`, and emitted with their counts.

Library calls whose internals are not modelled are parameters:

- `url.Parse` is a `UrlParser`: a function from the raw string to a parsed
  record (scheme, host, path, raw query) or an error. `IsAbs` is "the
  scheme is not empty".
- `html.Parse` followed by `Descendants` is an `HtmlParser`: a function from
  the page body to the sequence of nodes in document order, or an error.
- `getHTML` is a fetch function from the URL to a body or an error.

Every use of `url.Parse` in one crawl goes through the same `UrlParser`.
This is what proves that a key recorded by a task always starts with the
base host and a slash: the host filter and `normalizeURL` read the same
parsed host.

The base URL prefix `baseURL.ResolveReference(&url.URL{Path: ""}).String()`
is the `Crawler`'s constant `rawBaseURL`. The base host `baseURL.Host` is
the constant `baseHost`.

Two behaviours of the code differ from what one might expect of a crawler,
and the model follows the code:

- When `html.Parse` fails, `getURLsFromHTML` returns an empty list and the
  error (get_url.go:11-14), not whatever anchors could be recovered from a
  malformed page.
- Normalisation is not idempotent, though one might expect a normaliser to
  be. `url.Parse` reads a scheme-less key such as `blog.boot.dev/path` as a
  bare path with an empty host, so normalising a key again gives a string
  that begins with a slash (`NormalizeTwiceDiffers`). What is idempotent is
  the trimming of slashes (`TrimSlashesIdempotent`).

## Model

| member | source | states |
|---|---|---|
| NormalizeUrl.TrimLeftShape | normalize_url.go:13 | The leading-slash trim leaves a suffix of the path; what it drops is all slashes; the result does not start with a slash. |
| NormalizeUrl.TrimRightShape | normalize_url.go:13 | The trailing-slash trim leaves a prefix; what it drops is all slashes; the result does not end with a slash. |
| NormalizeUrl.TrimSlashes | normalize_url.go:13 | `strings.Trim(path, "/")`: the result neither starts nor ends with a slash. |
| NormalizeUrl.TrimSlashesShape | normalize_url.go:13 | The trimmed path is a contiguous piece `path[i..j]` of the path, with only slashes before `i` and after `j`. |
| NormalizeUrl.TrimLeftAt | normalize_url.go:13 | If `s[..i]` is all slashes and `s[i]` is not a slash (or `i` is the end), the leading trim is exactly `s[i..]`. |
| NormalizeUrl.TrimRightAt | normalize_url.go:13 | If `s[j..]` is all slashes and `s[j-1]` is not a slash (or `j` is 0), the trailing trim is exactly `s[..j]`. |
| NormalizeUrl.TrimSlashesUnique | normalize_url.go:13 | The converse of TrimSlashesShape: any split into slashes, a middle with no slash at either end, and slashes determines the trimmed string. |
| NormalizeUrl.TrimSlashesIdempotent | normalize_url.go:13 | Trimming the trimmed path again changes nothing. |
| NormalizeUrl.TrimSlashesPadding | normalize_url.go:13 | Slashes added at either end of a path do not change its trimmed form. |
| NormalizeUrl.Key | normalize_url.go:13 | The key of a parsed URL: host, a slash, the trimmed path and the raw query, concatenated with no separator between path and query. |
| NormalizeUrl.KeyLayout | normalize_url.go:13 | The key is the host and a slash, then the path's characters unchanged and in order between dropped slash runs, then the raw query with no `?` before it; it has the matching length, prefix and suffix. |
| NormalizeUrl.KeyIgnoresSchemeAndEdgeSlashes | normalize_url.go:13 | Changing the scheme or adding slashes around the path leaves the key unchanged. |
| NormalizeUrl.NormalizeURL | normalize_url.go:8-14 | An error is returned exactly when parsing fails, and then the key is the empty string and the error is the parser's; on success the key begins with `host + "/"`. |
| NormalizeUrl.NormalizeURLEquivalent | normalize_url.go:8-14 | Two raw URLs whose parses agree on host, raw query and trimmed path get the same key and no error, whatever their schemes. |
| NormalizeUrl.NormalizeTwiceDiffers | normalize_url.go:8-14 | When the parser reads a key as a bare path with an empty host, normalising the key again gives a different string. |
| GetUrl.FirstHref | get_url.go:19-31 | The inner loop over an anchor's attributes: the value of the first attribute with key `href`, or nothing; its properties are FirstHrefSpec, FirstHrefAt and FirstHrefAppend. |
| GetUrl.FirstHrefSpec | get_url.go:19-31 | No href is found exactly when no attribute has key `href`; a found value is that of an `href` attribute with none before it. |
| GetUrl.FirstHrefAt | get_url.go:19-31 | The `href` at index k, with no `href` before it, is the one found. |
| GetUrl.FirstHrefAppend | get_url.go:19-31 | Once an `href` is present, attributes after it do not change the one found. |
| GetUrl.LaterAttributesIgnored | get_url.go:19-31 | An anchor's contribution depends on its first `href` only; attributes appended after it change nothing. |
| GetUrl.Resolve | get_url.go:21-30 | An href that does not parse gives nothing; an absolute one is kept verbatim; a relative one becomes `rawBaseURL + href`. |
| GetUrl.NodeURL | get_url.go:18-31 | What one node contributes: nothing unless it is an `<a>` element with an `href`, and then its first href resolved. |
| GetUrl.AnchorURLs | get_url.go:16-35 | The reference for the outer loop: each node's contribution, in document order; its properties are the AnchorURLs lemmas below. |
| GetUrl.AnchorURLsAppend | get_url.go:17-33 | Document order: the URLs of two consecutive runs of nodes are those of the first followed by those of the second. |
| GetUrl.AnchorURLsSnoc | get_url.go:17-33 | One more node adds its own contribution at the end of the list. |
| GetUrl.AnchorURLsBound | get_url.go:18 | Each `<a>` element contributes at most one URL and other nodes none: the number of URLs is at most the number of anchors. |
| GetUrl.AnchorURLsMember | get_url.go:17-33 | A URL is in the result exactly when some node yields it. |
| GetUrl.AnchorURLsOrigin | get_url.go:18-30 | Every URL in the result comes from the first href of an `<a>` element that parsed: verbatim when the href is absolute, `rawBaseURL + href` when it is relative. |
| GetUrl.GetURLsFromHTML | get_url.go:10-38 | When the page does not parse, the result is the empty list and the parser's error; otherwise no error and exactly the reference list `AnchorURLs` of the page's nodes. |
| GetUrl.TestSingleAnchor | get_url_test.go:15-41 | The test page with one anchor yields exactly what its href resolves to. |
| GetUrl.TestTwoAnchors | get_url_test.go:43-58 | The test page with two anchors yields what their hrefs resolve to, in page order. |
| GetUrl.TestAbsoluteURL | get_url_test.go:15-28 | The absolute href `https://other.com/path/one` comes back as it is. |
| GetUrl.TestRelativeURL | get_url_test.go:29-42 | The relative href `/path/one` on base `https://blog.boot.dev` gives `https://blog.boot.dev/path/one`. |
| GetUrl.TestAbsoluteAndRelativeURLs | get_url_test.go:43-59 | A relative and then an absolute anchor give both URLs, in document order. |
| Crawl.Visited | main.go:138 | `cfg.pages[key] += 1` on a map whose absent keys read as 0; its effect is stated by VisitedEffect. |
| Crawl.VisitedEffect | main.go:138 | A visit adds exactly 1 to its key's count, counting an absent key as 0; other counts are unchanged, no key is removed, and the registry grows by one key exactly when the key was absent. |
| Crawl.FirstVisitIffAbsent | main.go:138-144 | In a registry of positive counts, the count after a visit is 1 exactly when the key was absent; counts stay positive. |
| Crawl.Crawler.AddPageVisit | main.go:134-145 | The registry becomes the old one with the key's count raised by 1, and the result is true exactly when the key was absent before. |
| Crawl.Step | main.go:88-132 | The decisions of one task in source order: cap gate, parse, host filter, normalise and record, then Expand on a first visit; its properties are the Step lemmas below. |
| Crawl.Expand | main.go:118-131 | Fetching and extracting never change the registry, and they end in one of three ways: fetch failed, extraction failed, or expanded. |
| Crawl.ExpandOutcome | main.go:118-131 | A failed fetch or extraction starts nothing; a successful one starts exactly the extracted URLs, in extraction order. |
| Crawl.StepCapGate | main.go:95-99 | A task that finds `len(pages) >= maxPages` leaves the registry unchanged and starts nothing. |
| Crawl.StepHostFilter | main.go:102-110 | A URL that does not parse, or whose host is not the base host, is neither recorded nor expanded. |
| Crawl.StepRecords | main.go:95-116 | A task past the cap gate and host filter records exactly one visit under its key, and that key begins with the base host and a slash; any other task leaves the registry unchanged. |
| Crawl.StepKeepsInternal | main.go:108-113 | If every key names a page of the base host before a task, the same holds after it. |
| Crawl.StepGrowth | main.go:95-131 | The registry keeps its keys, lowers no count, keeps its counts positive and grows by at most one key, only while below the cap; a task starts children only when it added a key. |
| Crawl.StepRevisitNoFetch | main.go:112-116 | A non-first visit ends as a revisit, starts nothing, and does not depend on what the fetcher would return. |
| Crawl.StepFirstVisit | main.go:112-123 | A first visit records count 1 and goes on to fetch and extract. |
| Crawl.Crawler.constructor | main.go:48-55 | The configuration starts with an empty registry, nothing pending and the given host, base prefix and cap. |
| Crawl.Crawler.CrawlPage | main.go:88-132 | After a task the registry is the one the decision sequence produces; the task queue is extended by exactly that sequence's children, in order; pending is raised by one per child and lowered by one for the task itself. |
| Crawl.Crawler.SpawnAll | main.go:128-131 | Each extracted URL is appended to the queue in order, with one `wg.Add(1)` each. |
| Crawl.Crawler.Seed | main.go:57-58 | The seed URL is queued and counted as pending. |
| Crawl.Drain | main.go:57-59 | The registry after the queued tasks run one after another in start order, each task's children (main.go:128-131) joining the end of the queue; it terminates because every task that starts children adds a key below the cap. |
| Crawl.DrainGrowth | main.go:57-59 | Draining the queue keeps every key, lowers no count, keeps counts positive and keys internal, and fills the registry no further than `maxPages` unless it was larger already. |
| Crawl.DrainRecordsSeed | main.go:57-59 | With room for at least one page, a seed on the base host is recorded under its key. |
| Crawl.Crawler.Wait | main.go:59 | Running the queued tasks ends with nothing queued or pending and with the registry that Drain gives for the old registry and queue; every old key is kept with a count no lower, all keys stay internal, and the registry does not grow past the cap. |
| Crawl.Run | main.go:48-59 | The registry of a run is Drain of the empty registry and the seed: positive counts, every key naming a page of the base host, at most `maxPages` keys, and the seed's key present when the seed is on the base host and `maxPages > 0`. |
| Report.StringLess | main.go:153 | Go's `<` on strings: lexicographic by character, a proper prefix first; StringLessIrreflexive, StringLessTotal and StringLessTransitive make it a strict total order. |
| Report.StringLessIrreflexive | main.go:153 | No string sorts before itself. |
| Report.StringLessTotal | main.go:153 | Of two different strings, one sorts before the other. |
| Report.StringLessTransitive | main.go:153 | The string order is transitive. |
| Report.AscendingFromAdjacent | main.go:153 | A repeat-free sequence whose neighbours are in order is strictly ascending. |
| Report.DistinctFromSet | main.go:148-151 | The keys collected from a set contain no repeats. |
| Report.CollectKeys | main.go:148-151 | The collected list holds every key of the map exactly once. |
| Report.Swap | main.go:153 | Two array elements are exchanged; the others stay put and the contents are a permutation. |
| Report.SinkLast | main.go:153 | One insertion pass leaves the prefix up to i in order, and the array a permutation of what it was. |
| Report.SortStrings | main.go:153 | `sort.Strings`: the array ends in order and a permutation of what it was. |
| Report.SortedKeys | main.go:148-153 | The sorted keys of a set are strictly ascending, as many as the set, and contain every key and nothing else. |
| Report.EmitLines | main.go:161-163 | One line per sorted URL, in order, each carrying the URL's count. |
| Report.LinesOfSorted | main.go:161-163 | Lines emitted for the sorted keys are strictly ascending and name every key. |
| Report.PrintReport | main.go:147-164 | There is one line per registry key: each line's URL is a key with its stored count, every key has a line, and the lines are in strictly ascending order of URL. |

## Left out

- Concurrency is not modelled: goroutines, the mutex, the semaphore channel and the WaitGroup's blocking. Tasks run one at a time in the order they were started (`Wait`). The race between the cap check and the later registration, which lets a concurrent crawl overshoot `maxPages`, is therefore not modelled. Neither is the bound on concurrent fetches.
- Crawl.Crawler.Wait: the registry it ends with (Drain) and the bound on its size hold for this sequential, first-started-first-run schedule only. Under the goroutine scheduler tasks interleave in other orders, which the model does not capture, and the concurrent program can exceed `maxPages`.
- `getHTML` is a parameter: its status-code and content-type checks, the body read, and the `os.Exit` on a connection failure are not modelled.
- The internals of `url.Parse`, `IsAbs`, `ResolveReference`, `html.Parse` and `Descendants` are not modelled. A page is the flat sequence of its nodes in document order, not a tree.
- The test lemmas list the element nodes and the `Boot.dev` text of each test page. The whitespace text nodes of the real parse are left out; being text nodes, they contribute nothing.
- Argument parsing, the usage and error messages in `main`, the `Error parsing` message `crawlPage` prints for a URL that does not parse (main.go:104), and the report banner in `printReport` are not modelled; the report is the sequence of its lines.
- Report.StringLess: a Dafny string is a sequence of Unicode scalar values, and comparing them agrees with Go's byte-by-byte comparison of their UTF-8 encodings. Go strings holding bytes that are not valid UTF-8 cannot be represented and are not modelled.
- Integers are unbounded: counts in the registry cannot overflow in the model.
- NormalizeUrl.NormalizeURL: idempotence of normalisation is not claimed. It depends on how `url.Parse` reads a key, which the model leaves abstract (see `NormalizeTwiceDiffers`).
