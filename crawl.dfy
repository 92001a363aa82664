/** The crawler's shared configuration (main.go, type config) and its three
    operations: addPageVisit, crawlPage and the coordinator in main.

    The goroutines, the mutex and the semaphore channel are not modelled: a
    crawl task runs as one sequential step. Starting a goroutine for a link
    appends the link to the queue `tasks`, and the WaitGroup is the counter
    `pending`. http.Get (getHTML) is the parameter `fetch` of Env. */
module Crawl {
  import opened NetUrl
  import opened NormalizeUrl
  import opened GetUrl

  /** The (body, err) pair returned by getHTML. */
  datatype Fetched = Body(html: string) | FetchError(err: string)

  /** The library calls a crawl task makes: url.Parse, getHTML, html.Parse. */
  datatype Env = Env(parse: UrlParser, fetch: string -> Fetched, parseHtml: HtmlParser)

  /** Reading a Go map: an absent key reads as 0. */
  function Count(pages: map<string, int>, key: string): int {
    if key in pages then pages[key] else 0
  }

  /** cfg.pages[key] += 1 (main.go, line 138). */
  function Visited(pages: map<string, int>, key: string): map<string, int> {
    pages[key := Count(pages, key) + 1]
  }

  /** Every count in the registry is positive: entries are only ever created
      by a visit. */
  predicate Positive(pages: map<string, int>) {
    forall k :: k in pages ==> pages[k] >= 1
  }

  /** A registry key that names a page of the given host. */
  predicate InternalKey(host: string, key: string) {
    |key| > |host| && key[..|host| + 1] == host + "/"
  }

  predicate AllInternal(host: string, pages: map<string, int>) {
    forall k :: k in pages ==> InternalKey(host, k)
  }

  /** A visit adds exactly 1 to its key's count, counting an absent key as 0,
      changes no other count and removes no key; the registry grows by one
      key exactly when the key was absent. */
  lemma VisitedEffect(pages: map<string, int>, key: string)
    ensures Count(Visited(pages, key), key) == Count(pages, key) + 1
    ensures forall k :: k != key ==> Count(Visited(pages, key), k) == Count(pages, k)
    ensures Visited(pages, key).Keys == pages.Keys + {key}
    ensures |Visited(pages, key)| == if key in pages then |pages| else |pages| + 1
  {
    if key !in pages {
      assert Visited(pages, key).Keys == pages.Keys + {key};
    } else {
      assert Visited(pages, key).Keys == pages.Keys;
    }
  }

  /** The dedup gate: in a registry of positive counts the count after a visit
      is 1 exactly when the key was absent, and positive counts stay positive. */
  lemma FirstVisitIffAbsent(pages: map<string, int>, key: string)
    requires Positive(pages)
    ensures Count(Visited(pages, key), key) == 1 <==> key !in pages
    ensures Positive(Visited(pages, key))
  {
  }

  /** Where a crawl task returned. */
  datatype Exit = CapReached | BadURL | OtherHost | Revisit | FetchFailed | ExtractFailed | Expanded

  /** The registry after a crawl task and the links it started tasks for. */
  datatype StepResult = StepResult(exit: Exit, pages: map<string, int>, children: seq<string>)

  /** The decisions of crawlPage(raw) (main.go, lines 88-132), on the
      registry as the task finds it. */
  function Step(pages: map<string, int>, baseHost: string, rawBaseURL: string, maxPages: int,
                env: Env, raw: string): StepResult
  {
    if |pages| >= maxPages then StepResult(CapReached, pages, [])
    else match env.parse(raw)
      case ParseFailed(_) => StepResult(BadURL, pages, [])
      case ParseOk(u) =>
        if baseHost != u.host then StepResult(OtherHost, pages, [])
        else
          var normalized := NormalizeURL(env.parse, raw).0;
          var visited := Visited(pages, normalized);
          if Count(visited, normalized) != 1 then StepResult(Revisit, visited, [])
          else Expand(visited, rawBaseURL, env, raw)
  }

  /** The rest of a first visit (main.go, lines 118-131): fetch the page,
      extract its links, start a task for each. */
  function Expand(visited: map<string, int>, rawBaseURL: string, env: Env, raw: string): (r: StepResult)
    ensures r.pages == visited
    ensures r.exit in {FetchFailed, ExtractFailed, Expanded}
  {
    match env.fetch(raw)
    case FetchError(_) => StepResult(FetchFailed, visited, [])
    case Body(html) =>
      match env.parseHtml(html)
      case HtmlError(_) => StepResult(ExtractFailed, visited, [])
      case Doc(nodes) => StepResult(Expanded, visited, AnchorURLs(env.parse, nodes, rawBaseURL))
  }

  /** The cap gate: a task that finds the registry at or above maxPages
      records nothing and starts nothing. */
  lemma StepCapGate(pages: map<string, int>, baseHost: string, rawBaseURL: string, maxPages: int, env: Env, raw: string)
    requires |pages| >= maxPages
    ensures Step(pages, baseHost, rawBaseURL, maxPages, env, raw).pages == pages
    ensures Step(pages, baseHost, rawBaseURL, maxPages, env, raw).children == []
  {
  }

  /** A URL that does not parse, or whose host is not the base host, is
      neither recorded nor expanded. */
  lemma StepHostFilter(pages: map<string, int>, baseHost: string, rawBaseURL: string, maxPages: int, env: Env, raw: string)
    requires env.parse(raw).ParseFailed? || env.parse(raw).url.host != baseHost
    ensures Step(pages, baseHost, rawBaseURL, maxPages, env, raw).pages == pages
    ensures Step(pages, baseHost, rawBaseURL, maxPages, env, raw).children == []
  {
  }

  /** A task that gets past the cap gate and the host filter records exactly
      one visit, under a key that begins with the base host and a slash; any
      other task leaves the registry as it was. */
  lemma StepRecords(pages: map<string, int>, baseHost: string, rawBaseURL: string, maxPages: int, env: Env, raw: string)
    ensures var r := Step(pages, baseHost, rawBaseURL, maxPages, env, raw);
            if |pages| < maxPages && env.parse(raw).ParseOk? && env.parse(raw).url.host == baseHost
            then r.pages == Visited(pages, Key(env.parse(raw).url)) && InternalKey(baseHost, Key(env.parse(raw).url))
            else r.pages == pages
  {
    if |pages| < maxPages && env.parse(raw).ParseOk? && env.parse(raw).url.host == baseHost {
      assert NormalizeURL(env.parse, raw).0 == Key(env.parse(raw).url);
    }
  }

  /** Every key a task adds names a page of the base host, so a registry of
      internal keys stays one. */
  lemma StepKeepsInternal(pages: map<string, int>, baseHost: string, rawBaseURL: string, maxPages: int, env: Env, raw: string)
    requires AllInternal(baseHost, pages)
    ensures AllInternal(baseHost, Step(pages, baseHost, rawBaseURL, maxPages, env, raw).pages)
  {
    StepRecords(pages, baseHost, rawBaseURL, maxPages, env, raw);
  }

  /** The registry only grows, by at most one key, and only while it is below
      the cap; no count falls; a task starts children only when it added a
      key. */
  lemma StepGrowth(pages: map<string, int>, baseHost: string, rawBaseURL: string, maxPages: int, env: Env, raw: string)
    requires Positive(pages)
    ensures var r := Step(pages, baseHost, rawBaseURL, maxPages, env, raw);
            && Positive(r.pages)
            && pages.Keys <= r.pages.Keys
            && (forall k :: k in pages ==> pages[k] <= r.pages[k])
            && (|r.pages| == |pages| || (|pages| < maxPages && |r.pages| == |pages| + 1))
            && (r.children != [] ==> |pages| < maxPages && |r.pages| == |pages| + 1)
  {
    StepRecords(pages, baseHost, rawBaseURL, maxPages, env, raw);
    if |pages| < maxPages && env.parse(raw).ParseOk? && env.parse(raw).url.host == baseHost {
      var key := Key(env.parse(raw).url);
      VisitedEffect(pages, key);
      FirstVisitIffAbsent(pages, key);
    }
  }

  /** A revisit only counts: it starts no children, and what the fetcher
      would return plays no part in the outcome. */
  lemma StepRevisitNoFetch(pages: map<string, int>, baseHost: string, rawBaseURL: string, maxPages: int,
                           env: Env, raw: string, otherFetch: string -> Fetched)
    requires Positive(pages)
    requires |pages| < maxPages && env.parse(raw).ParseOk? && env.parse(raw).url.host == baseHost
    requires Key(env.parse(raw).url) in pages
    ensures Step(pages, baseHost, rawBaseURL, maxPages, env, raw).exit == Revisit
    ensures Step(pages, baseHost, rawBaseURL, maxPages, env, raw).children == []
    ensures Step(pages, baseHost, rawBaseURL, maxPages, env, raw)
         == Step(pages, baseHost, rawBaseURL, maxPages, env.(fetch := otherFetch), raw)
  {
    FirstVisitIffAbsent(pages, Key(env.parse(raw).url));
  }

  /** A first visit records the key with count 1 and goes on to fetch the
      page and extract its links. */
  lemma StepFirstVisit(pages: map<string, int>, baseHost: string, rawBaseURL: string, maxPages: int, env: Env, raw: string)
    requires Positive(pages)
    requires |pages| < maxPages && env.parse(raw).ParseOk? && env.parse(raw).url.host == baseHost
    requires Key(env.parse(raw).url) !in pages
    ensures Count(Visited(pages, Key(env.parse(raw).url)), Key(env.parse(raw).url)) == 1
    ensures Step(pages, baseHost, rawBaseURL, maxPages, env, raw)
         == Expand(Visited(pages, Key(env.parse(raw).url)), rawBaseURL, env, raw)
  {
    FirstVisitIffAbsent(pages, Key(env.parse(raw).url));
  }

  /** A failed fetch or extraction keeps the registry entry just made and
      starts nothing; a successful one starts one child per extracted URL, in
      the order of the page. */
  lemma ExpandOutcome(visited: map<string, int>, rawBaseURL: string, env: Env, raw: string)
    ensures Expand(visited, rawBaseURL, env, raw).pages == visited
    ensures env.fetch(raw).FetchError? ==> Expand(visited, rawBaseURL, env, raw).children == []
    ensures env.fetch(raw).Body? && env.parseHtml(env.fetch(raw).html).HtmlError? ==>
              Expand(visited, rawBaseURL, env, raw).children == []
    ensures env.fetch(raw).Body? && env.parseHtml(env.fetch(raw).html).Doc? ==>
              Expand(visited, rawBaseURL, env, raw).children
              == AnchorURLs(env.parse, env.parseHtml(env.fetch(raw).html).descendants, rawBaseURL)
  {
  }

  /** The registry after the queued tasks have run one after another in the
      order they were started, each task's children joining the end of the
      queue. Every task either finds the registry below the cap and may add
      a key, or finds no room and starts nothing, so the queue runs dry. */
  function Drain(pages: map<string, int>, tasks: seq<string>, baseHost: string, rawBaseURL: string,
                 maxPages: int, env: Env): map<string, int>
    requires Positive(pages)
    decreases if |pages| < maxPages then maxPages - |pages| else 0, |tasks|
  {
    if tasks == [] then pages
    else
      var r := Step(pages, baseHost, rawBaseURL, maxPages, env, tasks[0]);
      StepGrowth(pages, baseHost, rawBaseURL, maxPages, env, tasks[0]);
      Drain(r.pages, tasks[1..] + r.children, baseHost, rawBaseURL, maxPages, env)
  }

  /** Running the queue keeps every key and never lowers a count, keeps the
      counts positive and the keys internal, and fills the registry no
      further than maxPages (or leaves it as large as it already was). */
  lemma {:induction false} DrainGrowth(pages: map<string, int>, tasks: seq<string>, baseHost: string,
                                       rawBaseURL: string, maxPages: int, env: Env)
    requires Positive(pages)
    ensures var d := Drain(pages, tasks, baseHost, rawBaseURL, maxPages, env);
            && Positive(d)
            && pages.Keys <= d.Keys
            && (forall k :: k in pages ==> pages[k] <= d[k])
            && (AllInternal(baseHost, pages) ==> AllInternal(baseHost, d))
            && |d| <= if |pages| <= maxPages then maxPages else |pages|
    decreases if |pages| < maxPages then maxPages - |pages| else 0, |tasks|
  {
    if tasks != [] {
      var r := Step(pages, baseHost, rawBaseURL, maxPages, env, tasks[0]);
      StepGrowth(pages, baseHost, rawBaseURL, maxPages, env, tasks[0]);
      if AllInternal(baseHost, pages) {
        StepKeepsInternal(pages, baseHost, rawBaseURL, maxPages, env, tasks[0]);
      }
      DrainGrowth(r.pages, tasks[1..] + r.children, baseHost, rawBaseURL, maxPages, env);
    }
  }

  /** A seed of the base host is recorded by a run with room for at least one
      page, whatever the tasks it starts do afterwards. */
  lemma DrainRecordsSeed(baseHost: string, rawBaseURL: string, maxPages: int, env: Env, seed: string)
    requires maxPages > 0 && env.parse(seed).ParseOk? && env.parse(seed).url.host == baseHost
    ensures Key(env.parse(seed).url) in Drain(map[], [seed], baseHost, rawBaseURL, maxPages, env)
  {
    var key := Key(env.parse(seed).url);
    var r := Step(map[], baseHost, rawBaseURL, maxPages, env, seed);
    StepRecords(map[], baseHost, rawBaseURL, maxPages, env, seed);
    StepGrowth(map[], baseHost, rawBaseURL, maxPages, env, seed);
    assert key in r.pages;
    assert [seed][1..] + r.children == r.children;
    DrainGrowth(r.pages, r.children, baseHost, rawBaseURL, maxPages, env);
  }

  /** The shared state of one crawl run (main.go, type config). */
  class Crawler {
    var pages: map<string, int>
    const baseHost: string
    /** baseURL.ResolveReference(&url.URL{Path: ""}).String(), the prefix of
        relative links. */
    const rawBaseURL: string
    const maxPages: int
    /** Links whose task has been started but has not yet run. */
    var tasks: seq<string>
    /** The WaitGroup's counter. */
    var pending: nat

    ghost predicate Valid()
      reads this
    {
      Positive(pages)
    }

    /** The config main builds before seeding the crawl (main.go, lines 48-55). */
    constructor (baseHost: string, rawBaseURL: string, maxPages: int)
      ensures Valid()
      ensures this.baseHost == baseHost && this.rawBaseURL == rawBaseURL && this.maxPages == maxPages
      ensures pages == map[] && tasks == [] && pending == 0
    {
      this.baseHost := baseHost;
      this.rawBaseURL := rawBaseURL;
      this.maxPages := maxPages;
      pages := map[];
      tasks := [];
      pending := 0;
    }

    /** addPageVisit(normalizedURL) (main.go, lines 134-145). */
    method AddPageVisit(normalizedURL: string) returns (isFirst: bool)
      requires Valid()
      modifies this`pages
      ensures Valid()
      ensures pages == Visited(old(pages), normalizedURL)
      ensures isFirst <==> normalizedURL !in old(pages)
    {
      FirstVisitIffAbsent(pages, normalizedURL);
      pages := pages[normalizedURL := Count(pages, normalizedURL) + 1];
      isFirst := pages[normalizedURL] == 1;
    }

    /** crawlPage(rawCurrentURL) (main.go, lines 88-132). The caller has
        already counted this task in `pending`; the deferred wg.Done() is the
        decrement at the end, which follows the increment for every child. */
    method CrawlPage(rawCurrentURL: string, env: Env)
      requires Valid() && pending >= 1
      modifies this
      ensures Valid()
      ensures var r := Step(old(pages), baseHost, rawBaseURL, maxPages, env, rawCurrentURL);
              && pages == r.pages
              && tasks == old(tasks) + r.children
              && pending == old(pending) + |r.children| - 1
    {
      if |pages| < maxPages {
        var currentURL := env.parse(rawCurrentURL);
        if currentURL.ParseOk? && baseHost == currentURL.url.host {
          var normalized := NormalizeURL(env.parse, rawCurrentURL).0;
          assert normalized == Key(currentURL.url);
          ghost var visited := Visited(pages, normalized);
          var isFirst := AddPageVisit(normalized);
          if isFirst {
            StepFirstVisit(old(pages), baseHost, rawBaseURL, maxPages, env, rawCurrentURL);
            ExpandOutcome(visited, rawBaseURL, env, rawCurrentURL);
            var html := env.fetch(rawCurrentURL);
            if html.Body? {
              var urls, err := GetURLsFromHTML(env.parseHtml, env.parse, html.html, rawBaseURL);
              if err == None {
                SpawnAll(urls);
              }
            }
          } else {
            StepRevisitNoFetch(old(pages), baseHost, rawBaseURL, maxPages, env, rawCurrentURL, env.fetch);
          }
        } else {
          StepHostFilter(pages, baseHost, rawBaseURL, maxPages, env, rawCurrentURL);
        }
      } else {
        StepCapGate(pages, baseHost, rawBaseURL, maxPages, env, rawCurrentURL);
      }
      pending := pending - 1;
    }

    /** The loop over the extracted URLs (main.go, lines 128-131): for each,
        wg.Add(1) and the start of its task, in extraction order. */
    method SpawnAll(urls: seq<string>)
      modifies this`tasks, this`pending
      ensures tasks == old(tasks) + urls && pending == old(pending) + |urls|
    {
      for i := 0 to |urls|
        invariant tasks == old(tasks) + urls[..i]
        invariant pending == old(pending) + i
      {
        pending := pending + 1;
        tasks := tasks + [urls[i]];
      }
      assert urls[..|urls|] == urls;
    }

    /** wg.Add(1) and the start of the seed task (main.go, lines 57-58). */
    method Seed(rawURL: string)
      modifies this`tasks, this`pending
      ensures tasks == old(tasks) + [rawURL] && pending == old(pending) + 1
    {
      pending := pending + 1;
      tasks := tasks + [rawURL];
    }

    /** wg.Wait() (main.go, line 59), with the started tasks run one after
        another in the order they were started. The run ends with nothing
        pending and the registry that draining the queue produces: every old
        key kept with a count no lower, every key naming a page of the base
        host if they all did before, and no more than maxPages keys unless
        there were so many already. */
    method Wait(env: Env)
      requires Valid() && pending == |tasks|
      modifies this
      ensures Valid() && tasks == [] && pending == 0
      ensures pages == Drain(old(pages), old(tasks), baseHost, rawBaseURL, maxPages, env)
      ensures old(pages).Keys <= pages.Keys && forall k :: k in old(pages) ==> old(pages)[k] <= pages[k]
      ensures AllInternal(baseHost, old(pages)) ==> AllInternal(baseHost, pages)
      ensures |pages| <= if |old(pages)| <= maxPages then maxPages else |old(pages)|
    {
      DrainGrowth(pages, tasks, baseHost, rawBaseURL, maxPages, env);
      while tasks != []
        invariant Valid() && pending == |tasks|
        invariant Drain(pages, tasks, baseHost, rawBaseURL, maxPages, env)
               == Drain(old(pages), old(tasks), baseHost, rawBaseURL, maxPages, env)
        decreases if |pages| < maxPages then maxPages - |pages| else 0, |tasks|
      {
        var rawURL := tasks[0];
        ghost var queued, before := tasks, pages;
        tasks := tasks[1..];
        StepGrowth(pages, baseHost, rawBaseURL, maxPages, env, rawURL);
        CrawlPage(rawURL, env);
        assert tasks == queued[1..] + Step(before, baseHost, rawBaseURL, maxPages, env, rawURL).children;
      }
    }
  }

  /** The crawl run of main (main.go, lines 48-59): a fresh registry, the seed
      task, and the wait for every task it transitively starts. Sequentially,
      the registry ends with every key naming a page of the base host and at
      most maxPages keys. */
  method Run(baseHost: string, rawBaseURL: string, maxPages: int, seed: string, env: Env)
    returns (pages: map<string, int>)
    ensures pages == Drain(map[], [seed], baseHost, rawBaseURL, maxPages, env)
    ensures Positive(pages) && AllInternal(baseHost, pages)
    ensures |pages| <= if maxPages > 0 then maxPages else 0
    ensures maxPages > 0 && env.parse(seed).ParseOk? && env.parse(seed).url.host == baseHost
            ==> Key(env.parse(seed).url) in pages
  {
    var cfg := new Crawler(baseHost, rawBaseURL, maxPages);
    cfg.Seed(seed);
    cfg.Wait(env);
    pages := cfg.pages;
    DrainGrowth(map[], [seed], baseHost, rawBaseURL, maxPages, env);
    if maxPages > 0 && env.parse(seed).ParseOk? && env.parse(seed).url.host == baseHost {
      DrainRecordsSeed(baseHost, rawBaseURL, maxPages, env, seed);
    }
  }
}
