/** getURLsFromHTML: the URLs of a page's anchors, in document order.

    html.Parse and Node.Descendants are library calls: a parsed document is
    modelled as the sequence of its descendant nodes in the order Descendants
    yields them, and the parser as a parameter of type HtmlParser. */
module GetUrl {
  import opened NetUrl

  /** html.NodeType. */
  datatype NodeType = ErrorNode | TextNode | DocumentNode | ElementNode | CommentNode | DoctypeNode | RawNode

  /** html.Attribute (its namespace is never read). */
  datatype Attribute = Attribute(key: string, val: string)

  /** An html.Node without its tree links: its type, its Data (the tag name
      of an element) and its attributes in source order. */
  datatype Node = Node(nodeType: NodeType, data: string, attr: seq<Attribute>)

  /** The (doc, err) pair returned by html.Parse, with doc flattened to its
      descendants in document order. */
  datatype HtmlResult = Doc(descendants: seq<Node>) | HtmlError(err: string)

  /** html.Parse, a deterministic library function of the page body. */
  type HtmlParser = string -> HtmlResult

  /** The elements whose links are followed: `<a>`. */
  predicate IsAnchor(n: Node) {
    n.nodeType == ElementNode && n.data == "a"
  }

  /** The value of the first attribute whose key is "href"; the later ones are
      never looked at. */
  function FirstHref(attr: seq<Attribute>): Option<string> {
    if attr == [] then None
    else if attr[0].key == "href" then Some(attr[0].val)
    else FirstHref(attr[1..])
  }

  /** FirstHref finds nothing exactly when no attribute is an href, and what
      it finds is the value of an href with no href before it. */
  lemma {:induction false} FirstHrefSpec(attr: seq<Attribute>)
    ensures FirstHref(attr).None? <==> forall k :: 0 <= k < |attr| ==> attr[k].key != "href"
    ensures FirstHref(attr).Some? ==>
              exists k :: 0 <= k < |attr| && attr[k].key == "href" && attr[k].val == FirstHref(attr).value
                          && forall m :: 0 <= m < k ==> attr[m].key != "href"
  {
    if attr != [] && attr[0].key != "href" {
      FirstHrefSpec(attr[1..]);
      assert forall k :: 1 <= k < |attr| ==> attr[k] == attr[1..][k - 1];
      if FirstHref(attr).Some? {
        var k :| 0 <= k < |attr[1..]| && attr[1..][k].key == "href" && attr[1..][k].val == FirstHref(attr).value
                 && forall m :: 0 <= m < k ==> attr[1..][m].key != "href";
        assert attr[k + 1].key == "href" && forall m :: 0 <= m < k + 1 ==> attr[m].key != "href";
      }
    }
  }

  /** The href at index k, preceded by no other href, is the first one. */
  lemma {:induction false} FirstHrefAt(attr: seq<Attribute>, k: nat)
    requires k < |attr| && attr[k].key == "href"
    requires forall m :: 0 <= m < k ==> attr[m].key != "href"
    ensures FirstHref(attr) == Some(attr[k].val)
  {
    if k > 0 {
      assert attr[0].key != "href";
      FirstHrefAt(attr[1..], k - 1);
    }
  }

  /** Attributes after an href are never looked at. */
  lemma {:induction false} FirstHrefAppend(attr: seq<Attribute>, extra: seq<Attribute>)
    requires exists k :: 0 <= k < |attr| && attr[k].key == "href"
    ensures FirstHref(attr + extra) == FirstHref(attr)
  {
    assert (attr + extra)[0] == attr[0];
    if attr[0].key != "href" {
      var k :| 0 <= k < |attr| && attr[k].key == "href";
      assert attr[1..][k - 1].key == "href";
      assert (attr + extra)[1..] == attr[1..] + extra;
      FirstHrefAppend(attr[1..], extra);
    }
  }

  /** An href value resolved against the base URL: nothing when it does not
      parse, itself when it is absolute, base + href otherwise. */
  function Resolve(parse: UrlParser, href: string, rawBaseURL: string): Option<string> {
    match parse(href)
    case ParseFailed(_) => None
    case ParseOk(u) => if u.IsAbs() then Some(href) else Some(rawBaseURL + href)
  }

  /** What one node contributes: its first href, resolved, when it is an
      anchor; nothing otherwise. */
  function NodeURL(parse: UrlParser, n: Node, rawBaseURL: string): Option<string> {
    if !IsAnchor(n) then None
    else match FirstHref(n.attr)
      case None => None
      case Some(href) => Resolve(parse, href, rawBaseURL)
  }

  /** Each anchor is judged by its first href alone: attributes added after
      it change nothing. */
  lemma LaterAttributesIgnored(parse: UrlParser, n: Node, extra: seq<Attribute>, rawBaseURL: string)
    requires exists k :: 0 <= k < |n.attr| && n.attr[k].key == "href"
    ensures NodeURL(parse, n.(attr := n.attr + extra), rawBaseURL) == NodeURL(parse, n, rawBaseURL)
  {
    FirstHrefAppend(n.attr, extra);
  }

  function Emit(o: Option<string>): seq<string> {
    match o
    case None => []
    case Some(u) => [u]
  }

  /** The URLs of the anchors among nodes, in document order. */
  function AnchorURLs(parse: UrlParser, nodes: seq<Node>, rawBaseURL: string): seq<string> {
    if nodes == [] then []
    else Emit(NodeURL(parse, nodes[0], rawBaseURL)) + AnchorURLs(parse, nodes[1..], rawBaseURL)
  }

  /** The number of `<a>` elements among nodes. */
  function CountAnchors(nodes: seq<Node>): nat {
    if nodes == [] then 0
    else (if IsAnchor(nodes[0]) then 1 else 0) + CountAnchors(nodes[1..])
  }

  /** Document order: the URLs of two consecutive runs of nodes are those of
      the first run followed by those of the second. */
  lemma {:induction false} AnchorURLsAppend(parse: UrlParser, a: seq<Node>, b: seq<Node>, rawBaseURL: string)
    ensures AnchorURLs(parse, a + b, rawBaseURL) == AnchorURLs(parse, a, rawBaseURL) + AnchorURLs(parse, b, rawBaseURL)
  {
    if a == [] {
      assert a + b == b;
    } else {
      assert (a + b)[0] == a[0] && (a + b)[1..] == a[1..] + b;
      AnchorURLsAppend(parse, a[1..], b, rawBaseURL);
    }
  }

  /** Each anchor contributes at most one URL, and other nodes none. */
  lemma {:induction false} AnchorURLsBound(parse: UrlParser, nodes: seq<Node>, rawBaseURL: string)
    ensures |AnchorURLs(parse, nodes, rawBaseURL)| <= CountAnchors(nodes)
  {
    if nodes != [] {
      AnchorURLsBound(parse, nodes[1..], rawBaseURL);
    }
  }

  /** A URL is in the result exactly when some node yields it. */
  lemma {:induction false} AnchorURLsMember(parse: UrlParser, nodes: seq<Node>, rawBaseURL: string, u: string)
    ensures u in AnchorURLs(parse, nodes, rawBaseURL) <==>
            exists k :: 0 <= k < |nodes| && NodeURL(parse, nodes[k], rawBaseURL) == Some(u)
  {
    if nodes != [] {
      var tail := nodes[1..];
      AnchorURLsMember(parse, tail, rawBaseURL, u);
      assert forall k :: 0 <= k < |tail| ==> tail[k] == nodes[k + 1];
    }
  }

  /** Every URL in the result is the first href of some anchor: verbatim when
      that href parses as absolute, prefixed with the base URL when it parses
      as relative. */
  lemma AnchorURLsOrigin(parse: UrlParser, nodes: seq<Node>, rawBaseURL: string, u: string)
    requires u in AnchorURLs(parse, nodes, rawBaseURL)
    ensures exists k :: 0 <= k < |nodes| && IsAnchor(nodes[k]) && FirstHref(nodes[k].attr).Some?
              && var href := FirstHref(nodes[k].attr).value;
                 parse(href).ParseOk?
                 && u == (if parse(href).url.IsAbs() then href else rawBaseURL + href)
  {
    AnchorURLsMember(parse, nodes, rawBaseURL, u);
    var k :| 0 <= k < |nodes| && NodeURL(parse, nodes[k], rawBaseURL) == Some(u);
  }

  function Element(tag: string, attr: seq<Attribute>): Node {
    Node(ElementNode, tag, attr)
  }

  function Text(data: string): Node {
    Node(TextNode, data, [])
  }

  /** The descendants of the parsed test page holding the given anchors,
      each wrapping a span with the text "Boot.dev". */
  function TestPage(hrefs: seq<string>): seq<Node> {
    [Element("html", []), Element("head", []), Element("body", [])] + TestAnchors(hrefs)
  }

  function TestAnchors(hrefs: seq<string>): seq<Node> {
    if hrefs == [] then []
    else [Element("a", [Attribute("href", hrefs[0])]), Element("span", []), Text("Boot.dev")] + TestAnchors(hrefs[1..])
  }

  lemma TestPageNoise(parse: UrlParser, rest: seq<Node>, rawBaseURL: string)
    ensures AnchorURLs(parse, [Element("html", []), Element("head", []), Element("body", [])] + rest, rawBaseURL)
         == AnchorURLs(parse, rest, rawBaseURL)
  {
    var html, head, body := Element("html", []), Element("head", []), Element("body", []);
    var page := [html, head, body] + rest;
    assert page[0] == html && page[1..][0] == head && page[1..][1..][0] == body;
    assert page[1..][1..][1..] == rest;
    assert AnchorURLs(parse, page, rawBaseURL) == AnchorURLs(parse, page[1..], rawBaseURL);
    assert AnchorURLs(parse, page[1..], rawBaseURL) == AnchorURLs(parse, page[1..][1..], rawBaseURL);
    assert AnchorURLs(parse, page[1..][1..], rawBaseURL) == AnchorURLs(parse, rest, rawBaseURL);
  }

  lemma TestAnchorsURLs(parse: UrlParser, href: string, hrefs: seq<string>, rawBaseURL: string)
    ensures AnchorURLs(parse, TestAnchors([href] + hrefs), rawBaseURL)
         == Emit(Resolve(parse, href, rawBaseURL)) + AnchorURLs(parse, TestAnchors(hrefs), rawBaseURL)
  {
    var anchors := TestAnchors([href] + hrefs);
    var rest := TestAnchors(hrefs);
    assert ([href] + hrefs)[1..] == hrefs;
    assert anchors == [Element("a", [Attribute("href", href)]), Element("span", []), Text("Boot.dev")] + rest;
    assert anchors[1..][0] == Element("span", []) && anchors[1..][1..][0] == Text("Boot.dev");
    assert anchors[1..][1..][1..] == rest;
    assert NodeURL(parse, anchors[0], rawBaseURL) == Resolve(parse, href, rawBaseURL);
    assert AnchorURLs(parse, anchors[1..], rawBaseURL) == AnchorURLs(parse, anchors[1..][1..], rawBaseURL);
    assert AnchorURLs(parse, anchors[1..][1..], rawBaseURL) == AnchorURLs(parse, rest, rawBaseURL);
  }

  /** A test page with a single anchor yields what its href resolves to. */
  lemma TestSingleAnchor(parse: UrlParser, href: string, rawBaseURL: string)
    ensures AnchorURLs(parse, TestPage([href]), rawBaseURL) == Emit(Resolve(parse, href, rawBaseURL))
  {
    TestPageNoise(parse, TestAnchors([href]), rawBaseURL);
    TestAnchorsURLs(parse, href, [], rawBaseURL);
    assert [href] + [] == [href];
    assert AnchorURLs(parse, TestAnchors([]), rawBaseURL) == [];
  }

  /** get_url_test.go, "absolute URLs": an absolute href comes back as it is. */
  lemma TestAbsoluteURL(parse: UrlParser)
    requires parse("https://other.com/path/one") == ParseOk(Url("https", "other.com", "/path/one", ""))
    ensures AnchorURLs(parse, TestPage(["https://other.com/path/one"]), "https://blog.boot.dev")
         == ["https://other.com/path/one"]
  {
    TestSingleAnchor(parse, "https://other.com/path/one", "https://blog.boot.dev");
  }

  /** get_url_test.go, "relative URLs": a relative href is appended to the base. */
  lemma TestRelativeURL(parse: UrlParser)
    requires parse("/path/one") == ParseOk(Url("", "", "/path/one", ""))
    ensures AnchorURLs(parse, TestPage(["/path/one"]), "https://blog.boot.dev")
         == ["https://blog.boot.dev/path/one"]
  {
    var base, href := "https://blog.boot.dev", "/path/one";
    TestSingleAnchor(parse, href, base);
    assert Resolve(parse, href, base) == Some(base + href);
    assert base + href == "https://blog.boot.dev/path/one";
  }

  /** A test page with two anchors yields what their hrefs resolve to, in
      page order. */
  lemma TestTwoAnchors(parse: UrlParser, first: string, second: string, rawBaseURL: string)
    ensures AnchorURLs(parse, TestPage([first, second]), rawBaseURL)
         == Emit(Resolve(parse, first, rawBaseURL)) + Emit(Resolve(parse, second, rawBaseURL))
  {
    TestPageNoise(parse, TestAnchors([first, second]), rawBaseURL);
    assert [first, second] == [first] + [second];
    TestAnchorsURLs(parse, first, [second], rawBaseURL);
    TestAnchorsURLs(parse, second, [], rawBaseURL);
    assert [second] + [] == [second];
    assert AnchorURLs(parse, TestAnchors([]), rawBaseURL) == [];
  }

  /** get_url_test.go, "absolute and relative URLs": both, in page order. */
  lemma TestAbsoluteAndRelativeURLs(parse: UrlParser)
    requires parse("/path/one") == ParseOk(Url("", "", "/path/one", ""))
    requires parse("https://other.com/path/one") == ParseOk(Url("https", "other.com", "/path/one", ""))
    ensures AnchorURLs(parse, TestPage(["/path/one", "https://other.com/path/one"]), "https://blog.boot.dev")
         == ["https://blog.boot.dev/path/one", "https://other.com/path/one"]
  {
    var base, rel, abs := "https://blog.boot.dev", "/path/one", "https://other.com/path/one";
    TestTwoAnchors(parse, rel, abs, base);
    assert Resolve(parse, rel, base) == Some(base + rel);
    assert base + rel == "https://blog.boot.dev/path/one";
  }

  /** One more node adds its own contribution at the end. */
  lemma AnchorURLsSnoc(parse: UrlParser, nodes: seq<Node>, i: nat, rawBaseURL: string)
    requires i < |nodes|
    ensures AnchorURLs(parse, nodes[..i + 1], rawBaseURL)
         == AnchorURLs(parse, nodes[..i], rawBaseURL) + Emit(NodeURL(parse, nodes[i], rawBaseURL))
  {
    assert nodes[..i + 1] == nodes[..i] + [nodes[i]];
    AnchorURLsAppend(parse, nodes[..i], [nodes[i]], rawBaseURL);
    assert [nodes[i]][1..] == [];
  }

  /** getURLsFromHTML(htmlBody, rawBaseURL). */
  method GetURLsFromHTML(parseHtml: HtmlParser, parse: UrlParser, htmlBody: string, rawBaseURL: string)
    returns (urls: seq<string>, err: Option<string>)
    ensures parseHtml(htmlBody).HtmlError? ==> urls == [] && err == Some(parseHtml(htmlBody).err)
    ensures parseHtml(htmlBody).Doc? ==>
              err == None && urls == AnchorURLs(parse, parseHtml(htmlBody).descendants, rawBaseURL)
  {
    var doc := parseHtml(htmlBody);
    if doc.HtmlError? {
      return [], Some(doc.err);
    }
    var nodes := doc.descendants;
    urls, err := [], None;
    var i := 0;
    while i < |nodes|
      invariant 0 <= i <= |nodes|
      invariant urls == AnchorURLs(parse, nodes[..i], rawBaseURL)
    {
      var n := nodes[i];
      ghost var before := urls;
      if n.nodeType == ElementNode && n.data == "a" {
        var k := 0;
        while k < |n.attr|
          invariant 0 <= k <= |n.attr|
          invariant forall m :: 0 <= m < k ==> n.attr[m].key != "href"
          invariant urls == before
        {
          var a := n.attr[k];
          if a.key == "href" {
            FirstHrefAt(n.attr, k);
            var parsed := parse(a.val);
            if parsed.ParseFailed? {
              break;
            }
            if parsed.url.IsAbs() {
              urls := urls + [a.val];
            } else {
              urls := urls + [rawBaseURL + a.val];
            }
            break;
          }
          k := k + 1;
        }
        if k == |n.attr| {
          FirstHrefSpec(n.attr);
        }
      }
      AnchorURLsSnoc(parse, nodes, i, rawBaseURL);
      i := i + 1;
    }
    assert nodes[..i] == nodes;
  }
}
