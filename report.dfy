/** printReport (main.go, lines 147-164): the registry's keys in ascending
    order, one line each with its count. The banner text is not modelled. */
module Report {

  /** One "Found <count> internal links to <url>" line. */
  datatype ReportLine = ReportLine(url: string, count: int)

  /** Go's `<` on strings: lexicographic, character by character, a proper
      prefix before any extension of it. */
  predicate StringLess(a: string, b: string) {
    if a == [] then b != []
    else if b == [] then false
    else if a[0] != b[0] then a[0] < b[0]
    else StringLess(a[1..], b[1..])
  }

  predicate AtMost(a: string, b: string) {
    a == b || StringLess(a, b)
  }

  lemma {:induction false} StringLessIrreflexive(a: string)
    ensures !StringLess(a, a)
  {
    if a != [] {
      StringLessIrreflexive(a[1..]);
    }
  }

  /** Any two different strings are ordered one way or the other. */
  lemma {:induction false} StringLessTotal(a: string, b: string)
    ensures a == b || StringLess(a, b) || StringLess(b, a)
  {
    if a != [] && b != [] && a[0] == b[0] {
      StringLessTotal(a[1..], b[1..]);
      if a[1..] == b[1..] {
        assert a == [a[0]] + a[1..] && b == [b[0]] + b[1..];
      }
    }
  }

  lemma {:induction false} StringLessTransitive(a: string, b: string, c: string)
    requires StringLess(a, b) && StringLess(b, c)
    ensures StringLess(a, c)
  {
    if a != [] && a[0] == b[0] && b[0] == c[0] {
      StringLessTransitive(a[1..], b[1..], c[1..]);
    }
  }

  /** Each element is at most its successor. */
  predicate AdjacentSorted(s: seq<string>) {
    forall k :: 0 < k < |s| ==> AtMost(s[k - 1], s[k])
  }

  predicate Distinct(s: seq<string>) {
    forall i, j :: 0 <= i < j < |s| ==> s[i] != s[j]
  }

  /** Every element is below every later one. */
  predicate Ascending(s: seq<string>) {
    forall i, j :: 0 <= i < j < |s| ==> StringLess(s[i], s[j])
  }

  lemma {:induction false} AscendingPair(s: seq<string>, i: nat, j: nat)
    requires AdjacentSorted(s) && Distinct(s) && i < j < |s|
    ensures StringLess(s[i], s[j])
    decreases j - i
  {
    if i + 1 < j {
      AscendingPair(s, i, j - 1);
      if s[j - 1] != s[j] {
        StringLessTransitive(s[i], s[j - 1], s[j]);
      }
    }
  }

  /** A sequence without repeats whose neighbours are in order is strictly
      ascending. */
  lemma AscendingFromAdjacent(s: seq<string>)
    requires AdjacentSorted(s) && Distinct(s)
    ensures Ascending(s)
  {
    forall i, j | 0 <= i < j < |s| ensures StringLess(s[i], s[j]) {
      AscendingPair(s, i, j);
    }
  }

  /** A sequence holding each element of a set once has no repeats. */
  lemma DistinctFromSet(s: seq<string>, keys: set<string>)
    requires multiset(s) == multiset(keys)
    ensures Distinct(s)
  {
    forall i, j | 0 <= i < j < |s| ensures s[i] != s[j] {
      if s[i] == s[j] {
        RepeatCountsTwice(s, i, j);
        assert false;
      }
    }
  }

  lemma RepeatCountsTwice(s: seq<string>, i: nat, j: nat)
    requires i < j < |s| && s[i] == s[j]
    ensures multiset(s)[s[j]] >= 2
  {
    assert s == s[..j] + [s[j]] + s[j + 1..];
    assert s[i] == s[..j][i];
  }

  /** sort.Strings, as an insertion sort in place: afterwards the array is in
      order and holds the same strings as before. */
  method SortStrings(a: array<string>)
    modifies a
    ensures AdjacentSorted(a[..])
    ensures multiset(a[..]) == old(multiset(a[..]))
  {
    if a.Length == 0 {
      return;
    }
    var i := 1;
    while i < a.Length
      invariant 1 <= i <= a.Length
      invariant forall k :: 0 < k < i ==> AtMost(a[k - 1], a[k])
      invariant multiset(a[..]) == old(multiset(a[..]))
    {
      SinkLast(a, i);
      i := i + 1;
    }
  }

  /** One pass of the insertion sort: a[i] is swapped down past the larger
      strings before it, so that a[..i + 1] is in order. */
  method SinkLast(a: array<string>, i: nat)
    requires 0 < i < a.Length
    requires forall k :: 0 < k < i ==> AtMost(a[k - 1], a[k])
    modifies a
    ensures forall k :: 0 < k <= i ==> AtMost(a[k - 1], a[k])
    ensures multiset(a[..]) == old(multiset(a[..]))
  {
    var j := i;
    while j > 0 && StringLess(a[j], a[j - 1])
      invariant 0 <= j <= i
      invariant forall k :: 0 < k <= i && k != j ==> AtMost(a[k - 1], a[k])
      invariant 0 < j < i ==> AtMost(a[j - 1], a[j + 1])
      invariant multiset(a[..]) == old(multiset(a[..]))
    {
      Swap(a, j - 1, j);
      j := j - 1;
    }
    if j > 0 {
      StringLessTotal(a[j - 1], a[j]);
    }
  }

  /** The loop `for url := range pages { urls = append(urls, url) }`: every
      key once, in an order the map chooses. */
  method CollectKeys(pages: map<string, int>) returns (urls: seq<string>)
    ensures multiset(urls) == multiset(pages.Keys)
  {
    urls := [];
    var rest := pages.Keys;
    while rest != {}
      invariant rest <= pages.Keys
      invariant multiset(urls) + multiset(rest) == multiset(pages.Keys)
      decreases |rest|
    {
      var url :| url in rest;
      assert multiset(rest) == multiset(rest - {url}) + multiset{url};
      urls := urls + [url];
      rest := rest - {url};
    }
  }

  /** Exchanges two elements of a, leaving the others in place. */
  method Swap(a: array<string>, i: nat, j: nat)
    requires i < j < a.Length
    modifies a
    ensures a[i] == old(a[j]) && a[j] == old(a[i])
    ensures forall k :: 0 <= k < a.Length && k != i && k != j ==> a[k] == old(a[k])
    ensures multiset(a[..]) == old(multiset(a[..]))
  {
    a[i], a[j] := a[j], a[i];
  }

  /** printReport(pages): the keys collected in the map's (unspecified)
      iteration order, sorted, and emitted with their counts. Each key of the
      registry appears on exactly one line, the lines are in strictly
      ascending order of URL, and each carries its stored count. */
  method PrintReport(pages: map<string, int>) returns (lines: seq<ReportLine>)
    ensures |lines| == |pages|
    ensures forall k :: 0 <= k < |lines| ==> lines[k].url in pages && lines[k].count == pages[lines[k].url]
    ensures forall url :: url in pages ==> exists k :: 0 <= k < |lines| && lines[k].url == url
    ensures forall i, j :: 0 <= i < j < |lines| ==> StringLess(lines[i].url, lines[j].url)
  {
    var urls := CollectKeys(pages);
    var a := new string[|urls|](k requires 0 <= k < |urls| => urls[k]);
    assert a[..] == urls;
    SortStrings(a);
    var sorted := a[..];
    SortedKeys(sorted, pages.Keys);

    lines := EmitLines(sorted, pages);
    LinesOfSorted(sorted, pages, lines);
  }

  /** Lines emitted for the sorted keys of a registry are in ascending order
      and name every key. */
  lemma LinesOfSorted(sorted: seq<string>, pages: map<string, int>, lines: seq<ReportLine>)
    requires Ascending(sorted)
    requires forall key :: key in pages ==> exists k :: 0 <= k < |sorted| && sorted[k] == key
    requires |lines| == |sorted|
    requires forall k :: 0 <= k < |lines| ==> lines[k].url == sorted[k]
    ensures forall url :: url in pages ==> exists k :: 0 <= k < |lines| && lines[k].url == url
    ensures forall i, j :: 0 <= i < j < |lines| ==> StringLess(lines[i].url, lines[j].url)
  {
    forall url | url in pages ensures exists k :: 0 <= k < |lines| && lines[k].url == url {
      var k :| 0 <= k < |sorted| && sorted[k] == url;
      assert lines[k].url == url;
    }
  }

  /** The loop that prints one line per sorted URL with its count. */
  method EmitLines(sorted: seq<string>, pages: map<string, int>) returns (lines: seq<ReportLine>)
    requires forall k :: 0 <= k < |sorted| ==> sorted[k] in pages
    ensures |lines| == |sorted|
    ensures forall k :: 0 <= k < |lines| ==> lines[k] == ReportLine(sorted[k], pages[sorted[k]])
  {
    lines := [];
    for k := 0 to |sorted|
      invariant |lines| == k
      invariant forall m :: 0 <= m < k ==> lines[m] == ReportLine(sorted[m], pages[sorted[m]])
    {
      lines := lines + [ReportLine(sorted[k], pages[sorted[k]])];
    }
  }

  /** The sorted keys of a set: strictly ascending, each key at exactly one
      position and nothing else. */
  lemma SortedKeys(sorted: seq<string>, keys: set<string>)
    requires AdjacentSorted(sorted) && multiset(sorted) == multiset(keys)
    ensures Ascending(sorted) && |sorted| == |keys|
    ensures forall k :: 0 <= k < |sorted| ==> sorted[k] in keys
    ensures forall key :: key in keys ==> exists k :: 0 <= k < |sorted| && sorted[k] == key
  {
    DistinctFromSet(sorted, keys);
    AscendingFromAdjacent(sorted);
    assert forall k :: 0 <= k < |sorted| ==> sorted[k] in multiset(keys);
    assert |keys| == |multiset(keys)| == |sorted|;
    forall key | key in keys ensures exists k :: 0 <= k < |sorted| && sorted[k] == key {
      assert key in multiset(sorted);
    }
  }
}
