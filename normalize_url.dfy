/** normalizeURL: the registry key of a URL is its host, a slash, its path with
    the leading and trailing slashes removed, and its raw query, concatenated
    with no separator between path and query. */
module NormalizeUrl {
  import opened NetUrl

  /** Every character of s is a slash. */
  predicate AllSlashes(s: string) {
    forall k :: 0 <= k < |s| ==> s[k] == '/'
  }

  /** Neither the first nor the last character of s is a slash. */
  predicate NoEdgeSlash(s: string) {
    s == [] || (s[0] != '/' && s[|s| - 1] != '/')
  }

  /** Drops the leading slashes of s. */
  function TrimLeft(s: string): string {
    if s != [] && s[0] == '/' then TrimLeft(s[1..]) else s
  }

  /** Drops the trailing slashes of s. */
  function TrimRight(s: string): string {
    if s != [] && s[|s| - 1] == '/' then TrimRight(s[..|s| - 1]) else s
  }

  /** TrimLeft(s) is a suffix of s, what it drops is all slashes, and it does
      not begin with a slash. */
  lemma {:induction false} TrimLeftShape(s: string)
    ensures |TrimLeft(s)| <= |s| && TrimLeft(s) == s[|s| - |TrimLeft(s)|..]
    ensures AllSlashes(s[..|s| - |TrimLeft(s)|])
    ensures TrimLeft(s) == [] || TrimLeft(s)[0] != '/'
  {
    if s != [] && s[0] == '/' {
      var t := s[1..];
      TrimLeftShape(t);
      var n := |s| - |TrimLeft(t)|;
      assert t[|t| - |TrimLeft(t)|..] == s[n..];
      forall k | 0 <= k < n ensures s[..n][k] == '/' {
        if k > 0 { assert s[..n][k] == t[..|t| - |TrimLeft(t)|][k - 1]; }
      }
    }
  }

  /** TrimRight(s) is a prefix of s, what it drops is all slashes, and it
      does not end with a slash. */
  lemma {:induction false} TrimRightShape(s: string)
    ensures |TrimRight(s)| <= |s| && TrimRight(s) == s[..|TrimRight(s)|]
    ensures AllSlashes(s[|TrimRight(s)|..])
    ensures TrimRight(s) == [] || TrimRight(s)[|TrimRight(s)| - 1] != '/'
  {
    if s != [] && s[|s| - 1] == '/' {
      var t := s[..|s| - 1];
      TrimRightShape(t);
      var n := |TrimRight(t)|;
      assert t[..n] == s[..n];
      forall k | 0 <= k < |s| - n ensures s[n..][k] == '/' {
        if k < |s| - 1 - n { assert s[n..][k] == t[n..][k]; }
      }
    }
  }

  /** strings.Trim(s, "/"): s without its leading and trailing slashes. */
  function TrimSlashes(s: string): (r: string)
    ensures NoEdgeSlash(r)
  {
    TrimLeftShape(s);
    TrimRightShape(TrimLeft(s));
    var r := TrimRight(TrimLeft(s));
    assert r != [] ==> r[0] == TrimLeft(s)[0];
    r
  }

  /** The trimmed string is a contiguous piece of s, between a run of slashes
      at the front and a run of slashes at the back. */
  lemma TrimSlashesShape(s: string) returns (i: nat, j: nat)
    ensures i <= j <= |s| && TrimSlashes(s) == s[i..j]
    ensures AllSlashes(s[..i]) && AllSlashes(s[j..])
  {
    TrimLeftShape(s);
    var l := TrimLeft(s);
    TrimRightShape(l);
    var r := TrimRight(l);
    i, j := |s| - |l|, |s| - |l| + |r|;
    assert r == s[i..j];
    assert s[j..] == l[|r|..];
  }

  lemma {:induction false} TrimLeftAt(s: string, i: nat)
    requires i <= |s| && AllSlashes(s[..i])
    requires i == |s| || s[i] != '/'
    ensures TrimLeft(s) == s[i..]
  {
    if i > 0 {
      assert s[0] == s[..i][0];
      assert s[1..][..i - 1] == s[1..i];
      TrimLeftAt(s[1..], i - 1);
      assert s[1..][i - 1..] == s[i..];
    }
  }

  lemma {:induction false} TrimRightAt(s: string, j: nat)
    requires j <= |s| && AllSlashes(s[j..])
    requires j == 0 || s[j - 1] != '/'
    ensures TrimRight(s) == s[..j]
  {
    if j < |s| {
      assert s[|s| - 1] == s[j..][|s| - 1 - j];
      var t := s[..|s| - 1];
      assert t[j..] == s[j..|s| - 1];
      TrimRightAt(t, j);
      assert t[..j] == s[..j];
    }
  }

  /** The reverse of TrimSlashes' postcondition: any split of s into a run of
      slashes, a middle piece with no slash at its ends and a run of slashes
      determines TrimSlashes(s). */
  lemma {:induction false} TrimSlashesUnique(s: string, i: nat, j: nat)
    requires i <= j <= |s| && AllSlashes(s[..i]) && AllSlashes(s[j..])
    requires NoEdgeSlash(s[i..j])
    ensures TrimSlashes(s) == s[i..j]
  {
    if i == j {
      SlashesAround(s, i, j);
      assert s[..|s|] == s;
      TrimLeftAt(s, |s|);
    } else {
      TrimSlashesMiddle(s, i, j);
    }
  }

  /** A string that is slashes up to i and from j on, with nothing between,
      is all slashes. */
  lemma SlashesAround(s: string, i: nat, j: nat)
    requires i == j <= |s| && AllSlashes(s[..i]) && AllSlashes(s[j..])
    ensures AllSlashes(s)
  {
    forall k | 0 <= k < |s| ensures s[k] == '/' {
      if k < i { assert s[k] == s[..i][k]; } else { assert s[k] == s[j..][k - j]; }
    }
  }

  lemma TrimSlashesMiddle(s: string, i: nat, j: nat)
    requires i < j <= |s| && AllSlashes(s[..i]) && AllSlashes(s[j..])
    requires NoEdgeSlash(s[i..j])
    ensures TrimSlashes(s) == s[i..j]
  {
    SuffixFacts(s, i, j);
    TrimLeftAt(s, i);
    var l := s[i..];
    TrimRightAt(l, j - i);
    calc {
      TrimSlashes(s);
      TrimRight(TrimLeft(s));
      TrimRight(l);
      l[..j - i];
      s[i..j];
    }
  }

  lemma SuffixFacts(s: string, i: nat, j: nat)
    requires i < j <= |s| && AllSlashes(s[j..]) && NoEdgeSlash(s[i..j])
    ensures s[i] != '/'
    ensures AllSlashes(s[i..][j - i..]) && s[i..][j - i - 1] != '/' && s[i..][..j - i] == s[i..j]
  {
    assert s[i] == s[i..j][0];
    assert s[i..][j - i..] == s[j..];
    assert s[i..][j - i - 1] == s[i..j][j - i - 1];
  }

  /** Trimming twice is the same as trimming once. */
  lemma TrimSlashesIdempotent(s: string)
    ensures TrimSlashes(TrimSlashes(s)) == TrimSlashes(s)
  {
    var t := TrimSlashes(s);
    assert t[..0] == [] && t[|t|..] == [] && t[0..|t|] == t;
    TrimSlashesUnique(t, 0, |t|);
  }

  lemma AllSlashesConcat(a: string, b: string)
    requires AllSlashes(a) && AllSlashes(b)
    ensures AllSlashes(a + b)
  {
    forall k | 0 <= k < |a + b| ensures (a + b)[k] == '/' {
      if k < |a| { assert (a + b)[k] == a[k]; } else { assert (a + b)[k] == b[k - |a|]; }
    }
  }

  /** Slashes added at either end of a path do not change its trimmed form. */
  lemma TrimSlashesPadding(pre: string, p: string, post: string)
    requires AllSlashes(pre) && AllSlashes(post)
    ensures TrimSlashes(pre + p + post) == TrimSlashes(p)
  {
    var i, j := TrimSlashesShape(p);
    PaddedSplit(pre, p, post, i, j);
    TrimSlashesSameMiddle(pre + p + post, p, |pre| + i, |pre| + j, i, j);
  }

  /** Two strings whose slash-delimited middles coincide trim alike. */
  lemma TrimSlashesSameMiddle(s: string, p: string, a: nat, b: nat, i: nat, j: nat)
    requires a <= b <= |s| && i <= j <= |p|
    requires TrimSlashes(p) == p[i..j] && s[a..b] == p[i..j]
    requires AllSlashes(s[..a]) && AllSlashes(s[b..])
    ensures TrimSlashes(s) == TrimSlashes(p)
  {
    TrimSlashesUnique(s, a, b);
  }

  lemma PaddedSplit(pre: string, p: string, post: string, i: nat, j: nat)
    requires i <= j <= |p| && AllSlashes(pre) && AllSlashes(post)
    requires AllSlashes(p[..i]) && AllSlashes(p[j..])
    ensures (pre + p + post)[|pre| + i..|pre| + j] == p[i..j]
    ensures AllSlashes((pre + p + post)[..|pre| + i])
    ensures AllSlashes((pre + p + post)[|pre| + j..])
  {
    var s := pre + p + post;
    assert s[..|pre| + i] == pre + p[..i];
    assert s[|pre| + j..] == p[j..] + post;
    AllSlashesConcat(pre, p[..i]);
    AllSlashesConcat(p[j..], post);
  }

  /** The key of a parsed URL (normalize_url.go, line 13). */
  function Key(u: Url): string {
    u.host + "/" + TrimSlashes(u.path) + u.rawQuery
  }

  /** The layout of a key: the host and a slash, then the path's characters
      unchanged and in order between a run of leading and a run of trailing
      slashes that are dropped, then the raw query with no '?' before it. */
  lemma KeyLayout(u: Url)
    ensures |Key(u)| == |u.host| + 1 + |TrimSlashes(u.path)| + |u.rawQuery|
    ensures Key(u)[..|u.host| + 1] == u.host + "/"
    ensures Key(u)[|Key(u)| - |u.rawQuery|..] == u.rawQuery
    ensures exists i, j :: 0 <= i <= j <= |u.path| && AllSlashes(u.path[..i]) && AllSlashes(u.path[j..])
                           && NoEdgeSlash(u.path[i..j])
                           && Key(u) == u.host + "/" + u.path[i..j] + u.rawQuery
  {
    var k := Key(u);
    var t := TrimSlashes(u.path);
    var i, j := TrimSlashesShape(u.path);
    assert k == (u.host + "/") + (t + u.rawQuery);
    assert k == (u.host + "/" + t) + u.rawQuery;
  }

  /** Scheme and slashes around the path do not matter: two URLs whose host
      and raw query agree and whose paths differ only by slashes added at
      either end have the same key. */
  lemma KeyIgnoresSchemeAndEdgeSlashes(u: Url, scheme: string, pre: string, post: string)
    requires AllSlashes(pre) && AllSlashes(post)
    ensures Key(u.(scheme := scheme, path := pre + u.path + post)) == Key(u)
  {
    TrimSlashesPadding(pre, u.path, post);
  }

  /** normalizeURL(raw): the key of the parsed URL, or the empty string
      together with the parser's error. */
  function NormalizeURL(parse: UrlParser, raw: string): (r: (string, Option<string>))
    ensures r.1.Some? <==> parse(raw).ParseFailed?
    ensures parse(raw).ParseFailed? ==> r == ("", Some(parse(raw).err))
    ensures parse(raw).ParseOk? ==> |r.0| > |parse(raw).url.host| && r.0[..|parse(raw).url.host| + 1] == parse(raw).url.host + "/"
  {
    match parse(raw)
    case ParseFailed(err) => ("", Some(err))
    case ParseOk(u) =>
      KeyLayout(u);
      (Key(u), None)
  }

  /** Two raw strings whose parses agree on host, raw query and trimmed path
      normalise to the same key, whatever their schemes. */
  lemma NormalizeURLEquivalent(parse: UrlParser, raw1: string, raw2: string)
    requires parse(raw1).ParseOk? && parse(raw2).ParseOk?
    requires parse(raw1).url.host == parse(raw2).url.host
    requires parse(raw1).url.rawQuery == parse(raw2).url.rawQuery
    requires TrimSlashes(parse(raw1).url.path) == TrimSlashes(parse(raw2).url.path)
    ensures NormalizeURL(parse, raw1) == NormalizeURL(parse, raw2)
    ensures NormalizeURL(parse, raw1).1 == None
  {
  }

  /** Normalising a key again does not give the key back when the parser
      reads the key, which has no scheme and no "//", as a bare path with an
      empty host (as url.Parse does with "blog.boot.dev/path"): the second
      result begins with a slash, the first with the host. */
  lemma NormalizeTwiceDiffers(parse: UrlParser, raw: string)
    requires parse(raw).ParseOk? && parse(raw).url.host != "" && parse(raw).url.host[0] != '/'
    requires parse(NormalizeURL(parse, raw).0).ParseOk?
    requires parse(NormalizeURL(parse, raw).0).url.host == ""
    ensures NormalizeURL(parse, NormalizeURL(parse, raw).0).0 != NormalizeURL(parse, raw).0
  {
    var key := NormalizeURL(parse, raw).0;
    var again := NormalizeURL(parse, key).0;
    assert key[0] == key[..|parse(raw).url.host| + 1][0] == parse(raw).url.host[0];
    assert again[0] == again[..1][0] == '/';
  }
}
