/** How the relay builds the upstream URL from the configured base, the path
    tail after the credential segment and the inbound request URL. */
module TargetUrl {

  import opened RelayTypes

  /** The base with every trailing '/' removed, as the regular expression
      replacement of a maximal run of '/' at the end of the string does. */
  function StripTrailingSlashes(s: string): (r: string)
    ensures |r| <= |s| && r == s[..|r|]
    ensures r == [] || r[|r| - 1] != '/'
    ensures forall i :: |r| <= i < |s| ==> s[i] == '/'
  {
    if s != [] && s[|s| - 1] == '/' then StripTrailingSlashes(s[..|s| - 1]) else s
  }

  /** The pieces between separators, joined back with the separator. */
  function Join(parts: seq<string>, c: char): string
    requires |parts| >= 1
  {
    if |parts| == 1 then parts[0] else parts[0] + [c] + Join(parts[1..], c)
  }

  /** The string split at every occurrence of `c`, as a string's split with a
      one-character separator does: never empty, no piece holds `c`, and
      joining the pieces gives the string back. */
  function Split(s: string, c: char): (parts: seq<string>)
    ensures |parts| >= 1
    ensures forall i :: 0 <= i < |parts| ==> c !in parts[i]
    ensures Join(parts, c) == s
    ensures c in s <==> |parts| > 1
  {
    if s == [] then [[]]
    else if s[0] == c then
      var rest := Split(s[1..], c);
      assert ([[]] + rest)[1..] == rest;
      assert s == [c] + s[1..];
      [[]] + rest
    else
      var rest := Split(s[1..], c);
      var parts := [[s[0]] + rest[0]] + rest[1..];
      assert |rest| > 1 ==> parts[1..] == rest[1..];
      assert s == [s[0]] + s[1..];
      assert c !in [s[0]] + rest[0];
      parts
  }

  /** The query text of a request URL: empty when the URL has no '?';
      otherwise the second piece of the URL split at '?', so whatever
      follows a second '?' is dropped. */
  function Query(url: string): string
  {
    if '?' in url then Split(url, '?')[1] else []
  }

  /** The path tail the router captured, or empty when it captured none. */
  function TailOf(captured: Option<string>): string
  {
    if captured.Some? then captured.value else []
  }

  /** The upstream URL: the base without trailing slashes, one '/', the tail
      verbatim, and '?' with the query only when the query is not empty. */
  function BuildUrl(base: string, tail: string, query: string): string
  {
    StripTrailingSlashes(base) + "/" + tail + (if query != [] then "?" + query else [])
  }

  // ---------------------------------------------------------------------
  // Properties of the query extraction

  lemma {:induction false} SplitAfterFreePrefix(pre: string, c: char, t: string)
    requires c !in pre
    ensures Split(pre + [c] + t, c) == [pre] + Split(t, c)
    decreases |pre|
  {
    if pre == [] {
      assert pre + [c] + t == [c] + t;
      assert ([c] + t)[1..] == t;
    } else {
      var s := pre + [c] + t;
      assert s[0] == pre[0];
      assert s[1..] == pre[1..] + [c] + t;
      SplitAfterFreePrefix(pre[1..], c, t);
      assert [pre[0]] + pre[1..] == pre;
    }
  }

  lemma {:induction false} SplitFirstPiece(q: string, c: char, rest: string)
    requires c !in q
    requires rest == [] || rest[0] == c
    ensures Split(q + rest, c)[0] == q
    decreases |q|
  {
    if q == [] {
      assert q + rest == rest;
    } else {
      var s := q + rest;
      assert s[0] == q[0];
      assert s[1..] == q[1..] + rest;
      SplitFirstPiece(q[1..], c, rest);
      assert [q[0]] + q[1..] == q;
    }
  }

  /** Every URL that holds a '?' has one decomposition `pre ? q rest` with no
      '?' in `pre` or `q` and `rest` empty or starting with '?'; the query is
      exactly that `q`: the text strictly between the first '?' and the next
      '?' or the end. */
  lemma QueryBetweenFirstAndSecondMark(pre: string, q: string, rest: string)
    requires '?' !in pre && '?' !in q
    requires rest == [] || rest[0] == '?'
    ensures Query(pre + ['?'] + q + rest) == q
  {
    var url := pre + ['?'] + q + rest;
    assert url == pre + ['?'] + (q + rest);
    assert url[|pre|] == '?';
    SplitAfterFreePrefix(pre, '?', q + rest);
    SplitFirstPiece(q, '?', rest);
  }

  /** For any URL whose first '?' is at `i`, the query is the text from just
      after it up to the next '?' or the end. */
  lemma QueryOfAnyUrl(url: string, i: nat) returns (j: nat)
    requires i < |url| && url[i] == '?' && '?' !in url[..i]
    ensures i < j <= |url| && '?' !in url[i + 1..j] && (j == |url| || url[j] == '?')
    ensures Query(url) == url[i + 1..j]
  {
    j := i + 1;
    while j < |url| && url[j] != '?'
      invariant i + 1 <= j <= |url| && '?' !in url[i + 1..j]
    {
      assert url[i + 1..j + 1] == url[i + 1..j] + [url[j]];
      j := j + 1;
    }
    assert url == url[..i] + ['?'] + url[i + 1..j] + url[j..];
    QueryBetweenFirstAndSecondMark(url[..i], url[i + 1..j], url[j..]);
  }

  /** Without a '?' the query is empty, and a query never holds a '?'. */
  lemma QueryHasNoMark(url: string)
    ensures '?' !in url ==> Query(url) == []
    ensures '?' !in Query(url)
  {
  }

  /** The text after a second '?' is silently dropped. */
  lemma SecondMarkDropsRest(url: string)
    requires url == "/relay/k/p?a=1?b=2"
    ensures Query(url) == "a=1"
  {
    var pre, q, rest := "/relay/k/p", "a=1", "?b=2";
    QueryBetweenFirstAndSecondMark(pre, q, rest);
    assert pre + ['?'] + q + rest == "/relay/k/p?a=1?b=2";
  }

  // ---------------------------------------------------------------------
  // Properties of the URL construction

  /** Trailing slashes on the base never reach the upstream URL: the base
      with one more '/' builds the same URL. */
  lemma ExtraTrailingSlashIgnored(base: string, tail: string, query: string)
    ensures BuildUrl(base + "/", tail, query) == BuildUrl(base, tail, query)
  {
    assert (base + "/")[..|base|] == base;
  }

  /** The built URL starts with the base stripped of its trailing slashes,
      followed by one '/' and the tail taken verbatim. */
  lemma {:induction false} BuildUrlLayout(base: string, tail: string, query: string)
    ensures var b := StripTrailingSlashes(base);
      var url := BuildUrl(base, tail, query);
      |url| >= |b| + 1 + |tail| &&
      url[..|b|] == b && url[|b|] == '/' && url[|b| + 1..|b| + 1 + |tail|] == tail &&
      (query == [] <==> |url| == |b| + 1 + |tail|) &&
      (query != [] ==> url[|b| + 1 + |tail|..] == "?" + query)
  {
  }

  /** The query the relay extracts from the inbound URL is the query the
      upstream sees again, provided neither the base nor the tail holds a '?'. */
  lemma QueryRoundTrip(base: string, tail: string, inbound: string)
    requires '?' !in base && '?' !in tail
    ensures Query(BuildUrl(base, tail, Query(inbound))) == Query(inbound)
  {
    var q := Query(inbound);
    var b := StripTrailingSlashes(base);
    assert forall i :: 0 <= i < |b| ==> b[i] == base[i];
    var pre := b + "/" + tail;
    assert '?' !in pre;
    if q == [] {
      assert BuildUrl(base, tail, q) == pre;
    } else {
      assert BuildUrl(base, tail, q) == pre + ['?'] + q + [];
      QueryBetweenFirstAndSecondMark(pre, q, []);
    }
  }

  /** The worked example: base "https://example.com/api/", tail "foo/bar",
      query "a=1&b=2" give "https://example.com/api/foo/bar?a=1&b=2". */
  lemma ExampleUrl(base: string, tail: string, inbound: string, expected: string)
    requires base == "https://example.com/api/" && tail == "foo/bar"
    requires inbound == "/relay/k/foo/bar?a=1&b=2"
    requires expected == "https://example.com/api/foo/bar?a=1&b=2"
    ensures BuildUrl(base, tail, Query(inbound)) == expected
  {
    var q := ExampleQuery(inbound);
    var stripped := ExampleBase(base);
    ExampleConcat(stripped, tail, q, expected);
  }

  lemma ExampleQuery(inbound: string) returns (q: string)
    requires inbound == "/relay/k/foo/bar?a=1&b=2"
    ensures q == "a=1&b=2" && Query(inbound) == q
  {
    q := "a=1&b=2";
    var pre := "/relay/k/foo/bar";
    QueryBetweenFirstAndSecondMark(pre, q, []);
    assert pre + ['?'] + q + [] == inbound;
  }

  lemma ExampleBase(base: string) returns (stripped: string)
    requires base == "https://example.com/api/"
    ensures stripped == "https://example.com/api" && StripTrailingSlashes(base) == stripped
  {
    stripped := base[..|base| - 1];
    assert stripped == "https://example.com/api";
    assert StripTrailingSlashes(stripped) == stripped;
  }

  lemma ExampleConcat(stripped: string, tail: string, q: string, expected: string)
    requires stripped == "https://example.com/api" && tail == "foo/bar" && q == "a=1&b=2"
    requires expected == "https://example.com/api/foo/bar?a=1&b=2"
    ensures stripped + "/" + tail + "?" + q == expected
  {
  }
}
