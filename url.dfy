/** The URL detector of src/processors/extract.ts (`extractUrls`,
    `isValidUrl`): every occurrence of "http://", then of "https://", is
    extended to the next delimiter and pushed when the result is a valid URL.
    There is no deduplication. */
module UrlDetector {
  import opened Strings
  import opened Results

  /** The protocols searched for, in this order. */
  const Protocols: seq<string> := ["http://", "https://"]

  /** The characters that end a URL: space, `\n`, `\r`, `\t` and `<>()[]{}`.
      Other whitespace, such as U+00A0, does not end a URL. */
  predicate IsUrlDelimiter(c: char) {
    c == ' ' || c == '\n' || c == '\r' || c == '\t' || c == '<' || c == '>' ||
    c == '(' || c == ')' || c == '[' || c == ']' || c == '{' || c == '}'
  }

  /** The class `[a-zA-Z0-9-]` of a host label. */
  predicate IsLabelChar(c: char) {
    IsAsciiAlnum(c) || c == '-'
  }

  /** `/^[a-zA-Z0-9-]+$/` */
  predicate IsLabel(s: string) {
    |s| > 0 && forall j :: 0 <= j < |s| ==> IsLabelChar(s[j])
  }

  /** `isValidUrl`, check by check. */
  predicate IsValidUrl(url: string) {
    var parts := Split(url, "://");
    |parts| == 2 &&
    var protocol, path := parts[0], parts[1];
    protocol != "" && path != "" && (protocol == "http" || protocol == "https") &&
    var domainPath := Split(path, "/")[0];
    domainPath != "" &&
    var domainParts := Split(domainPath, ".");
    |domainParts| >= 2 &&
    forall k :: 0 <= k < |domainParts| ==> IsLabel(domainParts[k])
  }

  /** Index of the first `c` in `s`, `|s|` if there is none. */
  function FirstIndex(s: string, c: char): (r: nat)
    ensures r <= |s|
    ensures forall j :: 0 <= j < r ==> s[j] != c
    ensures r < |s| ==> s[r] == c
  {
    if s == [] then 0 else if s[0] == c then 0 else 1 + FirstIndex(s[1..], c)
  }

  /** The host of a URL path: the text before its first '/'. */
  function HostOf(path: string): string {
    path[..FirstIndex(path, '/')]
  }

  /** A host name of at least two non-empty labels over `[a-zA-Z0-9-]`
      separated by single dots. */
  predicate DottedHost(h: string) {
    && |h| > 0 && h[0] != '.' && h[|h| - 1] != '.'
    && (forall j :: 0 <= j < |h| ==> IsLabelChar(h[j]) || h[j] == '.')
    && (forall j :: 0 <= j < |h| - 1 ==> !(h[j] == '.' && h[j + 1] == '.'))
    && (exists j :: 0 <= j < |h| && h[j] == '.')
  }

  /** A well-formed URL with its separator "://" at `k`: the only "://" in
      it, preceded by "http" or "https", followed by a path whose host is a
      dotted name. */
  predicate UrlSplitAt(url: string, k: int) {
    && OccursAt(url, "://", k)
    && (forall j :: 0 <= j < |url| && j != k ==> !OccursAt(url, "://", j))
    && (url[..k] == "http" || url[..k] == "https")
    && DottedHost(HostOf(url[k + 3..]))
  }

  /** The suffix `h[from..]` splits at '.' into labels only. */
  predicate LabelsFrom(h: string, from: nat)
    requires from <= |h|
  {
    && from < |h| && h[from] != '.' && h[|h| - 1] != '.'
    && (forall j :: from <= j < |h| ==> IsLabelChar(h[j]) || h[j] == '.')
    && (forall j :: from <= j < |h| - 1 ==> !(h[j] == '.' && h[j + 1] == '.'))
  }

  /** The pieces of `h[from..]` between dots are all labels. */
  predicate AllLabels(parts: seq<string>) {
    forall k :: 0 <= k < |parts| ==> IsLabel(parts[k])
  }

  /** Splitting a suffix made of labels separated by single dots gives
      labels only. */
  lemma {:induction false} LabelsSplit(h: string, from: nat)
    requires from <= |h| && LabelsFrom(h, from)
    ensures AllLabels(SplitFrom(h, ".", from))
    decreases |h| - from
  {
    var parts := SplitFrom(h, ".", from);
    match IndexOf(h, ".", from)
    case None =>
      assert parts == [h[from..]];
      forall j | 0 <= j < |h[from..]|
        ensures IsLabelChar(h[from..][j])
      {
        assert h[from..][j] == h[from + j];
        OccursAtChar(h, '.', from + j);
      }
    case Some(k) =>
      OccursAtChar(h, '.', k);
      assert k + 1 < |h| && h[k + 1] != '.';
      LabelsSplit(h, k + 1);
      var rest := SplitFrom(h, ".", k + 1);
      assert parts == [h[from..k]] + rest;
      forall j | 0 <= j < k - from
        ensures IsLabelChar(h[from..k][j])
      {
        assert h[from..k][j] == h[from + j];
        OccursAtChar(h, '.', from + j);
      }
      assert h[from] != '.';
      forall m | 0 <= m < |parts|
        ensures IsLabel(parts[m])
      {
        if m > 0 {
          assert parts[m] == rest[m - 1];
        }
      }
  }

  /** Conversely, when the pieces are all labels the suffix is made of
      labels separated by single dots. */
  lemma {:induction false} SplitLabels(h: string, from: nat)
    requires from <= |h| && AllLabels(SplitFrom(h, ".", from))
    ensures LabelsFrom(h, from)
    decreases |h| - from
  {
    var parts := SplitFrom(h, ".", from);
    match IndexOf(h, ".", from)
    case None =>
      assert parts == [h[from..]];
      assert IsLabel(parts[0]);
      assert forall j :: from <= j < |h| ==> h[j] == h[from..][j - from];
    case Some(k) =>
      OccursAtChar(h, '.', k);
      var rest := SplitFrom(h, ".", k + 1);
      assert parts == [h[from..k]] + rest;
      assert IsLabel(parts[0]);
      forall m | 0 <= m < |rest|
        ensures IsLabel(rest[m])
      {
        assert rest[m] == parts[m + 1];
      }
      SplitLabels(h, k + 1);
      assert forall j :: from <= j < k ==> h[j] == h[from..k][j - from];
  }

  /** The host check of `isValidUrl` (two or more pieces, each a label)
      accepts exactly the dotted host names. */
  lemma HostCheckIff(h: string)
    ensures (|Split(h, ".")| >= 2 && forall k :: 0 <= k < |Split(h, ".")| ==> IsLabel(Split(h, ".")[k])) <==> DottedHost(h)
  {
    if LabelsFrom(h, 0) {
      LabelsSplit(h, 0);
    }
    if AllLabels(Split(h, ".")) {
      SplitLabels(h, 0);
    }
    SplitFromShape(h, ".", 0);
    if exists j :: 0 <= j < |h| && h[j] == '.' {
      var j :| 0 <= j < |h| && h[j] == '.';
      OccursAtChar(h, '.', j);
    }
    if IndexOf(h, ".", 0).Some? {
      OccursAtChar(h, '.', IndexOf(h, ".", 0).value);
    }
  }

  /** `path.split("/")[0]` is the host. */
  lemma FirstPieceIsHost(path: string)
    ensures Split(path, "/")[0] == HostOf(path)
  {
    var r := FirstIndex(path, '/');
    match IndexOf(path, "/", 0)
    case None =>
      if r < |path| {
        OccursAtChar(path, '/', r);
      }
    case Some(m) =>
      OccursAtChar(path, '/', m);
      if r < m {
        OccursAtChar(path, '/', r);
      }
  }

  /** Two occurrences of "://" never overlap. */
  lemma SeparatorsApart(url: string, k: int, j: int)
    requires OccursAt(url, "://", k) && OccursAt(url, "://", j) && k < j
    ensures k + 3 <= j
  {
    assert url[k..k + 3][0] == ':' && url[k..k + 3][1] == '/' && url[k..k + 3][2] == '/';
    assert url[j..j + 3][0] == ':';
  }

  /** A URL `isValidUrl` accepts is well formed, with its separator where
      the split found it. */
  lemma ValidUrlSplits(url: string) returns (k: nat)
    requires IsValidUrl(url)
    ensures UrlSplitAt(url, k)
  {
    k := SplitTwoPieces(url, "://");
    forall j | 0 <= j < |url| && j != k
      ensures !OccursAt(url, "://", j)
    {
      if k < j < k + 3 && OccursAt(url, "://", j) {
        SeparatorsApart(url, k, j);
      }
    }
    var path := url[k + 3..];
    FirstPieceIsHost(path);
    HostCheckIff(HostOf(path));
  }

  /** A well-formed URL passes `isValidUrl`. */
  lemma SplitUrlValid(url: string, k: int)
    requires UrlSplitAt(url, k)
    ensures IsValidUrl(url)
  {
    SplitAround(url, "://", k);
    var path := url[k + 3..];
    FirstPieceIsHost(path);
    HostCheckIff(HostOf(path));
    assert HostOf(path) != "";
  }

  /** `isValidUrl` accepts exactly the well-formed URLs. */
  lemma ValidUrlIff(url: string)
    ensures IsValidUrl(url) <==> exists k :: UrlSplitAt(url, k)
  {
    if IsValidUrl(url) {
      var k := ValidUrlSplits(url);
    }
    if k :| UrlSplitAt(url, k) {
      SplitUrlValid(url, k);
    }
  }

  /** Where the URL starting its path at `k` ends: the first delimiter at
      or after `k`, else the end of the text. */
  function UrlEnd(text: string, k: nat): (e: nat)
    requires k <= |text|
    ensures k <= e <= |text|
    ensures forall j :: k <= j < e ==> !IsUrlDelimiter(text[j])
    ensures e == |text| || IsUrlDelimiter(text[e])
    decreases |text| - k
  {
    if k == |text| || IsUrlDelimiter(text[k]) then k else UrlEnd(text, k + 1)
  }

  /** `urlEnd > searchStart ? urlEnd : searchStart + 1`: where the search
      resumes. */
  function NextSearch(urlEnd: nat, searchStart: nat): (next: nat)
    ensures next > searchStart
    ensures urlEnd > searchStart ==> next == urlEnd
  {
    if urlEnd > searchStart then urlEnd else searchStart + 1
  }

  /** What is pushed for the URL `text[k..e]`: itself, when it is
      non-empty and valid. */
  function UrlPush(text: string, k: nat, e: nat): seq<Entity>
    requires k <= e <= |text|
  {
    var url := text[k..e];
    if url != "" && IsValidUrl(url) then [Entity(Url, url, k, e)] else []
  }

  /** The round of the search for `protocol` at `searchStart`: `None` when
      the protocol no longer occurs. The URL runs from the occurrence to the
      next delimiter, and the search resumes at its end. */
  function UrlStep(text: string, protocol: string, searchStart: nat): (r: Option<SearchStep>)
    requires |protocol| > 0
    ensures r.Some? ==> r.value.resume > searchStart
  {
    match IndexOf(text, protocol, searchStart)
    case None => None
    case Some(k) =>
      var e := UrlEnd(text, k + |protocol|);
      Some(SearchStep(UrlPush(text, k, e), NextSearch(e, searchStart)))
  }

  /** What the search for `protocol` pushes from `searchStart` on. */
  function UrlScan(text: string, protocol: string, searchStart: nat): seq<Entity>
    requires |protocol| > 0
    decreases |text| - searchStart
  {
    if searchStart >= |text| then []
    else
      var step := UrlStep(text, protocol, searchStart);
      if step.None? then [] else step.value.push + UrlScan(text, protocol, step.value.resume)
  }

  /** None of `protocols` is empty. */
  predicate NonEmpty(protocols: seq<string>) {
    forall q :: 0 <= q < |protocols| ==> protocols[q] != ""
  }

  /** The pushes of the searches for `protocols[p..]`, one after the other. */
  function ScansFrom(text: string, protocols: seq<string>, p: nat): seq<Entity>
    requires NonEmpty(protocols)
    decreases |protocols| - p
  {
    if p >= |protocols| then [] else UrlScan(text, protocols[p], 0) + ScansFrom(text, protocols, p + 1)
  }

  /** The search for `protocols[p]` comes before the later ones. */
  lemma ScansFromStep(text: string, protocols: seq<string>, p: nat)
    requires NonEmpty(protocols) && p < |protocols|
    ensures ScansFrom(text, protocols, p) == UrlScan(text, protocols[p], 0) + ScansFrom(text, protocols, p + 1)
  {
  }

  lemma ScansFromEnd(text: string, protocols: seq<string>)
    requires NonEmpty(protocols)
    ensures ScansFrom(text, protocols, |protocols|) == []
  {
  }

  /** What one `extractUrls` call pushes. */
  function UrlsFound(text: string): seq<Entity> {
    ScansFrom(text, Protocols, 0)
  }

  /** No character of `s` ends a URL. */
  predicate NoDelimiter(s: string) {
    forall j :: 0 <= j < |s| ==> !IsUrlDelimiter(s[j])
  }

  /** A pushed URL: a slice of the text that starts with `protocol`, holds
      no delimiter, is valid and so well formed. */
  ghost predicate IsUrlEntity(text: string, e: Entity, protocol: string) {
    && e.kind == Url
    && SliceOf(text, e)
    && |protocol| <= |e.value| && e.value[..|protocol|] == protocol
    && NoDelimiter(e.value)
    && IsValidUrl(e.value)
    && exists k :: UrlSplitAt(e.value, k)
  }

  /** The URL from an occurrence of `protocol` at `k` to the next delimiter
      `e` is delimiter-free and starts with `protocol`. */
  lemma UrlSpan(text: string, protocol: string, k: nat, e: nat)
    requires OccursAt(text, protocol, k) && NoDelimiter(protocol)
    requires k + |protocol| <= e <= |text|
    requires forall j :: k + |protocol| <= j < e ==> !IsUrlDelimiter(text[j])
    ensures text[k..e][..|protocol|] == protocol
    ensures NoDelimiter(text[k..e])
  {
    assert text[k..e][..|protocol|] == text[k..k + |protocol|];
    forall j | 0 <= j < e - k
      ensures !IsUrlDelimiter(text[k..e][j])
    {
      if j < |protocol| {
        assert text[k..e][j] == protocol[j];
      } else {
        assert text[k..e][j] == text[k + j];
      }
    }
  }

  /** The push for an occurrence of `protocol` at `k` is at most one URL
      entity, spanning from `k` to the next delimiter `e`. */
  lemma UrlPushShape(text: string, protocol: string, k: nat, e: nat)
    requires |protocol| > 0 && NoDelimiter(protocol) && OccursAt(text, protocol, k)
    requires e == UrlEnd(text, k + |protocol|)
    ensures |UrlPush(text, k, e)| <= 1
    ensures UrlPush(text, k, e) != [] ==>
              IsUrlEntity(text, UrlPush(text, k, e)[0], protocol) &&
              UrlPush(text, k, e)[0].start == k && UrlPush(text, k, e)[0].end == e
  {
    var url := text[k..e];
    if url != "" && IsValidUrl(url) {
      var u := Entity(Url, url, k, e);
      assert UrlPush(text, k, e) == [u];
      ValidUrlIff(url);
      UrlSpan(text, protocol, k, e);
      assert SliceOf(text, u);
    }
  }

  /** The round at an occurrence `k` pushes `UrlPush(text, k, e)` for the
      next delimiter `e` and resumes at `e`. */
  lemma UrlStepAt(text: string, protocol: string, searchStart: nat, k: nat, e: nat)
    requires |protocol| > 0 && IndexOf(text, protocol, searchStart) == Some(k)
    requires e == UrlEnd(text, k + |protocol|)
    ensures UrlStep(text, protocol, searchStart).Some?
    ensures UrlStep(text, protocol, searchStart).value.push == UrlPush(text, k, e)
    ensures UrlStep(text, protocol, searchStart).value.resume == e
  {
  }

  /** The search goes on from where its round resumes. */
  lemma UrlScanStep(text: string, protocol: string, searchStart: nat)
    requires |protocol| > 0 && searchStart < |text| && UrlStep(text, protocol, searchStart).Some?
    ensures UrlScan(text, protocol, searchStart) ==
              UrlStep(text, protocol, searchStart).value.push + UrlScan(text, protocol, UrlStep(text, protocol, searchStart).value.resume)
  {
  }

  /** Everything the search for `protocol` pushes from `searchStart` on is
      a URL entity starting with `protocol`, at or after `searchStart`. */
  lemma {:induction false} UrlScanEntities(text: string, protocol: string, searchStart: nat)
    requires |protocol| > 0 && NoDelimiter(protocol)
    ensures forall a :: 0 <= a < |UrlScan(text, protocol, searchStart)| ==>
              IsUrlEntity(text, UrlScan(text, protocol, searchStart)[a], protocol) &&
              searchStart <= UrlScan(text, protocol, searchStart)[a].start
    decreases |text| - searchStart
  {
    if searchStart < |text| && IndexOf(text, protocol, searchStart).Some? {
      var k := IndexOf(text, protocol, searchStart).value;
      var e := UrlEnd(text, k + |protocol|);
      hide *;
      UrlStepAt(text, protocol, searchStart, k, e);
      UrlScanStep(text, protocol, searchStart);
      UrlPushShape(text, protocol, k, e);
      UrlScanEntities(text, protocol, e);
    }
  }

  /** The pushes of the search for `protocol` are in increasing order and do
      not overlap. */
  lemma {:induction false} UrlScanOrdered(text: string, protocol: string, searchStart: nat)
    requires |protocol| > 0 && NoDelimiter(protocol)
    ensures Ordered(UrlScan(text, protocol, searchStart))
    decreases |text| - searchStart
  {
    if searchStart < |text| && IndexOf(text, protocol, searchStart).Some? {
      var k := IndexOf(text, protocol, searchStart).value;
      var e := UrlEnd(text, k + |protocol|);
      hide *;
      UrlStepAt(text, protocol, searchStart, k, e);
      UrlScanStep(text, protocol, searchStart);
      UrlPushShape(text, protocol, k, e);
      UrlScanOrdered(text, protocol, e);
      UrlScanEntities(text, protocol, e);
      PushThenOrdered(UrlPush(text, k, e), UrlScan(text, protocol, e), e);
    }
  }

  /** Neither protocol contains a delimiter. */
  lemma ProtocolsHaveNoDelimiter()
    ensures NoDelimiter("http://") && NoDelimiter("https://")
  {
  }

  /** The search for "http://" runs before the one for "https://". */
  lemma UrlsFoundSplit(text: string)
    ensures UrlsFound(text) == UrlScan(text, "http://", 0) + UrlScan(text, "https://", 0)
  {
    NoSearchesLeft(text);
  }

  /** After both protocols nothing is searched for. */
  lemma NoSearchesLeft(text: string)
    ensures ScansFrom(text, Protocols, 1) == UrlScan(text, "https://", 0)
  {
    assert ScansFrom(text, Protocols, 2) == [];
  }

  /** "http://a.b" passes `isValidUrl`. */
  lemma ShortUrlValid()
    ensures IsValidUrl("http://a.b")
  {
    var url := "http://a.b";
    assert OccursAt(url, "://", 4);
    assert ':' !in url[..4] && ':' !in url[5..];
    forall j | 0 <= j < |url| && j != 4
      ensures !OccursAt(url, "://", j)
    {
      if j + 3 <= |url| {
        assert url[j..j + 3][0] == url[j];
        if j < 4 {
          assert url[j] == url[..4][j];
        } else {
          assert url[j] == url[5..][j - 5];
        }
      }
    }
    assert url[..4] == "http" && url[7..] == "a.b";
    assert FirstIndex("a.b", '/') == 3;
    assert HostOf("a.b") == "a.b";
    assert "a.b"[1] == '.';
    SplitUrlValid(url, 4);
  }

  /** A round of the "http://" search that finds a valid URL pushes it and
      resumes at its end. */
  lemma ValidUrlRound(text: string, searchStart: nat, k: nat, e: nat)
    requires IndexOf(text, "http://", searchStart) == Some(k) && e == UrlEnd(text, k + 7)
    requires searchStart < e && IsValidUrl(text[k..e])
    ensures UrlStep(text, "http://", searchStart) == Some(SearchStep([Entity(Url, text[k..e], k, e)], e))
  {
    UrlStepAt(text, "http://", searchStart, k, e);
    assert text[k..e] != "";
  }

  /** The first round of the "http://" search over two copies of
      "http://a.b" pushes the first copy. */
  lemma FirstUrlRound(text: string)
    requires text == "http://a.b http://a.b"
    ensures UrlStep(text, "http://", 0) == Some(SearchStep([Entity(Url, "http://a.b", 0, 10)], 10))
  {
    assert text[0..7] == "http://";
    assert IndexOf(text, "http://", 0) == Some(0);
    assert text[7] == 'a' && text[8] == '.' && text[9] == 'b' && text[10] == ' ';
    assert UrlEnd(text, 10) == 10;
    assert UrlEnd(text, 9) == 10 && UrlEnd(text, 8) == 10 && UrlEnd(text, 7) == 10;
    assert text[0..10] == "http://a.b";
    hide *;
    ShortUrlValid();
    ValidUrlRound(text, 0, 0, 10);
  }

  /** The second round, resuming at 10, pushes the second copy. */
  lemma SecondUrlRound(text: string)
    requires text == "http://a.b http://a.b"
    ensures UrlStep(text, "http://", 10) == Some(SearchStep([Entity(Url, "http://a.b", 11, 21)], 21))
  {
    assert text[10..17][0] == ' ';
    assert text[11..18] == "http://";
    assert IndexOf(text, "http://", 11) == Some(11);
    assert IndexOf(text, "http://", 10) == Some(11);
    assert |text| == 21 && text[18] == 'a' && text[19] == '.' && text[20] == 'b';
    assert UrlEnd(text, 21) == 21;
    assert UrlEnd(text, 20) == 21 && UrlEnd(text, 19) == 21 && UrlEnd(text, 18) == 21;
    assert text[11..21] == "http://a.b";
    hide *;
    ShortUrlValid();
    ValidUrlRound(text, 10, 11, 21);
  }

  /** "https://" does not occur in a text without an 's'. */
  lemma NoHttps(text: string)
    requires 's' !in text
    ensures UrlScan(text, "https://", 0) == []
  {
    forall k | 0 <= k
      ensures !OccursAt(text, "https://", k)
    {
      if k + 8 <= |text| {
        assert text[k..k + 8][4] == text[k + 4];
      }
    }
  }

  /** URLs are not deduplicated: the same URL at two places is pushed
      twice, where the phone and email detectors would push it once. */
  lemma RepeatedUrlPushedTwice(text: string)
    requires text == "http://a.b http://a.b"
    ensures UrlsFound(text) == [Entity(Url, "http://a.b", 0, 10), Entity(Url, "http://a.b", 11, 21)]
  {
    assert 's' !in text;
    assert UrlScan(text, "http://", 21) == [];
    hide *;
    FirstUrlRound(text);
    SecondUrlRound(text);
    UrlScanStep(text, "http://", 0);
    UrlScanStep(text, "http://", 10);
    NoHttps(text);
    UrlsFoundSplit(text);
  }

  /** Where the elements of a concatenation come from. */
  lemma ConcatIndex(h: seq<Entity>, s: seq<Entity>)
    ensures forall a :: 0 <= a < |h| ==> (h + s)[a] == h[a]
    ensures forall a :: |h| <= a < |h + s| ==> (h + s)[a] == s[a - |h|]
  {
  }

  /** Every URL an `extractUrls` call pushes is a valid, delimiter-free
      slice of the text, with exactly one "://" after "http" or "https" and a
      dotted host; the "http://" ones come first. */
  lemma UrlsFoundAreUrls(text: string)
    ensures forall a :: 0 <= a < |UrlScan(text, "http://", 0)| ==>
              IsUrlEntity(text, UrlsFound(text)[a], "http://")
    ensures forall a :: |UrlScan(text, "http://", 0)| <= a < |UrlsFound(text)| ==>
              IsUrlEntity(text, UrlsFound(text)[a], "https://")
  {
    UrlsFoundSplit(text);
    var h, s := UrlScan(text, "http://", 0), UrlScan(text, "https://", 0);
    ProtocolsHaveNoDelimiter();
    UrlScanEntities(text, "http://", 0);
    UrlScanEntities(text, "https://", 0);
    ConcatIndex(h, s);
  }

  /** The "http://" URLs are in increasing order and do not overlap, and so
      are the "https://" ones. */
  lemma UrlsFoundOrdered(text: string)
    ensures forall a, b :: 0 <= a < b < |UrlScan(text, "http://", 0)| ==>
              UrlsFound(text)[a].end <= UrlsFound(text)[b].start
    ensures forall a, b :: |UrlScan(text, "http://", 0)| <= a < b < |UrlsFound(text)| ==>
              UrlsFound(text)[a].end <= UrlsFound(text)[b].start
  {
    UrlsFoundSplit(text);
    var h, s := UrlScan(text, "http://", 0), UrlScan(text, "https://", 0);
    ProtocolsHaveNoDelimiter();
    UrlScanOrdered(text, "http://", 0);
    UrlScanOrdered(text, "https://", 0);
    ConcatIndex(h, s);
  }

  /** The URLs pushed are URL slices of the text. */
  lemma UrlsFoundSlices(text: string)
    ensures AllOfKind(text, UrlsFound(text), Url)
  {
    UrlsFoundAreUrls(text);
  }

  /** The inner while loop of lines 213-236: `urlEnd` runs to the next
      delimiter. */
  method ScanUrlEnd(text: string, from: nat) returns (urlEnd: nat)
    requires from <= |text|
    ensures urlEnd == UrlEnd(text, from)
  {
    urlEnd := from;
    while urlEnd < |text|
      invariant from <= urlEnd <= |text|
      invariant UrlEnd(text, urlEnd) == UrlEnd(text, from)
      decreases |text| - urlEnd
    {
      if IsUrlDelimiter(text[urlEnd]) {
        break;
      }
      urlEnd := urlEnd + 1;
    }
  }

  /** The loop state of `extractUrls` in the search for `protocol` at
      `searchStart`: what this search and the remaining ones, `rest`, push
      completes `found`. */
  ghost predicate UrlState(text: string, protocol: string, searchStart: nat, emitted: seq<Entity>, rest: seq<Entity>, found: seq<Entity>)
    requires |protocol| > 0
  {
    emitted + UrlScan(text, protocol, searchStart) + rest == found
  }

  /** Advancing the loop state over the pushes `push` of one round. */
  lemma StateAdvance(emitted: seq<Entity>, push: seq<Entity>, scan: seq<Entity>, rest: seq<Entity>, found: seq<Entity>)
    requires emitted + (push + scan) + rest == found
    ensures emitted + push + scan + rest == found
    ensures push != [] ==> |emitted| < |found| && found[..|emitted|] == emitted
  {
    assert emitted + push + scan + rest == emitted + (push + scan) + rest;
    if push != [] {
      assert found[..|emitted|] == (emitted + (push + scan + rest))[..|emitted|];
    }
  }

  /** The body of the inner loop short of the push: lines 210-239 find the
      next occurrence of the protocol, extend it and validate it. */
  method UrlAt(text: string, protocol: string, searchStart: nat, ghost emitted: seq<Entity>, ghost rest: seq<Entity>, ghost found: seq<Entity>)
    returns (protocolIndex: Option<nat>, urlEnd: nat, push: Option<Entity>)
    requires |protocol| > 0 && searchStart < |text| && UrlState(text, protocol, searchStart, emitted, rest, found)
    ensures protocolIndex.None? ==> push.None? && emitted + rest == found
    ensures protocolIndex.Some? ==> searchStart < urlEnd <= |text|
    ensures protocolIndex.Some? && push.None? ==> UrlState(text, protocol, urlEnd, emitted, rest, found)
    ensures push.Some? ==> protocolIndex.Some? && UrlState(text, protocol, urlEnd, emitted + [push.value], rest, found)
    ensures push.Some? ==> |emitted| < |found| && found[..|emitted|] == emitted
  {
    protocolIndex := IndexOf(text, protocol, searchStart);
    push := None;
    urlEnd := searchStart;
    if protocolIndex.None? {
      assert UrlScan(text, protocol, searchStart) == [];
      assert emitted + [] == emitted;
      return;
    }
    var k := protocolIndex.value;
    urlEnd := ScanUrlEnd(text, k + |protocol|);
    UrlStepAt(text, protocol, searchStart, k, urlEnd);
    UrlScanStep(text, protocol, searchStart);
    ghost var pushed := UrlPush(text, k, urlEnd);
    StateAdvance(emitted, pushed, UrlScan(text, protocol, urlEnd), rest, found);
    var url := text[k..urlEnd];
    if url != "" && IsValidUrl(url) {
      push := Some(Entity(Url, url, k, urlEnd));
      assert pushed == [push.value];
    } else {
      assert emitted + pushed == emitted;
    }
  }

  /** The `while` loop of lines 208-240 for one protocol: pushes what the
      search for `protocol` finds, `pushed`, unless the push numbered
      `fault.index` within the detector call raises. `before` is the length
      of the entity list when the detector call started. */
  method SearchProtocol(input: IntentResult, protocol: string, fault: Fault, before: nat,
                        ghost emitted: seq<Entity>, ghost rest: seq<Entity>, ghost found: seq<Entity>)
    returns (raised: bool, ghost pushed: seq<Entity>)
    modifies input
    requires |protocol| > 0 && UrlState(input.text, protocol, 0, emitted, rest, found)
    requires before + |emitted| == |input.entities|
    requires fault.FailAtPush? ==> |emitted| <= fault.index
    ensures input.entities == old(input.entities) + pushed
    ensures !raised ==> emitted + pushed + rest == found
    ensures !raised && fault.FailAtPush? ==> |emitted + pushed| <= fault.index
    ensures raised ==> fault == FailAtPush(|emitted + pushed|) && |emitted + pushed| < |found|
    ensures raised ==> found[..|emitted + pushed|] == emitted + pushed
  {
    var text := input.text;
    pushed := [];
    ghost var done := emitted;
    assert done == emitted + pushed;
    var searchStart := 0;
    while searchStart < |text|
      invariant input.entities == old(input.entities) + pushed
      invariant done == emitted + pushed
      invariant UrlState(text, protocol, searchStart, done, rest, found)
      invariant fault.FailAtPush? ==> |done| <= fault.index
      decreases |text| - searchStart
    {
      var protocolIndex, urlEnd, push := UrlAt(text, protocol, searchStart, done, rest, found);
      if protocolIndex.None? {
        return false, pushed;
      }
      if push.Some? {
        var u := push.value;
        if fault == FailAtPush(|input.entities| - before) {
          return true, pushed;
        }
        PushedInTwo(old(input.entities), pushed, [u]);
        PushedInTwo(emitted, pushed, [u]);
        input.entities := input.entities + [u];
        pushed := pushed + [u];
        done := done + [u];
      }
      searchStart := urlEnd;
    }
    assert UrlScan(text, protocol, searchStart) == [];
    assert done + [] == done;
    return false, pushed;
  }

  /** One iteration of the `for` loop of lines 207-240: the search for
      `protocols[p]`, which raises or leaves the searches after it to do. */
  method SearchNext(input: IntentResult, protocols: seq<string>, p: nat, fault: Fault, before: nat,
                    ghost start: seq<Entity>, ghost emitted: seq<Entity>, ghost found: seq<Entity>)
    returns (raised: bool, ghost emitted': seq<Entity>)
    modifies input
    requires NonEmpty(protocols) && p < |protocols|
    requires input.entities == start + emitted && before + |emitted| == |input.entities|
    requires emitted + ScansFrom(input.text, protocols, p) == found
    requires fault.FailAtPush? ==> |emitted| <= fault.index
    ensures input.entities == start + emitted' && before + |emitted'| == |input.entities|
    ensures !raised ==> emitted' + ScansFrom(input.text, protocols, p + 1) == found
    ensures !raised && fault.FailAtPush? ==> |emitted'| <= fault.index
    ensures raised ==> Fires(fault, |found|) && Truncate(found, fault) == emitted'
  {
    ScansFromStep(input.text, protocols, p);
    ghost var pushed;
    raised, pushed := SearchProtocol(input, protocols[p], fault, before, emitted, ScansFrom(input.text, protocols, p + 1), found);
    PushedInTwo(start, emitted, pushed);
    emitted' := emitted + pushed;
    if raised {
      TruncateAtFault(found, fault, emitted');
    }
  }

  /** The `for` loop of lines 207-240: searches for each of `protocols` in
      turn, and stops at the push that raises. */
  method SearchProtocols(input: IntentResult, protocols: seq<string>, fault: Fault) returns (outcome: Outcome)
    requires NonEmpty(protocols)
    modifies input
    ensures input.entities == old(input.entities) + Truncate(ScansFrom(input.text, protocols, 0), fault)
    ensures outcome == Raised <==> Fires(fault, |ScansFrom(input.text, protocols, 0)|)
  {
    hide *;
    ghost var found := ScansFrom(input.text, protocols, 0);
    ghost var emitted: seq<Entity> := [];
    var before := |input.entities|;
    for p := 0 to |protocols|
      invariant input.entities == old(input.entities) + emitted
      invariant before + |emitted| == |input.entities|
      invariant emitted + ScansFrom(input.text, protocols, p) == found
      invariant fault.FailAtPush? ==> |emitted| <= fault.index
    {
      var raised;
      raised, emitted := SearchNext(input, protocols, p, fault, before, old(input.entities), emitted, found);
      if raised {
        return Raised;
      }
    }
    ScansFromEnd(input.text, protocols);
    assert emitted + [] == emitted;
    TruncateNoFault(found, fault);
    return Completed;
  }

  /** `extractUrls`: pushes `UrlsFound(text)`, or the prefix of it pushed
      before the fault fires. */
  method ExtractUrls(input: IntentResult, fault: Fault) returns (outcome: Outcome)
    modifies input
    ensures input.entities == old(input.entities) + Truncate(UrlsFound(input.text), fault)
    ensures outcome == Raised <==> Fires(fault, |UrlsFound(input.text)|)
  {
    outcome := SearchProtocols(input, Protocols, fault);
  }
}
