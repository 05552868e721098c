/**
 * `getLinkPreview`: scrapes Open Graph metadata out of a page's HTML. The
 * fetch is a parameter; the five regular expressions are modelled exactly
 * (see `CapturePattern`); entity decoding is the chain of five global
 * replacements.
 */
module LinkPreview {
  import opened Wrappers
  import opened Text

  // ---------------------------------------------------------------------------
  // The regular expressions
  // ---------------------------------------------------------------------------

  /**
   * A regular expression `prefix([^stop]+)suffix` with the `i` flag, where
   * `prefix` and `suffix` are literal text and `suffix` starts with `stop`.
   * For such a pattern a match at a position exists exactly when the prefix is
   * there, a non-empty run of non-`stop` characters follows, and the suffix
   * comes right after the longest such run; the capture is that run.
   */
  datatype CapturePattern = CapturePattern(prefix: string, stop: char, suffix: string)
  {
    predicate WellFormed() {
      |suffix| > 0 && suffix[0] == stop
    }
  }

  /**
   * `lit` occurs in `s` at `i`, comparing letters without regard to case.
   * Without the `u` flag, JavaScript folds case by `toUpperCase` only where
   * the result stays within or outside ASCII together with the input, so an
   * ASCII pattern matches exactly the ASCII case variants.
   */
  predicate OccursIgnoringCaseAt(s: string, lit: string, i: int) {
    0 <= i && i + |lit| <= |s| && ToLower(s[i..i + |lit|]) == ToLower(lit)
  }

  /** The end of the run of non-`stop` characters of `s` that starts at `from`. */
  function RunEnd(s: string, from: nat, stop: char): (k: nat)
    requires from <= |s|
    ensures from <= k <= |s|
    ensures forall j :: from <= j < k ==> s[j] != stop
    ensures k == |s| || s[k] == stop
    decreases |s| - from
  {
    if from == |s| || s[from] == stop then from else RunEnd(s, from + 1, stop)
  }

  /** The capture of a match of `p` that starts at index `i` of `html`, if there is one. */
  function MatchAt(html: string, p: CapturePattern, i: nat): (r: Option<string>)
    requires i <= |html|
    ensures r.Some? ==> r.value != [] && p.stop !in r.value
    ensures r.Some? ==> OccursIgnoringCaseAt(html, p.prefix, i)
  {
    if OccursIgnoringCaseAt(html, p.prefix, i) then
      var j := i + |p.prefix|;
      var k := RunEnd(html, j, p.stop);
      if k > j && OccursIgnoringCaseAt(html, p.suffix, k) then Some(html[j..k]) else None
    else None
  }

  /** `html.match(p)` searching from index `i`: the capture of the leftmost match at `i` or later. */
  function SearchFrom(html: string, p: CapturePattern, i: nat): (r: Option<string>)
    requires i <= |html|
    ensures r.Some? ==> exists m :: i <= m <= |html| && MatchAt(html, p, m) == r
                                    && forall m' :: i <= m' < m ==> MatchAt(html, p, m').None?
    ensures r.None? ==> forall m :: i <= m <= |html| ==> MatchAt(html, p, m).None?
    decreases |html| - i
  {
    var here := MatchAt(html, p, i);
    if here.Some? then here
    else if i == |html| then None
    else
      var rest := SearchFrom(html, p, i + 1);
      LeftmostExtends(html, p, i, rest);
      rest
  }

  /** A leftmost match from `i + 1` is the leftmost from `i` when nothing matches at `i`. */
  lemma LeftmostExtends(html: string, p: CapturePattern, i: nat, rest: Option<string>)
    requires i < |html| && MatchAt(html, p, i).None?
    requires rest.Some? ==> exists m :: i + 1 <= m <= |html| && MatchAt(html, p, m) == rest
                                        && forall m' :: i + 1 <= m' < m ==> MatchAt(html, p, m').None?
    requires rest.None? ==> forall m :: i + 1 <= m <= |html| ==> MatchAt(html, p, m).None?
    ensures rest.Some? ==> exists m :: i <= m <= |html| && MatchAt(html, p, m) == rest
                                       && forall m' :: i <= m' < m ==> MatchAt(html, p, m').None?
    ensures rest.None? ==> forall m :: i <= m <= |html| ==> MatchAt(html, p, m).None?
  {
    if rest.Some? {
      var m :| i + 1 <= m <= |html| && MatchAt(html, p, m) == rest
                && forall m' :: i + 1 <= m' < m ==> MatchAt(html, p, m').None?;
      assert forall m' :: i <= m' < m ==> MatchAt(html, p, m').None?;
    }
  }

  /** `html.match(p)?.[1]`: the capture of the leftmost match, non-empty and free of the stop character. */
  function Search(html: string, p: CapturePattern): (r: Option<string>)
    ensures r.Some? ==> r.value != [] && p.stop !in r.value
  {
    SearchFrom(html, p, 0)
  }

  /**
   * The three Open Graph patterns `getMetaContent` tries, in order. The first
   * is written without spaces (`<metaproperty="og:…"content="…"`) and is
   * modelled as written.
   */
  function OgPatterns(prop: string): seq<CapturePattern>
  {
    [ CapturePattern("<metaproperty=\"og:" + prop + "\"content=\"", '"', "\""),
      CapturePattern("<meta property=\"og:" + prop + "\" content='", '\'', "'"),
      CapturePattern("<meta property=\"og:" + prop + "\" content=\"", '"', "\"") ]
  }

  /** `/<title>([^<]+)<\/title>/i`. */
  const TitleTag: CapturePattern := CapturePattern("<title>", '<', "</title>")

  /** `/<meta name="description" content="([^"]+)"/i`. */
  const MetaDescription: CapturePattern := CapturePattern("<meta name=\"description\" content=\"", '"', "\"")

  /** The capture of the first pattern of `ps` that matches `html`. */
  function FirstMatch(html: string, ps: seq<CapturePattern>): (r: Option<string>)
    ensures r.Some? ==> exists k :: 0 <= k < |ps| && Search(html, ps[k]) == r
                                    && forall k' :: 0 <= k' < k ==> Search(html, ps[k']).None?
    ensures r.None? ==> forall k :: 0 <= k < |ps| ==> Search(html, ps[k]).None?
  {
    if ps == [] then None
    else if Search(html, ps[0]).Some? then Search(html, ps[0])
    else
      var rest := FirstMatch(html, ps[1..]);
      assert forall k :: 1 <= k < |ps| ==> ps[k] == ps[1..][k - 1];
      rest
  }

  /** `getMetaContent(prop)`. */
  function MetaContent(html: string, prop: string): Option<string>
  {
    FirstMatch(html, OgPatterns(prop))
  }

  /** `getTitle()`: `og:title`, falling back to the `<title>` element. */
  function Title(html: string): (r: Option<string>)
    ensures MetaContent(html, "title").Some? ==> r == MetaContent(html, "title")
    ensures MetaContent(html, "title").None? ==> r == Search(html, TitleTag)
  {
    var og := MetaContent(html, "title");
    OgCaptureNonEmpty(html, "title");
    if !Truthy(og) then Search(html, TitleTag) else og
  }

  /** `getDescription()`: `og:description`, falling back to `meta name="description"`. */
  function Description(html: string): (r: Option<string>)
    ensures MetaContent(html, "description").Some? ==> r == MetaContent(html, "description")
    ensures MetaContent(html, "description").None? ==> r == Search(html, MetaDescription)
  {
    var og := MetaContent(html, "description");
    OgCaptureNonEmpty(html, "description");
    if !Truthy(og) then Search(html, MetaDescription) else og
  }

  /** A found Open Graph value is never empty, so `!title` holds only when it is absent. */
  lemma OgCaptureNonEmpty(html: string, prop: string)
    ensures MetaContent(html, prop).Some? ==> MetaContent(html, prop).value != ""
  {
    var r := MetaContent(html, prop);
    if r.Some? {
      var k :| 0 <= k < |OgPatterns(prop)| && Search(html, OgPatterns(prop)[k]) == r;
    }
  }

  // ---------------------------------------------------------------------------
  // decode
  // ---------------------------------------------------------------------------

  /** The replacement chain of `decode`: `&amp;`, `&lt;`, `&gt;`, `&quot;`, `&#39;`, in that order. */
  function DecodeEntities(s: string): string
  {
    var a := ReplaceAll(s, "&amp;", "&");
    var b := ReplaceAll(a, "&lt;", "<");
    var c := ReplaceAll(b, "&gt;", ">");
    var d := ReplaceAll(c, "&quot;", "\"");
    ReplaceAll(d, "&#39;", "'")
  }

  /** `decode(str)`: `undefined` for a missing or empty string, the decoded text otherwise. */
  function Decode(str: Option<string>): (r: Option<string>)
    ensures !Truthy(str) ==> r.None?
    ensures Truthy(str) ==> r == Some(DecodeEntities(str.value))
  {
    if !Truthy(str) then None else Some(DecodeEntities(str.value))
  }

  /** Text without an ampersand is returned as it is. */
  lemma DecodeWithoutAmpersand(s: string)
    requires '&' !in s
    ensures DecodeEntities(s) == s
  {
    ReplaceAllWithoutFirstChar(s, "&amp;", "&");
    ReplaceAllWithoutFirstChar(s, "&lt;", "<");
    ReplaceAllWithoutFirstChar(s, "&gt;", ">");
    ReplaceAllWithoutFirstChar(s, "&quot;", "\"");
    ReplaceAllWithoutFirstChar(s, "&#39;", "'");
  }

  /** Decoding never lengthens the text. */
  lemma DecodeShrinks(s: string)
    ensures |DecodeEntities(s)| <= |s|
  {
    var a := ReplaceAll(s, "&amp;", "&");
    var b := ReplaceAll(a, "&lt;", "<");
    var c := ReplaceAll(b, "&gt;", ">");
    var d := ReplaceAll(c, "&quot;", "\"");
    ReplaceAllShrinks(s, "&amp;", "&");
    ReplaceAllShrinks(a, "&lt;", "<");
    ReplaceAllShrinks(b, "&gt;", ">");
    ReplaceAllShrinks(c, "&quot;", "\"");
    ReplaceAllShrinks(d, "&#39;", "'");
  }

  /** `&amp;` is decoded first, so a double-escaped `&amp;lt;` comes out as `<`. */
  lemma DecodeAmpersandFirst()
    ensures DecodeEntities("&amp;lt;") == "<"
  {
    var s := "&amp;lt;";
    assert s[..5] == "&amp;";
    assert s[5..] == "lt;";
    assert ReplaceAll("lt;", "&amp;", "&") == "lt;" by {
      ReplaceAllWithoutFirstChar("lt;", "&amp;", "&");
    }
    var a := ReplaceAll(s, "&amp;", "&");
    assert a == "&lt;";
    assert a[..4] == "&lt;";
    assert ReplaceAll(a, "&lt;", "<") == "<" + ReplaceAll([], "&lt;", "<");
    var b := ReplaceAll(a, "&lt;", "<");
    assert b == "<";
    DecodeWithoutAmpersand(b);
  }

  // ---------------------------------------------------------------------------
  // getLinkPreview
  // ---------------------------------------------------------------------------

  /** What `fetch(url)` and `response.text()` produced. */
  datatype FetchOutcome =
    | Threw                                  // fetch or text() rejected
    | Response(ok: bool, body: string)

  datatype Preview = Preview(
    url: string,
    title: Option<string>,
    description: Option<string>,
    image: Option<string>,
    siteName: Option<string>,
    html: string)

  /** The URL guard: only a non-empty URL starting with `http` is fetched. */
  predicate ShouldFetch(url: string)
    ensures ShouldFetch(url) <==> StartsWith(url, "http")
  {
    url != "" && StartsWith(url, "http")
  }

  /** The preview built from a fetched page, or nothing when no title, description or image was found. */
  function PreviewFromHtml(url: string, html: string): (r: Option<Preview>)
    ensures r.Some? <==> Truthy(Title(html)) || Truthy(Description(html)) || Truthy(MetaContent(html, "image"))
    ensures r.Some? ==> r.value.url == url && r.value.html == html && r.value.image == MetaContent(html, "image")
  {
    var title := Title(html);
    var description := Description(html);
    var image := MetaContent(html, "image");
    var siteName := MetaContent(html, "site_name");
    if !Truthy(title) && !Truthy(description) && !Truthy(image) then None
    else Some(Preview(url, Decode(title), Decode(description), image, Decode(siteName), html))
  }

  /** `getLinkPreview(url)`; every thrown error and every non-OK response gives `null`. */
  function GetLinkPreview(url: string, fetched: FetchOutcome): (r: Option<Preview>)
    ensures r.Some? ==> ShouldFetch(url) && fetched.Response? && fetched.ok
    ensures r.Some? ==> r.value.url == url && r.value.html == fetched.body
    ensures ShouldFetch(url) && fetched.Response? && fetched.ok ==>
              (r.Some? <==> Truthy(Title(fetched.body)) || Truthy(Description(fetched.body))
                            || Truthy(MetaContent(fetched.body, "image")))
  {
    if !ShouldFetch(url) then None
    else match fetched
      case Threw => None
      case Response(ok, body) => if !ok then None else PreviewFromHtml(url, body)
  }

  /** A URL the guard rejects gives `null` whatever the network would have answered: nothing is fetched. */
  lemma RejectedUrlIgnoresFetch(url: string, a: FetchOutcome, b: FetchOutcome)
    requires !ShouldFetch(url)
    ensures GetLinkPreview(url, a) == GetLinkPreview(url, b) == None
  {
  }

  /** A page with no title, description or image gives `null`, even when it names a site. */
  lemma NothingUsefulIsNull(url: string, html: string)
    requires Title(html).None? && Description(html).None? && MetaContent(html, "image").None?
    ensures GetLinkPreview(url, Response(true, html)) == None
  {
  }

  /**
   * A preview's texts are the decoded title, description and site name; the
   * image URL is kept as found; each title and description source is used
   * only when the one before it is absent.
   */
  lemma PreviewFields(url: string, html: string)
    requires ShouldFetch(url)
    requires GetLinkPreview(url, Response(true, html)).Some?
    ensures var p := GetLinkPreview(url, Response(true, html)).value;
      && (MetaContent(html, "title").Some? ==> p.title == Some(DecodeEntities(MetaContent(html, "title").value)))
      && (MetaContent(html, "title").None? ==> p.title == Decode(Search(html, TitleTag)))
      && (MetaContent(html, "description").Some? ==> p.description == Some(DecodeEntities(MetaContent(html, "description").value)))
      && (MetaContent(html, "description").None? ==> p.description == Decode(Search(html, MetaDescription)))
      && p.image == MetaContent(html, "image")
      && p.siteName == Decode(MetaContent(html, "site_name"))
  {
    OgCaptureNonEmpty(html, "title");
    OgCaptureNonEmpty(html, "description");
  }
}
