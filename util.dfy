/** The scraping helpers of `lib/util.js`: where a page's base URI and an
    image's source come from, how `download_img` turns an `img` element
    into an image asset and tags the element for the media-resolution
    pass, how an embedded video becomes a link, how RSS pages are
    accumulated, and the WordPress page URIs. */
module Util {
  import opened Wrappers
  import opened JsValues
  import opened Dom
  import opened Decimal
  import opened UriEncoding
  import Assets

  const SRC_ERROR := "Could not parse img tag's src"
  const ALREADY_TAGGED := "img already has associated ImageAsset"
  /** `somaDOM.Hint.Tag` and `somaDOM.Hint.ImportantImage`. */
  const HINT_TAG := "data-soma-hint"
  const IMPORTANT_IMAGE := "ImportantImage"
  /** `somaDOM.Widget.Tag` and `somaDOM.Widget.VideoLink`. */
  const WIDGET_TAG := "data-soma-widget"
  const VIDEO_LINK := "VideoLink"

  // ---------------------------------------------------------------------
  // get_doc_base_uri

  /** Matched by the selector `base[href]`. */
  predicate IsBaseWithHref(e: Element)
  {
    e.tag == "base" && "href" in e.attrs
  }

  /** `get_doc_base_uri`: the `href` of the first `base[href]` element,
      else the URI the page was fetched from. */
  function GetDocBaseUri(doc: seq<Element>, baseUri: string): string
  {
    if doc == [] then baseUri
    else if IsBaseWithHref(doc[0]) then doc[0].attrs["href"]
    else GetDocBaseUri(doc[1..], baseUri)
  }

  /** The page's own `base` wins over the URI it was fetched from: the result
      is the `href` of the first `base[href]` element when there is one, and
      the given URI only when there is none. */
  lemma GetDocBaseUriSpec(doc: seq<Element>, baseUri: string)
    ensures (forall i :: 0 <= i < |doc| ==> !IsBaseWithHref(doc[i])) ==> GetDocBaseUri(doc, baseUri) == baseUri
    ensures forall k :: 0 <= k < |doc| && IsBaseWithHref(doc[k]) && (forall j :: 0 <= j < k ==> !IsBaseWithHref(doc[j])) ==>
      GetDocBaseUri(doc, baseUri) == doc[k].attrs["href"]
  {
    if forall i :: 0 <= i < |doc| ==> !IsBaseWithHref(doc[i]) {
      NoBaseKeepsUri(doc, baseUri);
    }
    forall k | 0 <= k < |doc| && IsBaseWithHref(doc[k]) && (forall j :: 0 <= j < k ==> !IsBaseWithHref(doc[j]))
      ensures GetDocBaseUri(doc, baseUri) == doc[k].attrs["href"]
    {
      FirstBaseWins(doc, baseUri, k);
    }
  }

  lemma {:induction false} NoBaseKeepsUri(doc: seq<Element>, baseUri: string)
    requires forall i :: 0 <= i < |doc| ==> !IsBaseWithHref(doc[i])
    ensures GetDocBaseUri(doc, baseUri) == baseUri
    decreases |doc|
  {
    if doc != [] {
      assert forall i :: 0 <= i < |doc[1..]| ==> doc[1..][i] == doc[i + 1];
      NoBaseKeepsUri(doc[1..], baseUri);
    }
  }

  lemma {:induction false} FirstBaseWins(doc: seq<Element>, baseUri: string, k: nat)
    requires k < |doc| && IsBaseWithHref(doc[k])
    requires forall j :: 0 <= j < k ==> !IsBaseWithHref(doc[j])
    ensures GetDocBaseUri(doc, baseUri) == doc[k].attrs["href"]
    decreases k
  {
    if k > 0 {
      assert !IsBaseWithHref(doc[0]);
      assert forall j :: 0 <= j < k - 1 ==> doc[1..][j] == doc[j + 1];
      FirstBaseWins(doc[1..], baseUri, k - 1);
    }
  }

  // ---------------------------------------------------------------------
  // get_img_src

  /** `s.split(sep)[0]`: what comes before the first separator. */
  function FirstField(s: string, isSep: char -> bool): (r: string)
    ensures |r| <= |s| && r == s[..|r|]
    ensures forall i :: 0 <= i < |r| ==> !isSep(r[i])
    ensures |r| < |s| ==> isSep(s[|r|])
    decreases |s|
  {
    if s == [] || isSep(s[0]) then [] else [s[0]] + FirstField(s[1..], isSep)
  }

  predicate IsComma(c: char) { c == ',' }

  /** `srcset.split(',')[0].split(/\s+/)[0]`: the URI of the first
      candidate of a `srcset`. */
  function FirstSrcsetUri(srcset: string): string
  {
    FirstField(FirstField(srcset, IsComma), IsJsSpace)
  }

  /** The first `srcset` URI is the longest prefix of the attribute that
      holds neither a comma nor white space. */
  lemma FirstSrcsetUriSpec(srcset: string)
    ensures var r := FirstSrcsetUri(srcset);
      && |r| <= |srcset| && r == srcset[..|r|]
      && (forall i :: 0 <= i < |r| ==> r[i] != ',' && !IsJsSpace(r[i]))
      && (|r| < |srcset| ==> srcset[|r|] == ',' || IsJsSpace(srcset[|r|]))
  {
    var decl := FirstField(srcset, IsComma);
    var r := FirstField(decl, IsJsSpace);
    assert forall i :: 0 <= i < |r| ==> r[i] == decl[i];
    if |r| < |srcset| {
      if |r| < |decl| {
        assert srcset[|r|] == decl[|r|];
      }
    }
  }

  /** `get_img_src`: `src`, else the first `srcset` URI, else `data-src`,
      each resolved against the base URI; throws when the element has none
      of them. An empty attribute counts as absent. */
  function GetImgSrc(e: Element, base: string, resolve: (string, string) -> string): Result<string, Error>
  {
    if HasAttr(e, "src") then Ok(resolve(base, e.attrs["src"]))
    else if HasAttr(e, "srcset") then Ok(resolve(base, FirstSrcsetUri(e.attrs["srcset"])))
    else if HasAttr(e, "data-src") then Ok(resolve(base, e.attrs["data-src"]))
    else Err(PlainError(SRC_ERROR))
  }

  /** The element's candidate sources, most preferred first. */
  function SrcCandidates(e: Element): seq<string>
  {
    (if HasAttr(e, "src") then [e.attrs["src"]] else [])
    + (if HasAttr(e, "srcset") then [FirstSrcsetUri(e.attrs["srcset"])] else [])
    + (if HasAttr(e, "data-src") then [e.attrs["data-src"]] else [])
  }

  /** The source is the most preferred candidate, and the call throws
      exactly when there is no candidate. */
  lemma GetImgSrcPrefers(e: Element, base: string, resolve: (string, string) -> string)
    ensures GetImgSrc(e, base, resolve).Err? <==> SrcCandidates(e) == []
    ensures GetImgSrc(e, base, resolve).Err? ==> GetImgSrc(e, base, resolve).error == PlainError(SRC_ERROR)
    ensures GetImgSrc(e, base, resolve).Ok? ==> GetImgSrc(e, base, resolve).value == resolve(base, SrcCandidates(e)[0])
  {
  }

  // ---------------------------------------------------------------------
  // download_img

  /** What `download_img` is handed: markup text, which it refuses, or an
      element of the page. */
  datatype ImgArg = Markup(text: string) | Selected(node: Node)

  /** `parseDataUrl(...)` of a data URL: its media type and its base64 payload. */
  datatype DataUrl = DataUrl(mediaType: string, data: string)

  /** A completed HTTP response: its `content-type` header and its body. */
  datatype Response = Response(contentType: JsValue, body: seq<bv8>)

  /** The collaborators of the download helpers: the clock (`new Date()`),
      `url.format(url.parse(...))`, `url.resolve`, `parse-data-url`,
      base64 decoding, SHA-256 in hexadecimal, and the HTTP fetch. */
  datatype UtilEnv = UtilEnv(
    now: JsDate,
    normalise: string -> string,
    resolve: (string, string) -> string,
    parseDataUrl: Option<string> -> Option<DataUrl>,
    base64: string -> seq<bv8>,
    sha256: seq<bv8> -> string,
    fetch: string -> Response)

  function MarkupError(text: string): Error
  {
    PlainError("download_img requires a Cheerio object, but was given \"" + text + "\"")
  }

  /** The canonical URI of an inline image: it names the media type, the
      page and the payload's hash. */
  function DataUrlCanonical(mediaType: string, base: string, hash: string): string
  {
    "data:" + mediaType + ";uri=" + base + ";sha256=" + hash + ";"
  }

  /** The image asset of an inline (data URL) image: the decoded payload is
      its data, and no download is made. */
  function DataUrlImage(id: string, parsed: DataUrl, base: string, env: UtilEnv): Assets.AssetRecord
  {
    var bytes := env.base64(parsed.data);
    Assets.InitialRecord(Assets.Image, id).(
      lastModified := Assets.EnsureDate(Assets.DateObject(env.now)),
      canonicalUri := Str(EncodeUri(DataUrlCanonical(parsed.mediaType, base, env.sha256(bytes)), env.normalise)),
      contentType := Str(parsed.mediaType),
      imageData := Some(bytes))
  }

  /** The image asset `download_image(uri)` makes, once its request has
      completed: the escaped URI is both its canonical URI and what is
      fetched. */
  function DownloadedImage(id: string, uri: string, env: UtilEnv): Assets.AssetRecord
  {
    var escaped := EncodeUri(uri, env.normalise);
    var response := env.fetch(escaped);
    Assets.InitialRecord(Assets.Image, id).(
      canonicalUri := Str(escaped),
      lastModified := Assets.EnsureDate(Assets.DateObject(env.now)),
      contentType := response.contentType,
      imageData := Some(response.body))
  }

  /** The attributes of a downloaded `img`: no `src` or `srcset` any more,
      the asset's id as pending attribute, and the important-image hint. */
  function Tagged(attrs: Attrs, id: string): Attrs
  {
    (attrs - {"src", "srcset"})[LIB_PENDING := id][HINT_TAG := IMPORTANT_IMAGE]
  }

  /** The element's attributes and the image asset after `download_img`. */
  datatype Downloaded = Downloaded(attrs: Attrs, asset: Assets.AssetRecord)

  /** `download_img` on an element: refused when the element already has an
      asset; an inline image gets an asset from its own payload and the
      element is left as it is; any other image is downloaded from its
      source and the element is tagged. A missing base URI is `''`. */
  function DownloadImgSpec(e: Element, baseUri: Option<string>, id: string, env: UtilEnv): Result<Downloaded, Error>
  {
    var base := if baseUri.None? then "" else baseUri.value;
    if HasAttr(e, LIB_PENDING) then Err(PlainError(ALREADY_TAGGED))
    else match env.parseDataUrl(Attr(e, "src"))
      case Some(parsed) => Ok(Downloaded(e.attrs, DataUrlImage(id, parsed, base, env)))
      case None =>
        match GetImgSrc(e, base, env.resolve)
        case Err(err) => Err(err)
        case Ok(src) => Ok(Downloaded(Tagged(e.attrs, id), DownloadedImage(id, src, env)))
  }

  /** The inline branch of `download_img`: a fresh image asset whose data
      is the decoded payload. */
  method NewDataUrlImage(id: string, parsed: DataUrl, base: string, env: UtilEnv) returns (asset: Assets.Asset)
    requires Assets.IsAssetId(id)
    ensures fresh(asset) && asset.Snapshot() == DataUrlImage(id, parsed, base, env)
  {
    var bytes := env.base64(parsed.data);
    var hash := env.sha256(bytes);
    var canonical := DataUrlCanonical(parsed.mediaType, base, hash);
    asset := new Assets.Asset(Assets.Image, id);
    asset.SetLastModifiedDate(Assets.DateObject(env.now));
    asset.SetCanonicalUri(Str(EncodeUri(canonical, env.normalise)));
    asset.SetImageData(Str(parsed.mediaType), Some(bytes));
  }

  /** `download_image`: a fresh image asset for the escaped URI, stamped
      with the current time, whose data is the response to the request. */
  method DownloadImage(uri: string, id: string, env: UtilEnv) returns (asset: Assets.Asset)
    requires Assets.IsAssetId(id)
    ensures fresh(asset) && asset.Snapshot() == DownloadedImage(id, uri, env)
  {
    var escaped := EncodeUri(uri, env.normalise);
    asset := new Assets.Asset(Assets.Image, id);
    asset.SetCanonicalUri(Str(escaped));
    asset.SetLastModifiedDate(Assets.DateObject(env.now));
    var response := env.fetch(escaped);
    asset.SetImageData(response.contentType, Some(response.body));
  }

  /** `download_img($img, base_uri)`; `id` is the fresh id the new asset
      draws. The element's attributes change in place, and only on the
      download path. */
  method DownloadImg(img: ImgArg, baseUri: Option<string>, id: string, env: UtilEnv) returns (r: Result<Assets.Asset, Error>)
    requires Assets.IsAssetId(id)
    modifies if img.Selected? then {img.node} else {}
    ensures img.Markup? ==> r == Err(MarkupError(img.text))
    ensures img.Selected? ==>
      var s := DownloadImgSpec(old(img.node.Value()), baseUri, id, env);
      && (r.Ok? <==> s.Ok?)
      && (r.Err? ==> r.error == s.error && img.node.attrs == old(img.node.attrs))
      && (r.Ok? ==> fresh(r.value) && r.value.Snapshot() == s.value.asset && img.node.attrs == s.value.attrs)
    ensures img.Selected? ==>
      && img.node.parent == old(img.node.parent)
      && img.node.root == old(img.node.root)
      && img.node.baseUri == old(img.node.baseUri)
  {
    if img.Markup? {
      return Err(MarkupError(img.text));
    }
    var node := img.node;
    var base := if baseUri.None? then "" else baseUri.value;
    if HasAttr(node.Value(), LIB_PENDING) {
      return Err(PlainError(ALREADY_TAGGED));
    }
    var parsed := env.parseDataUrl(Attr(node.Value(), "src"));
    if parsed.Some? {
      var asset := NewDataUrlImage(id, parsed.value, base, env);
      return Ok(asset);
    }
    var src := GetImgSrc(node.Value(), base, env.resolve);
    if src.Err? {
      return Err(src.error);
    }
    var asset := DownloadAndTag(node, src.value, id, env);
    r := Ok(asset);
  }

  /** The download branch of `download_img`: the sources are dropped, the
      image is downloaded, and the element is tagged with the new asset. */
  method DownloadAndTag(node: Node, src: string, id: string, env: UtilEnv) returns (asset: Assets.Asset)
    requires Assets.IsAssetId(id)
    modifies node
    ensures fresh(asset) && asset.Snapshot() == DownloadedImage(id, src, env)
    ensures node.attrs == Tagged(old(node.attrs), id)
    ensures node.parent == old(node.parent) && node.root == old(node.root) && node.baseUri == old(node.baseUri)
  {
    node.attrs := node.attrs - {"src"};
    node.attrs := node.attrs - {"srcset"};
    asset := DownloadImage(src, id, env);
    node.attrs := node.attrs[LIB_PENDING := asset.assetId];
    node.attrs := node.attrs[HINT_TAG := IMPORTANT_IMAGE];
    assert node.attrs == Tagged(old(node.attrs), id);
  }

  /** A downloaded `img` has lost its sources, carries the asset's id and
      the hint, and keeps every other attribute. */
  lemma DownloadImgTags(e: Element, baseUri: Option<string>, id: string, env: UtilEnv)
    requires DownloadImgSpec(e, baseUri, id, env).Ok? && env.parseDataUrl(Attr(e, "src")).None?
    ensures var a := DownloadImgSpec(e, baseUri, id, env).value.attrs;
      && "src" !in a && "srcset" !in a
      && a[LIB_PENDING] == id && a[HINT_TAG] == IMPORTANT_IMAGE
      && forall k :: k !in {"src", "srcset", LIB_PENDING, HINT_TAG} ==>
           (k in a <==> k in e.attrs) && (k in a ==> a[k] == e.attrs[k])
  {
  }

  /** So an image is downloaded at most once: a second call on the tagged
      element is refused. */
  lemma DownloadImgOnce(e: Element, baseUri: Option<string>, id: string, id2: string, env: UtilEnv)
    requires Assets.IsAssetId(id)
    requires DownloadImgSpec(e, baseUri, id, env).Ok? && env.parseDataUrl(Attr(e, "src")).None?
    ensures var tagged := Element(e.tag, DownloadImgSpec(e, baseUri, id, env).value.attrs);
      DownloadImgSpec(tagged, baseUri, id2, env) == Err(PlainError(ALREADY_TAGGED))
  {
    var tagged := Element(e.tag, DownloadImgSpec(e, baseUri, id, env).value.attrs);
    assert HasAttr(tagged, LIB_PENDING);
  }

  /** A downloaded `img` is one the media-resolution pass resolves: it ends
      with the new asset's id as its job id. */
  lemma DownloadedImgResolves(e: Element, baseUri: Option<string>, id: string, env: UtilEnv)
    requires Assets.IsAssetId(id) && e.tag == "img"
    requires DownloadImgSpec(e, baseUri, id, env).Ok? && env.parseDataUrl(Attr(e, "src")).None?
    ensures var tagged := Element(e.tag, DownloadImgSpec(e, baseUri, id, env).value.attrs);
      && !Unresolved(tagged, LIB_PENDING)
      && Rewrite(tagged, LIB_PENDING).attrs[JOB_ID] == id
  {
    var tagged := Element(e.tag, DownloadImgSpec(e, baseUri, id, env).value.attrs);
    assert HasAttr(tagged, LIB_PENDING);
  }

  /** An inline image is not tagged: its element keeps its attributes, so
      unless it already has a job id the pass rejects it later. */
  lemma DataUrlImgUntagged(e: Element, baseUri: Option<string>, id: string, env: UtilEnv)
    requires e.tag == "img" && !HasAttr(e, LIB_PENDING) && !HasAttr(e, JOB_ID)
    requires env.parseDataUrl(Attr(e, "src")).Some?
    ensures DownloadImgSpec(e, baseUri, id, env).Ok?
    ensures DownloadImgSpec(e, baseUri, id, env).value.attrs == e.attrs
    ensures Unresolved(Element(e.tag, DownloadImgSpec(e, baseUri, id, env).value.attrs), LIB_PENDING)
  {
    assert Element(e.tag, e.attrs) == e;
  }

  /** Whatever path it takes, the image asset's canonical URI is escaped. */
  lemma DownloadImgUriEscaped(e: Element, baseUri: Option<string>, id: string, env: UtilEnv)
    requires DownloadImgSpec(e, baseUri, id, env).Ok?
    ensures var c := DownloadImgSpec(e, baseUri, id, env).value.asset.canonicalUri;
      c.Str? && AllSafe(c.s)
  {
  }

  // ---------------------------------------------------------------------
  // get_embedded_video_asset

  /** The link that stands for an embedded video. */
  function VideoLink(id: string): Element
  {
    Element("a", map[WIDGET_TAG := VIDEO_LINK, LIB_PENDING := id, "class" := "media-link video"])
  }

  /** `get_embedded_video_asset`: a fresh video asset for the video's URI,
      stamped with the current time, and the video element replaced in the
      page by a link carrying the asset's id. */
  method GetEmbeddedVideoAsset(doc: array<Element>, i: nat, videoUri: JsValue, id: string, now: JsDate)
    returns (asset: Assets.Asset)
    requires i < doc.Length && Assets.IsAssetId(id)
    modifies doc
    ensures doc[..] == old(doc[..])[i := VideoLink(id)]
    ensures fresh(asset)
    ensures asset.Snapshot() == Assets.InitialRecord(Assets.Video, id).(
      downloadUri := videoUri, lastModified := Assets.EnsureDate(Assets.DateObject(now)))
  {
    asset := new Assets.Asset(Assets.Video, id);
    asset.SetDownloadUri(videoUri);
    asset.SetLastModifiedDate(Assets.DateObject(now));
    doc[i] := VideoLink(asset.assetId);
  }

  /** The link is not media, so once the video is replaced the pass
      succeeds exactly when every other media element resolves. */
  lemma VideoLinkLeavesPass(doc: seq<Element>, i: nat, id: string, pending: string)
    requires i < |doc|
    ensures ResolveMedia(doc[i := VideoLink(id)], pending).ok
      <==> forall j :: 0 <= j < |doc| && j != i ==> !Unresolved(doc[j], pending)
  {
    var d := doc[i := VideoLink(id)];
    ResolveMediaSpec(d, pending);
    assert !Unresolved(d[i], pending);
    assert forall j :: 0 <= j < |doc| && j != i ==> d[j] == doc[j];
  }

  // ---------------------------------------------------------------------
  // _fetch_rss_page

  /** A feed entry: its link and its publication time (`null` when the
      feed gives none). */
  datatype FeedItem = FeedItem(link: string, pubdate: Option<int>)

  /** `max_items`: a number, or `Infinity` by default. */
  datatype Limit = Finite(n: int) | Infinity

  type Page = Result<seq<FeedItem>, Error>

  /** A feed URI, fetched once, or a paginator whose pages are fetched in
      turn; a page past those listed does not parse as a feed. */
  datatype Feed = Single(page: Page) | Paginated(pages: seq<Page>)

  const NOT_A_FEED := "Not a feed"

  /** The outcome of fetching page `page` (counted from 1). */
  function PageAt(feed: Feed, page: nat): Page
  {
    match feed
    case Single(p) => p
    case Paginated(pages) => if 1 <= page <= |pages| then pages[page - 1] else Err(PlainError(NOT_A_FEED))
  }

  /** The pages still to come, which bounds the crawl. */
  function PagesLeft(feed: Feed, page: nat): nat
  {
    if feed.Paginated? && page <= |feed.pages| then |feed.pages| - page + 1 else 0
  }

  /** `_feed_has_pubdate`: the feed has an item and the first one is dated. */
  predicate HasPubdate(items: seq<FeedItem>)
  {
    |items| > 0 && items[0].pubdate.Some?
  }

  /** `max_items - items.length`. */
  function Minus(limit: Limit, k: nat): Limit
  {
    if limit.Infinity? then Infinity else Finite(limit.n - k)
  }

  /** `Math.min(max_items, 100)`. */
  function RealisticLimit(limit: Limit): Limit
  {
    if limit.Infinity? || limit.n > 100 then Finite(100) else limit
  }

  /** `slice(0, end)`: a negative end counts from the back. */
  function SliceTo<T>(s: seq<T>, end: Limit): (r: seq<T>)
    ensures |r| <= |s| && r == s[..|r|]
    ensures end.Finite? && end.n >= 0 ==> |r| <= end.n
    ensures (end.Infinity? || end.n >= |s|) ==> r == s
    ensures end.Finite? && 0 <= end.n <= |s| ==> r == s[..end.n]
    ensures end.Finite? && end.n < 0 ==> |r| == (if |s| + end.n < 0 then 0 else |s| + end.n)
  {
    match end
    case Infinity => s
    case Finite(n) =>
      if n >= |s| then s
      else if n >= 0 then s[..n]
      else if |s| + n >= 0 then s[..|s| + n]
      else []
  }

  /** `article.pubdate >= oldest_date`; a missing date compares as 0. */
  predicate Recent(item: FeedItem, oldest: int)
  {
    (if item.pubdate.Some? then item.pubdate.value else 0) >= oldest
  }

  /** `filter(article => article.pubdate >= oldest_date)`. */
  function KeepRecent(items: seq<FeedItem>, oldest: int): (r: seq<FeedItem>)
    ensures |r| <= |items|
    ensures forall i :: 0 <= i < |r| ==> Recent(r[i], oldest)
    ensures |r| == |items| <==> forall i :: 0 <= i < |items| ==> Recent(items[i], oldest)
    ensures forall x :: x in r ==> x in items
    decreases |items|
  {
    if items == [] then []
    else
      var rest := KeepRecent(items[1..], oldest);
      assert forall i :: 0 < i < |items| ==> items[i] == items[1..][i - 1];
      if Recent(items[0], oldest) then [items[0]] + rest else rest
  }

  /** The filter keeps exactly the recent items: every recent item stays,
      and nothing else does. */
  lemma {:induction false} KeepRecentMembers(items: seq<FeedItem>, oldest: int)
    ensures forall x :: x in KeepRecent(items, oldest) <==> x in items && Recent(x, oldest)
    decreases |items|
  {
    if items != [] {
      KeepRecentMembers(items[1..], oldest);
      assert forall x :: x in items <==> x == items[0] || x in items[1..];
    }
  }

  /** One dated page: the accumulated items followed by the recent ones
      among the first `max_items - items.length`, and whether to go on
      (no item was dropped). */
  datatype Step = Step(items: seq<FeedItem>, more: bool)

  function PageStep(page: seq<FeedItem>, items: seq<FeedItem>, max: Limit, oldest: int): Step
  {
    var kept := KeepRecent(SliceTo(page, Minus(max, |items|)), oldest);
    Step(items + kept, !(|kept| < |page|))
  }

  /** The crawl goes on exactly when the whole page fitted under the limit
      and every item on it was recent enough. */
  lemma PageStepMore(page: seq<FeedItem>, items: seq<FeedItem>, max: Limit, oldest: int)
    ensures PageStep(page, items, max, oldest).more
      <==> SliceTo(page, Minus(max, |items|)) == page && forall i :: 0 <= i < |page| ==> Recent(page[i], oldest)
  {
    var limited := SliceTo(page, Minus(max, |items|));
    var kept := KeepRecent(limited, oldest);
    if |kept| >= |page| {
      assert |limited| == |page|;
      assert limited == page;
    }
  }

  /** A dated page adds, after the accumulated items, exactly the recent
      ones among the first `max_items - items.length` of the page. */
  lemma PageStepItems(page: seq<FeedItem>, items: seq<FeedItem>, max: Limit, oldest: int)
    requires max.Infinity? || |items| <= max.n
    ensures var r := PageStep(page, items, max, oldest).items;
      var room := if max.Infinity? || max.n - |items| >= |page| then |page| else max.n - |items|;
      && |items| <= |r| && r[..|items|] == items
      && forall x :: x in r[|items|..] <==> x in page[..room] && Recent(x, oldest)
  {
    var r := PageStep(page, items, max, oldest).items;
    var kept := KeepRecent(SliceTo(page, Minus(max, |items|)), oldest);
    KeepRecentMembers(SliceTo(page, Minus(max, |items|)), oldest);
    assert r[..|items|] == items && r[|items|..] == kept;
  }

  /** `_fetch_rss_page` as written: a page without dates ends the crawl with
      that page alone, cut to a realistic size. */
  function FetchRssPageAsWritten(feed: Feed, page: nat, items: seq<FeedItem>, max: Limit, oldest: int): Result<seq<FeedItem>, Error>
    decreases PagesLeft(feed, page)
  {
    match PageAt(feed, page)
    case Err(e) => Err(e)
    case Ok(p) =>
      if !HasPubdate(p) then Ok(SliceTo(p, RealisticLimit(max)))
      else
        var step := PageStep(p, items, max, oldest);
        if feed.Paginated? && step.more then FetchRssPageAsWritten(feed, page + 1, step.items, max, oldest)
        else Ok(step.items)
  }

  /** `max_items - items.length`, kept from going below zero. */
  function Room(limit: Limit, k: nat): Limit
  {
    if limit.Infinity? then Infinity else Finite(if limit.n - k < 0 then 0 else limit.n - k)
  }

  /** `_fetch_rss_page` as intended: a page without dates adds up to a
      realistic number of its items to those already gathered. */
  function FetchRssPage(feed: Feed, page: nat, items: seq<FeedItem>, max: Limit, oldest: int): Result<seq<FeedItem>, Error>
    decreases PagesLeft(feed, page)
  {
    match PageAt(feed, page)
    case Err(e) => Err(e)
    case Ok(p) =>
      if !HasPubdate(p) then Ok(items + SliceTo(p, Room(RealisticLimit(max), |items|)))
      else
        var step := PageStep(p, items, max, oldest);
        if feed.Paginated? && step.more then FetchRssPage(feed, page + 1, step.items, max, oldest)
        else Ok(step.items)
  }

  /** `fetch_rss_entries(feed, max_items, max_days_old)`: the crawl from the
      first page; `oldest` is the time `max_days_old` days before now. */
  function FetchRssEntries(feed: Feed, max: Limit, oldest: int): Result<seq<FeedItem>, Error>
  {
    FetchRssPage(feed, 1, [], max, oldest)
  }

  /** The entries are at most a non-negative `max_items`, and each of them
      was an item of one of the feed's pages. */
  lemma FetchRssEntriesSpec(feed: Feed, max: Limit, oldest: int)
    requires FetchRssEntries(feed, max, oldest).Ok?
    ensures var r := FetchRssEntries(feed, max, oldest).value;
      && (max.Finite? && 0 <= max.n ==> |r| <= max.n)
      && forall x :: x in r ==> exists q :: 1 <= q && OnPage(feed, x, q)
  {
    FetchRssPageKeeps(feed, 1, [], max, oldest);
    forall x | x in FetchRssEntries(feed, max, oldest).value
      ensures exists q :: 1 <= q && OnPage(feed, x, q)
    {
      FetchRssPageFrom(feed, 1, [], max, oldest, x);
    }
  }

  /** `x` is an item of page `q` of the feed. */
  predicate OnPage(feed: Feed, x: FeedItem, q: nat)
  {
    PageAt(feed, q).Ok? && x in PageAt(feed, q).value
  }

  lemma {:induction false} FetchRssPageFrom(feed: Feed, page: nat, items: seq<FeedItem>, max: Limit, oldest: int, x: FeedItem)
    requires FetchRssPage(feed, page, items, max, oldest).Ok?
    requires x in FetchRssPage(feed, page, items, max, oldest).value
    ensures x in items || exists q :: page <= q && OnPage(feed, x, q)
    decreases PagesLeft(feed, page)
  {
    var p := PageAt(feed, page).value;
    if !HasPubdate(p) {
      var cut := SliceTo(p, Room(RealisticLimit(max), |items|));
      if x !in items {
        assert x in cut;
        assert OnPage(feed, x, page);
      }
    } else {
      var step := PageStep(p, items, max, oldest);
      if x !in items {
        if feed.Paginated? && step.more {
          FetchRssPageFrom(feed, page + 1, step.items, max, oldest, x);
        }
        if x in step.items {
          var kept := KeepRecent(SliceTo(p, Minus(max, |items|)), oldest);
          assert x in kept;
          assert OnPage(feed, x, page);
        }
      }
    }
  }

  /** The items gathered so far are never lost, and nothing past a
      non-negative `max_items` is returned. */
  lemma {:induction false} FetchRssPageKeeps(feed: Feed, page: nat, items: seq<FeedItem>, max: Limit, oldest: int)
    requires FetchRssPage(feed, page, items, max, oldest).Ok?
    ensures var r := FetchRssPage(feed, page, items, max, oldest).value;
      && |items| <= |r| && r[..|items|] == items
      && (max.Finite? && 0 <= max.n && |items| <= max.n ==> |r| <= max.n)
    decreases PagesLeft(feed, page)
  {
    var p := PageAt(feed, page).value;
    if HasPubdate(p) {
      var step := PageStep(p, items, max, oldest);
      assert step.items[..|items|] == items;
      if feed.Paginated? && step.more {
        FetchRssPageKeeps(feed, page + 1, step.items, max, oldest);
        var r := FetchRssPage(feed, page + 1, step.items, max, oldest).value;
        assert r[..|items|] == r[..|step.items|][..|items|];
      }
    } else {
      var r := items + SliceTo(p, Room(RealisticLimit(max), |items|));
      assert r[..|items|] == items;
    }
  }

  /** Every item a dated page adds is recent enough. */
  lemma PageStepRecent(page: seq<FeedItem>, items: seq<FeedItem>, max: Limit, oldest: int)
    ensures var r := PageStep(page, items, max, oldest).items;
      forall i :: |items| <= i < |r| ==> Recent(r[i], oldest)
  {
    var kept := KeepRecent(SliceTo(page, Minus(max, |items|)), oldest);
    assert forall i :: |items| <= i < |items + kept| ==> (items + kept)[i] == kept[i - |items|];
  }

  /** Every item the crawl adds on dated pages is recent enough. */
  lemma {:induction false} FetchRssPageRecent(feed: Feed, page: nat, items: seq<FeedItem>, max: Limit, oldest: int)
    requires FetchRssPage(feed, page, items, max, oldest).Ok?
    requires forall n: nat :: PageAt(feed, n).Ok? ==> HasPubdate(PageAt(feed, n).value)
    ensures var r := FetchRssPage(feed, page, items, max, oldest).value;
      forall i :: |items| <= i < |r| ==> Recent(r[i], oldest)
    decreases PagesLeft(feed, page)
  {
    var p := PageAt(feed, page).value;
    var step := PageStep(p, items, max, oldest);
    assert HasPubdate(p);
    PageStepRecent(p, items, max, oldest);
    if feed.Paginated? && step.more {
      FetchRssPageRecent(feed, page + 1, step.items, max, oldest);
      FetchRssPageKeeps(feed, page + 1, step.items, max, oldest);
      var r := FetchRssPage(feed, page + 1, step.items, max, oldest).value;
      assert forall i :: |items| <= i < |step.items| ==> r[i] == step.items[i];
    } else {
      assert FetchRssPage(feed, page, items, max, oldest) == Ok(step.items);
    }
  }

  /** A feed without dates yields no more than `min(max_items, 100)`
      items, as written and as intended. */
  lemma NoPubdateBound(feed: Feed, max: Limit, oldest: int)
    requires PageAt(feed, 1).Ok? && !HasPubdate(PageAt(feed, 1).value)
    requires max.Infinity? || max.n >= 0
    ensures FetchRssPageAsWritten(feed, 1, [], max, oldest) == FetchRssEntries(feed, max, oldest)
    ensures var r := FetchRssEntries(feed, max, oldest).value;
      |r| <= 100 && (max.Finite? ==> |r| <= max.n)
  {
    var p := PageAt(feed, 1).value;
    assert [] + SliceTo(p, Room(RealisticLimit(max), 0)) == SliceTo(p, RealisticLimit(max));
  }

  /** As written, the items of earlier pages are dropped when a later page
      has no dates: a paginated feed whose second page is empty yields
      nothing, where the items of the first page are evidently meant. */
  lemma FetchRssDropsEarlierPages()
    ensures var feed := Paginated([Ok([FeedItem("a", Some(10))]), Ok([])]);
      && FetchRssPageAsWritten(feed, 1, [], Infinity, 0) == Ok([])
      && FetchRssPage(feed, 1, [], Infinity, 0) == Ok([FeedItem("a", Some(10))])
  {
    var feed := Paginated([Ok([FeedItem("a", Some(10))]), Ok([])]);
    var step := PageStep([FeedItem("a", Some(10))], [], Infinity, 0);
    assert KeepRecent([FeedItem("a", Some(10))], 0) == [FeedItem("a", Some(10))];
    assert step == Step([FeedItem("a", Some(10))], true);
    assert PageAt(feed, 2) == Ok([]);
    assert FetchRssPageAsWritten(feed, 2, step.items, Infinity, 0) == Ok([]);
    assert FetchRssPage(feed, 2, step.items, Infinity, 0) == Ok(step.items + []);
  }

  // ---------------------------------------------------------------------
  // create_wordpress_paginator

  /** `create_wordpress_paginator(uri)(n)`. */
  function WordpressPage(uri: string, n: nat): string
  {
    uri + "?paged=" + NatToString(n)
  }

  /** A WordPress page URI is the feed URI, `?paged=` and the page number,
      which can be read back. */
  lemma WordpressPageParses(uri: string, n: nat)
    ensures var r := WordpressPage(uri, n);
      && |r| > |uri| + 7
      && r[..|uri|] == uri && r[|uri|..|uri| + 7] == "?paged="
      && AllDigits(r[|uri| + 7..]) && ParseDigits(r[|uri| + 7..]) == n
  {
    var r := WordpressPage(uri, n);
    assert r[|uri| + 7..] == NatToString(n);
    ParseNatToString(n);
  }

  /** So distinct pages of a feed have distinct URIs. */
  lemma WordpressPagesDistinct(uri: string, m: nat, n: nat)
    requires WordpressPage(uri, m) == WordpressPage(uri, n)
    ensures m == n
  {
    WordpressPageParses(uri, m);
    WordpressPageParses(uri, n);
  }
}
