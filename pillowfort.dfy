/** The prototype packager: image and news assets, their metadata records,
    the news article's media-resolution pass under the prototype's pending
    attribute, the image download helpers, and a hatch that queues one save
    task per saved asset whose save could start, and succeeds when all of
    them do. */
module Pillowfort {
  import opened Wrappers
  import opened JsValues
  import opened Dom
  import Util
  import Assets
  import PillowfortVerify

  const ALREADY_TAGGED := "img already has associated ImageAsset"
  /** The engine's complaints: `toJSON` of an unset date, `find` on an unset
      document, `$pillowfort_base_uri` of a missing root, `url.resolve`
      with an unset base. */
  const NO_DATE := "cannot read property 'toJSON' of undefined"
  const NOT_A_DATE := "toJSON is not a function"
  const NO_DOCUMENT := "cannot read property 'find' of undefined"
  const NO_ROOT := "cannot read property '$pillowfort_base_uri' of undefined"
  const NO_BASE := "url.resolve needs a string base"

  datatype Kind = Image | News

  /** An image's data: a value, or the promise of a download, which the
      model takes as completed with the response body. */
  datatype Payload = Value(v: JsValue) | Download(body: string)

  /** Everything a prototype asset holds. */
  datatype State = State(
    kind: Kind,
    assetId: string,
    contentType: JsValue,
    title: JsValue,
    canonicalUri: JsValue,
    thumbnail: JsValue,
    lastModified: JsValue,
    license: JsValue,
    imageData: Payload,
    section: JsValue,
    document: Option<seq<Element>>)

  function ObjectType(k: Kind): string
  {
    if k.Image? then "ImageObject" else "ArticleObject"
  }

  /** The fields as the constructors leave them. */
  function InitialState(k: Kind, id: string): State
  {
    State(k, id, if k.News? then Str("text/html") else Undefined,
      Undefined, Undefined, Undefined, Undefined, Undefined, Value(Undefined), Undefined, None)
  }

  /** `date.toJSON()`: the ISO form of a valid date, `null` for an invalid
      one; anything but a date has no such method. */
  function ToJson(v: JsValue): (r: Result<JsValue, Error>)
    ensures r.Ok? <==> v.Date?
  {
    match v
    case Date(ValidDate(iso)) => Ok(Str(iso))
    case Date(InvalidDate) => Ok(Null)
    case Undefined => Err(TypeError(NO_DATE))
    case Null => Err(TypeError(NO_DATE))
    case _ => Err(TypeError(NOT_A_DATE))
  }

  /** `_make_tags()`: none for an image, the section for a news article. */
  function MakeTags(s: State): JsValue
  {
    if s.kind.Image? then Arr([]) else Arr([s.section])
  }

  /** The record `_to_metadata` builds, `json` being the date's JSON form. */
  function MetadataRecord(s: State, json: JsValue): Record
  {
    map[
      "assetID" := Str(s.assetId),
      "objectType" := Str(ObjectType(s.kind)),
      "contentType" := s.contentType,
      "canonicalURI" := s.canonicalUri,
      "matchingLinks" := Arr([s.canonicalUri]),
      "title" := s.title,
      "license" := s.license,
      "tags" := MakeTags(s),
      "lastModifiedDate" := json,
      "revisionTag" := json]
  }

  /** `_to_metadata()`: the record, once the validator accepts it. */
  function ToMetadata(s: State): Result<Record, Error>
  {
    match ToJson(s.lastModified)
    case Err(e) => Err(e)
    case Ok(json) =>
      var m := MetadataRecord(s, json);
      match PillowfortVerify.VerifyMetadata(m)
      case Fail(e) => Err(e)
      case Pass => Ok(m)
  }

  /** The metadata is produced exactly when the asset has a last-modified
      date, a canonical URI and a content type, and, for a news article, a
      title. */
  lemma ToMetadataSucceeds(s: State)
    requires s.assetId != ""
    ensures ToMetadata(s).Ok? <==>
      && s.lastModified.Date? && Truthy(s.canonicalUri) && Truthy(s.contentType)
      && (s.kind.News? ==> Truthy(s.title))
  {
    if s.lastModified.Date? {
      var m := MetadataRecord(s, ToJson(s.lastModified).value);
      assert Get(m, "assetID") == Str(s.assetId);
      assert Get(m, "canonicalURI") == s.canonicalUri;
      assert Get(m, "matchingLinks") == Arr([s.canonicalUri]);
      assert Get(m, "contentType") == s.contentType;
      assert Get(m, "objectType") == Str(ObjectType(s.kind));
      assert Get(m, "title") == s.title;
    }
  }

  /** What the record says: the date's JSON form is both the last-modified
      date and the revision tag, the only matching link is the canonical
      URI, and the tags are those of the kind. */
  lemma ToMetadataFields(s: State)
    requires ToMetadata(s).Ok?
    ensures var m := ToMetadata(s).value;
      && s.lastModified.Date?
      && Get(m, "lastModifiedDate") == Get(m, "revisionTag")
         == (if s.lastModified.d.ValidDate? then Str(s.lastModified.d.iso) else Null)
      && Get(m, "matchingLinks") == Arr([s.canonicalUri])
      && Get(m, "tags") == (if s.kind.Image? then Arr([]) else Arr([s.section]))
      && Get(m, "assetID") == Str(s.assetId)
  {
  }

  /** `_wait()` of an image: once the download completes, the content type
      is JPEG and the data is the response body. */
  function Settled(s: State): (r: State)
  {
    if s.kind.Image? && s.imageData.Download? then
      s.(contentType := Str("image/jpeg"), imageData := Value(Str(s.imageData.body)))
    else s
  }

  /** `validate()`: a news article's pass over its document. */
  function ValidateOutcome(s: State): Outcome<Error>
  {
    if s.document.None? then Fail(TypeError(NO_DOCUMENT))
    else if ResolveMedia(s.document.value, PF_PENDING).ok then Pass
    else Fail(ValidationError(Assets.MEDIA_ERROR))
  }

  /** The document as the pass leaves it. */
  function Validated(s: State): State
  {
    if s.document.Some? then s.(document := Some(ResolveMedia(s.document.value, PF_PENDING).doc)) else s
  }

  /** The pass succeeds exactly when the article has a document whose media
      elements all resolve, and then every media element that carried the
      pending attribute has its value as job id and has lost the former. */
  lemma ValidateSpec(s: State, i: nat)
    ensures ValidateOutcome(s).Pass? <==>
      s.document.Some? && forall j :: 0 <= j < |s.document.value| ==> !Unresolved(s.document.value[j], PF_PENDING)
    ensures ValidateOutcome(s).Pass? && i < |s.document.value| && IsMedia(s.document.value[i]) ==>
      var e := Validated(s).document.value[i];
      && HasAttr(e, JOB_ID)
      && (HasAttr(s.document.value[i], PF_PENDING) ==>
            PF_PENDING !in e.attrs && e.attrs[JOB_ID] == s.document.value[i].attrs[PF_PENDING])
  {
    if s.document.Some? {
      ResolveMediaSpec(s.document.value, PF_PENDING);
      if ValidateOutcome(s).Pass? && i < |s.document.value| {
        ResolvedDocument(s.document.value, PF_PENDING, i);
      }
    }
  }

  /** `_to_data()`: an image's data; a news article's validated document,
      serialised. */
  function ToData(s: State, html: seq<Element> -> string): Result<JsValue, Error>
  {
    if s.kind.Image? then Ok(if s.imageData.Value? then s.imageData.v else Undefined)
    else match ValidateOutcome(s)
      case Fail(e) => Err(e)
      case Pass => Ok(Str(html(Validated(s).document.value)))
  }

  datatype Content = DataContent(value: JsValue) | MetadataContent(record: Record)

  datatype File = File(name: string, content: Content)

  /** `_save_to_hatch`: wait, then build the data and the metadata and write
      `<id>.data` and `<id>.metadata`. A date without `toJSON` throws at
      once; otherwise the validator's verdict settles before the article's
      pass does, so its error comes first. */
  function SaveResult(s: State, html: seq<Element> -> string): Result<seq<File>, Error>
  {
    var t := Settled(s);
    match ToMetadata(t)
    case Err(e) => Err(e)
    case Ok(m) =>
      match ToData(t, html)
      case Err(e) => Err(e)
      case Ok(d) => Ok([File(s.assetId + ".data", DataContent(d)), File(s.assetId + ".metadata", MetadataContent(m))])
  }

  const NO_THEN_UNDEFINED := "cannot read property 'then' of undefined"
  const NO_THEN_NULL := "cannot read property 'then' of null"
  const NOT_A_PROMISE := "then is not a function"

  /** The synchronous start of `_save_to_hatch`: `.then` on what `_wait()`
      returns. An article waits on a resolved promise; an image waits on
      its data, which is a promise only while a download is pending. */
  function StartSave(s: State): Outcome<Error>
  {
    if s.kind.News? || s.imageData.Download? then Pass
    else match s.imageData.v
      case Undefined => Fail(TypeError(NO_THEN_UNDEFINED))
      case Null => Fail(TypeError(NO_THEN_NULL))
      case _ => Fail(TypeError(NOT_A_PROMISE))
  }

  /** A save starts exactly for an article or an image whose download is
      pending; otherwise it throws a `TypeError` and the asset is left as
      it was. */
  lemma StartSaveSpec(s: State)
    ensures StartSave(s).Pass? <==> s.kind.News? || s.imageData.Download?
    ensures StartSave(s).Fail? ==> StartSave(s).error.TypeError? && AfterSave(s) == s
  {
  }

  /** A new image without data cannot be saved, and neither can a
      downloaded image once its download has completed and replaced the
      promise by the response; while the download is pending it can. */
  lemma ImageSaveNeedsPendingDownload(id: string, uri: string, env: PfEnv)
    requires Assets.IsAssetId(id)
    ensures StartSave(InitialState(Image, id)) == Fail(TypeError(NO_THEN_UNDEFINED))
    ensures StartSave(DownloadedImage(id, uri, env)) == Pass
    ensures StartSave(AfterSave(DownloadedImage(id, uri, env))) == Fail(TypeError(NOT_A_PROMISE))
  {
  }

  /** The asset as its save task leaves it: settled, and for an article
      with a document, its document rewritten by the pass (which runs
      whatever the metadata's fate). */
  function AfterSave(s: State): State
  {
    var t := Settled(s);
    if t.kind.News? then Validated(t) else t
  }

  /** A successful save writes the data file and then the metadata file,
      both named by the asset id, and the metadata is that of the settled
      asset. */
  lemma SaveWritesBoth(s: State, html: seq<Element> -> string)
    requires SaveResult(s, html).Ok?
    ensures var files := SaveResult(s, html).value;
      && |files| == 2
      && files[0].name == s.assetId + ".data" && files[0].content.DataContent?
      && files[1].name == s.assetId + ".metadata"
      && files[1].content == MetadataContent(ToMetadata(Settled(s)).value)
  {
  }

  /** Running a save task again on the asset it left behind gives the same
      result and leaves the asset as it was. */
  lemma SaveAgain(s: State, html: seq<Element> -> string)
    ensures AfterSave(AfterSave(s)) == AfterSave(s)
    ensures SaveResult(AfterSave(s), html) == SaveResult(s, html)
  {
    var t := Settled(s);
    if t.kind.News? && t.document.Some? {
      ResolveMediaIdempotent(t.document.value, PF_PENDING);
      var u := Validated(t);
      assert Settled(u) == u;
      assert ToMetadata(u) == ToMetadata(t) by {
        assert forall json :: MetadataRecord(u, json) == MetadataRecord(t, json);
      }
      assert ToData(u, html) == ToData(t, html);
    }
  }

  /** A prototype asset; the setters assign as given. */
  class Asset {
    const kind: Kind
    const assetId: string
    var contentType: JsValue
    var title: JsValue
    var canonicalUri: JsValue
    var thumbnail: JsValue
    var lastModified: JsValue
    var license: JsValue
    var imageData: Payload
    var section: JsValue
    var document: Option<seq<Element>>

    function Snapshot(): (r: State)
      reads this
      ensures r.kind == kind && r.assetId == assetId
    {
      State(kind, assetId, contentType, title, canonicalUri, thumbnail, lastModified, license,
        imageData, section, document)
    }

    /** `new ImageAsset()` or `new NewsArticle()`; `id` is the fresh id
        `new_asset_id` draws. */
    constructor(k: Kind, id: string)
      requires Assets.IsAssetId(id)
      ensures Snapshot() == InitialState(k, id)
    {
      kind, assetId := k, id;
      contentType := if k.News? then Str("text/html") else Undefined;
      title, canonicalUri, thumbnail, lastModified, license := Undefined, Undefined, Undefined, Undefined, Undefined;
      imageData, section, document := Value(Undefined), Undefined, None;
    }

    method SetTitle(value: JsValue)
      modifies this
      ensures Snapshot() == old(Snapshot()).(title := value)
    {
      title := value;
    }

    method SetCanonicalUri(value: JsValue)
      modifies this
      ensures Snapshot() == old(Snapshot()).(canonicalUri := value)
    {
      canonicalUri := value;
    }

    method SetThumbnail(value: JsValue)
      modifies this
      ensures Snapshot() == old(Snapshot()).(thumbnail := value)
    {
      thumbnail := value;
    }

    method SetLastModifiedDate(value: JsValue)
      modifies this
      ensures Snapshot() == old(Snapshot()).(lastModified := value)
    {
      lastModified := value;
    }

    method SetLicense(value: JsValue)
      modifies this
      ensures Snapshot() == old(Snapshot()).(license := value)
    {
      license := value;
    }

    method SetImageData(value: Payload)
      requires kind.Image?
      modifies this
      ensures Snapshot() == old(Snapshot()).(imageData := value)
    {
      imageData := value;
    }

    method SetDocument(value: seq<Element>)
      requires kind.News?
      modifies this
      ensures Snapshot() == old(Snapshot()).(document := Some(value))
    {
      document := Some(value);
    }

    method SetSection(value: JsValue)
      requires kind.News?
      modifies this
      ensures Snapshot() == old(Snapshot()).(section := value)
    {
      section := value;
    }

    /** `_wait()`. */
    method Wait()
      modifies this
      ensures Snapshot() == Settled(old(Snapshot()))
    {
      if kind.Image? && imageData.Download? {
        contentType := Str("image/jpeg");
        imageData := Value(Str(imageData.body));
      }
    }

    /** `validate()`: the pass rewrites the document in place. */
    method Validate() returns (r: Outcome<Error>)
      modifies this
      ensures r == ValidateOutcome(old(Snapshot()))
      ensures Snapshot() == Validated(old(Snapshot()))
    {
      if document.None? {
        return Fail(TypeError(NO_DOCUMENT));
      }
      var resolution := ResolveMediaLoop(document.value, PF_PENDING);
      document := Some(resolution.doc);
      r := if resolution.ok then Pass else Fail(ValidationError(Assets.MEDIA_ERROR));
    }

    /** `_save_to_hatch`, run to completion at once: it throws before
        anything is queued when the wait is not a promise, and otherwise
        runs the save task. */
    method SaveToHatch(html: seq<Element> -> string) returns (r: Result<seq<File>, Error>)
      modifies this
      ensures var start := StartSave(old(Snapshot()));
        r == if start.Fail? then Err(start.error) else SaveResult(old(Snapshot()), html)
      ensures Snapshot() == AfterSave(old(Snapshot()))
    {
      var start := StartSave(Snapshot());
      if start.Fail? {
        StartSaveSpec(Snapshot());
        return Err(start.error);
      }
      r := RunSaveTask(html);
    }

    /** The task `_save_to_hatch` chains onto the wait: settle, build the
        data and the metadata, and write both files. */
    method RunSaveTask(html: seq<Element> -> string) returns (r: Result<seq<File>, Error>)
      modifies this
      ensures r == SaveResult(old(Snapshot()), html)
      ensures Snapshot() == AfterSave(old(Snapshot()))
    {
      Wait();
      var metadata := ToMetadata(Snapshot());
      var data: Result<JsValue, Error>;
      if kind.Image? {
        data := Ok(if imageData.Value? then imageData.v else Undefined);
      } else {
        var validation := Validate();
        data := if validation.Fail? then Err(validation.error) else Ok(Str(html(document.value)));
      }
      if metadata.Err? {
        return Err(metadata.error);
      }
      if data.Err? {
        return Err(data.error);
      }
      r := Ok([File(assetId + ".data", DataContent(data.value)), File(assetId + ".metadata", MetadataContent(metadata.value))]);
    }
  }

  // ---------------------------------------------------------------------
  // Finding an image's source

  /** The parents from a node up to the top of its tree: each is the
      parent of the one before, and the last has none. */
  predicate IsAncestry(path: seq<Node>)
    reads path
  {
    && |path| > 0
    && (forall i :: 0 <= i < |path| - 1 ==> path[i].parent == path[i + 1])
    && path[|path| - 1].parent == null
  }

  /** `node_root`: climb the parents to the top and return its `root`. */
  method NodeRoot(node: Node, ghost path: seq<Node>) returns (r: Node?)
    requires IsAncestry(path) && path[0] == node
    ensures r == path[|path| - 1].root
  {
    var n := node;
    ghost var i := 0;
    while n.parent != null
      invariant 0 <= i < |path| && n == path[i]
      invariant i < |path| - 1 ==> n.parent == path[i + 1]
      decreases |path| - i
    {
      n := n.parent;
      i := i + 1;
    }
    r := n.root;
  }

  /** The base URI `parse_img_src` finds at the root node. */
  function RootBase(top: Node): Result<Option<string>, Error>
    reads top, top.root
  {
    if top.root == null then Err(TypeError(NO_ROOT)) else Ok(top.root.baseUri)
  }

  /** `url.resolve(base_uri, uri)`: an unset base throws. */
  function Resolve(base: Option<string>, uri: string, resolve: (string, string) -> string): Result<string, Error>
  {
    if base.None? then Err(TypeError(NO_BASE)) else Ok(resolve(base.value, uri))
  }

  /** `parse_img_src` once the base URI is known: `src`, else the first
      `srcset` URI, else it throws; there is no `data-src` fallback. */
  function ImgSrc(e: Element, base: Option<string>, resolve: (string, string) -> string): Result<string, Error>
  {
    if HasAttr(e, "src") then Resolve(base, e.attrs["src"], resolve)
    else if HasAttr(e, "srcset") then Resolve(base, Util.FirstSrcsetUri(e.attrs["srcset"]), resolve)
    else Err(PlainError(Util.SRC_ERROR))
  }

  /** With a base URI, the prototype finds the library's source whenever
      the element has no `data-src`; with only a `data-src` the prototype
      throws where the library uses it. */
  lemma ImgSrcAgainstLibrary(e: Element, base: string, resolve: (string, string) -> string)
    ensures !HasAttr(e, "data-src") ==> ImgSrc(e, Some(base), resolve) == Util.GetImgSrc(e, base, resolve)
    ensures HasAttr(e, "data-src") && !HasAttr(e, "src") && !HasAttr(e, "srcset") ==>
      && ImgSrc(e, Some(base), resolve) == Err(PlainError(Util.SRC_ERROR))
      && Util.GetImgSrc(e, base, resolve) == Ok(resolve(base, e.attrs["data-src"]))
  {
  }

  /** `parse_img_src`. */
  method ParseImgSrc(img: Node, ghost path: seq<Node>, resolve: (string, string) -> string) returns (r: Result<string, Error>)
    requires IsAncestry(path) && path[0] == img
    ensures r == match RootBase(path[|path| - 1])
      case Err(e) => Err(e)
      case Ok(base) => ImgSrc(img.Value(), base, resolve)
  {
    var rootNode := NodeRoot(img, path);
    if rootNode == null {
      return Err(TypeError(NO_ROOT));
    }
    r := ImgSrc(img.Value(), rootNode.baseUri, resolve);
  }

  // ---------------------------------------------------------------------
  // download_img

  /** The collaborators of the download: the clock, `url.resolve` and the
      HTTP fetch (the response body). */
  datatype PfEnv = PfEnv(now: JsDate, resolve: (string, string) -> string, fetch: string -> string)

  /** `download_image(uri)`: an image whose canonical URI is the URI as
      given, stamped with the current time, whose data is the download. */
  function DownloadedImage(id: string, uri: string, env: PfEnv): State
  {
    InitialState(Image, id).(canonicalUri := Str(uri), lastModified := Date(env.now), imageData := Download(env.fetch(uri)))
  }

  /** The attributes of a downloaded `img`. */
  function Tagged(attrs: Attrs, id: string): Attrs
  {
    (attrs - {"src", "srcset"})[PF_PENDING := id]
  }

  datatype Downloaded = Downloaded(attrs: Attrs, asset: State)

  /** `download_img` on an element whose root yields `base`. */
  function DownloadImgSpec(e: Element, base: Result<Option<string>, Error>, id: string, env: PfEnv): Result<Downloaded, Error>
  {
    if HasAttr(e, PF_PENDING) then Err(ValidationError(ALREADY_TAGGED))
    else match base
      case Err(err) => Err(err)
      case Ok(b) =>
        match ImgSrc(e, b, env.resolve)
        case Err(err) => Err(err)
        case Ok(src) => Ok(Downloaded(Tagged(e.attrs, id), DownloadedImage(id, src, env)))
  }

  /** `download_image`. */
  method DownloadImage(uri: string, id: string, env: PfEnv) returns (asset: Asset)
    requires Assets.IsAssetId(id)
    ensures fresh(asset) && asset.Snapshot() == DownloadedImage(id, uri, env)
  {
    asset := new Asset(Image, id);
    asset.SetCanonicalUri(Str(uri));
    asset.SetLastModifiedDate(Date(env.now));
    asset.SetImageData(Download(env.fetch(uri)));
  }

  /** `download_img(img)`; `id` is the fresh id the new asset draws. Only
      the element's attributes change. */
  method DownloadImg(img: Node, ghost path: seq<Node>, id: string, env: PfEnv) returns (r: Result<Asset, Error>)
    requires IsAncestry(path) && path[0] == img && Assets.IsAssetId(id)
    modifies img
    ensures img.parent == old(img.parent) && img.root == old(img.root) && img.baseUri == old(img.baseUri)
    ensures var s := DownloadImgSpec(old(img.Value()), RootBase(path[|path| - 1]), id, env);
      && (r.Ok? <==> s.Ok?)
      && (r.Err? ==> r.error == s.error && img.attrs == old(img.attrs))
      && (r.Ok? ==> fresh(r.value) && r.value.Snapshot() == s.value.asset && img.attrs == s.value.attrs)
  {
    if HasAttr(img.Value(), PF_PENDING) {
      return Err(ValidationError(ALREADY_TAGGED));
    }
    var src := ParseImgSrc(img, path, env.resolve);
    if src.Err? {
      return Err(src.error);
    }
    img.attrs := img.attrs - {"src"};
    img.attrs := img.attrs - {"srcset"};
    var asset := DownloadImage(src.value, id, env);
    img.attrs := img.attrs[PF_PENDING := asset.assetId];
    assert img.attrs == Tagged(old(img.attrs), id);
    r := Ok(asset);
  }

  /** A downloaded `img` has lost its sources and carries the asset's id,
      and keeps every other attribute. */
  lemma DownloadImgTags(e: Element, base: Result<Option<string>, Error>, id: string, env: PfEnv)
    requires DownloadImgSpec(e, base, id, env).Ok?
    ensures var a := DownloadImgSpec(e, base, id, env).value.attrs;
      && "src" !in a && "srcset" !in a && a[PF_PENDING] == id
      && forall k :: k !in {"src", "srcset", PF_PENDING} ==>
           (k in a <==> k in e.attrs) && (k in a ==> a[k] == e.attrs[k])
  {
  }

  /** A second call on the tagged element is refused, and the article's
      pass gives the element the asset's id as its job id. */
  lemma DownloadImgOnceAndResolves(e: Element, base: Result<Option<string>, Error>, id: string, id2: string, env: PfEnv)
    requires Assets.IsAssetId(id) && e.tag == "img"
    requires DownloadImgSpec(e, base, id, env).Ok?
    ensures var tagged := Element(e.tag, DownloadImgSpec(e, base, id, env).value.attrs);
      && DownloadImgSpec(tagged, base, id2, env) == Err(ValidationError(ALREADY_TAGGED))
      && !Unresolved(tagged, PF_PENDING)
      && Rewrite(tagged, PF_PENDING).attrs[JOB_ID] == id
  {
    var tagged := Element(e.tag, DownloadImgSpec(e, base, id, env).value.attrs);
    assert HasAttr(tagged, PF_PENDING);
  }

  /** Once its download completes, a downloaded image is a JPEG whose data
      is the response body, and its metadata can be produced from the URI
      it was found at. */
  lemma DownloadedImageSettles(id: string, uri: string, env: PfEnv)
    requires Assets.IsAssetId(id) && uri != ""
    ensures var t := Settled(DownloadedImage(id, uri, env));
      && t.contentType == Str("image/jpeg") && t.imageData == Value(Str(env.fetch(uri)))
      && ToMetadata(t).Ok?
  {
    ToMetadataSucceeds(Settled(DownloadedImage(id, uri, env)));
  }

  // ---------------------------------------------------------------------
  // Hatch

  function Snapshots(assets: seq<Asset>): (r: seq<State>)
    reads assets
    ensures |r| == |assets| && forall i :: 0 <= i < |assets| ==> r[i] == assets[i].Snapshot()
  {
    if assets == [] then [] else Snapshots(assets[..|assets| - 1]) + [assets[|assets| - 1].Snapshot()]
  }

  /** The outcome of each queued task, task by task. */
  function SaveResults(recs: seq<State>, html: seq<Element> -> string): (r: seq<Result<seq<File>, Error>>)
    ensures |r| == |recs| && forall i :: 0 <= i < |recs| ==> r[i] == SaveResult(recs[i], html)
  {
    if recs == [] then [] else SaveResults(recs[..|recs| - 1], html) + [SaveResult(recs[|recs| - 1], html)]
  }

  /** `Promise.all` over the save tasks' outcomes: the first failure in
      queue order, or every task's files. */
  function All(results: seq<Result<seq<File>, Error>>): (r: Result<seq<File>, Error>)
    ensures r.Ok? <==> forall i :: 0 <= i < |results| ==> results[i].Ok?
    ensures r.Err? ==>
      exists i :: 0 <= i < |results| && results[i] == Err(r.error) && forall j :: 0 <= j < i ==> results[j].Ok?
    decreases |results|
  {
    if results == [] then Ok([])
    else if results[0].Err? then Err(results[0].error)
    else
      var rest := All(results[1..]);
      assert forall i :: 1 <= i < |results| ==> results[i] == results[1..][i - 1];
      if rest.Err? then
        var k :| 0 <= k < |results[1..]| && results[1..][k] == Err(rest.error)
          && forall j :: 0 <= j < k ==> results[1..][j].Ok?;
        assert results[k + 1] == Err(rest.error);
        Err(rest.error)
      else Ok(results[0].value + rest.value)
  }

  /** The hatch: `tasks` stands for `_promises`, the asset whose save task
      each queued promise runs; `dir` is the directory made for it. */
  class Hatch {
    const dir: string
    var tasks: seq<Asset>

    constructor(dir: string)
      ensures this.dir == dir && tasks == []
    {
      this.dir := dir;
      tasks := [];
    }

    /** `save_asset`: the save starts at once, and its task is queued at
        the end unless starting it threw. */
    method SaveAsset(asset: Asset) returns (r: Outcome<Error>)
      modifies this
      ensures r == StartSave(asset.Snapshot())
      ensures tasks == if r.Pass? then old(tasks) + [asset] else old(tasks)
    {
      r := StartSave(asset.Snapshot());
      if r.Pass? {
        tasks := tasks + [asset];
      }
    }

    /** `finish()`: every queued task runs, in queue order; the hatch
        succeeds when all of them do. An asset saved twice is saved twice,
        the second time over what the first left, with the same result. */
    method Finish(html: seq<Element> -> string) returns (r: Result<seq<File>, Error>)
      modifies tasks
      ensures r == All(SaveResults(old(Snapshots(tasks)), html))
      ensures forall i :: 0 <= i < |tasks| ==> tasks[i].Snapshot() == AfterSave(old(tasks[i].Snapshot()))
    {
      ghost var recs := Snapshots(tasks);
      ProgressStart(tasks);
      var results := Drain(tasks, html, recs);
      ProgressDone(tasks, recs);
      r := All(results);
    }
  }

  /** The queue's tasks, run one after the other. */
  method Drain(queue: seq<Asset>, html: seq<Element> -> string, ghost recs: seq<State>)
    returns (results: seq<Result<seq<File>, Error>>)
    requires Progress(queue, recs, 0)
    modifies set a | a in queue
    ensures results == SaveResults(recs, html)
    ensures Progress(queue, recs, |queue|)
  {
    results := [];
    for i := 0 to |queue|
      invariant results == SaveResults(recs[..i], html)
      invariant Progress(queue, recs, i)
    {
      var result := SaveStep(queue, i, html, recs);
      assert recs[..i + 1][..i] == recs[..i];
      results := results + [result];
    }
    assert recs[..|queue|] == recs;
  }

  /** How far the drain has got after `n` tasks: each queued asset is as it
      was queued, or as its save left it once one of its tasks has run
      (`recs` are the assets as queued, so the same asset queued twice has
      one record). */
  ghost predicate Progress(queue: seq<Asset>, recs: seq<State>, n: nat)
    reads queue
  {
    && n <= |recs| == |queue|
    && (forall j, k {:trigger recs[j], recs[k]} ::
          0 <= j < |queue| && 0 <= k < |queue| && queue[j] == queue[k] ==> recs[j] == recs[k])
    && forall j {:trigger queue[j].Snapshot()} :: 0 <= j < |queue| ==>
         queue[j].Snapshot() == (if queue[j] in queue[..n] then AfterSave(recs[j]) else recs[j])
  }

  /** Before the drain nothing has run. */
  lemma ProgressStart(queue: seq<Asset>)
    ensures Progress(queue, Snapshots(queue), 0)
  {
  }

  /** Once every queued task has run, each asset is as its save left it. */
  lemma ProgressDone(queue: seq<Asset>, recs: seq<State>)
    requires Progress(queue, recs, |queue|)
    ensures forall j :: 0 <= j < |queue| ==> queue[j].Snapshot() == AfterSave(recs[j])
  {
    assert queue[..|queue|] == queue;
  }

  /** The `i`th queued task, run on an asset that is untouched or already
      saved once. */
  method SaveStep(queue: seq<Asset>, i: nat, html: seq<Element> -> string, ghost recs: seq<State>)
    returns (result: Result<seq<File>, Error>)
    requires i < |queue| && Progress(queue, recs, i)
    modifies queue[i]
    ensures result == SaveResult(recs[i], html)
    ensures Progress(queue, recs, i + 1)
  {
    var asset := queue[i];
    SaveAgain(recs[i], html);
    assert queue[..i + 1] == queue[..i] + [asset];
    label before:
    result := asset.RunSaveTask(html);
    forall j | 0 <= j < |queue|
      ensures queue[j].Snapshot() == (if queue[j] in queue[..i + 1] then AfterSave(recs[j]) else recs[j])
    {
      if queue[j] != asset {
        assert queue[j].Snapshot() == old@before(queue[j].Snapshot());
      }
    }
  }

  /** A hatch finishes exactly when each saved asset's task succeeds, and
      then with the files of every task in queue order. */
  lemma {:induction false} FinishOkIff(recs: seq<State>, html: seq<Element> -> string)
    ensures All(SaveResults(recs, html)).Ok? <==> forall i :: 0 <= i < |recs| ==> SaveResult(recs[i], html).Ok?
    ensures All(SaveResults(recs, html)).Ok? && recs != [] ==>
      All(SaveResults(recs, html)).value[..2] == SaveResult(recs[0], html).value
  {
    var results := SaveResults(recs, html);
    if All(results).Ok? && recs != [] {
      SaveWritesBoth(recs[0], html);
      assert All(results).value == results[0].value + All(results[1..]).value;
    }
  }
}
