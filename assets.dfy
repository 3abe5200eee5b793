/** The library's assets: the variants, the record of fields an asset
    holds, the metadata record each variant builds from it, the
    processing step each variant runs before it is packaged, and the save
    task that ties them together. */
module Assets {
  import opened Wrappers
  import opened JsValues
  import opened Dom
  import opened Timestamps
  import Verify

  /** The internal tag `set_as_static_page` appends. */
  const EKN_STATIC_TAG := "EknStaticTag"
  const MEDIA_ERROR := "Document has media without associated asset. Please ingest it or drop it."
  const RENDER_ERROR := "Must call asset.render() before saving BlogArticle to a hatch."

  datatype Variant = Image | Video | Dictionary | Blog | GalleryImage | GalleryVideo | News

  predicate IsHexDigit(c: char)
  {
    '0' <= c <= '9' || 'a' <= c <= 'f'
  }

  /** `new_asset_id`: the hex digest of SHA-1 over random bytes, forty
      lower-case hex digits. */
  predicate IsAssetId(s: string)
  {
    |s| == 40 && forall i :: 0 <= i < |s| ==> IsHexDigit(s[i])
  }

  const NO_THUMBNAIL := "cannot read property 'asset_id' of null"

  /** The `objectType` each variant sets in its constructor. */
  function ObjectType(v: Variant): string
  {
    match v
    case Image => "ImageObject"
    case Video => "VideoObject"
    case Dictionary => "DictionaryObjectModel"
    case _ => "ArticleObject"
  }

  /** The variants that render an article and run the media-resolution pass. */
  predicate IsArticle(v: Variant)
  {
    v.Blog? || v.GalleryImage? || v.GalleryVideo? || v.News?
  }

  /** The variants that keep their own `_tags` (and `set_tags`). */
  predicate HasOwnTags(v: Variant)
  {
    v.Dictionary? || v.Blog? || v.GalleryImage? || v.GalleryVideo?
  }

  /** The argument of a date setter: a `Date` object, or any other value
      together with what `new Date(value)` makes of it. */
  datatype DateArg = DateObject(date: JsDate) | Coerced(parsed: JsDate)

  /** `_ensure_date`: an invalid `Date` object becomes `null`; a valid one is
      kept, and any other value is coerced, which never fails, so a value
      that does not parse is kept as an invalid date. */
  function EnsureDate(value: DateArg): (r: JsValue)
    ensures r == Null <==> value.DateObject? && value.date.InvalidDate?
    ensures r != Null ==> r == Date(if value.DateObject? then value.date else value.parsed)
  {
    match value
    case DateObject(d) => if d.InvalidDate? then Null else Date(d)
    case Coerced(d) => Date(d)
  }

  /** Everything an asset holds, whatever its variant; a field a variant
      never sets keeps its initial value. */
  datatype AssetRecord = AssetRecord(
    variant: Variant,
    assetId: string,
    contentType: JsValue,
    title: JsValue,
    synopsis: JsValue,
    thumbnail: Option<string>,
    canonicalUri: JsValue,
    lastModified: JsValue,
    datePublished: JsValue,
    license: JsValue,
    eknTags: seq<string>,
    tags: JsValue,
    section: JsValue,
    author: JsValue,
    authors: seq<JsValue>,
    source: JsValue,
    word: JsValue,
    definition: JsValue,
    partOfSpeech: JsValue,
    temporalCoverage: seq<JsValue>,
    imageData: Option<seq<bv8>>,
    downloadUri: JsValue,
    document: Option<seq<Element>>)

  /** The fields as the constructors leave them. */
  function InitialRecord(v: Variant, id: string): (r: AssetRecord)
    ensures r.variant == v && r.assetId == id && r.eknTags == [] && r.document.None?
    ensures r.contentType == (if v.Image? || v.Video? then Undefined else Str("text/html"))
    ensures r.tags == (if v.Blog? then Arr([]) else Undefined)
  {
    AssetRecord(v, id,
      if v.Image? || v.Video? then Undefined else Str("text/html"),
      Undefined, Undefined, None, Undefined, Undefined, Undefined, Undefined,
      [],
      if v.Blog? then Arr([]) else Undefined,
      Undefined, Undefined, [], Undefined,
      Undefined, Undefined, Undefined,
      [], None, Undefined, None)
  }

  /** `_make_tags()`: no tags for images, the section for news, the value
      of `set_tags` for the others. */
  function MakeTags(rec: AssetRecord): JsValue
  {
    match rec.variant
    case Image | Video => Arr([])
    case News => Arr([rec.section])
    case _ => rec.tags
  }

  /** `date.toISOString()`: the ISO rendering of a valid date; an invalid
      date throws a `RangeError`, and `null` has no such method. */
  function IsoString(v: JsValue): (r: Result<string, Error>)
    ensures r.Ok? <==> v.Date? && v.d.ValidDate?
    ensures r.Ok? ==> r.value == v.d.iso
  {
    match v
    case Date(ValidDate(iso)) => Ok(iso)
    case Date(InvalidDate) => Err(RangeError("Invalid time value"))
    case _ => Err(TypeError("toISOString is not a function"))
  }

  /** The thumbnail id as the property reads. */
  function ThumbnailValue(rec: AssetRecord): JsValue
  {
    OptStr(rec.thumbnail)
  }

  /** Adds `key` when `value` is truthy. */
  function WithOptional(m: Record, key: string, value: JsValue): (r: Record)
    ensures key in r <==> key in m || Truthy(value)
    ensures Truthy(value) ==> r[key] == value
    ensures forall k :: k != key ==> (k in r <==> k in m) && Get(r, k) == Get(m, k)
  {
    if Truthy(value) then m[key := value] else m
  }

  /** The fields every record starts with; the revision tag is the
      timestamp of `now` until a last-modified date replaces it. */
  function RequiredMetadata(rec: AssetRecord, tags: JsValue, now: LocalTime): Record
  {
    map[
      "assetID" := Str(rec.assetId),
      "objectType" := Str(ObjectType(rec.variant)),
      "contentType" := rec.contentType,
      "canonicalURI" := rec.canonicalUri,
      "matchingLinks" := Arr([rec.canonicalUri]),
      "title" := rec.title,
      "tags" := tags,
      "revisionTag" := Str(Timestamp(now))
    ]
  }

  lemma RequiredMetadataFields(rec: AssetRecord, tags: JsValue, now: LocalTime)
    ensures var m := RequiredMetadata(rec, tags, now);
      && Get(m, "assetID") == Str(rec.assetId)
      && Get(m, "objectType") == Str(ObjectType(rec.variant))
      && Get(m, "contentType") == rec.contentType
      && Get(m, "canonicalURI") == rec.canonicalUri
      && Get(m, "matchingLinks") == Arr([rec.canonicalUri])
      && Get(m, "title") == rec.title
      && Get(m, "tags") == tags
  {
  }

  /** The two date fields, each rendered with `toISOString` when set; a set
      last-modified date is also the revision tag. */
  function WithDates(m: Record, rec: AssetRecord): (r: Result<Record, Error>)
    ensures r.Ok? <==> DateRenderable(rec.datePublished) && DateRenderable(rec.lastModified)
    ensures r.Ok? ==> forall k :: k != "datePublished" && k != "lastModifiedDate" && k != "revisionTag" ==>
      (k in r.value <==> k in m) && Get(r.value, k) == Get(m, k)
  {
    var published :- if Truthy(rec.datePublished) then IsoString(rec.datePublished) else Ok("");
    var m := if Truthy(rec.datePublished) then m["datePublished" := Str(published)] else m;
    var modified :- if Truthy(rec.lastModified) then IsoString(rec.lastModified) else Ok("");
    Ok(if Truthy(rec.lastModified)
      then m["lastModifiedDate" := Str(modified)]["revisionTag" := Str(modified)]
      else m)
  }

  /** The record `to_metadata` of the base class builds: the required
      fields, the dates, then license, synopsis and thumbnail when set. */
  function BaseMetadata(rec: AssetRecord, now: LocalTime): Result<Record, Error>
  {
    var tags :- Concat(MakeTags(rec), rec.eknTags);
    var m :- WithDates(RequiredMetadata(rec, tags, now), rec);
    var m := WithOptional(m, "license", rec.license);
    var m := WithOptional(m, "synopsis", rec.synopsis);
    Ok(WithOptional(m, "thumbnail", ThumbnailValue(rec)))
  }

  /** A date field that is set can be rendered. */
  predicate DateRenderable(v: JsValue)
  {
    Truthy(v) ==> v.Date? && v.d.ValidDate?
  }

  /** `this._document.html()`: `html` stands for the serialiser; an asset
      that was never rendered has no document to call it on. */
  function Html(document: Option<seq<Element>>, html: seq<Element> -> string): (r: Result<string, Error>)
    ensures r.Ok? <==> document.Some?
  {
    match document
    case None => Err(TypeError("cannot read property 'html' of undefined"))
    case Some(doc) => Ok(html(doc))
  }

  /** The fields each variant's `to_metadata` adds to the base record. */
  function VariantMetadata(rec: AssetRecord, m: Record, html: seq<Element> -> string): Result<Record, Error>
  {
    match rec.variant
    case Image | Video => Ok(m)
    case Dictionary =>
      var doc :- Html(rec.document, html);
      Ok(m["word" := rec.word]["definition" := rec.definition]["partOfSpeech" := rec.partOfSpeech]
          ["tags" := Arr([rec.tags])]["document" := Str(doc)])
    case Blog | GalleryVideo =>
      var doc :- Html(rec.document, html);
      Ok(m["document" := Str(doc)]["authors" := Arr([rec.author])])
    case GalleryImage =>
      var doc :- Html(rec.document, html);
      Ok(m["document" := Str(doc)]["authors" := Arr([rec.author])]["temporalCoverage" := Arr(rec.temporalCoverage)])
    case News =>
      var doc :- Html(rec.document, html);
      Ok(m["document" := Str(doc)]["authors" := Arr(rec.authors)]["sourceName" := rec.source])
  }

  /** `to_metadata()` of the asset's variant; `now` is the local clock
      and `html` the document serialiser. */
  function ToMetadata(rec: AssetRecord, now: LocalTime, html: seq<Element> -> string): Result<Record, Error>
  {
    var m :- BaseMetadata(rec, now);
    VariantMetadata(rec, m, html)
  }

  /** Building the record fails exactly when the tags cannot be
      concatenated, a set date is invalid, or a variant that serialises its
      document has none. */
  lemma {:induction false} ToMetadataSucceeds(rec: AssetRecord, now: LocalTime, html: seq<Element> -> string)
    ensures ToMetadata(rec, now, html).Ok? <==>
      && Concat(MakeTags(rec), rec.eknTags).Ok?
      && DateRenderable(rec.datePublished)
      && DateRenderable(rec.lastModified)
      && (rec.variant.Dictionary? || IsArticle(rec.variant) ==> rec.document.Some?)
  {
  }

  /** The keys a variant's `to_metadata` adds to the base record. */
  predicate IsVariantKey(key: string)
  {
    key in {"word", "definition", "partOfSpeech", "tags", "document", "authors", "temporalCoverage", "sourceName"}
  }

  lemma VariantMetadataKeeps(rec: AssetRecord, m: Record, html: seq<Element> -> string, key: string)
    requires VariantMetadata(rec, m, html).Ok? && !IsVariantKey(key)
    ensures var v := VariantMetadata(rec, m, html).value;
      (key in v <==> key in m) && Get(v, key) == Get(m, key)
  {
  }

  /** The keys the base record adds only when their field is set. */
  predicate IsOptionalKey(key: string)
  {
    key in {"datePublished", "lastModifiedDate", "revisionTag", "license", "synopsis", "thumbnail"}
  }

  /** The keys every base record has, bar the revision tag. */
  predicate IsRequiredKey(key: string)
  {
    key in {"assetID", "objectType", "contentType", "canonicalURI", "matchingLinks", "title"}
  }

  /** No variant overwrites an optional key. */
  lemma OptionalNotVariant(key: string)
    requires IsOptionalKey(key)
    ensures !IsVariantKey(key)
  {
  }

  /** The base record's optional keys leave the required ones and the
      tags alone. */
  lemma RequiredNotOptional(key: string)
    requires IsRequiredKey(key) || key == "tags"
    ensures !IsOptionalKey(key)
  {
  }

  /** No variant overwrites a required key other than the tags. */
  lemma RequiredNotVariant(key: string)
    requires IsRequiredKey(key)
    ensures !IsVariantKey(key)
  {
  }

  lemma BaseKeepsRequired(rec: AssetRecord, now: LocalTime, key: string)
    requires BaseMetadata(rec, now).Ok? && !IsOptionalKey(key)
    ensures Get(BaseMetadata(rec, now).value, key)
      == Get(RequiredMetadata(rec, Concat(MakeTags(rec), rec.eknTags).value, now), key)
  {
    var tags := Concat(MakeTags(rec), rec.eknTags).value;
    var m1 := WithDates(RequiredMetadata(rec, tags, now), rec).value;
    var m2 := WithOptional(m1, "license", rec.license);
    var m3 := WithOptional(m2, "synopsis", rec.synopsis);
    assert BaseMetadata(rec, now).value == WithOptional(m3, "thumbnail", ThumbnailValue(rec));
  }

  lemma VariantTags(rec: AssetRecord, m: Record, html: seq<Element> -> string)
    requires VariantMetadata(rec, m, html).Ok?
    ensures Get(VariantMetadata(rec, m, html).value, "tags") == if rec.variant.Dictionary? then Arr([rec.tags]) else Get(m, "tags")
  {
  }

  lemma BaseRequiredFields(rec: AssetRecord, now: LocalTime)
    requires BaseMetadata(rec, now).Ok?
    ensures var m := BaseMetadata(rec, now).value;
      && Get(m, "assetID") == Str(rec.assetId)
      && Get(m, "objectType") == Str(ObjectType(rec.variant))
      && Get(m, "contentType") == rec.contentType
      && Get(m, "canonicalURI") == rec.canonicalUri
      && Get(m, "matchingLinks") == Arr([rec.canonicalUri])
      && Get(m, "title") == rec.title
      && Get(m, "tags") == Concat(MakeTags(rec), rec.eknTags).value
  {
    RequiredMetadataFields(rec, Concat(MakeTags(rec), rec.eknTags).value, now);
    RequiredNotOptional("assetID");
    BaseKeepsRequired(rec, now, "assetID");
    RequiredNotOptional("objectType");
    BaseKeepsRequired(rec, now, "objectType");
    RequiredNotOptional("contentType");
    BaseKeepsRequired(rec, now, "contentType");
    RequiredNotOptional("canonicalURI");
    BaseKeepsRequired(rec, now, "canonicalURI");
    RequiredNotOptional("matchingLinks");
    BaseKeepsRequired(rec, now, "matchingLinks");
    RequiredNotOptional("title");
    BaseKeepsRequired(rec, now, "title");
    RequiredNotOptional("tags");
    BaseKeepsRequired(rec, now, "tags");
  }

  /** The required fields: the asset's own id, its variant's object type,
      its content type, its canonical URI as the one matching link, its
      title, and its tags, which are the variant's tags followed by the
      internal tags in the order they were added (a dictionary entry wraps
      its own tags value in a list instead). */
  lemma MetadataRequiredFields(rec: AssetRecord, now: LocalTime, html: seq<Element> -> string)
    requires ToMetadata(rec, now, html).Ok?
    ensures var m := ToMetadata(rec, now, html).value;
      && Get(m, "assetID") == Str(rec.assetId)
      && Get(m, "objectType") == Str(ObjectType(rec.variant))
      && Get(m, "contentType") == rec.contentType
      && Get(m, "canonicalURI") == rec.canonicalUri
      && Get(m, "matchingLinks") == Arr([rec.canonicalUri])
      && Get(m, "title") == rec.title
      && Get(m, "tags") == (if rec.variant.Dictionary? then Arr([rec.tags])
                            else Concat(MakeTags(rec), rec.eknTags).value)
  {
    var base := BaseMetadata(rec, now).value;
    assert ToMetadata(rec, now, html) == VariantMetadata(rec, base, html);
    BaseRequiredFields(rec, now);
    RequiredNotVariant("assetID");
    VariantMetadataKeeps(rec, base, html, "assetID");
    RequiredNotVariant("objectType");
    VariantMetadataKeeps(rec, base, html, "objectType");
    RequiredNotVariant("contentType");
    VariantMetadataKeeps(rec, base, html, "contentType");
    RequiredNotVariant("canonicalURI");
    VariantMetadataKeeps(rec, base, html, "canonicalURI");
    RequiredNotVariant("matchingLinks");
    VariantMetadataKeeps(rec, base, html, "matchingLinks");
    RequiredNotVariant("title");
    VariantMetadataKeeps(rec, base, html, "title");
    VariantTags(rec, base, html);
  }

  /** None of the optional keys is among the required ones. */
  lemma OptionalKeysFresh(rec: AssetRecord, tags: JsValue, now: LocalTime)
    ensures var m := RequiredMetadata(rec, tags, now);
      && "license" !in m && "synopsis" !in m && "thumbnail" !in m
      && "datePublished" !in m && "lastModifiedDate" !in m
  {
  }

  /** The date fields appear exactly when their date is set, rendered as
      its ISO string; the revision tag is the last-modified date when there
      is one and the timestamp of `now` otherwise. */
  lemma BaseDateFields(rec: AssetRecord, now: LocalTime)
    requires BaseMetadata(rec, now).Ok?
    ensures var m := BaseMetadata(rec, now).value;
      && ("datePublished" in m <==> Truthy(rec.datePublished))
      && ("lastModifiedDate" in m <==> Truthy(rec.lastModified))
      && (Truthy(rec.datePublished) ==> Get(m, "datePublished") == Str(rec.datePublished.d.iso))
      && (Truthy(rec.lastModified) ==>
            Get(m, "lastModifiedDate") == Str(rec.lastModified.d.iso) && Get(m, "revisionTag") == Get(m, "lastModifiedDate"))
      && (!Truthy(rec.lastModified) ==> Get(m, "revisionTag") == Str(Timestamp(now)))
  {
    var m0 := RequiredMetadata(rec, Concat(MakeTags(rec), rec.eknTags).value, now);
    OptionalKeysFresh(rec, Concat(MakeTags(rec), rec.eknTags).value, now);
    assert Get(m0, "revisionTag") == Str(Timestamp(now));
    WithDatesFields(m0, rec);
    var m1 := WithDates(m0, rec).value;
    OptionalLayersKeep(m1, rec, "datePublished");
    OptionalLayersKeep(m1, rec, "lastModifiedDate");
    OptionalLayersKeep(m1, rec, "revisionTag");
  }

  /** The date fields appear exactly when their date is set, rendered as
      its ISO string; a set last-modified date replaces the revision tag. */
  lemma WithDatesFields(m: Record, rec: AssetRecord)
    requires WithDates(m, rec).Ok? && "datePublished" !in m && "lastModifiedDate" !in m
    ensures var r := WithDates(m, rec).value;
      && ("datePublished" in r <==> Truthy(rec.datePublished))
      && ("lastModifiedDate" in r <==> Truthy(rec.lastModified))
      && (Truthy(rec.datePublished) ==> Get(r, "datePublished") == Str(rec.datePublished.d.iso))
      && (Truthy(rec.lastModified) ==>
            Get(r, "lastModifiedDate") == Str(rec.lastModified.d.iso) && Get(r, "revisionTag") == Get(r, "lastModifiedDate"))
      && (!Truthy(rec.lastModified) ==> Get(r, "revisionTag") == Get(m, "revisionTag"))
  {
  }

  /** License, synopsis and thumbnail leave the date keys alone. */
  lemma OptionalLayersKeep(m: Record, rec: AssetRecord, key: string)
    requires key == "datePublished" || key == "lastModifiedDate" || key == "revisionTag"
    ensures var r := WithOptional(WithOptional(WithOptional(m, "license", rec.license), "synopsis", rec.synopsis),
                                  "thumbnail", ThumbnailValue(rec));
      (key in r <==> key in m) && Get(r, key) == Get(m, key)
  {
  }

  /** License, synopsis and thumbnail appear exactly when set, with their
      values. */
  lemma BaseValueFields(rec: AssetRecord, now: LocalTime)
    requires BaseMetadata(rec, now).Ok?
    ensures var m := BaseMetadata(rec, now).value;
      && ("license" in m <==> Truthy(rec.license))
      && ("synopsis" in m <==> Truthy(rec.synopsis))
      && ("thumbnail" in m <==> rec.thumbnail.Some? && rec.thumbnail.value != "")
      && (Truthy(rec.license) ==> Get(m, "license") == rec.license)
      && (Truthy(rec.synopsis) ==> Get(m, "synopsis") == rec.synopsis)
      && ("thumbnail" in m ==> Get(m, "thumbnail") == Str(rec.thumbnail.value))
  {
    OptionalKeysFresh(rec, Concat(MakeTags(rec), rec.eknTags).value, now);
    var m1 := WithDates(RequiredMetadata(rec, Concat(MakeTags(rec), rec.eknTags).value, now), rec).value;
    var m2 := WithOptional(m1, "license", rec.license);
    var m3 := WithOptional(m2, "synopsis", rec.synopsis);
    assert "license" != "synopsis" && "license" != "thumbnail" && "synopsis" != "thumbnail";
    assert BaseMetadata(rec, now).value == WithOptional(m3, "thumbnail", ThumbnailValue(rec));
  }

  lemma BaseOptionalFields(rec: AssetRecord, now: LocalTime)
    requires BaseMetadata(rec, now).Ok?
    ensures var m := BaseMetadata(rec, now).value;
      && ("datePublished" in m <==> Truthy(rec.datePublished))
      && ("lastModifiedDate" in m <==> Truthy(rec.lastModified))
      && ("license" in m <==> Truthy(rec.license))
      && ("synopsis" in m <==> Truthy(rec.synopsis))
      && ("thumbnail" in m <==> rec.thumbnail.Some? && rec.thumbnail.value != "")
      && (Truthy(rec.datePublished) ==> Get(m, "datePublished") == Str(rec.datePublished.d.iso))
      && (Truthy(rec.license) ==> Get(m, "license") == rec.license)
      && (Truthy(rec.synopsis) ==> Get(m, "synopsis") == rec.synopsis)
      && ("thumbnail" in m ==> Get(m, "thumbnail") == Str(rec.thumbnail.value))
      && (Truthy(rec.lastModified) ==>
            Get(m, "lastModifiedDate") == Str(rec.lastModified.d.iso) && Get(m, "revisionTag") == Get(m, "lastModifiedDate"))
      && (!Truthy(rec.lastModified) ==> Get(m, "revisionTag") == Str(Timestamp(now)))
  {
    BaseDateFields(rec, now);
    BaseValueFields(rec, now);
  }

  /** The optional fields appear exactly when the corresponding field is
      set, with its value; the revision tag is the last-modified date when
      there is one and the timestamp of `now` otherwise. */
  lemma MetadataOptionalFields(rec: AssetRecord, now: LocalTime, html: seq<Element> -> string)
    requires ToMetadata(rec, now, html).Ok?
    ensures var m := ToMetadata(rec, now, html).value;
      && ("datePublished" in m <==> Truthy(rec.datePublished))
      && ("lastModifiedDate" in m <==> Truthy(rec.lastModified))
      && ("license" in m <==> Truthy(rec.license))
      && ("synopsis" in m <==> Truthy(rec.synopsis))
      && ("thumbnail" in m <==> rec.thumbnail.Some? && rec.thumbnail.value != "")
      && (Truthy(rec.datePublished) ==> Get(m, "datePublished") == Str(rec.datePublished.d.iso))
      && (Truthy(rec.license) ==> Get(m, "license") == rec.license)
      && (Truthy(rec.synopsis) ==> Get(m, "synopsis") == rec.synopsis)
      && ("thumbnail" in m ==> Get(m, "thumbnail") == Str(rec.thumbnail.value))
      && (Truthy(rec.lastModified) ==>
            Get(m, "lastModifiedDate") == Str(rec.lastModified.d.iso) && Get(m, "revisionTag") == Get(m, "lastModifiedDate"))
      && (!Truthy(rec.lastModified) ==> Get(m, "revisionTag") == Str(Timestamp(now)))
  {
    var base := BaseMetadata(rec, now).value;
    BaseOptionalFields(rec, now);
    assert ToMetadata(rec, now, html) == VariantMetadata(rec, base, html);
    OptionalNotVariant("datePublished");
    VariantMetadataKeeps(rec, base, html, "datePublished");
    OptionalNotVariant("lastModifiedDate");
    VariantMetadataKeeps(rec, base, html, "lastModifiedDate");
    OptionalNotVariant("license");
    VariantMetadataKeeps(rec, base, html, "license");
    OptionalNotVariant("synopsis");
    VariantMetadataKeeps(rec, base, html, "synopsis");
    OptionalNotVariant("thumbnail");
    VariantMetadataKeeps(rec, base, html, "thumbnail");
    OptionalNotVariant("revisionTag");
    VariantMetadataKeeps(rec, base, html, "revisionTag");
  }

  /** A news article's tags are its section followed by one internal tag
      per `set_as_static_page` call. */
  lemma NewsTags(rec: AssetRecord, now: LocalTime, html: seq<Element> -> string)
    requires rec.variant.News? && ToMetadata(rec, now, html).Ok?
    ensures Get(ToMetadata(rec, now, html).value, "tags") == Arr([rec.section] + Strs(rec.eknTags))
  {
    MetadataRequiredFields(rec, now, html);
  }

  /** The collaborators the save task calls: the local clock, the document
      serialiser, the file-type sniffer and the URL validator. */
  datatype Env = Env(
    now: LocalTime,
    html: seq<Element> -> string,
    sniffMime: seq<bv8> -> Option<string>,
    isUrl: string -> bool)

  /** `_process()`: images check their payload; the article variants run
      the media-resolution pass over their rendered document, which a blog
      or news article must have and a gallery article cannot do without
      either (calling the missing document throws); the other variants have
      nothing to do. */
  function ProcessOutcome(rec: AssetRecord, sniffMime: seq<bv8> -> Option<string>): (r: Outcome<Error>)
    ensures IsArticle(rec.variant) && rec.document.Some? ==>
      (r.Pass? <==> ResolveMedia(rec.document.value, LIB_PENDING).ok)
    ensures IsArticle(rec.variant) && rec.document.None? ==> r.Fail?
    ensures rec.variant.Dictionary? || rec.variant.Video? ==> r.Pass?
  {
    match rec.variant
    case Image => Verify.VerifyImageData(rec.imageData, sniffMime)
    case Video | Dictionary => Pass
    case Blog | News =>
      if rec.document.None? then Fail(PlainError(RENDER_ERROR))
      else if ResolveMedia(rec.document.value, LIB_PENDING).ok then Pass
      else Fail(ValidationError(MEDIA_ERROR))
    case GalleryImage | GalleryVideo =>
      if rec.document.None? then Fail(TypeError("$elem is not a function"))
      else if ResolveMedia(rec.document.value, LIB_PENDING).ok then Pass
      else Fail(ValidationError(MEDIA_ERROR))
  }

  /** The document as the pass leaves it, whether it succeeded or not. */
  function Processed(rec: AssetRecord): (r: AssetRecord)
    ensures r == rec.(document := r.document)
    ensures IsArticle(rec.variant) && rec.document.Some? ==>
      r.document == Some(ResolveMedia(rec.document.value, LIB_PENDING).doc)
    ensures !(IsArticle(rec.variant) && rec.document.Some?) ==> r == rec
  {
    if IsArticle(rec.variant) && rec.document.Some? then
      rec.(document := Some(ResolveMedia(rec.document.value, LIB_PENDING).doc))
    else rec
  }

  /** `to_data()`: an image's payload; the other variants have none. */
  function ToData(rec: AssetRecord): Option<seq<bv8>>
  {
    if rec.variant.Image? then rec.imageData else None
  }

  datatype FileContent = MetadataFile(record: Record) | DataFile(bytes: seq<bv8>)

  /** A file the save task writes into the hatch directory. */
  datatype FileEntry = FileEntry(name: string, content: FileContent)

  /** The part of the save task after `_process()`: build the metadata,
      name the payload file in it when there is a payload, validate it, and
      write the metadata file and then the payload file. */
  function Save(rec: AssetRecord, env: Env): (r: Result<seq<FileEntry>, Error>)
    ensures r.Ok? ==> |r.value| == (if ToData(rec).Some? then 2 else 1)
    ensures r.Ok? ==> && r.value[0].name == rec.assetId + ".metadata"
                      && r.value[0].content.MetadataFile?
                      && Verify.VerifyMetadata(r.value[0].content.record).Pass?
                      && ("cdnFilename" in r.value[0].content.record <==> ToData(rec).Some?)
    ensures r.Ok? && ToData(rec).Some? ==>
      && r.value[0].content.record["cdnFilename"] == Str(rec.assetId + ".data")
      && r.value[1] == FileEntry(rec.assetId + ".data", DataFile(ToData(rec).value))
  {
    var metadata :- ToMetadata(rec, env.now, env.html);
    BaseHasNoPayloadName(rec, env.now, env.html);
    var metadata := WithPayloadName(metadata, rec);
    var verdict := Verify.VerifyMetadata(metadata);
    if verdict.Fail? then Err(verdict.error)
    else
      Ok([FileEntry(rec.assetId + ".metadata", MetadataFile(metadata))]
        + (if ToData(rec).Some? then [FileEntry(rec.assetId + ".data", DataFile(ToData(rec).value))] else []))
  }

  /** `metadata['cdnFilename'] = assetID + ".data"` when there is a payload. */
  function WithPayloadName(metadata: Record, rec: AssetRecord): (r: Record)
    ensures "cdnFilename" in r <==> "cdnFilename" in metadata || ToData(rec).Some?
    ensures ToData(rec).Some? ==> r["cdnFilename"] == Str(rec.assetId + ".data")
    ensures ToData(rec).None? ==> r == metadata
  {
    if ToData(rec).Some? then metadata["cdnFilename" := Str(rec.assetId + ".data")] else metadata
  }

  /** The task `_save_to_hatch` queues for a non-video asset: `_process()`,
      then the save on the record as processing left it. */
  function TaskResult(rec: AssetRecord, env: Env): (r: Result<seq<FileEntry>, Error>)
    ensures r.Ok? ==> ProcessOutcome(rec, env.sniffMime).Pass?
    ensures ProcessOutcome(rec, env.sniffMime).Fail? ==> r == Err(ProcessOutcome(rec, env.sniffMime).error)
  {
    var outcome := ProcessOutcome(rec, env.sniffMime);
    if outcome.Fail? then Err(outcome.error) else Save(Processed(rec), env)
  }

  /** No record built from the base metadata carries a payload name unless
      the save task adds it. */
  lemma BaseHasNoPayloadName(rec: AssetRecord, now: LocalTime, html: seq<Element> -> string)
    requires ToMetadata(rec, now, html).Ok?
    ensures "cdnFilename" !in ToMetadata(rec, now, html).value
  {
    var base := BaseMetadata(rec, now).value;
    assert ToMetadata(rec, now, html) == VariantMetadata(rec, base, html);
    var tags := Concat(MakeTags(rec), rec.eknTags).value;
    var m1 := WithDates(RequiredMetadata(rec, tags, now), rec).value;
    var m2 := WithOptional(m1, "license", rec.license);
    var m3 := WithOptional(m2, "synopsis", rec.synopsis);
    assert base == WithOptional(m3, "thumbnail", ThumbnailValue(rec));
    VariantMetadataKeeps(rec, base, html, "cdnFilename");
  }

  /** A saved asset names its payload file in its metadata exactly when it
      has a payload; an image that saves always has one. */
  lemma PayloadNamedIffData(rec: AssetRecord, env: Env)
    requires TaskResult(rec, env).Ok?
    ensures var meta := TaskResult(rec, env).value[0].content.record;
      && ("cdnFilename" in meta <==> ToData(rec).Some?)
      && (rec.variant.Image? ==> ToData(rec).Some? && meta["cdnFilename"] == Str(rec.assetId + ".data"))
  {
    assert ToData(Processed(rec)) == ToData(rec);
  }

  /** When an article's processing passes (as it has whenever its task
      succeeds), every media element of its processed document has a job
      id, and the pending attribute has given way to it. */
  lemma ArticleProcessResolvesMedia(rec: AssetRecord, env: Env, i: nat)
    requires IsArticle(rec.variant) && ProcessOutcome(rec, env.sniffMime).Pass?
    ensures rec.document.Some? && Processed(rec).document.Some?
    ensures i < |rec.document.value| && IsMedia(rec.document.value[i]) ==>
      var e := Processed(rec).document.value[i];
      && HasAttr(e, JOB_ID)
      && (HasAttr(rec.document.value[i], LIB_PENDING) ==>
            LIB_PENDING !in e.attrs && e.attrs[JOB_ID] == rec.document.value[i].attrs[LIB_PENDING])
  {
    if i < |rec.document.value| && IsMedia(rec.document.value[i]) {
      ResolvedDocument(rec.document.value, LIB_PENDING, i);
    }
  }

  /** Processing twice is processing once. */
  lemma ProcessedIdempotent(rec: AssetRecord)
    ensures Processed(Processed(rec)) == Processed(rec)
  {
    if IsArticle(rec.variant) && rec.document.Some? {
      ResolveMediaIdempotent(rec.document.value, LIB_PENDING);
    }
  }

  /** Running the task again on the record it left behind has the same
      result: the pass is idempotent and nothing else changes. */
  lemma TaskResultAfterProcessing(rec: AssetRecord, env: Env)
    ensures TaskResult(Processed(rec), env) == TaskResult(rec, env)
  {
    ProcessedIdempotent(rec);
    if IsArticle(rec.variant) && rec.document.Some? {
      ResolveMediaIdempotent(rec.document.value, LIB_PENDING);
    }
  }

  /** `get_dependent_assets()`: the thumbnail's id when set, and for the
      article variants every job id in the document, which must exist. */
  function DependentAssets(rec: AssetRecord): (r: Result<set<string>, Error>)
    ensures r.Ok? <==> !IsArticle(rec.variant) || rec.document.Some?
  {
    var thumbnail := if rec.thumbnail.Some? && rec.thumbnail.value != "" then {rec.thumbnail.value} else {};
    if !IsArticle(rec.variant) then Ok(thumbnail)
    else if rec.document.None? then Err(TypeError("this._document is not a function"))
    else Ok(thumbnail + JobIds(rec.document.value))
  }

  /** The dependencies are the non-empty thumbnail id and, for an article,
      the job ids its document carries. */
  lemma DependentAssetsMembers(rec: AssetRecord, x: string)
    requires DependentAssets(rec).Ok?
    ensures x in DependentAssets(rec).value <==>
      (rec.thumbnail == Some(x) && x != "") || (IsArticle(rec.variant) && x in JobIds(rec.document.value))
  {
  }

  /** An asset object. The variant and the id are fixed at construction;
      every other field is changed in place by the setters and, for the
      rendered document, by the save task's media-resolution pass. */
  class Asset {
    const variant: Variant
    const assetId: string
    var contentType: JsValue
    var title: JsValue
    var synopsis: JsValue
    var thumbnail: Option<string>
    var canonicalUri: JsValue
    var lastModified: JsValue
    var datePublished: JsValue
    var license: JsValue
    var eknTags: seq<string>
    var tags: JsValue
    var section: JsValue
    var author: JsValue
    var authors: seq<JsValue>
    var source: JsValue
    var word: JsValue
    var definition: JsValue
    var partOfSpeech: JsValue
    var temporalCoverage: seq<JsValue>
    var imageData: Option<seq<bv8>>
    var downloadUri: JsValue
    var document: Option<seq<Element>>

    /** The asset's fields as a value. */
    function Snapshot(): (r: AssetRecord)
      reads this
      ensures r.variant == variant && r.assetId == assetId
    {
      AssetRecord(variant, assetId, contentType, title, synopsis, thumbnail, canonicalUri,
        lastModified, datePublished, license, eknTags, tags, section, author, authors, source,
        word, definition, partOfSpeech, temporalCoverage, imageData, downloadUri, document)
    }

    /** `new ImageAsset()`, `new BlogArticle()`, ...: `id` is the fresh
        id `new_asset_id` draws. */
    constructor(v: Variant, id: string)
      requires IsAssetId(id)
      ensures Snapshot() == InitialRecord(v, id)
    {
      variant := v;
      assetId := id;
      contentType := if v.Image? || v.Video? then Undefined else Str("text/html");
      title, synopsis, thumbnail, canonicalUri := Undefined, Undefined, None, Undefined;
      lastModified, datePublished, license := Undefined, Undefined, Undefined;
      eknTags := [];
      tags := if v.Blog? then Arr([]) else Undefined;
      section, author, authors, source := Undefined, Undefined, [], Undefined;
      word, definition, partOfSpeech := Undefined, Undefined, Undefined;
      temporalCoverage, imageData, downloadUri, document := [], None, Undefined, None;
    }

    /** `set_title`: the value with its surrounding white space trimmed. */
    method SetTitle(value: JsValue) returns (r: Outcome<Error>)
      modifies this
      ensures var t := CallTrim(value);
        && r == (if t.Ok? then Pass else Fail(t.error))
        && Snapshot() == if t.Ok? then old(Snapshot()).(title := Str(t.value)) else old(Snapshot())
    {
      var t := CallTrim(value);
      if t.Err? {
        return Fail(t.error);
      }
      title := Str(t.value);
      r := Pass;
    }

    /** `set_synopsis`: trimmed as the title is. */
    method SetSynopsis(value: JsValue) returns (r: Outcome<Error>)
      modifies this
      ensures var t := CallTrim(value);
        && r == (if t.Ok? then Pass else Fail(t.error))
        && Snapshot() == if t.Ok? then old(Snapshot()).(synopsis := Str(t.value)) else old(Snapshot())
    {
      var t := CallTrim(value);
      if t.Err? {
        return Fail(t.error);
      }
      synopsis := Str(t.value);
      r := Pass;
    }

    /** `set_thumbnail`: records the thumbnail asset's id, not the asset;
        reading `asset_id` of a missing asset throws. */
    method SetThumbnail(value: Asset?) returns (r: Outcome<Error>)
      modifies this
      ensures value == null ==> r == Fail(TypeError(NO_THUMBNAIL)) && Snapshot() == old(Snapshot())
      ensures value != null ==> r == Pass && Snapshot() == old(Snapshot()).(thumbnail := Some(value.assetId))
    {
      if value == null {
        return Fail(TypeError(NO_THUMBNAIL));
      }
      thumbnail := Some(value.assetId);
      r := Pass;
    }

    method SetCanonicalUri(value: JsValue)
      modifies this
      ensures Snapshot() == old(Snapshot()).(canonicalUri := value)
    {
      canonicalUri := value;
    }

    method SetLastModifiedDate(value: DateArg)
      modifies this
      ensures Snapshot() == old(Snapshot()).(lastModified := EnsureDate(value))
    {
      lastModified := EnsureDate(value);
    }

    method SetDatePublished(value: DateArg)
      modifies this
      ensures Snapshot() == old(Snapshot()).(datePublished := EnsureDate(value))
    {
      datePublished := EnsureDate(value);
    }

    method SetLicense(value: JsValue)
      modifies this
      ensures Snapshot() == old(Snapshot()).(license := value)
    {
      license := value;
    }

    /** `ImageAsset.set_image_data`. */
    method SetImageData(contentTypeValue: JsValue, data: Option<seq<bv8>>)
      requires variant.Image?
      modifies this
      ensures Snapshot() == old(Snapshot()).(contentType := contentTypeValue, imageData := data)
    {
      contentType := contentTypeValue;
      imageData := data;
    }

    /** `VideoAsset.set_download_uri`. */
    method SetDownloadUri(value: JsValue)
      requires variant.Video?
      modifies this
      ensures Snapshot() == old(Snapshot()).(downloadUri := value)
    {
      downloadUri := value;
    }

    /** `set_tags` of the dictionary, blog and gallery variants. */
    method SetTags(value: JsValue)
      requires HasOwnTags(variant)
      modifies this
      ensures Snapshot() == old(Snapshot()).(tags := value)
    {
      tags := value;
    }

    /** `set_as_static_page`: one more internal tag, after those before. */
    method SetAsStaticPage()
      requires IsArticle(variant)
      modifies this
      ensures Snapshot() == old(Snapshot()).(eknTags := old(eknTags) + [EKN_STATIC_TAG])
    {
      eknTags := eknTags + [EKN_STATIC_TAG];
    }

    /** `set_author` of the blog and gallery variants. */
    method SetAuthor(value: JsValue)
      requires variant.Blog? || variant.GalleryImage? || variant.GalleryVideo?
      modifies this
      ensures Snapshot() == old(Snapshot()).(author := value)
    {
      author := value;
    }

    /** `NewsArticle.set_authors`: an array is kept as the list of
        authors, any other value becomes a list of one. */
    method SetAuthors(value: JsValue)
      requires variant.News?
      modifies this
      ensures value.Arr? ==> Snapshot() == old(Snapshot()).(authors := value.items)
      ensures !value.Arr? ==> Snapshot() == old(Snapshot()).(authors := [value])
    {
      if value.Arr? {
        authors := value.items;
      } else {
        authors := [value];
      }
    }

    method SetSection(value: JsValue)
      requires variant.News?
      modifies this
      ensures Snapshot() == old(Snapshot()).(section := value)
    {
      section := value;
    }

    method SetSource(value: JsValue)
      requires variant.News?
      modifies this
      ensures Snapshot() == old(Snapshot()).(source := value)
    {
      source := value;
    }

    method SetWord(value: JsValue)
      requires variant.Dictionary?
      modifies this
      ensures Snapshot() == old(Snapshot()).(word := value)
    {
      word := value;
    }

    method SetDefinition(value: JsValue)
      requires variant.Dictionary?
      modifies this
      ensures Snapshot() == old(Snapshot()).(definition := value)
    {
      definition := value;
    }

    method SetPartOfSpeech(value: JsValue)
      requires variant.Dictionary?
      modifies this
      ensures Snapshot() == old(Snapshot()).(partOfSpeech := value)
    {
      partOfSpeech := value;
    }

    /** `GalleryImageArticle.set_temporal_coverage`, given the list of
        dates in the order the setter leaves it. */
    method SetTemporalCoverage(dates: seq<JsDate>)
      requires variant.GalleryImage?
      modifies this
      ensures |temporalCoverage| == |dates|
      ensures forall i :: 0 <= i < |dates| ==> temporalCoverage[i] == Date(dates[i])
      ensures Snapshot() == old(Snapshot()).(temporalCoverage := temporalCoverage)
    {
      temporalCoverage := seq(|dates|, i requires 0 <= i < |dates| => Date(dates[i]));
    }

    /** `render()`: `rendered` is the document the templates produce. */
    method Render(rendered: seq<Element>)
      requires variant.Dictionary? || IsArticle(variant)
      modifies this
      ensures Snapshot() == old(Snapshot()).(document := Some(rendered))
    {
      document := Some(rendered);
    }

    /** `_process()`: an image checks its payload; an article runs the
        media-resolution pass over its document, rewriting it in place. */
    method Process(sniffMime: seq<bv8> -> Option<string>) returns (r: Outcome<Error>)
      modifies this
      ensures Snapshot() == Processed(old(Snapshot()))
      ensures r == ProcessOutcome(old(Snapshot()), sniffMime)
    {
      r := Pass;
      if variant.Image? {
        r := Verify.VerifyImageData(imageData, sniffMime);
      } else if IsArticle(variant) {
        if document.None? {
          r := if variant.Blog? || variant.News? then Fail(PlainError(RENDER_ERROR))
               else Fail(TypeError("$elem is not a function"));
        } else {
          var resolution := ResolveMediaLoop(document.value, LIB_PENDING);
          document := Some(resolution.doc);
          if !resolution.ok {
            r := Fail(ValidationError(MEDIA_ERROR));
          }
        }
      }
    }

    /** The task `_save_to_hatch` queues, run to its end: `_process()`,
        then the metadata, its validation and the files. */
    method RunSaveTask(env: Env) returns (r: Result<seq<FileEntry>, Error>)
      modifies this
      ensures Snapshot() == Processed(old(Snapshot()))
      ensures r == TaskResult(old(Snapshot()), env)
    {
      var outcome := Process(env.sniffMime);
      if outcome.Fail? {
        return Err(outcome.error);
      }
      r := Save(Snapshot(), env);
    }

    /** `get_dependent_assets()`: the thumbnail's id when set, then each id
        the document's `[data-soma-job-id]` elements carry, added to a set
        one by one. */
    method GetDependentAssets() returns (r: Result<set<string>, Error>)
      ensures r == DependentAssets(Snapshot())
    {
      var assets: set<string> := {};
      if thumbnail.Some? && thumbnail.value != "" {
        assets := {thumbnail.value};
      }
      if !IsArticle(variant) {
        return Ok(assets);
      }
      if document.None? {
        return Err(TypeError("this._document is not a function"));
      }
      var ids := JobIdList(document.value);
      ghost var start := assets;
      for i := 0 to |ids|
        invariant assets == start + set j | 0 <= j < i :: ids[j]
      {
        assets := assets + {ids[i]};
      }
      assert assets == start + JobIds(document.value) by {
        forall x ensures x in assets <==> x in start + JobIds(document.value) {
          if x in JobIds(document.value) {
            assert x in ids;
          }
        }
      }
      r := Ok(assets);
    }
  }

  /** The record of an image whose title, synopsis, thumbnail, license,
      canonical URI and last-modified date are set (and nothing else). */
  predicate ExampleImage(rec: AssetRecord)
  {
    && rec.variant.Image? && rec.eknTags == [] && rec.datePublished == Undefined
    && rec.lastModified.Date? && rec.lastModified.d.ValidDate?
    && Truthy(rec.license) && Truthy(rec.synopsis) && rec.thumbnail.Some? && rec.thumbnail.value != ""
  }

  /** The keys of such an image's metadata. */
  const ExampleKeys: set<string> := {"assetID", "objectType", "contentType", "canonicalURI", "matchingLinks",
    "title", "synopsis", "license", "tags", "thumbnail", "lastModifiedDate", "revisionTag"}

  lemma ExampleImageChain(rec: AssetRecord, now: LocalTime, html: seq<Element> -> string)
    requires ExampleImage(rec)
    ensures var iso := Str(rec.lastModified.d.iso);
      ToMetadata(rec, now, html) == Ok(RequiredMetadata(rec, Arr([]), now)
        ["lastModifiedDate" := iso]["revisionTag" := iso]
        ["license" := rec.license]["synopsis" := rec.synopsis]["thumbnail" := Str(rec.thumbnail.value)])
  {
    var iso := Str(rec.lastModified.d.iso);
    var base := RequiredMetadata(rec, Arr([]), now)["lastModifiedDate" := iso]["revisionTag" := iso]
      ["license" := rec.license]["synopsis" := rec.synopsis]["thumbnail" := Str(rec.thumbnail.value)];
    ExampleImageBase(rec, now);
    assert VariantMetadata(rec, base, html) == Ok(base);
  }

  lemma ExampleImageBase(rec: AssetRecord, now: LocalTime)
    requires ExampleImage(rec)
    ensures var iso := Str(rec.lastModified.d.iso);
      BaseMetadata(rec, now) == Ok(RequiredMetadata(rec, Arr([]), now)
        ["lastModifiedDate" := iso]["revisionTag" := iso]
        ["license" := rec.license]["synopsis" := rec.synopsis]["thumbnail" := Str(rec.thumbnail.value)])
  {
    assert Concat(MakeTags(rec), rec.eknTags) == Ok(Arr([]));
    var iso := Str(rec.lastModified.d.iso);
    var req := RequiredMetadata(rec, Arr([]), now);
    assert WithDates(req, rec) == Ok(req["lastModifiedDate" := iso]["revisionTag" := iso]);
    assert ThumbnailValue(rec) == Str(rec.thumbnail.value);
  }

  /** Such an image's metadata has exactly the keys of the example... */
  lemma ExampleImageKeys(rec: AssetRecord, now: LocalTime, html: seq<Element> -> string)
    requires ExampleImage(rec)
    ensures ToMetadata(rec, now, html).Ok? && ToMetadata(rec, now, html).value.Keys == ExampleKeys
  {
    ExampleImageChain(rec, now, html);
  }

  /** ... holding the example's values. */
  lemma ExampleImageValues(rec: AssetRecord, now: LocalTime, html: seq<Element> -> string)
    requires ExampleImage(rec)
    ensures ToMetadata(rec, now, html).Ok?
    ensures var m := ToMetadata(rec, now, html).value;
      && Get(m, "assetID") == Str(rec.assetId)
      && Get(m, "objectType") == Str("ImageObject")
      && Get(m, "contentType") == rec.contentType
      && Get(m, "canonicalURI") == rec.canonicalUri
      && Get(m, "matchingLinks") == Arr([rec.canonicalUri])
      && Get(m, "title") == rec.title
      && Get(m, "synopsis") == rec.synopsis
      && Get(m, "license") == rec.license
      && Get(m, "tags") == Arr([])
      && Get(m, "thumbnail") == Str(rec.thumbnail.value)
      && Get(m, "lastModifiedDate") == Str(rec.lastModified.d.iso)
      && Get(m, "revisionTag") == Str(rec.lastModified.d.iso)
  {
    ExampleImageChain(rec, now, html);
    MetadataRequiredFields(rec, now, html);
    MetadataOptionalFields(rec, now, html);
  }

  lemma ExampleTitlesTrimmed()
    ensures Trim("Test Asset") == "Test Asset" && Trim("Test Asset synopsis") == "Test Asset synopsis"
  {
    TrimUnpadded("Test Asset");
    TrimUnpadded("Test Asset synopsis");
  }

  /** The test's image, built through its setters: a fresh image with a
      title, a synopsis, a thumbnail, a licence, a canonical URI, a
      last-modified date and a JPEG payload. */
  method BuildExampleImage(id: string, thumbnailId: string, data: seq<bv8>) returns (asset: Asset)
    requires IsAssetId(id) && IsAssetId(thumbnailId)
    ensures var rec := asset.Snapshot();
      && ExampleImage(rec) && rec.assetId == id && rec.thumbnail == Some(thumbnailId)
      && rec.contentType == Str("image/jpeg") && rec.canonicalUri == Str("https://www.example.com/")
      && rec.title == Str("Test Asset") && rec.synopsis == Str("Test Asset synopsis")
      && rec.license == Str("Proprietary") && rec.lastModified == Date(ValidDate("2017-04-18T19:54:40.000Z"))
      && ToData(rec) == Some(data)
  {
    ExampleTitlesTrimmed();
    asset := new Asset(Image, id);
    var thumbnail := new Asset(Image, thumbnailId);
    assert CallTrim(Str("Test Asset")) == Ok("Test Asset");
    assert CallTrim(Str("Test Asset synopsis")) == Ok("Test Asset synopsis");
    var titleSet := asset.SetTitle(Str("Test Asset"));
    var synopsisSet := asset.SetSynopsis(Str("Test Asset synopsis"));
    var thumbnailSet := asset.SetThumbnail(thumbnail);
    assert asset.Snapshot() == InitialRecord(Image, id).(title := Str("Test Asset"),
      synopsis := Str("Test Asset synopsis"), thumbnail := Some(thumbnailId));
    asset.SetLicense(Str("Proprietary"));
    asset.SetCanonicalUri(Str("https://www.example.com/"));
    asset.SetLastModifiedDate(DateObject(ValidDate("2017-04-18T19:54:40.000Z")));
    asset.SetImageData(Str("image/jpeg"), Some(data));
  }

  /** The library's own serialisation example for an image: every set
      field shows up under its name, the thumbnail as its asset's id, the
      tags are empty, and the last-modified date is also the revision tag. */
  method ImageSerialisationExample(id: string, thumbnailId: string, data: seq<bv8>, now: LocalTime, html: seq<Element> -> string)
    returns (metadata: Result<Record, Error>, payload: Option<seq<bv8>>)
    requires IsAssetId(id) && IsAssetId(thumbnailId)
    ensures metadata.Ok? && metadata.value.Keys == ExampleKeys
    ensures var m := metadata.value;
      && Get(m, "assetID") == Str(id)
      && Get(m, "objectType") == Str("ImageObject")
      && Get(m, "contentType") == Str("image/jpeg")
      && Get(m, "canonicalURI") == Str("https://www.example.com/")
      && Get(m, "matchingLinks") == Arr([Str("https://www.example.com/")])
      && Get(m, "title") == Str("Test Asset")
      && Get(m, "synopsis") == Str("Test Asset synopsis")
      && Get(m, "license") == Str("Proprietary")
      && Get(m, "tags") == Arr([])
      && Get(m, "thumbnail") == Str(thumbnailId)
      && Get(m, "lastModifiedDate") == Str("2017-04-18T19:54:40.000Z")
      && Get(m, "revisionTag") == Str("2017-04-18T19:54:40.000Z")
    ensures payload == Some(data)
  {
    var asset := BuildExampleImage(id, thumbnailId, data);
    var rec := asset.Snapshot();
    metadata := ToMetadata(rec, now, html);
    ExampleImageKeys(rec, now, html);
    ExampleImageValues(rec, now, html);
    payload := ToData(rec);
  }
}
