/** The metadata validator of the library: common checks on every record,
    then a schema per `objectType`, each check raising the distinguished
    `VerificationError` with its message followed by `: false`. */
module Verify {
  import opened Wrappers
  import opened JsValues

  const MAX_TITLE_LENGTH := 140

  /** `assert(value, message)`: throws `message + ": " + value`; every value
      asserted here is the boolean `false` when it fails. */
  function Check(ok: bool, message: string): Outcome<Error>
  {
    if ok then Pass else Fail(VerificationError(message + ": false"))
  }

  predicate AllStrings(items: seq<JsValue>)
  {
    forall i :: 0 <= i < |items| ==> items[i].Str?
  }

  /** `v.every(s => typeof s === "string")` on a truthy `v`: arrays answer,
      any other value has no `every` and throws. */
  function EveryString(v: JsValue): Result<bool, Error>
  {
    if v.Arr? then Ok(AllStrings(v.items)) else Err(TypeError("every is not a function"))
  }

  /** The checks of one object type, after the common ones. */
  function CheckObjectType(m: Record): Outcome<Error>
  {
    var objectType := Get(m, "objectType");
    if objectType == Str("ArticleObject") then
      var title := Get(m, "title");
      var document := Get(m, "document");
      if !Truthy(title) then Check(false, "metadata missing title")
      // a title longer than MAX_TITLE_LENGTH only logs a warning
      else if !Truthy(document) then Check(false, "metadata missing document")
      else Check(Length(document).Some? && Length(document).value > 0, "document is empty")
    else if objectType == Str("ImageObject") then
      Check(Truthy(Get(m, "cdnFilename")), "Image object missing cdnFilename (has no data?)")
    else if objectType == Str("DictionaryObjectModel") then
      if !Truthy(Get(m, "word")) then Check(false, "metadata missing word")
      else Check(Truthy(Get(m, "definition")), "metadata missing definition")
    else
      Fail(VerificationError("metadata has wrong objectType"))
  }

  /** `verify_metadata`: the checks in source order; the first that fails
      decides the error. Reading `.length` of a missing `assetID` and
      calling `every` on a truthy non-array throw a `TypeError`. */
  function VerifyMetadata(m: Record): (r: Outcome<Error>)
    ensures r.Pass? <==> ConformsToSchema(m)
    ensures r.Fail? ==> r.error.VerificationError? || r.error.TypeError?
  {
    var assetId := Get(m, "assetID");
    if IsNullish(assetId) then Fail(TypeError("cannot read property 'length' of assetID"))
    else if !(Length(assetId) == Some(40)) then Check(false, "Asset has invalid assetID")
    else if !Get(m, "canonicalURI").Str? then Check(false, "Asset has invalid canonicalURI")
    else if !Get(m, "contentType").Str? then Check(false, "Asset has invalid contentType")
    else if !Truthy(Get(m, "matchingLinks")) then Check(false, "Asset missing matchingLinks")
    else match EveryString(Get(m, "matchingLinks"))
      case Err(e) => Fail(e)
      case Ok(linksOk) =>
        if !linksOk then Check(false, "Some asset matching URIs are not strings")
        else if !Truthy(Get(m, "tags")) then Check(false, "Asset missing tags")
        else match EveryString(Get(m, "tags"))
          case Err(e) => Fail(e)
          case Ok(tagsOk) =>
            if !tagsOk then Check(false, "Some asset tags are not strings")
            else if !Truthy(Get(m, "revisionTag")) then Check(false, "Asset missing revisionTag")
            else CheckObjectType(m)
  }

  /** `verify_metadata` warns (and only warns) about such a title. */
  predicate LongTitleWarning(m: Record)
  {
    Get(m, "objectType") == Str("ArticleObject") && Get(m, "title").Str?
    && |Get(m, "title").s| > MAX_TITLE_LENGTH
  }

  /** The schema the validator enforces, stated field by field: the common
      fields every record needs and the fields its object type requires. */
  predicate ConformsToSchema(m: Record)
  {
    && Length(Get(m, "assetID")) == Some(40)
    && Get(m, "canonicalURI").Str?
    && Get(m, "contentType").Str?
    && Get(m, "matchingLinks").Arr? && AllStrings(Get(m, "matchingLinks").items)
    && Get(m, "tags").Arr? && AllStrings(Get(m, "tags").items)
    && Truthy(Get(m, "revisionTag"))
    && match Get(m, "objectType")
       case Str("ArticleObject") =>
         Truthy(Get(m, "title")) && Length(Get(m, "document")).Some? && Length(Get(m, "document")).value > 0
       case Str("ImageObject") => Truthy(Get(m, "cdnFilename"))
       case Str("DictionaryObjectModel") => Truthy(Get(m, "word")) && Truthy(Get(m, "definition"))
       case _ => false
  }

  /** A record whose `assetID` does not have length 40 is rejected. */
  lemma BadAssetIdRejected(m: Record)
    requires Length(Get(m, "assetID")) != Some(40)
    ensures VerifyMetadata(m).Fail?
    ensures !IsNullish(Get(m, "assetID")) ==>
      VerifyMetadata(m) == Fail(VerificationError("Asset has invalid assetID: false"))
  {
    assert "Asset has invalid assetID" + ": false" == "Asset has invalid assetID: false";
  }

  /** The empty record is rejected: reading the length of its missing
      `assetID` throws. */
  lemma EmptyRecordRejected()
    ensures VerifyMetadata(map[]).Fail? && VerifyMetadata(map[]).error.TypeError?
  {
  }

  /** A title's length never changes the verdict: replacing one truthy title
      by another leaves the outcome as it was. */
  lemma TitleLengthOnlyWarns(m: Record, title: string)
    requires Truthy(Get(m, "title")) && title != ""
    ensures VerifyMetadata(m["title" := Str(title)]) == VerifyMetadata(m)
  {
    var m' := m["title" := Str(title)];
    assert Get(m', "assetID") == Get(m, "assetID");
    assert Get(m', "canonicalURI") == Get(m, "canonicalURI");
    assert Get(m', "contentType") == Get(m, "contentType");
    assert Get(m', "matchingLinks") == Get(m, "matchingLinks");
    assert Get(m', "tags") == Get(m, "tags");
    assert Get(m', "revisionTag") == Get(m, "revisionTag");
    assert Get(m', "objectType") == Get(m, "objectType");
    assert Get(m', "document") == Get(m, "document");
    assert Get(m', "cdnFilename") == Get(m, "cdnFilename");
    assert Get(m', "word") == Get(m, "word");
    assert Get(m', "definition") == Get(m, "definition");
    assert CheckObjectType(m') == CheckObjectType(m);
  }

  /** Once the common fields are valid, an object type outside the three
      known ones is rejected with its own message. */
  lemma UnknownObjectTypeRejected(m: Record)
    requires Length(Get(m, "assetID")) == Some(40)
    requires Get(m, "canonicalURI").Str? && Get(m, "contentType").Str?
    requires Get(m, "matchingLinks").Arr? && AllStrings(Get(m, "matchingLinks").items)
    requires Get(m, "tags").Arr? && AllStrings(Get(m, "tags").items)
    requires Truthy(Get(m, "revisionTag"))
    requires Get(m, "objectType") !in {Str("ArticleObject"), Str("ImageObject"), Str("DictionaryObjectModel")}
    ensures VerifyMetadata(m) == Fail(VerificationError("metadata has wrong objectType"))
  {
  }

  /** The shape of the library's sample image record, for any id forty
      UTF-16 units long and any URI: the URI is its canonical and only matching link, the
      tag list is empty and the data file is named after the id. */
  function ImageRecord(id: string, uri: string, modified: string): Record
  {
    map[
      "assetID" := Str(id),
      "objectType" := Str("ImageObject"),
      "contentType" := Str("image/jpeg;charset=UTF-8"),
      "canonicalURI" := Str(uri),
      "matchingLinks" := Arr([Str(uri)]),
      "tags" := Arr([]),
      "lastModifiedDate" := Str(modified),
      "revisionTag" := Str(modified),
      "cdnFilename" := Str(id + ".data")
    ]
  }

  /** Such a record passes whenever it has a revision tag. */
  lemma ImageRecordAccepted(id: string, uri: string, modified: string)
    requires Utf16Length(id) == 40 && modified != ""
    ensures VerifyMetadata(ImageRecord(id, uri, modified)).Pass?
  {
    var m := ImageRecord(id, uri, modified);
    ImageRecordFields(id, uri, modified);
    assert AllStrings(Get(m, "matchingLinks").items);
    assert ConformsToSchema(m);
  }

  /** The fields the validator reads, looked up in the sample record. */
  lemma ImageRecordFields(id: string, uri: string, modified: string)
    ensures var m := ImageRecord(id, uri, modified);
      && Get(m, "assetID") == Str(id)
      && Get(m, "objectType") == Str("ImageObject")
      && Get(m, "contentType").Str?
      && Get(m, "canonicalURI") == Str(uri)
      && Get(m, "matchingLinks") == Arr([Str(uri)])
      && Get(m, "tags") == Arr([])
      && Get(m, "revisionTag") == Str(modified)
      && Get(m, "cdnFilename") == Str(id + ".data")
  {
  }

  /** With a short id it is rejected. */
  lemma ImageRecordShortIdRejected(id: string, uri: string, modified: string)
    requires Utf16Length(id) == 40
    ensures VerifyMetadata(ImageRecord(id, uri, modified)["assetID" := Str("12345")])
      == Fail(VerificationError("Asset has invalid assetID: false"))
  {
    BadAssetIdRejected(ImageRecord(id, uri, modified)["assetID" := Str("12345")]);
  }

  /** The length checked is JavaScript's, in UTF-16 code units: an id of
      forty characters whose last one lies outside the Basic Multilingual
      Plane is forty-one units long and is rejected. */
  lemma AstralIdRejected(uri: string, modified: string)
    ensures var id := seq(39, _ => 'a') + ['\U{1F600}'];
      && |id| == 40
      && VerifyMetadata(ImageRecord(id, uri, modified)) == Fail(VerificationError("Asset has invalid assetID: false"))
  {
    var id := seq(39, _ => 'a') + ['\U{1F600}'];
    assert !(id[39] as int < 0x10000);
    assert Utf16Length(id) != 40;
    BadAssetIdRejected(ImageRecord(id, uri, modified));
  }

  /** With a nested tag list it is rejected. */
  lemma ImageRecordNestedTagsRejected(id: string, uri: string, modified: string)
    requires Utf16Length(id) == 40
    ensures VerifyMetadata(ImageRecord(id, uri, modified)["tags" := Arr([Arr([Str("A"), Str("B")])])])
      == Fail(VerificationError("Some asset tags are not strings: false"))
  {
    var m := ImageRecord(id, uri, modified);
    var bad := m["tags" := Arr([Arr([Str("A"), Str("B")])])];
    ImageRecordFields(id, uri, modified);
    assert Get(bad, "assetID") == Get(m, "assetID");
    assert Get(bad, "canonicalURI") == Get(m, "canonicalURI");
    assert Get(bad, "contentType") == Get(m, "contentType");
    assert Get(bad, "matchingLinks") == Get(m, "matchingLinks");
    assert AllStrings(Get(bad, "matchingLinks").items);
    assert !AllStrings(Get(bad, "tags").items) by { assert !Get(bad, "tags").items[0].Str?; }
    assert "Some asset tags are not strings" + ": false" == "Some asset tags are not strings: false";
  }

  /** The manifest-entry check `Validator.isURL(entry.uri)`, with `isUrl`
      standing for the URL validator, which refuses a value that is not a
      string with a `TypeError`; a failure's message reads `undefined: false`
      because the check passes no message. */
  function VerifyManifestEntry(uri: JsValue, isUrl: string -> bool): (r: Outcome<Error>)
    ensures r.Pass? <==> uri.Str? && isUrl(uri.s)
    ensures r.Fail? && uri.Str? ==> r == Fail(VerificationError("undefined: false"))
  {
    if !uri.Str? then Fail(TypeError("isURL expects a string"))
    else if isUrl(uri.s) then Pass
    else Fail(VerificationError("undefined: false"))
  }

  /** The image-payload check: `sniffMime` stands for the file-type
      sniffer; the payload passes when it is recognised as an `image/` type.
      A missing payload is `undefined` in the message; a payload that is
      not recognised appears there without its text. */
  function VerifyImageData(data: Option<seq<bv8>>, sniffMime: seq<bv8> -> Option<string>): (r: Outcome<Error>)
    ensures r.Pass? <==>
      (data.Some? && sniffMime(data.value).Some?
       && |sniffMime(data.value).value| >= 6 && sniffMime(data.value).value[..6] == "image/")
    ensures r.Fail? ==> r.error.VerificationError?
  {
    match data
    case None => Fail(VerificationError("couldn't detect mimetype of image data undefined: false"))
    case Some(bytes) =>
      match sniffMime(bytes)
      case None => Fail(VerificationError("couldn't detect mimetype of image data: false"))
      case Some(mime) =>
        if |mime| >= 6 && mime[..6] == "image/" then Pass
        else Fail(VerificationError("data is not an image: false"))
  }
}
