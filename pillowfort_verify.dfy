/** The prototype's metadata validator: four common fields must be truthy,
    then an article needs a title, an image nothing more, and any other
    object type is refused. Every failure raises `VerificationError` with
    the message of the first check that failed, and nothing else. */
module PillowfortVerify {
  import opened Wrappers
  import opened JsValues

  /** `assert(value, message)`: throws the message alone. */
  function Check(ok: bool, message: string): (r: Outcome<Error>)
    ensures r.Pass? <==> ok
    ensures r.Fail? ==> r.error == VerificationError(message)
  {
    if ok then Pass else Fail(VerificationError(message))
  }

  const WRONG_TYPE := "metadata has wrong objectType"

  /** `verify_metadata`, check after check. */
  function VerifyMetadata(m: Record): (r: Outcome<Error>)
    ensures r.Pass? <==> ConformsToSchema(m)
    ensures r.Fail? ==> r.error.VerificationError?
  {
    var objectType := Get(m, "objectType");
    if !Truthy(Get(m, "assetID")) then Check(false, "metadata missing assetID")
    else if !Truthy(Get(m, "canonicalURI")) then Check(false, "metadata missing canonicalURI")
    else if !Truthy(Get(m, "matchingLinks")) then Check(false, "metadata missing matchingLinks")
    else if !Truthy(Get(m, "contentType")) then Check(false, "metadata missing contentType")
    else if objectType == Str("ArticleObject") then Check(Truthy(Get(m, "title")), "metadata missing title")
    else if objectType == Str("ImageObject") then Pass
    else Fail(VerificationError(WRONG_TYPE))
  }

  /** The schema, field by field. */
  predicate ConformsToSchema(m: Record)
  {
    && Truthy(Get(m, "assetID"))
    && Truthy(Get(m, "canonicalURI"))
    && Truthy(Get(m, "matchingLinks"))
    && Truthy(Get(m, "contentType"))
    && (Get(m, "objectType") == Str("ArticleObject") || Get(m, "objectType") == Str("ImageObject"))
    && (Get(m, "objectType") == Str("ArticleObject") ==> Truthy(Get(m, "title")))
  }

  /** The messages of every check the record fails, in the order the
      checks are written; the type check only runs on a record whose
      common fields pass, so it is listed after them. */
  function Problems(m: Record): seq<string>
  {
    (if !Truthy(Get(m, "assetID")) then ["metadata missing assetID"] else [])
    + (if !Truthy(Get(m, "canonicalURI")) then ["metadata missing canonicalURI"] else [])
    + (if !Truthy(Get(m, "matchingLinks")) then ["metadata missing matchingLinks"] else [])
    + (if !Truthy(Get(m, "contentType")) then ["metadata missing contentType"] else [])
    + (match Get(m, "objectType")
       case Str("ArticleObject") => if Truthy(Get(m, "title")) then [] else ["metadata missing title"]
       case Str("ImageObject") => []
       case _ => [WRONG_TYPE])
  }

  /** A record passes exactly when it has no problem, and a failure carries
      the message of its first problem. */
  lemma VerifyMetadataFirstProblem(m: Record)
    ensures VerifyMetadata(m).Pass? <==> Problems(m) == []
    ensures VerifyMetadata(m).Fail? ==> VerifyMetadata(m).error == VerificationError(Problems(m)[0])
  {
  }

  /** An image record needs nothing beyond the common fields: neither its
      title nor any other field changes the verdict. */
  lemma ImageNeedsCommonFieldsOnly(m: Record, key: string, v: JsValue)
    requires Get(m, "objectType") == Str("ImageObject")
    requires key !in {"assetID", "canonicalURI", "matchingLinks", "contentType", "objectType"}
    ensures VerifyMetadata(m[key := v]) == VerifyMetadata(m)
  {
    var m' := m[key := v];
    assert Get(m', "assetID") == Get(m, "assetID");
    assert Get(m', "canonicalURI") == Get(m, "canonicalURI");
    assert Get(m', "matchingLinks") == Get(m, "matchingLinks");
    assert Get(m', "contentType") == Get(m, "contentType");
    assert Get(m', "objectType") == Get(m, "objectType");
  }

  /** The empty record is refused for its missing `assetID`. */
  lemma EmptyRecordRejected()
    ensures VerifyMetadata(map[]) == Fail(VerificationError("metadata missing assetID"))
  {
  }
}
