/** The prototype's job record: a job for one image URI, whose id is drawn
    once when the job is made and doubles as its asset id, and the entry
    it contributes to a hatch manifest. */
module PillowfortJob {
  import opened Wrappers
  import opened JsValues
  import Assets

  const SIMPLE_IMAGE := "simple_image"

  /** `SimpleImageJob`: the id and the URI are fixed when the job is made
      and only read afterwards. */
  datatype SimpleImageJob = SimpleImageJob(jobId: string, uri: JsValue)

  /** `new SimpleImageJob(uri)`; `id` is what `new_job_id` draws: the hex
      SHA-1 digest of random bytes. */
  function NewJob(id: string, uri: JsValue): (j: SimpleImageJob)
    requires Assets.IsAssetId(id)
    ensures j.jobId == id && j.uri == uri
  {
    SimpleImageJob(id, uri)
  }

  /** The `asset_id` getter: the job id under the name the hatch expects. */
  function AssetId(j: SimpleImageJob): (r: string)
  {
    j.jobId
  }

  /** `_to_hatch_manifest`. */
  function ToHatchManifest(j: SimpleImageJob): Record
  {
    map["job_id" := Str(j.jobId), "type" := Str(SIMPLE_IMAGE), "uri" := j.uri]
  }

  /** Reads a job back from its manifest entry. */
  function FromManifest(m: Record): Option<SimpleImageJob>
  {
    if Get(m, "type") == Str(SIMPLE_IMAGE) && Get(m, "job_id").Str? then
      Some(SimpleImageJob(Get(m, "job_id").s, Get(m, "uri")))
    else None
  }

  /** The manifest entry carries the job whole: its id, the URI as it was
      given, and the constant type, under the three keys and no others. */
  lemma ManifestRoundTrip(j: SimpleImageJob)
    ensures FromManifest(ToHatchManifest(j)) == Some(j)
    ensures ToHatchManifest(j).Keys == {"job_id", "type", "uri"}
  {
  }

  /** A fresh job's id and its asset id are the same forty hex digits. */
  lemma NewJobIds(id: string, uri: JsValue)
    requires Assets.IsAssetId(id)
    ensures var j := NewJob(id, uri);
      && AssetId(j) == j.jobId
      && Get(ToHatchManifest(j), "job_id") == Str(AssetId(j))
      && |AssetId(j)| == 40
      && Get(ToHatchManifest(j), "uri") == uri
  {
  }
}
