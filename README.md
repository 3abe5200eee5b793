# libingester, modelled in Dafny

libingester packages scraped web content into a *hatch*: a directory of
assets that a content portal imports. Each asset has a metadata record and,
optionally, a payload file. The variants are an image, a video, a
dictionary entry, and the blog, gallery and news articles. Articles carry a
rendered HTML document. Before that document is packaged, a
*media-resolution pass* gives every `img`, `video` and `audio` element the
id of the asset it shows, or rejects the article.

This project models the packaging core of the library and proves
properties about it:

- asset metadata records (`Assets`)
- the media-resolution pass (`Dom`)
- the hatch session: saving assets, checking that the asset graph has no
  dangling references, writing the manifest, and parsing command-line
  options (`Packaging`)
- the metadata validator (`Verify`)
- the helpers for URI escaping (`UriEncoding`, over `Utf8`), image sources,
  image downloads, embedded videos, RSS pagination and WordPress page URIs
  (`Util`)

It also models the older prototype of the library: its assets, download
helpers and hatch (`Pillowfort`), its validator (`PillowfortVerify`) and its
job record (`PillowfortJob`).

Modelling choices:

- JavaScript values are `JsValues.JsValue`. A metadata record is a
  `map<string, JsValue>`, and an absent key reads as `undefined`.
- A rendered document is the sequence of its elements in document order.
  Each element is a tag with an attribute map.
- Objects whose fields the source assigns in place are classes:
  - each asset kind: `Assets.Asset` and `Pillowfort.Asset`
  - each hatch: `Packaging.Hatch` and `Pillowfort.Hatch`
  - a parsed page's nodes: `Dom.Node`

  Each class has a `Snapshot()` value view. Its setters state the whole new
  state in terms of the old one.
- Loops in the source are methods with loop invariants, each proved equal to
  a recursive specification function. These are:
  - the media-resolution pass
  - `is_subset`
  - the reference check
  - the hatch's drain of its tasks
  - `node_root`
- Opaque collaborators are function-valued parameters: the clock, the HTML
  serialiser, the MIME sniffer, `Validator.isURL`, the URL parser and
  resolver, base64, SHA-256, the data-URL parser and HTTP fetches. Fresh
  asset and job ids are parameters that are 40 lower-case hex digits.
- Promises run to completion in the order they were queued, when the hatch
  finishes. A failing `Promise.all` reports the first failure in queue
  order.

Places where the code and its design notes disagree:

- `SAFE_CHARS` in `encode_uri` claims to hold the unreserved characters of
  section 2.3 of RFC 3986, but it lacks `~`. The model follows the code, so
  `~` is escaped.
- `_ensure_date` only returns `null` for an invalid `Date` object. A string
  that does not parse becomes an invalid date, because `new Date(...)` does
  not throw. The model follows the code.

## Model

| member | source | states |
|---|---|---|
| Timestamps.Pad2Spec | lib/index.js:34-38 | every field below 100 is written as exactly two digits that read back as the field |
| Timestamps.TimestampRoundTrip | lib/index.js:24-41 | the timestamp `YYYYMMDDhhmmss` with its `_` separator parses back to the same local time, so distinct times give distinct tags |
| Timestamps.TimestampShape | lib/index.js:40 | for a four-digit year the timestamp is 15 characters long, with `_` at position 8 and digits everywhere else |
| Decimal.ParseNatToString | lib/util.js:291 | the decimal rendering of a number that a template string produces reads back as that number |
| Decimal.NatToStringInjective | lib/util.js:291 | different page numbers render differently |
| JsValues.Trim | lib/index.js:76 | `trim()` removes exactly the leading and trailing whitespace: the result is the middle slice, and it neither starts nor ends with whitespace |
| JsValues.TrimUnpadded | lib/index.js:77 | trimming a string with no outer whitespace leaves it unchanged |
| JsValues.CallTrim | lib/index.js:76-77 | `value.trim()` succeeds iff the value is a string, giving its trim; any other value throws a `TypeError` |
| JsValues.Utf16Length | lib/verify.js:19 | a string's `length` lies between its character count and twice that, and equals the count iff every character is in the Basic Multilingual Plane |
| JsValues.Concat | lib/index.js:97 | `concat` on an array appends the static tags after its own items; on a string it yields a string; on anything else it throws |
| JsValues.ToLowerAscii | lib/index.js:745 | the ASCII part of `toLowerCase`: each ASCII capital becomes its lower-case letter, and every other character is kept, at the same length |
| Utf8.EncodeChar | lib/util.js:207-208 | a character's UTF-8 form is 1 to 4 bytes; it is one byte exactly for ASCII, and every byte of a longer form has its high bit set |
| Utf8.EncodeCharDecodes | lib/util.js:208 | the lead byte announces the length of the sequence, and the bytes decode back to the character |
| Utf8.DecodeEncodeString | lib/util.js:207-213 | decoding the UTF-8 bytes of a string gives the string back |
| Utf8.EncodeStringInjective | lib/util.js:207-213 | different strings have different UTF-8 bytes |
| UriEncoding.HexDigit | lib/util.js:211 | an upper-case hex digit is a safe character |
| UriEncoding.HexDigitValue | lib/util.js:211 | each hex digit reads back as its value |
| UriEncoding.Hex2 | lib/util.js:211 | the corrected hex rendering of a byte has exactly two digits |
| UriEncoding.EncodeUri | lib/util.js:183-216 | `encode_uri` with the corrected escaping (two hex digits per byte, UTF-8 of whole characters): whatever the normaliser returns, the escaped URI holds safe characters only |
| UriEncoding.PercentSafe | lib/util.js:209-213 | the percent escapes of any bytes are made of safe characters |
| UriEncoding.EscapeSafe | lib/util.js:203-215 | the escaped string holds safe characters only |
| UriEncoding.EscapeAppend | lib/util.js:203-215 | escaping works character by character: escaping a concatenation concatenates the escapes |
| UriEncoding.EscapeSafeUnchanged | lib/util.js:204-205 | a string of safe characters (a plain ASCII URI, or one already percent-encoded) is left unchanged |
| UriEncoding.EscapeIdempotent | lib/util.js:194-195 | escaping twice is the same as escaping once |
| UriEncoding.EscapeRoundTrip | lib/util.js:206-213 | for a string with no `%`, reading the escapes back gives exactly the string's UTF-8 bytes |
| UriEncoding.EscapeInjective | lib/util.js:203-215 | two strings with no `%` that escape alike are equal |
| UriEncoding.EscapeAsWrittenCollides | lib/util.js:211 | as written, U+0001 followed by `2` and U+0012 both escape to `%12`, and U+0001 alone gives `%1`, which is not a percent escape, while the corrected escaping keeps them apart |
| UriEncoding.AstralAsWritten | lib/util.js:203 | as written, U+1F600 escapes as two replacement characters, `%EF%BF%BD%EF%BF%BD` |
| UriEncoding.EscapeAsWrittenLosesAstral | lib/util.js:203-208 | as written, U+1F600 and two U+FFFD characters escape alike; the corrected escaping gives `%F0%9F%98%80` |
| UriEncoding.EscapeAgreement | lib/util.js:203-215 | on characters from U+0010 up to the end of the Basic Multilingual Plane, the as-written and corrected escapings agree |
| UriEncoding.UnpaddedAgrees | lib/util.js:211 | unpadded and two-digit hex agree on bytes of 16 and above |
| UriEncoding.EscapeExample | test/lib/util.test.js:24-26 | `Merkle–Damgård_construction` escapes the en dash to `%E2%80%93` and the `å` to `%C3%A5`, and keeps the rest |
| UriEncoding.PlainUrisUnchanged | test/lib/util.test.js:14-21 | a plain URI with a query, and the same URI with `%20`, come out unchanged |
| Dom.ResolveMedia | lib/index.js:284-296 | the pass rewrites elements in place; it never adds or removes one |
| Dom.ResolveMediaSpec | lib/index.js:276-298 | the pass succeeds iff no media element is left without a job id. It rewrites every element up to and including the first unresolved one and leaves the rest untouched |
| Dom.ResolvedDocument | lib/index.js:402-414 | after a successful pass every media element has a job id. One that carried the pending attribute has that value as its job id, no pending attribute, and all its other attributes unchanged. Every other element is unchanged |
| Dom.ResolveMediaIdempotent | lib/index.js:501-513 | running the pass on its own output gives the same verdict and changes nothing |
| Dom.ResolveMediaLoop | lib/index.js:680-692 | the in-place loop, which stops at the first unresolved element, returns exactly the verdict and document of the pass |
| Dom.JobIdList | lib/index.js:347-351 | the list of `data-soma-job-id` values holds exactly the ids of the elements that carry one |
| Dom.ResolvedMediaIdsCollected | lib/index.js:708-711 | after a successful pass, every media element's job id is among the article's dependent ids |
| Assets.EnsureDate | lib/index.js:49-63 | the result is `null` exactly for an invalid `Date` object; otherwise it is the date, and a coerced value that does not parse stays an invalid date |
| Assets.InitialRecord | lib/index.js:165-255 | a new asset has the given id, no static tag and no document. Its content type is unset for images and videos and `text/html` otherwise. Only a blog starts with an empty tag list |
| Assets.IsoString | lib/index.js:103 | `toISOString` succeeds exactly on a valid date and yields its ISO form |
| Assets.WithOptional | lib/index.js:108-113 | an optional field is added exactly when its value is truthy, and every other key is untouched |
| Assets.RequiredMetadataFields | lib/index.js:88-99 | the record carries the asset id, object type, content type, canonical URI, `[canonicalURI]` as its matching links, the title and the tags |
| Assets.WithDatesFields | lib/index.js:102-107 | each date key appears iff its date is set, holding its ISO string; a set last-modified date is also the revision tag, and otherwise the revision tag is untouched |
| Assets.WithDates | lib/index.js:102-107 | adding the dates succeeds iff both dates can be rendered, and changes no key besides the two dates and the revision tag |
| Assets.Html | lib/index.js:226 | serialising the document succeeds exactly when one was rendered |
| Assets.ToMetadataSucceeds | lib/index.js:86-116 | `to_metadata` succeeds iff the tags concatenate, both dates render, and a dictionary or article has a document |
| Assets.VariantMetadataKeeps | lib/index.js:266-274 | a variant's additions touch only its own keys |
| Assets.BaseKeepsRequired | lib/index.js:101-113 | adding the optional fields leaves every required field as it was |
| Assets.VariantTags | lib/index.js:219-229 | a dictionary entry replaces the tags with `[tags]`; the other variants keep the base tags |
| Assets.BaseRequiredFields | lib/index.js:88-97 | the base record has the required fields, with the tags being `_make_tags()` followed by the static tags |
| Assets.MetadataRequiredFields | lib/index.js:93-97 | every variant's record has `matchingLinks == [canonicalURI]` and tags that are the variant's own followed by the static tags (a dictionary entry's `[tags]`) |
| Assets.BaseOptionalFields | lib/index.js:101-113 | each of `datePublished`, `lastModifiedDate`, `license`, `synopsis` and `thumbnail` appears iff it is set. The revision tag is the last-modified ISO date when there is one, and the timestamp otherwise |
| Assets.MetadataOptionalFields | lib/index.js:98-113 | the same holds for every variant's final record |
| Assets.NewsTags | lib/index.js:696-706 | a news article's tags are `[section]` followed by one `EknStaticTag` per static-page call |
| Assets.ProcessOutcome | lib/index.js:672-694 | an article with a document passes iff the media pass succeeds; one without a document fails; a dictionary entry and a video always pass |
| Assets.Processed | lib/index.js:284-296 | processing changes only an article's document, which becomes the pass's output |
| Assets.Save | lib/index.js:125-143 | a successful save writes `<id>.metadata`, which the validator accepts and which has `cdnFilename` iff there is a payload. When there is a payload it then writes `<id>.data` holding it |
| Assets.WithPayloadName | lib/index.js:129-130 | `cdnFilename` is `<assetID>.data` exactly when there is a payload, and the record is otherwise untouched |
| Assets.TaskResult | lib/index.js:125-132 | a save task succeeds only after `_process` passes, and fails with `_process`'s error when that fails |
| Assets.BaseHasNoPayloadName | lib/index.js:86-116 | `to_metadata` never sets `cdnFilename` itself |
| Assets.PayloadNamedIffData | lib/index.js:126-130 | in a saved record, `cdnFilename` is present iff there is a payload, and an image always has one |
| Assets.ArticleProcessResolvesMedia | lib/index.js:680-692 | after a passing `_process` every media element has a job id, taken from its pending attribute when it had one |
| Assets.ProcessedIdempotent | lib/index.js:284-296 | processing twice is the same as processing once |
| Assets.TaskResultAfterProcessing | lib/index.js:276-298 | re-running the save task on an already processed asset gives the same result |
| Assets.DependentAssets | lib/index.js:154-162 | dependent ids can be computed iff the asset is not an article, or is an article with a document |
| Assets.DependentAssetsMembers | lib/index.js:347-351 | an id is a dependent iff it is the non-empty thumbnail id or a job id in an article's document |
| Assets.Asset.Snapshot | lib/index.js:74 | the asset's id and variant are fixed at construction |
| Assets.Asset.constructor | lib/index.js:69-72 | a new asset is in its variant's initial state with its fresh id |
| Assets.Asset.SetTitle | lib/index.js:76 | a string is stored trimmed and nothing else changes; any other value throws the `TypeError` of `trim()` and changes nothing |
| Assets.Asset.SetSynopsis | lib/index.js:77 | a string is stored trimmed and nothing else changes; any other value throws the `TypeError` of `trim()` and changes nothing |
| Assets.Asset.SetThumbnail | lib/index.js:78 | stores the thumbnail asset's id, not the asset; a missing asset throws a `TypeError` and changes nothing |
| Assets.Asset.SetCanonicalUri | lib/index.js:79 | stores the URI as given |
| Assets.Asset.SetLastModifiedDate | lib/index.js:80 | stores `_ensure_date` of the value |
| Assets.Asset.SetDatePublished | lib/index.js:81 | stores `_ensure_date` of the value |
| Assets.Asset.SetLicense | lib/index.js:82 | stores the licence as given |
| Assets.Asset.SetImageData | lib/index.js:171-174 | sets the content type and the data together |
| Assets.Asset.SetDownloadUri | lib/index.js:194 | stores a video's download URI |
| Assets.Asset.SetTags | lib/index.js:263 | replaces the variant's own tags |
| Assets.Asset.SetAsStaticPage | lib/index.js:602 | appends one `EknStaticTag` per call |
| Assets.Asset.SetAuthor | lib/index.js:257 | stores the single author |
| Assets.Asset.SetAuthors | lib/index.js:590-594 | an array is kept as the list of authors; any other value becomes a one-element list |
| Assets.Asset.SetSection | lib/index.js:601 | stores the section |
| Assets.Asset.SetSource | lib/index.js:603 | stores the source name |
| Assets.Asset.SetWord | lib/index.js:214 | stores the word |
| Assets.Asset.SetDefinition | lib/index.js:215 | stores the definition |
| Assets.Asset.SetPartOfSpeech | lib/index.js:216 | stores the part of speech |
| Assets.Asset.SetTemporalCoverage | lib/index.js:377-386 | every given date is stored as a date value, in the order given |
| Assets.Asset.Render | lib/index.js:669 | the rendered document becomes the asset's document |
| Assets.Asset.Process | lib/index.js:276-298 | `_process` returns the verdict of the pass and leaves the processed state |
| Assets.Asset.RunSaveTask | lib/index.js:125-143 | the save task returns the save result of the asset as it was queued, and leaves it processed |
| Assets.Asset.GetDependentAssets | lib/index.js:154-162 | the set built in the loop is the specified dependent set |
| Assets.ExampleImageChain | test/lib/index.test.js:11-19 | the test image's record is the required record plus the last-modified date as both date and revision tag, the licence, the synopsis and the thumbnail |
| Assets.ExampleImageKeys | test/lib/index.test.js:28-41 | the test image's record has exactly the keys the test expects |
| Assets.ExampleImageValues | test/lib/index.test.js:22-41 | the test image's record has the values the test expects |
| Assets.BuildExampleImage | test/lib/index.test.js:8-19 | the test's setter calls leave an image with exactly the title, synopsis, thumbnail, licence, canonical URI, last-modified date and JPEG payload it set |
| Assets.ExampleTitlesTrimmed | test/lib/index.test.js:11-12 | the test's title and synopsis survive trimming unchanged |
| Assets.ImageSerialisationExample | test/lib/index.test.js:8-44 | the test run through the setters yields the expected record and the payload `asdf` |
| Verify.VerifyMetadata | lib/verify.js:16-47 | the validator accepts exactly the records that meet the schema (the `assetID` length counted in UTF-16 units), and every rejection is a `VerificationError` or an engine `TypeError` |
| Verify.BadAssetIdRejected | lib/verify.js:19 | any record whose `assetID` length is not 40 is rejected; when the id is not null or undefined, with the first check's message |
| Verify.EmptyRecordRejected | lib/verify.test.js:24-26 | the empty record is rejected |
| Verify.TitleLengthOnlyWarns | lib/verify.js:34-36 | replacing a truthy title with any non-empty title, however long, never changes the verdict |
| Verify.UnknownObjectTypeRejected | lib/verify.js:44-46 | a record that passes the common checks but has an unknown object type is rejected with `metadata has wrong objectType` |
| Verify.ImageRecordAccepted | lib/verify.test.js:5-22 | the sample image record is accepted |
| Verify.AstralIdRejected | lib/verify.js:19 | an id of forty characters whose last is U+1F600 has length 41 and is rejected with the id check's message |
| Verify.ImageRecordShortIdRejected | lib/verify.test.js:28-31 | the sample record with `assetID` `12345` is rejected with the id check's message |
| Verify.ImageRecordNestedTagsRejected | lib/verify.test.js:33-36 | the sample record whose tags hold an array is rejected by the tag check |
| Verify.VerifyManifestEntry | lib/verify.js:51-53 | a manifest entry passes iff its URI is a string that `isURL` accepts |
| Verify.VerifyImageData | lib/verify.js:57-61 | image data passes iff there is data, its sniffed MIME type is known, and that type starts with `image/`; every rejection is a `VerificationError` |
| Packaging.IndexOf | lib/index.js:765 | `indexOf` finds the first occurrence, or reports that there is none |
| Packaging.ParseArgvAsWritten | lib/index.js:762-778 | as written, `path` is set whenever `--path` occurs, and `no_tgz` is set iff `--no-tgz` occurs |
| Packaging.ParseArgv | lib/index.js:762-778 | corrected, `path` is set iff a value follows the first `--path`, and is that value |
| Packaging.MergeOptions | lib/index.js:748 | values parsed from argv override the caller's path, and `no_tgz` is set if either source sets it |
| Packaging.HatchSettings | lib/index.js:726-751 | the constructor succeeds iff the name is a non-empty string and the language is a non-empty string. A falsy name is reported first, then a bad language; a truthy name that is not a string then throws a TypeError from `toLowerCase`. The path comes from the corrected `_parse_argv` |
| Packaging.NoTgzFlag | lib/index.js:751 | the hatch exports a tarball iff neither argv nor the options ask for `no_tgz` |
| Packaging.PathChoice | lib/index.js:745-750 | the path comes from argv, else from the options, else it is `hatch_<name>_<timestamp>` |
| Packaging.TrailingPathFlagErasesPathOption | lib/index.js:766-768 | as written, argv `["--path"]` erases the caller's path option; the corrected parse keeps it |
| Packaging.OutgoingSpec | lib/index.js:797-801 | the outgoing edges can be collected iff every asset's dependents can, and they lie within a set iff every asset's dependents do |
| Packaging.OutgoingErrorStays | lib/index.js:797-801 | the first asset that throws decides the outcome of the whole collection |
| Packaging.ReferencesCheckSpec | lib/index.js:788-809 | the reference check passes iff every asset's dependents are registered asset or video ids |
| Packaging.DanglingThumbnailRejected | lib/index.js:806-808 | a thumbnail id that is not registered makes the check fail |
| Packaging.IsSubset | lib/index.js:717-723 | the early-return loop answers whether `a` is a subset of `b` |
| Packaging.ManifestEntries | lib/index.js:814-820 | the manifest lists each asset's id, canonical URI and title, in registration order |
| Packaging.ProcessingKeepsManifest | lib/index.js:854-859 | processing the assets does not change the manifest |
| Packaging.CheckManifest | lib/index.js:823 | the manifest passes iff every entry's URI passes `verify_manifest_entry` |
| Packaging.FirstFailure | lib/index.js:854 | `Promise.all` succeeds iff every task does; otherwise it reports one of the failures |
| Packaging.EmptyHatchFinishes | lib/index.js:852-878 | an empty hatch finishes with a manifest of its videos, at the directory or at `<path>.tar.gz` |
| Packaging.FinishedManifest | lib/index.js:825-828 | a finished hatch's manifest lists every asset in order and its videos as saved. Every task succeeded, and the reference check passed |
| Packaging.Hatch.constructor | lib/index.js:726-756 | a new hatch has the given settings and no assets, videos or tasks |
| Packaging.Hatch.SaveAsset | lib/index.js:880-882 | a video only appends its `{asset_id, uri, title}` descriptor; any other asset is appended to the assets and queues exactly one task |
| Packaging.CollectEdges | lib/index.js:792-801 | the walk stops at the first asset whose dependencies cannot be read, with its error; otherwise it yields the union of every asset's outgoing edges and the ids of all the assets |
| Packaging.Hatch.ValidateAssetReferences | lib/index.js:788-809 | the method computes the specified reference check |
| Packaging.Hatch.RunProcessSteps | lib/index.js:854 | draining the tasks processes every asset once |
| Packaging.Hatch.Finish | lib/index.js:852-878 | `finish` ends in the specified export (the files, manifest and location it writes; the promise itself resolves to `undefined`), and leaves every asset processed |
| Packaging.Hatch.Conclude | lib/index.js:854-870 | a failed task rejects `Promise.all` with the first failure and skips the later steps; otherwise the export steps run on the assets' current state |
| Packaging.Hatch.ExportHatch | lib/index.js:857-870 | the manifest and export step computes its specification |
| Packaging.AddVideoIds | lib/index.js:802-804 | the video ids are added to the asset ids |
| Packaging.NewHatch | lib/index.js:733-741 | construction fails exactly as the settings check says, and otherwise yields an empty hatch with those settings |
| Util.GetDocBaseUriSpec | lib/util.js:56-63 | the base URI is the `href` of the first `base[href]` element, or the given URI when there is none |
| Util.FirstField | lib/util.js:99-100 | `split(sep)[0]` is the longest prefix without a separator |
| Util.FirstSrcsetUriSpec | lib/util.js:99-100 | the first `srcset` URI is the longest prefix without a comma or whitespace |
| Util.GetImgSrcPrefers | lib/util.js:92-109 | the source is the resolved first of `src`, the first `srcset` URI and `data-src` that is set; with none it throws `Could not parse img tag's src` |
| Util.DownloadImage | lib/util.js:111-127 | a fresh image asset with the escaped URI, the current time and the downloaded type and bytes |
| Util.DownloadImg | lib/util.js:131-179 | a string argument throws; otherwise the element's attributes and the new asset end as the specification says, its parent, root and base URI stay as they were, and the attributes are untouched on error |
| Util.DownloadImgTags | lib/util.js:164-172 | a downloaded `img` loses `src` and `srcset`, gains the pending id and the important-image hint, and keeps every other attribute |
| Util.DownloadImgOnce | lib/util.js:145-146 | downloading an already tagged image throws `img already has associated ImageAsset` |
| Util.DownloadedImgResolves | lib/util.js:170-172 | a downloaded `img` passes the media-resolution pass, with the new asset's id as its job id |
| Util.DataUrlImgUntagged | lib/util.js:148-162 | an inline `data:` image returns an asset but leaves the element unchanged, so a later media pass rejects it |
| Util.DownloadImgUriEscaped | lib/util.js:111-116 | the downloaded asset's canonical URI is escaped: only safe characters |
| Util.GetEmbeddedVideoAsset | lib/util.js:67-82 | the video element is replaced in place by a `VideoLink` anchor, and a fresh video asset with the URI and time is returned |
| Util.VideoLinkLeavesPass | lib/util.js:72-79 | the replacement link is no media element, so the pass then depends only on the other elements |
| Util.SliceTo | lib/util.js:271 | `slice(0, end)` is exactly the first `end` items for an end within the list, the whole list when `end` covers it, and for a negative end all but the last `-end` items (none when that is more than the list holds) |
| Util.KeepRecent | lib/util.js:272 | the filter keeps only recent items from the list, in a list no longer than it, and keeps all of them iff every item is recent |
| Util.KeepRecentMembers | lib/util.js:272 | an item is kept iff it is on the list and recent, so no recent item is dropped |
| Util.PageStepItems | lib/util.js:271-273 | a dated page adds, after the accumulated items, exactly the recent items among the first `max_items - items.length` of the page |
| Util.PageStepRecent | lib/util.js:271-273 | every item a dated page adds after the accumulated ones is recent |
| Util.PageStepMore | lib/util.js:271-279 | crawling goes on iff the limit cut nothing from the page and every item on it was recent |
| Util.FetchRssEntriesSpec | lib/util.js:220-224 | `fetch_rss_entries` (with the corrected undated-page step) returns at most a non-negative `max_items` entries, and each of them is an item of one of the feed's pages |
| Util.FetchRssPageKeeps | lib/util.js:251-285 | pagination keeps the accumulated items as a prefix and never exceeds a finite item limit |
| Util.FetchRssPageRecent | lib/util.js:271-273 | on a dated feed every item added is recent enough |
| Util.NoPubdateBound | lib/util.js:264-268 | a feed without dates returns at most `min(max_items, 100)` items from its first page |
| Util.FetchRssDropsEarlierPages | lib/util.js:264-268 | as written, an undated later page discards the items of earlier pages; the corrected step keeps them |
| Util.WordpressPageParses | lib/util.js:291 | the page URI is the feed URI, `?paged=`, then the digits of `n` |
| Util.WordpressPagesDistinct | lib/util.js:291 | different page numbers give different URIs |
| Pillowfort.ToJson | pillowfort/index.js:54-55 | `toJSON` succeeds exactly on a date value |
| Pillowfort.ToMetadataSucceeds | pillowfort/index.js:42-60 | the metadata is produced iff there is a last-modified date, a canonical URI and a content type, and a news article has a title |
| Pillowfort.ToMetadataFields | pillowfort/index.js:42-56 | `lastModifiedDate` equals `revisionTag`, both being the date's JSON form. `matchingLinks` is `[canonicalURI]`. The tags are `[]` for an image and `[section]` for news |
| Pillowfort.ValidateSpec | pillowfort/index.js:166-184 | `validate` succeeds iff there is a document whose media all resolve. Then each pending id has become the job id and the pending attribute is gone |
| Pillowfort.SaveWritesBoth | pillowfort/index.js:64-74 | a successful save writes `<id>.data` and then `<id>.metadata`, holding the settled asset's metadata |
| Pillowfort.SaveAgain | pillowfort/index.js:64-73 | saving the asset a save left behind gives the same result and changes nothing more |
| Pillowfort.Asset.Snapshot | pillowfort/index.js:34 | the asset's id and kind are fixed at construction |
| Pillowfort.Asset.constructor | pillowfort/index.js:29-32 | a new asset is in its kind's initial state with its fresh id |
| Pillowfort.Asset.SetTitle | pillowfort/index.js:36 | stores the title as given |
| Pillowfort.Asset.SetCanonicalUri | pillowfort/index.js:37 | stores the URI as given |
| Pillowfort.Asset.SetThumbnail | pillowfort/index.js:38 | stores the thumbnail as given |
| Pillowfort.Asset.SetLastModifiedDate | pillowfort/index.js:39 | stores the value as given, with no coercion |
| Pillowfort.Asset.SetLicense | pillowfort/index.js:40 | stores the licence as given |
| Pillowfort.Asset.SetImageData | pillowfort/index.js:83 | stores the data or the pending download |
| Pillowfort.Asset.SetDocument | pillowfort/index.js:163 | stores the document |
| Pillowfort.Asset.SetSection | pillowfort/index.js:164 | stores the section |
| Pillowfort.Asset.Wait | pillowfort/index.js:88 | waiting settles a pending download into JPEG data |
| Pillowfort.Asset.Validate | pillowfort/index.js:166-184 | the in-place pass returns the specified verdict and leaves the specified document |
| Pillowfort.Asset.SaveToHatch | pillowfort/index.js:64-74 | `_save_to_hatch` run at once: a `TypeError` when the wait is not a promise, otherwise the save task's result; the asset is left settled and validated |
| Pillowfort.Asset.RunSaveTask | pillowfort/index.js:65-73 | the task chained onto the wait returns the specified save result and leaves the asset settled and validated |
| Pillowfort.NodeRoot | pillowfort/index.js:109-113 | climbing the parent links ends at the top node, and its `root` is returned |
| Pillowfort.ImgSrcAgainstLibrary | pillowfort/index.js:115-135 | without `data-src` the prototype finds the library's source. With only `data-src`, the prototype throws where the library uses it |
| Pillowfort.ParseImgSrc | pillowfort/index.js:115-135 | the source is found against the base URI stored at the root, and a missing root throws |
| Pillowfort.DownloadImage | pillowfort/index.js:95-107 | a fresh image whose canonical URI is the URI as given, stamped now, with the download pending |
| Pillowfort.DownloadImg | pillowfort/index.js:137-152 | only the element's attributes change; they and the new asset are as specified, and the element is untouched on error |
| Pillowfort.DownloadImgTags | pillowfort/index.js:143-150 | a downloaded `img` loses `src` and `srcset`, gains the pending id, and keeps every other attribute |
| Pillowfort.DownloadImgOnceAndResolves | pillowfort/index.js:140-150 | a second download throws a `ValidationError`, and the tagged element passes `validate` with the asset's id |
| Pillowfort.DownloadedImageSettles | pillowfort/index.js:96-100 | once settled, a downloaded image is JPEG data holding the response, and its metadata is produced |
| Pillowfort.All | pillowfort/index.js:214 | `Promise.all` succeeds iff every task does; otherwise it reports the first failure |
| Pillowfort.Hatch.constructor | pillowfort/index.js:208-211 | a new hatch has its directory and no tasks |
| Pillowfort.StartSaveSpec | pillowfort/index.js:62-65 | a save starts iff the asset is an article or an image with a pending download; otherwise `.then` throws a `TypeError` and nothing changes |
| Pillowfort.ImageSaveNeedsPendingDownload | pillowfort/index.js:85-107 | a new image without data cannot be saved, and neither can a downloaded image once its response has replaced the promise; a pending download can |
| Pillowfort.Hatch.SaveAsset | pillowfort/index.js:217-219 | `save_asset` throws what starting the save throws and then queues nothing; otherwise it appends exactly one task |
| Pillowfort.Hatch.Finish | pillowfort/index.js:213-215 | `finish` is `Promise.all` over the saved tasks in order, and leaves every asset as its save does |
| Pillowfort.Drain | pillowfort/index.js:213-215 | running the queued tasks one after another gives each task's outcome in queue order. An asset queued twice is saved over what its first save left |
| Pillowfort.FinishOkIff | pillowfort/index.js:213-215 | `finish` succeeds iff every task does; on success the first two files are the first asset's |
| PillowfortVerify.Check | pillowfort/verify.js:5-8 | `assert` passes iff its condition holds, and otherwise throws its message as a `VerificationError` |
| PillowfortVerify.VerifyMetadata | pillowfort/verify.js:10-25 | the validator accepts exactly the records of the schema, and every rejection is a `VerificationError` |
| PillowfortVerify.VerifyMetadataFirstProblem | pillowfort/verify.js:13-24 | a record passes iff it has no problem, and a rejection carries the message of its first problem in check order |
| PillowfortVerify.ImageNeedsCommonFieldsOnly | pillowfort/verify.js:21 | for an image, no field besides the common ones changes the verdict |
| PillowfortVerify.EmptyRecordRejected | pillowfort/verify.js:13 | the empty record is rejected for its missing `assetID` |
| PillowfortJob.NewJob | pillowfort/job.js:11-13 | a new job keeps the drawn id and the URI as given |
| PillowfortJob.ManifestRoundTrip | pillowfort/job.js:20-22 | the manifest entry has exactly the keys `job_id`, `type` and `uri`, and carries the whole job back |
| PillowfortJob.NewJobIds | pillowfort/job.js:4-8 | a job's asset id is its job id, 40 characters long, and is what the manifest carries; the URI passes through unchanged |

## Left out

- HTML rendering is not modelled: mustache templates, sass, the SVG decorations and cheerio parsing and serialisation (`render()` of every variant). `Assets.Asset.Render` takes the rendered elements as given, and serialisation is a function parameter.
- The setters that feed only rendering are not modelled: `set_main_image`, `set_main_image_caption`, `set_body`, `set_custom_scss`, `set_read_more_text`, `set_lede` and `set_read_more_link`.
- File system work is not modelled: `mkdirSync`, the file writes, the tar.gz archive, `copy_to_directory`, `copy_to_s3` and its bucket choice. A save yields its list of named files. A finished hatch yields its manifest as a value and its location, which is the directory or `<path>.tar.gz`: this `Export` stands for what `finish` writes and where, not for the value its promise resolves to, which is `undefined` because the last `.then` at lib/index.js:871-873 only logs. File system errors are not modelled.
- `JSON.stringify` of records and manifests is not modelled; they stay values.
- Network I/O is not modelled: `fetch_html` (both versions), `rp`, `_fetch_rss_json`, feedparser and iconv. A fetch is a total function parameter, so a failed download is not modelled. RSS pages are given as a list of page outcomes, and a page past the end of that list is treated as a fetch that does not parse.
- Crypto and encoders are parameters: `new_asset_id` and `new_job_id` become a given id of 40 lower-case hex digits, and SHA-256 and base64 are functions.
- Foreign library calls are parameters: `url.parse`/`url.format` with punycode, `url.resolve`, `parse-data-url`, `Validator.isURL` and `file-type`.
- Dates are abstract: a valid date with its ISO rendering, or an invalid date. `new Date()` is a parameter. `moment` arithmetic is replaced by an oldest date given as an integer, and RSS publication dates are integers.
- JsValues.ToLowerAscii: only ASCII capitals are lowered. JavaScript's `toLowerCase` also lowers other capitals (`Ñ` to `ñ`) and can lengthen a string (`İ`), so `Packaging.DefaultPath` differs from lib/index.js:745 for a hatch name with non-ASCII capitals.
- Verify.VerifyImageData: when the sniffer does not recognise a payload, the message leaves out the payload's text, which lib/verify.js:59 interpolates; a missing payload reads `undefined` as in the source.
- Assets.Asset.SetThumbnail: takes an asset or nothing, with `null` and `undefined` alike; another object, whose `asset_id` reads as `undefined`, is not modelled.
- Assets.Asset.SetTemporalCoverage: keeps the dates in the order given and does not model the default string sort, which is not chronological.
- Util.DownloadImg: does not model the `ImageLink` anchor that wraps the image (lib/util.js:174-176). The element keeps its place and only its attributes change.
- Console warnings are not modelled (the long-title warning, `_ensure_date`'s, and the RSS no-pubdate note). Only the fact that they never reject is stated.
- Promises run in queue order, each to completion, when `finish` is called. Interleavings are not modelled.
- Pillowfort: `Promise.accept` is read as `Promise.resolve`.
- Pillowfort.Hatch.Finish: the tasks run at `finish` and not when `save_asset` is called. Only the start of each save, the `.then` on what `_wait()` returns, runs at `save_asset`, so a change made to an asset between `save_asset` and `finish` is seen by its task.
- Pillowfort: the prototype's `fetch_html` stores the base URI on the page's root node. The model takes that as a field of `Dom.Node`.
- Pillowfort.DownloadImage: the download is taken as completed with the response body, and the content type is the constant `image/jpeg` set when it settles.
- Util.GetEmbeddedVideoAsset: the document is an array of elements, and `replaceWith` replaces one entry. Nested markup is not modelled.
- Numbers are integers. No JavaScript number is formatted other than the page number and the timestamp fields.
- Known defects of the repository are modelled as intended:
  - Packaging.HatchSettings: the path comes from the corrected `_parse_argv` (`Packaging.ParseArgv`), so a trailing `--path` keeps a path given in the options, where lib/index.js:766-768 erases it;
  - UriEncoding.EncodeUri: it escapes with the corrected two-digit, whole-character UTF-8 escaping, so a URI holding a character below U+0010 or outside the Basic Multilingual Plane gets another canonical URI than lib/util.js:203-211 gives; `Util.DataUrlImage`, `Util.DownloadedImage`, `Util.DownloadImage` and `Util.DownloadImg` inherit this;
  - Util.FetchRssEntries: it crawls with the corrected `_fetch_rss_page` (`Util.FetchRssPage`), so an undated later page adds to the items of earlier pages, where lib/util.js:264-268 drops them;
  - the `[` for `{` in `_feed_has_pubdate` (lib/util.js:244);
  - the wrong variable in the nested-tags test (lib/verify.test.js:35), which `Verify.ImageRecordNestedTagsRejected` states with the intended record;
  - the promise read as a record in the prototype's test (pillowfort/index.test.js:14), whose record `Pillowfort.ToMetadataFields` states directly.
- The getters `get_language`, `get_name`, `get_path` and `is_exporting_tgz` are the fields of `Packaging.Hatch.Config()`. They have no members of their own.
- The example scrapers, `pillowfort/olympic.js` and the app are not part of this model.

## Findings

| source | as written | input that shows it | evidently intended | confidence | as-written member | corrected member |
|---|---|---|---|---|---|---|
| lib/util.js:211 | `n.toString(16)` gives a byte below 16 a single hex digit | U+0001 followed by `2`, and U+0012, both escape to `%12` | two hex digits per byte, as in section 2.1 of RFC 3986 | not executed | UriEncoding.EscapeAsWrittenCollides | UriEncoding.EscapeInjective |
| lib/util.js:203 | `split('')` cuts the string into UTF-16 code units, so a character outside the Basic Multilingual Plane is encoded as two lone surrogates, each as `EF BF BD` | U+1F600 escapes to `%EF%BF%BD%EF%BF%BD`, the same as two U+FFFD | the character's own UTF-8 bytes, `%F0%9F%98%80` | not executed | UriEncoding.EscapeAsWrittenLosesAstral | UriEncoding.EscapeRoundTrip |
| lib/index.js:766-768 | `path_index < argv.length + 1` holds for every index found | argv `["--path"]` with the option `path: "out"` sets the path to `undefined`, so the default path is used | `path_index + 1 < argv.length` | not executed | Packaging.TrailingPathFlagErasesPathOption | Packaging.ParseArgv |
| lib/util.js:264-268 | on a page without publication dates, only that page's items are returned, and the items gathered from earlier pages are dropped | a paginated feed with page 1 holding one item dated 10, and an empty page 2, with no item limit and oldest date 0, gives `[]` | the earlier items followed by the undated page's, up to the limit | not executed | Util.FetchRssDropsEarlierPages | Util.FetchRssPageKeeps |
