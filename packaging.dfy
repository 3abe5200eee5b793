/** The hatch: the packaging session that collects assets, runs their save
    tasks, checks that every asset a saved asset refers to is in the hatch,
    and writes the manifest. */
module Packaging {
  import opened Wrappers
  import opened JsValues
  import opened Dom
  import opened Timestamps
  import opened Assets
  import Verify

  const NAME_ERROR := "ERROR! Hatch name must be specified!"
  const LANGUAGE_ERROR := "ERROR! Hatch language must be specified!"
  const REFERENCES_ERROR := "Asset references inconsistent"

  /** The descriptor a video contributes instead of a save task. */
  datatype VideoEntry = VideoEntry(assetId: string, uri: JsValue, title: JsValue)

  /** What the manifest lists for each saved asset. */
  datatype ManifestEntry = ManifestEntry(assetId: string, uri: JsValue, title: JsValue)

  datatype Manifest = Manifest(name: string, language: string, assets: seq<ManifestEntry>, videos: seq<VideoEntry>)

  /** What a finished hatch holds: the files the save tasks wrote, the
      manifest, and where the hatch ends up (the directory, or the archive
      made from it). */
  datatype Export = Export(files: seq<FileEntry>, manifest: Manifest, location: string)

  // ---------------------------------------------------------------------
  // Constructor arguments

  /** The position of the first `x` in `xs` (`indexOf`), if any. */
  function IndexOf(xs: seq<string>, x: string): (r: Option<nat>)
    ensures r.None? <==> x !in xs
    ensures r.Some? ==> r.value < |xs| && xs[r.value] == x && forall j :: 0 <= j < r.value ==> xs[j] != x
  {
    if xs == [] then None
    else if xs[0] == x then Some(0)
    else match IndexOf(xs[1..], x)
      case None => None
      case Some(k) => Some(k + 1)
  }

  /** The options `_parse_argv` returns. `path` is absent (`None`), or
      present with the value after the flag, which is `undefined` (`None`)
      when the flag is the last argument; `noTgz` is whether `no_tgz` is
      set. */
  datatype ArgvOptions = ArgvOptions(path: Option<Option<string>>, noTgz: bool)

  /** `_parse_argv` as written: its bound `path_index < argv.length + 1`
      holds for every index found, so a trailing `--path` yields a `path`
      option whose value is `undefined`. */
  function ParseArgvAsWritten(argv: seq<string>): (r: ArgvOptions)
    ensures r.path.Some? <==> "--path" in argv
    ensures r.noTgz <==> "--no-tgz" in argv
  {
    var path := match IndexOf(argv, "--path")
      case None => None
      case Some(k) =>
        if k < |argv| + 1 then Some(if k + 1 < |argv| then Some(argv[k + 1]) else None) else None;
    ArgvOptions(path, "--no-tgz" in argv)
  }

  /** `_parse_argv` with the bound it evidently means, `path_index + 1 <
      argv.length`: `path` is set only when a value follows the flag. */
  function ParseArgv(argv: seq<string>): (r: ArgvOptions)
    ensures r.noTgz <==> "--no-tgz" in argv
    ensures r.path.Some? ==> r.path.value.Some?
    ensures r.path.Some? <==> "--path" in argv && IndexOf(argv, "--path").value + 1 < |argv|
    ensures r.path.Some? ==> r.path.value.value == argv[IndexOf(argv, "--path").value + 1]
  {
    var path := match IndexOf(argv, "--path")
      case None => None
      case Some(k) => if k + 1 < |argv| then Some(Some(argv[k + 1])) else None;
    ArgvOptions(path, "--no-tgz" in argv)
  }

  /** The constructor's `options`: a `path`, whether `no_tgz` is truthy,
      and `argv` when it is given (otherwise the process's own arguments
      are read). */
  datatype HatchOptions = HatchOptions(path: Option<string>, noTgz: bool, argv: Option<seq<string>>)

  /** `options || {}`. */
  const NoOptions := HatchOptions(None, false, None)

  /** What the constructor settles on. */
  datatype Settings = Settings(name: string, language: string, path: string, exportTgz: bool)

  /** `Object.assign(options, parsed)`: a key the parse set wins over the
      caller's. */
  function MergeOptions(options: HatchOptions, parsed: ArgvOptions): (r: (Option<string>, bool))
    ensures r.0 == (if parsed.path.Some? then parsed.path.value else options.path)
    ensures r.1 == (options.noTgz || parsed.noTgz)
  {
    (if parsed.path.Some? then parsed.path.value else options.path, options.noTgz || parsed.noTgz)
  }

  /** `hatch_<name in lower case>_<timestamp>`. */
  function DefaultPath(name: string, now: LocalTime): string
  {
    "hatch_" + ToLowerAscii(name) + "_" + Timestamp(now)
  }

  /** The constructor's checks and choices: a name must be given, the
      language must be a non-empty string, and a name that is not a string
      has no `toLowerCase`; the path is the `--path` argument, else the
      `path` option, else the default (an empty path counts as none);
      exporting the archive is on unless `no_tgz` is set. `processArgs`
      stands for `process.argv.slice(2)`. */
  function HatchSettings(name: JsValue, language: JsValue, options: HatchOptions,
                         processArgs: seq<string>, now: LocalTime): (r: Result<Settings, Error>)
    ensures r.Ok? <==> Truthy(name) && name.Str? && language.Str? && language.s != ""
    ensures !Truthy(name) ==> r == Err(PlainError(NAME_ERROR))
    ensures Truthy(name) && !(language.Str? && language.s != "") ==> r == Err(PlainError(LANGUAGE_ERROR))
    ensures Truthy(name) && language.Str? && language.s != "" && !name.Str? ==> r.Err? && r.error.TypeError?
    ensures Truthy(name) && language.Str? && language.s != "" && !name.Str? ==> r.Err? && r.error.TypeError?
    ensures r.Ok? ==> r.value.name == name.s && r.value.language == language.s
  {
    if !Truthy(name) then Err(PlainError(NAME_ERROR))
    else if !Truthy(language) || !language.Str? then Err(PlainError(LANGUAGE_ERROR))
    else if !name.Str? then Err(TypeError("toLowerCase is not a function"))
    else
      var argv := if options.argv.Some? then options.argv.value else processArgs;
      var merged := MergeOptions(options, ParseArgv(argv));
      var path := if merged.0.Some? && merged.0.value != "" then merged.0.value else DefaultPath(name.s, now);
      Ok(Settings(name.s, language.s, path, !merged.1))
  }

  /** `--no-tgz` among the arguments turns the archive off. */
  lemma NoTgzFlag(name: JsValue, language: JsValue, options: HatchOptions, processArgs: seq<string>, now: LocalTime)
    requires HatchSettings(name, language, options, processArgs, now).Ok?
    ensures var argv := if options.argv.Some? then options.argv.value else processArgs;
      (HatchSettings(name, language, options, processArgs, now).value.exportTgz <==>
         !("--no-tgz" in argv) && !options.noTgz)
  {
  }

  /** A value after the first `--path` decides the path; without any path
      the default is used. */
  lemma PathChoice(name: JsValue, language: JsValue, options: HatchOptions, processArgs: seq<string>, now: LocalTime)
    requires HatchSettings(name, language, options, processArgs, now).Ok?
    ensures var argv := if options.argv.Some? then options.argv.value else processArgs;
      var path := HatchSettings(name, language, options, processArgs, now).value.path;
      var k := IndexOf(argv, "--path");
      && (k.Some? && k.value + 1 < |argv| && argv[k.value + 1] != "" ==> path == argv[k.value + 1])
      && (k.None? && options.path.Some? && options.path.value != "" ==> path == options.path.value)
      && (k.None? && options.path.None? ==> path == DefaultPath(name.s, now))
  {
  }

  /** The bound as written lets a trailing `--path` erase a `path` option:
      with `argv = ["--path"]` and `path: "out"`, the merged options have no
      path, while the evident reading keeps `"out"`. */
  lemma TrailingPathFlagErasesPathOption()
    ensures MergeOptions(HatchOptions(Some("out"), false, Some(["--path"])), ParseArgvAsWritten(["--path"])).0 == None
    ensures MergeOptions(HatchOptions(Some("out"), false, Some(["--path"])), ParseArgv(["--path"])).0 == Some("out")
  {
    assert IndexOf(["--path"], "--path") == Some(0);
  }

  // ---------------------------------------------------------------------
  // Referential integrity

  /** The ids of the saved assets. */
  function AssetIds(recs: seq<AssetRecord>): set<string>
  {
    set i | 0 <= i < |recs| :: recs[i].assetId
  }

  /** The ids of the saved videos. */
  function VideoIds(videos: seq<VideoEntry>): set<string>
  {
    set i | 0 <= i < |videos| :: videos[i].assetId
  }

  lemma AssetIdsSnoc(recs: seq<AssetRecord>, i: nat)
    requires i < |recs|
    ensures AssetIds(recs[..i + 1]) == AssetIds(recs[..i]) + {recs[i].assetId}
  {
    var a, b := recs[..i + 1], recs[..i];
    forall x | x in AssetIds(a) ensures x in AssetIds(b) + {recs[i].assetId} {
      var j :| 0 <= j < |a| && a[j].assetId == x;
      if j < i { assert b[j] == a[j]; }
    }
    forall x | x in AssetIds(b) + {recs[i].assetId} ensures x in AssetIds(a) {
      if x == recs[i].assetId {
        assert a[i] == recs[i];
      } else {
        var j :| 0 <= j < |b| && b[j].assetId == x;
        assert a[j] == b[j];
      }
    }
  }

  lemma VideoIdsSnoc(videos: seq<VideoEntry>, i: nat)
    requires i < |videos|
    ensures VideoIds(videos[..i + 1]) == VideoIds(videos[..i]) + {videos[i].assetId}
  {
    var a, b := videos[..i + 1], videos[..i];
    forall x | x in VideoIds(a) ensures x in VideoIds(b) + {videos[i].assetId} {
      var j :| 0 <= j < |a| && a[j].assetId == x;
      if j < i { assert b[j] == a[j]; }
    }
    forall x | x in VideoIds(b) + {videos[i].assetId} ensures x in VideoIds(a) {
      if x == videos[i].assetId {
        assert a[i] == videos[i];
      } else {
        var j :| 0 <= j < |b| && b[j].assetId == x;
        assert a[j] == b[j];
      }
    }
  }

  /** The outgoing edges: every id the saved assets depend on, asset by
      asset; the first asset whose dependencies cannot be read decides the
      error. */
  function Outgoing(recs: seq<AssetRecord>): Result<set<string>, Error>
  {
    if recs == [] then Ok({})
    else
      var before :- Outgoing(recs[..|recs| - 1]);
      var deps :- DependentAssets(recs[|recs| - 1]);
      Ok(before + deps)
  }

  /** The edges are readable exactly when every asset's dependencies are,
      and they stay within a set exactly when every asset's do. */
  lemma {:induction false} OutgoingSpec(recs: seq<AssetRecord>, within: set<string>)
    ensures Outgoing(recs).Ok? <==> forall i :: 0 <= i < |recs| ==> DependentAssets(recs[i]).Ok?
    ensures Outgoing(recs).Ok? ==>
      (Outgoing(recs).value <= within <==> forall i :: 0 <= i < |recs| ==> DependentAssets(recs[i]).value <= within)
    decreases |recs|
  {
    if recs != [] {
      var init := recs[..|recs| - 1];
      OutgoingSpec(init, within);
      assert forall i :: 0 <= i < |init| ==> init[i] == recs[i];
    }
  }

  lemma OutgoingSnoc(recs: seq<AssetRecord>, i: nat)
    requires i < |recs|
    ensures var before := Outgoing(recs[..i]);
      var deps := DependentAssets(recs[i]);
      Outgoing(recs[..i + 1]) ==
        if before.Err? then before
        else if deps.Err? then Err(deps.error)
        else Ok(before.value + deps.value)
  {
    assert recs[..i + 1][..i] == recs[..i];
  }

  /** Once the edges of a prefix cannot be read, neither can those of the
      whole list, for the same reason. */
  lemma {:induction false} OutgoingErrorStays(recs: seq<AssetRecord>, n: nat)
    requires n <= |recs| && Outgoing(recs[..n]).Err?
    ensures Outgoing(recs) == Outgoing(recs[..n])
    decreases |recs| - n
  {
    if n < |recs| {
      assert recs[..n + 1][..n] == recs[..n];
      OutgoingErrorStays(recs, n + 1);
    } else {
      assert recs[..n] == recs;
    }
  }

  /** `_validate_asset_references`: throws when some outgoing edge leads
      outside the ids of the saved assets and videos. */
  function ReferencesCheck(recs: seq<AssetRecord>, videos: seq<VideoEntry>): Outcome<Error>
  {
    match Outgoing(recs)
    case Err(e) => Fail(e)
    case Ok(outgoing) =>
      if outgoing <= AssetIds(recs) + VideoIds(videos) then Pass else Fail(ValidationError(REFERENCES_ERROR))
  }

  /** The check passes exactly when every saved asset's thumbnail and job
      ids are ids of saved assets or videos. */
  lemma ReferencesCheckSpec(recs: seq<AssetRecord>, videos: seq<VideoEntry>)
    ensures ReferencesCheck(recs, videos).Pass? <==>
      forall i :: 0 <= i < |recs| ==>
        DependentAssets(recs[i]).Ok? && DependentAssets(recs[i]).value <= AssetIds(recs) + VideoIds(videos)
  {
    OutgoingSpec(recs, AssetIds(recs) + VideoIds(videos));
  }

  /** An asset whose thumbnail is not in the hatch makes the check fail. */
  lemma DanglingThumbnailRejected(recs: seq<AssetRecord>, videos: seq<VideoEntry>, i: nat)
    requires i < |recs| && recs[i].thumbnail.Some? && recs[i].thumbnail.value != ""
    requires recs[i].thumbnail.value !in AssetIds(recs) + VideoIds(videos)
    ensures ReferencesCheck(recs, videos).Fail?
  {
    ReferencesCheckSpec(recs, videos);
    if DependentAssets(recs[i]).Ok? {
      DependentAssetsMembers(recs[i], recs[i].thumbnail.value);
    }
  }

  /** `is_subset(a, b)`: walks `a` and stops at the first element missing
      from `b`. */
  method IsSubset(a: set<string>, b: set<string>) returns (r: bool)
    ensures r <==> a <= b
  {
    var rest := a;
    while rest != {}
      invariant rest <= a
      invariant a - rest <= b
      decreases |rest|
    {
      var item :| item in rest;
      if item !in b {
        return false;
      }
      rest := rest - {item};
    }
    return true;
  }

  // ---------------------------------------------------------------------
  // Finishing

  /** The records of a list of assets, in order. */
  function Snapshots(assets: seq<Asset>): (r: seq<AssetRecord>)
    reads assets
    ensures |r| == |assets| && forall i :: 0 <= i < |assets| ==> r[i] == assets[i].Snapshot()
  {
    if assets == [] then [] else Snapshots(assets[..|assets| - 1]) + [assets[|assets| - 1].Snapshot()]
  }

  function ProcessedAll(recs: seq<AssetRecord>): (r: seq<AssetRecord>)
    ensures |r| == |recs| && forall i :: 0 <= i < |recs| ==> r[i] == Processed(recs[i])
  {
    seq(|recs|, i requires 0 <= i < |recs| => Processed(recs[i]))
  }

  /** The manifest's asset list: one entry per saved asset, in the order
      they were saved, with its id, canonical URI and title. */
  function ManifestEntries(recs: seq<AssetRecord>): (r: seq<ManifestEntry>)
    ensures |r| == |recs|
    ensures forall i :: 0 <= i < |recs| ==>
      r[i].assetId == recs[i].assetId && r[i].uri == recs[i].canonicalUri && r[i].title == recs[i].title
  {
    seq(|recs|, i requires 0 <= i < |recs| => ManifestEntry(recs[i].assetId, recs[i].canonicalUri, recs[i].title))
  }

  /** The save tasks leave what the manifest lists alone. */
  lemma ProcessingKeepsManifest(recs: seq<AssetRecord>)
    ensures ManifestEntries(ProcessedAll(recs)) == ManifestEntries(recs)
  {
  }

  /** `assets.forEach(verify_manifest_entry)`: the first entry whose URI
      is not a URL decides the error. */
  function CheckManifest(entries: seq<ManifestEntry>, isUrl: string -> bool): (r: Outcome<Error>)
    ensures r.Pass? <==> forall i :: 0 <= i < |entries| ==> Verify.VerifyManifestEntry(entries[i].uri, isUrl).Pass?
  {
    if entries == [] then Pass
    else
      var first := Verify.VerifyManifestEntry(entries[0].uri, isUrl);
      if first.Fail? then first
      else
        var rest := CheckManifest(entries[1..], isUrl);
        assert forall i :: 1 <= i < |entries| ==> entries[i] == entries[1..][i - 1];
        rest
  }

  /** What the save tasks of the given records come to, task by task. */
  function TaskResults(recs: seq<AssetRecord>, env: Env): (r: seq<Result<seq<FileEntry>, Error>>)
    ensures |r| == |recs|
    decreases |recs|, 1
  {
    if recs == [] then [] else TaskResultsThenLast(recs, env)
  }

  /** The results of all but the last task, then the last one's. */
  function TaskResultsThenLast(recs: seq<AssetRecord>, env: Env): (r: seq<Result<seq<FileEntry>, Error>>)
    requires recs != []
    ensures |r| == |recs|
    decreases |recs|, 0
  {
    TaskResults(recs[..|recs| - 1], env) + [TaskResult(recs[|recs| - 1], env)]
  }

  /** Task `i` yields what the save task of record `i` yields. */
  lemma {:induction false} TaskResultsAt(recs: seq<AssetRecord>, env: Env, i: nat)
    requires i < |recs|
    ensures TaskResults(recs, env)[i] == TaskResult(recs[i], env)
    decreases |recs|
  {
    if i < |recs| - 1 {
      TaskResultsAt(recs[..|recs| - 1], env, i);
    }
  }

  /** The error of the first task that failed, in the order the tasks were
      queued. */
  function FirstFailure(results: seq<Result<seq<FileEntry>, Error>>): (r: Option<Error>)
    ensures r.None? <==> forall i :: 0 <= i < |results| ==> results[i].Ok?
    ensures r.Some? ==> exists i :: 0 <= i < |results| && results[i] == Err(r.value)
  {
    if results == [] then None
    else
      var init := results[..|results| - 1];
      assert forall i :: 0 <= i < |init| ==> init[i] == results[i];
      match FirstFailure(init)
      case Some(e) => Some(e)
      case None =>
        var last := results[|results| - 1];
        if last.Err? then Some(last.error) else None
  }

  /** The files the successful tasks wrote, task by task. */
  function AllFiles(results: seq<Result<seq<FileEntry>, Error>>): seq<FileEntry>
  {
    if results == [] then []
    else
      var last := results[|results| - 1];
      AllFiles(results[..|results| - 1]) + (if last.Ok? then last.value else [])
  }

  /** `finish()`: every save task runs; if one failed, the first failure
      in queue order is the result; otherwise the references are checked
      on the processed assets, the manifest entries are checked, and the
      hatch is exported, as an archive next to the directory unless that
      is turned off. */
  function FinishSpec(recs: seq<AssetRecord>, videos: seq<VideoEntry>, settings: Settings, env: Env): Result<Export, Error>
  {
    var results := TaskResults(recs, env);
    match FirstFailure(results)
    case Some(e) => Err(e)
    case None => ExportSpec(ProcessedAll(recs), AllFiles(results), videos, settings, env.isUrl)
  }

  /** What `finish()` does once the tasks have succeeded, on the assets as
      the tasks left them: check the references, then the manifest
      entries, then export. */
  function ExportSpec(assets: seq<AssetRecord>, files: seq<FileEntry>, videos: seq<VideoEntry>,
                      settings: Settings, isUrl: string -> bool): Result<Export, Error>
  {
    match ReferencesCheck(assets, videos)
    case Fail(e) => Err(e)
    case Pass =>
      var entries := ManifestEntries(assets);
      match CheckManifest(entries, isUrl)
      case Fail(e) => Err(e)
      case Pass =>
        Ok(Export(files, Manifest(settings.name, settings.language, entries, videos),
                  if settings.exportTgz then settings.path + ".tar.gz" else settings.path))
  }

  /** An empty hatch finishes with an empty asset list. */
  lemma EmptyHatchFinishes(videos: seq<VideoEntry>, settings: Settings, env: Env)
    ensures FinishSpec([], videos, settings, env)
      == Ok(Export([], Manifest(settings.name, settings.language, [], videos),
                   if settings.exportTgz then settings.path + ".tar.gz" else settings.path))
  {
    assert ProcessedAll([]) == [];
    assert ManifestEntries([]) == [];
  }

  /** A finished hatch lists exactly the saved assets, in the order they
      were saved, and each of their save tasks succeeded. */
  lemma FinishedManifest(recs: seq<AssetRecord>, videos: seq<VideoEntry>, settings: Settings, env: Env)
    requires FinishSpec(recs, videos, settings, env).Ok?
    ensures var m := FinishSpec(recs, videos, settings, env).value.manifest;
      && |m.assets| == |recs| && m.videos == videos
      && (forall i :: 0 <= i < |recs| ==> m.assets[i].assetId == recs[i].assetId)
      && (forall i :: 0 <= i < |recs| ==> TaskResult(recs[i], env).Ok?)
      && ReferencesCheck(ProcessedAll(recs), videos).Pass?
  {
    forall i | 0 <= i < |recs| ensures TaskResult(recs[i], env).Ok? {
      TaskResultsAt(recs, env, i);
    }
  }

  /** The walk over the saved assets in `_validate_asset_references`:
      collect each asset's id and outgoing edges; the first asset whose
      dependencies cannot be read stops the walk. */
  method CollectEdges(assets: seq<Asset>) returns (edges: Result<set<string>, Error>, ids: set<string>)
    ensures edges == Outgoing(Snapshots(assets))
    ensures edges.Ok? ==> ids == AssetIds(Snapshots(assets))
  {
    ghost var recs := Snapshots(assets);
    var outgoing: set<string> := {};
    var failure: Option<Error> := None;
    ids := {};
    var i := 0;
    while i < |assets| && failure.None?
      invariant 0 <= i <= |assets|
      invariant failure.None? ==> ids == AssetIds(recs[..i]) && Outgoing(recs[..i]) == Ok(outgoing)
      invariant failure.Some? ==> Outgoing(recs) == Err(failure.value)
    {
      AssetIdsSnoc(recs, i);
      ids := ids + {assets[i].assetId};
      var deps := assets[i].GetDependentAssets();
      OutgoingSnoc(recs, i);
      if deps.Err? {
        OutgoingErrorStays(recs, i + 1);
        failure := Some(deps.error);
      } else {
        outgoing := outgoing + deps.value;
      }
      i := i + 1;
    }
    assert failure.None? ==> recs[..i] == recs;
    edges := if failure.Some? then Err(failure.value) else Ok(outgoing);
  }

  /** A hatch session. `tasks` stands for `_promises`: the asset whose save
      task each queued promise runs. */
  class Hatch {
    const name: string
    const language: string
    const path: string
    const isExportingTgz: bool
    var assets: seq<Asset>
    var videos: seq<VideoEntry>
    var tasks: seq<Asset>

    /** Every saved asset has queued exactly one task, in the same order. */
    predicate Valid()
      reads this
    {
      tasks == assets
    }

    function Config(): Settings
    {
      Settings.Settings(name, language, path, isExportingTgz)
    }

    constructor(settings: Settings)
      ensures Config() == settings
      ensures assets == [] && videos == [] && tasks == [] && Valid()
    {
      name, language, path, isExportingTgz := settings.name, settings.language, settings.path, settings.exportTgz;
      assets, videos, tasks := [], [], [];
    }

    /** `save_asset`: a video adds its descriptor; any other asset is added
        to the assets and queues its save task. */
    method SaveAsset(asset: Asset)
      requires Valid()
      modifies this
      ensures Valid()
      ensures asset.variant.Video? ==>
        assets == old(assets) && videos == old(videos) + [VideoEntry(asset.assetId, asset.downloadUri, asset.title)]
      ensures !asset.variant.Video? ==>
        assets == old(assets) + [asset] && tasks == old(tasks) + [asset] && videos == old(videos)
    {
      if asset.variant.Video? {
        videos := videos + [VideoEntry(asset.assetId, asset.downloadUri, asset.title)];
      } else {
        assets := assets + [asset];
        tasks := tasks + [asset];
      }
    }

    /** `_validate_asset_references`: collect the asset ids and the
        outgoing edges asset by asset, add the video ids, and check the
        edges are among the ids. */
    method ValidateAssetReferences() returns (r: Outcome<Error>)
      ensures r == ReferencesCheck(Snapshots(assets), videos)
    {
      var edges, assetIds := CollectEdges(assets);
      if edges.Err? {
        return Fail(edges.error);
      }
      var ids := AddVideoIds(assetIds, videos);
      var ok := IsSubset(edges.value, ids);
      r := if ok then Pass else Fail(ValidationError(REFERENCES_ERROR));
    }

    /** The in-place half of the queued save tasks: each task's
        `_process()` runs, in queue order, and an article's pass rewrites
        its document. An asset saved twice is processed twice, the second
        time over the rewritten document. */
    method RunProcessSteps(sniffMime: seq<bv8> -> Option<string>)
      requires Valid()
      modifies assets
      ensures forall i :: 0 <= i < |assets| ==> assets[i].Snapshot() == Processed(old(assets[i].Snapshot()))
      ensures Snapshots(assets) == ProcessedAll(old(Snapshots(assets)))
    {
      ghost var recs := Snapshots(assets);
      ProgressStart(assets);
      ProcessQueue(tasks, sniffMime, recs);
      ProgressDone(assets, recs);
    }

    /** `finish()`: drain the queued save tasks, then check references and
        the manifest and export. A task changes nothing but its asset's
        document, and running it again over the rewritten document gives
        the same result (`TaskResultAfterProcessing`), so each task's
        result is that of its asset's state before the tasks ran; the
        assets' documents are left as the passes rewrote them. */
    method Finish(env: Env) returns (r: Result<Export, Error>)
      requires Valid()
      modifies assets
      ensures r == FinishSpec(old(Snapshots(assets)), videos, Config(), env)
      ensures Snapshots(assets) == ProcessedAll(old(Snapshots(assets)))
    {
      var recs := Snapshots(assets);
      var results := TaskResults(recs, env);
      RunProcessSteps(env.sniffMime);
      r := Conclude(results, env.isUrl);
    }

    /** The first failed task decides the result; without one, the hatch
        is exported. */
    method Conclude(results: seq<Result<seq<FileEntry>, Error>>, isUrl: string -> bool) returns (r: Result<Export, Error>)
      ensures FirstFailure(results).Some? ==> r == Err(FirstFailure(results).value)
      ensures FirstFailure(results).None? ==> r == ExportSpec(Snapshots(assets), AllFiles(results), videos, Config(), isUrl)
    {
      var failure := FirstFailure(results);
      if failure.Some? {
        return Err(failure.value);
      }
      r := ExportHatch(AllFiles(results), isUrl);
    }

    /** The steps of `finish()` after the tasks: `_validate_asset_references`,
        `_save_hatch_manifest` and the choice of what to hand back. */
    method ExportHatch(files: seq<FileEntry>, isUrl: string -> bool) returns (r: Result<Export, Error>)
      ensures r == ExportSpec(Snapshots(assets), files, videos, Config(), isUrl)
    {
      var references := ValidateAssetReferences();
      if references.Fail? {
        return Err(references.error);
      }
      var entries := ManifestEntries(Snapshots(assets));
      var manifestCheck := CheckManifest(entries, isUrl);
      if manifestCheck.Fail? {
        return Err(manifestCheck.error);
      }
      var location := if isExportingTgz then path + ".tar.gz" else path;
      r := Ok(Export(files, Manifest(name, language, entries, videos), location));
    }
  }

  /** How far the queue has got after `n` tasks: each queued asset is as it
      was queued, or as `_process()` left it once one of its tasks has run
      (`recs` are the assets as queued, so the same asset queued twice has
      one record). */
  ghost predicate Progress(queue: seq<Asset>, recs: seq<AssetRecord>, n: nat)
    reads queue
  {
    && n <= |recs| == |queue|
    && (forall j, k {:trigger recs[j], recs[k]} ::
          0 <= j < |queue| && 0 <= k < |queue| && queue[j] == queue[k] ==> recs[j] == recs[k])
    && forall j {:trigger queue[j].Snapshot()} :: 0 <= j < |queue| ==>
         queue[j].Snapshot() == (if queue[j] in queue[..n] then Processed(recs[j]) else recs[j])
  }

  /** Before the queue runs nothing has been processed. */
  lemma ProgressStart(queue: seq<Asset>)
    ensures Progress(queue, Snapshots(queue), 0)
  {
  }

  /** Once every queued task has run, each asset is processed. */
  lemma ProgressDone(queue: seq<Asset>, recs: seq<AssetRecord>)
    requires Progress(queue, recs, |queue|)
    ensures forall j :: 0 <= j < |queue| ==> queue[j].Snapshot() == Processed(recs[j])
  {
    assert queue[..|queue|] == queue;
  }

  /** The queued tasks' `_process()` steps, one after the other. */
  method ProcessQueue(queue: seq<Asset>, sniffMime: seq<bv8> -> Option<string>, ghost recs: seq<AssetRecord>)
    requires Progress(queue, recs, 0)
    modifies set a | a in queue
    ensures Progress(queue, recs, |queue|)
  {
    for i := 0 to |queue|
      invariant Progress(queue, recs, i)
    {
      ProcessStep(queue, i, sniffMime, recs);
    }
  }

  /** The `i`th task's `_process()`, on an asset that is either untouched
      or already processed once. */
  method ProcessStep(queue: seq<Asset>, i: nat, sniffMime: seq<bv8> -> Option<string>, ghost recs: seq<AssetRecord>)
    requires i < |queue| && Progress(queue, recs, i)
    modifies queue[i]
    ensures Progress(queue, recs, i + 1)
  {
    var asset := queue[i];
    ProcessedIdempotent(recs[i]);
    assert queue[..i + 1] == queue[..i] + [asset];
    label before:
    var _ := asset.Process(sniffMime);
    forall j | 0 <= j < |queue|
      ensures queue[j].Snapshot() == (if queue[j] in queue[..i + 1] then Processed(recs[j]) else recs[j])
    {
      if queue[j] != asset {
        assert queue[j].Snapshot() == old@before(queue[j].Snapshot());
      }
    }
  }

  /** Adds the ids of the saved videos to the asset ids, video by video. */
  method AddVideoIds(assetIds: set<string>, videos: seq<VideoEntry>) returns (ids: set<string>)
    ensures ids == assetIds + VideoIds(videos)
  {
    ids := assetIds;
    for i := 0 to |videos|
      invariant ids == assetIds + VideoIds(videos[..i])
    {
      VideoIdsSnoc(videos, i);
      ids := ids + {videos[i].assetId};
    }
    assert videos[..|videos|] == videos;
  }

  /** `new Hatch(name, language, options)`: the checks, then a hatch with
      nothing saved. */
  method NewHatch(name: JsValue, language: JsValue, options: HatchOptions, processArgs: seq<string>, now: LocalTime)
    returns (r: Result<Hatch, Error>)
    ensures var s := HatchSettings(name, language, options, processArgs, now);
      && (r.Ok? <==> s.Ok?)
      && (r.Err? ==> r.error == s.error)
      && (r.Ok? ==> fresh(r.value) && r.value.Valid() && r.value.Config() == s.value
                    && r.value.assets == [] && r.value.videos == [])
  {
    var settings := HatchSettings(name, language, options, processArgs, now);
    if settings.Err? {
      return Err(settings.error);
    }
    var hatch := new Hatch(settings.value);
    r := Ok(hatch);
  }
}
