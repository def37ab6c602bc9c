/** The application's session state (app.py): the four-step wizard (script,
    media selection, render, output), the per-scene media selection, the
    search cache and the render options.  Each button handler is a method
    of `Session`; the search, the download, the clock, the fresh file names
    and the render are inputs of those methods. */
module Session {
  import opened Wrappers
  import opened PyText
  import opened Scenes
  import opened Keywords
  import opened Analysis
  import opened Media
  import opened Render

  datatype VideoOptions = VideoOptions(
    durationPerScene: int,
    addTitle: bool,
    addEnding: bool,
    selectedBgm: Option<string>)

  const DefaultOptions := VideoOptions(5, true, true, None)

  /** The range of the seconds-per-scene slider. */
  const SliderMin := 3
  const SliderMax := 10

  /** What `select_media_for_scene` returns: `True`, `False`, or `None` for
      an item that is already selected. */
  datatype Selection = Selected | DownloadFailed | AlreadySelected

  // ---------------------------------------------------------------------
  // The search cache

  /** `f"{scene_id}_{keyword}"`. */
  function CacheKey(sceneId: string, keyword: string): (key: string)
    ensures |key| == |sceneId| + 1 + |keyword|
    ensures key[..|sceneId|] == sceneId && key[|sceneId|] == '_' && key[|sceneId| + 1..] == keyword
  {
    sceneId + "_" + keyword
  }

  /** The key is a plain concatenation, so different (scene, keyword) pairs
      can share an entry. */
  lemma CacheKeyCollision()
    ensures CacheKey("a_b", "c") == CacheKey("a", "b_c")
  {
  }

  predicate NoUnderscore(s: string)
  {
    forall k :: 0 <= k < |s| ==> s[k] != '_'
  }

  /** Scene ids contain no `_`, so for them the key determines the pair. */
  lemma CacheKeyInjective(a: string, b: string, k1: string, k2: string)
    requires NoUnderscore(a) && NoUnderscore(b)
    requires CacheKey(a, k1) == CacheKey(b, k2)
    ensures a == b && k1 == k2
  {
    var s := CacheKey(a, k1);
    FirstUnderscore(a, k1);
    FirstUnderscore(b, k2);
  }

  /** The first `_` of a key ends a scene id without one. */
  lemma FirstUnderscore(a: string, k: string)
    requires NoUnderscore(a)
    ensures IndexOf(CacheKey(a, k), '_') == |a|
  {
    var s := CacheKey(a, k);
    var m := IndexOf(s, '_');
    assert s[|a|] == '_';
    assert forall j :: 0 <= j < |a| ==> s[j] == a[j];
  }

  /** For the keys the application makes, distinct (scene, keyword) pairs
      never share a cache entry. */
  lemma SceneCacheKeysDistinct(i: nat, j: nat, k1: string, k2: string)
    requires CacheKey(SceneId(i), k1) == CacheKey(SceneId(j), k2)
    ensures i == j && k1 == k2
  {
    CacheKeyInjective(SceneId(i), SceneId(j), k1, k2);
    SceneIdInjective(i, j);
  }

  /** `search_media_for_scene` on a cache: the results, the new cache, and
      whether the search service was called. */
  function CachedSearch(cache: map<string, seq<MediaItem>>, key: string, found: seq<MediaItem>)
    : (r: (seq<MediaItem>, map<string, seq<MediaItem>>, bool))
    ensures key in r.1 && r.1[key] == r.0
    ensures r.2 <==> key !in cache
    ensures key in cache ==> r.0 == cache[key] && r.1 == cache
    ensures key !in cache ==> r.0 == found && r.1 == cache[key := found]
  {
    if key in cache then (cache[key], cache, false) else (found, cache[key := found], true)
  }

  /** Searching again under the same key returns the first results and
      calls no search, whatever the service would answer now. */
  lemma SearchTwice(cache: map<string, seq<MediaItem>>, key: string, first: seq<MediaItem>, second: seq<MediaItem>)
    ensures var r1 := CachedSearch(cache, key, first);
      var r2 := CachedSearch(r1.1, key, second);
      r2.0 == r1.0 && r2.1 == r1.1 && !r2.2
  {
  }

  /** A search touches no other key. */
  lemma SearchKeepsOtherKeys(cache: map<string, seq<MediaItem>>, key: string, found: seq<MediaItem>, other: string)
    requires other != key
    ensures var r := CachedSearch(cache, key, found);
      (other in r.1 <==> other in cache) && (other in cache ==> r.1[other] == cache[other])
  {
  }

  // ---------------------------------------------------------------------
  // Selection

  /** Whether `items` already holds an item with the same id and source. */
  predicate HasDuplicate(items: seq<MediaItem>, item: MediaItem)
  {
    exists k :: 0 <= k < |items| && SameMedia(items[k], item)
  }

  /** `os.path.splitext(medium_url)[-1] or '.jpg'`. */
  function FileExtension(url: string): (ext: string)
    ensures ext != []
    ensures SplitExt(url) != [] ==> ext == SplitExt(url)
    ensures SplitExt(url) == [] ==> ext == ".jpg"
  {
    var e := SplitExt(url);
    if e == [] then ".jpg" else e
  }

  /** Where the download of `item` is saved, for the fresh name `name`. */
  function SavePath(mediaDir: string, name: string, item: MediaItem): (p: string)
    ensures EndsWith(p, name + FileExtension(item.mediumUrl))
  {
    PathJoin(mediaDir, name + FileExtension(item.mediumUrl))
  }

  /** `select_media_for_scene` on a selection: the new selection and the
      outcome.  The scene's list is created before the duplicate test and
      before the download, so it exists afterwards in every case. */
  function AfterSelect(selected: map<string, seq<MediaItem>>, sceneId: string, item: MediaItem,
                       downloadOk: bool, savePath: string): (r: (map<string, seq<MediaItem>>, Selection))
  {
    var list := if sceneId in selected then selected[sceneId] else [];
    var created := selected[sceneId := list];
    if HasDuplicate(list, item) then (created, AlreadySelected)
    else if downloadOk then (selected[sceneId := list + [WithLocalPath(item, savePath)]], Selected)
    else (created, DownloadFailed)
  }

  /** The outcomes of a selection: a duplicate leaves the list alone; a
      download that succeeds appends exactly the item, with its local path,
      at the end; one that fails leaves the list as it was, or empty when
      the scene had none.  Other scenes are never touched. */
  lemma SelectOutcomes(selected: map<string, seq<MediaItem>>, sceneId: string, item: MediaItem,
                       downloadOk: bool, savePath: string)
    ensures var (s, outcome) := AfterSelect(selected, sceneId, item, downloadOk, savePath);
      var list := if sceneId in selected then selected[sceneId] else [];
      && sceneId in s
      && (outcome == AlreadySelected <==> HasDuplicate(list, item))
      && (outcome == Selected <==> !HasDuplicate(list, item) && downloadOk)
      && (outcome != Selected ==> s[sceneId] == list)
      && (outcome == Selected ==> s[sceneId] == list + [item.(localPath := Some(savePath))])
      && (forall id :: id != sceneId ==> (id in s <==> id in selected) && (id in s ==> s[id] == selected[id]))
  {
  }

  /** Selecting an item that was just selected reports a duplicate and
      changes nothing, whatever the second download would do. */
  lemma SelectTwice(selected: map<string, seq<MediaItem>>, sceneId: string, item: MediaItem,
                    ok2: bool, path1: string, path2: string)
    requires AfterSelect(selected, sceneId, item, true, path1).1 == Selected
    ensures var s1 := AfterSelect(selected, sceneId, item, true, path1).0;
      AfterSelect(s1, sceneId, item, ok2, path2) == (s1, AlreadySelected)
  {
    var s1 := AfterSelect(selected, sceneId, item, true, path1).0;
    var list := s1[sceneId];
    assert SameMedia(list[|list| - 1], item);
    assert s1[sceneId := list] == s1;
  }

  /** Selection keeps every item of every list downloaded. */
  lemma SelectKeepsDownloaded(selected: map<string, seq<MediaItem>>, sceneId: string, item: MediaItem,
                              downloadOk: bool, savePath: string)
    requires forall id :: id in selected ==> AllDownloaded(selected[id])
    ensures var s := AfterSelect(selected, sceneId, item, downloadOk, savePath).0;
      forall id :: id in s ==> AllDownloaded(s[id])
  {
    SelectOutcomes(selected, sceneId, item, downloadOk, savePath);
  }

  /** `items.pop(i)`. */
  function RemoveAt(items: seq<MediaItem>, i: nat): (r: seq<MediaItem>)
    requires i < |items|
    ensures |r| == |items| - 1
    ensures forall k :: 0 <= k < i ==> r[k] == items[k]
    ensures forall k :: i <= k < |r| ==> r[k] == items[k + 1]
    ensures multiset(r) + multiset{items[i]} == multiset(items)
  {
    assert items == items[..i] + [items[i]] + items[i + 1..];
    items[..i] + items[i + 1..]
  }

  /** The "every scene has media" gate: each scene key of the analysis has a
      non-empty list in the selection. */
  function AllScenesHaveMedia(entries: seq<SceneEntry>, selected: map<string, seq<MediaItem>>): (r: bool)
    ensures r <==> forall k :: 0 <= k < |entries| ==> entries[k].id in selected && |selected[entries[k].id]| > 0
  {
    if entries == [] then true
    else
      entries[0].id in selected && |selected[entries[0].id]| > 0 && AllScenesHaveMedia(entries[1..], selected)
  }

  /** Removing the only item of a scene closes the gate. */
  lemma RemovingLastItemClosesGate(entries: seq<SceneEntry>, selected: map<string, seq<MediaItem>>, k: nat)
    requires k < |entries| && entries[k].id in selected && |selected[entries[k].id]| == 1
    ensures !AllScenesHaveMedia(entries, selected[entries[k].id := RemoveAt(selected[entries[k].id], 0)])
  {
  }

  // ---------------------------------------------------------------------
  // The session

  /** A selection whose items are all downloaded serves every scene. */
  lemma SelectionDownloaded(entries: seq<SceneEntry>, selected: map<string, seq<MediaItem>>)
    requires forall id :: id in selected ==> AllDownloaded(selected[id])
    ensures MediaDownloaded(entries, selected)
  {
  }

  class Session {
    var currentStep: int
    var script: string
    var scenes: seq<string>
    var keywords: seq<SceneEntry>
    var selectedMedia: map<string, seq<MediaItem>>
    var mediaSearchResults: map<string, seq<MediaItem>>
    var generatedVideo: Option<string>
    var videoOptions: VideoOptions
    const lex: Lexicon
    const mediaDir: string
    const audioDir: string
    const generator: VideoGenerator

    /** The wizard's invariant: a step from 1 to 4; the analysis matches the
        scenes; every selected item has been downloaded; the render step is
        only reached with scenes that all have media; the output step only
        with a video. */
    predicate Valid()
      reads this
    {
      && 1 <= currentStep <= 4
      && keywords == Entries(scenes, lex)
      && (forall id :: id in selectedMedia ==> AllDownloaded(selectedMedia[id]))
      && (currentStep >= 3 ==> scenes != [] && AllScenesHaveMedia(keywords, selectedMedia))
      && (currentStep == 4 ==> generatedVideo.Some?)
    }

    /** The first run's session state, and the generator made at start-up. */
    constructor (lex: Lexicon, mediaDir: string, outputDir: string, audioDir: string)
      ensures Valid() && fresh(generator)
      ensures currentStep == 1 && script == [] && scenes == [] && keywords == []
      ensures selectedMedia == map[] && mediaSearchResults == map[] && generatedVideo == None
      ensures videoOptions == DefaultOptions
      ensures this.lex == lex && this.mediaDir == mediaDir && this.audioDir == audioDir
      ensures generator.outputDir == outputDir
    {
      currentStep := 1;
      script, scenes, keywords := [], [], [];
      selectedMedia, mediaSearchResults := map[], map[];
      generatedVideo := None;
      videoOptions := DefaultOptions;
      this.lex, this.mediaDir, this.audioDir := lex, mediaDir, audioDir;
      generator := new VideoGenerator(outputDir);
    }

    /** "Analyse the script": an empty script is refused; any other script
        is analysed and the wizard moves to media selection.  The earlier
        selection is kept. */
    method Analyze(input: string)
      requires Valid() && currentStep == 1
      modifies this
      ensures Valid()
      ensures input == [] ==> unchanged(this)
      ensures input != [] ==>
        && currentStep == 2 && script == input && scenes == SplitIntoScenes(input)
        && keywords == Entries(scenes, lex)
        && unchanged(this`selectedMedia, this`mediaSearchResults)
        && unchanged(this`generatedVideo, this`videoOptions)
    {
      if input == [] {
        return;
      }
      script := input;
      var s, e := AnalyzeScript(input, lex);
      scenes := s;
      keywords := e;
      assert keywords == Entries(scenes, lex);
      currentStep := 2;
    }

    /** `search_media_for_scene(scene_id, keyword)`, with `found` as what
        the search service would return. */
    method SearchMediaForScene(sceneId: string, keyword: string, found: seq<MediaItem>)
      returns (results: seq<MediaItem>, searched: bool)
      requires Valid()
      modifies this
      ensures Valid()
      ensures (results, mediaSearchResults, searched) == CachedSearch(old(mediaSearchResults), CacheKey(sceneId, keyword), found)
      ensures unchanged(this`currentStep, this`script, this`scenes)
      ensures unchanged(this`keywords, this`selectedMedia)
      ensures unchanged(this`generatedVideo, this`videoOptions)
    {
      var key := CacheKey(sceneId, keyword);
      if key in mediaSearchResults {
        return mediaSearchResults[key], false;
      }
      results := found;
      searched := true;
      mediaSearchResults := mediaSearchResults[key := results];
    }

    /** The duplicate loop of `select_media_for_scene`. */
    static method FindDuplicate(items: seq<MediaItem>, item: MediaItem) returns (found: bool)
      ensures found <==> HasDuplicate(items, item)
    {
      for k := 0 to |items|
        invariant forall j :: 0 <= j < k ==> !SameMedia(items[j], item)
      {
        if items[k].id == item.id && items[k].source == item.source {
          return true;
        }
      }
      return false;
    }

    /** `select_media_for_scene(scene_id, media_item)`, with `downloadOk` as
        the download's result and `name` as the fresh file name.  The select
        buttons exist only in the media step. */
    method SelectMediaForScene(sceneId: string, item: MediaItem, downloadOk: bool, name: string)
      returns (outcome: Selection)
      requires Valid() && currentStep == 2
      modifies this
      ensures Valid()
      ensures (selectedMedia, outcome)
              == AfterSelect(old(selectedMedia), sceneId, item, downloadOk, SavePath(mediaDir, name, item))
      ensures unchanged(this`currentStep, this`script, this`scenes)
      ensures unchanged(this`keywords, this`mediaSearchResults)
      ensures unchanged(this`generatedVideo, this`videoOptions)
    {
      var savePath := SavePath(mediaDir, name, item);
      SelectKeepsDownloaded(selectedMedia, sceneId, item, downloadOk, savePath);
      ghost var after := AfterSelect(selectedMedia, sceneId, item, downloadOk, savePath);
      var list := if sceneId in selectedMedia then selectedMedia[sceneId] else [];
      var created := selectedMedia[sceneId := list];
      var duplicate := FindDuplicate(list, item);
      if duplicate {
        selectedMedia, outcome := created, AlreadySelected;
      } else if downloadOk {
        selectedMedia, outcome := selectedMedia[sceneId := list + [WithLocalPath(item, savePath)]], Selected;
      } else {
        selectedMedia, outcome := created, DownloadFailed;
      }
      assert (selectedMedia, outcome) == after;
    }

    /** The delete button under the `i`-th selected item of a scene. */
    method RemoveMedia(sceneId: string, i: nat)
      requires Valid() && currentStep == 2
      requires sceneId in selectedMedia && i < |selectedMedia[sceneId]|
      modifies this
      ensures Valid()
      ensures selectedMedia == old(selectedMedia)[sceneId := RemoveAt(old(selectedMedia)[sceneId], i)]
      ensures unchanged(this`currentStep, this`script, this`scenes)
      ensures unchanged(this`keywords, this`mediaSearchResults)
      ensures unchanged(this`generatedVideo, this`videoOptions)
    {
      selectedMedia := selectedMedia[sceneId := RemoveAt(selectedMedia[sceneId], i)];
    }

    /** Back to the script, from media selection. */
    method BackToScript()
      requires Valid() && currentStep == 2
      modifies this
      ensures Valid() && currentStep == 1
      ensures unchanged(this`script, this`scenes, this`keywords)
      ensures unchanged(this`selectedMedia, this`mediaSearchResults)
      ensures unchanged(this`generatedVideo, this`videoOptions)
    {
      currentStep := 1;
    }

    /** "Next": shown once there are scenes, and enabled only when every
        scene has media. */
    method ProceedToRender()
      requires Valid() && currentStep == 2 && scenes != []
      modifies this
      ensures Valid()
      ensures currentStep == (if AllScenesHaveMedia(keywords, selectedMedia) then 3 else 2)
      ensures unchanged(this`script, this`scenes, this`keywords)
      ensures unchanged(this`selectedMedia, this`mediaSearchResults)
      ensures unchanged(this`generatedVideo, this`videoOptions)
    {
      var ready := AllScenesHaveMedia(keywords, selectedMedia);
      if ready {
        currentStep := 3;
      }
    }

    /** The option widgets of the render step.  `available` lists the
        background tracks found and `choice` is the position picked in
        `["なし"] + available`; with no track found the choice is kept. */
    method SetOptions(duration: int, addTitle: bool, addEnding: bool, available: seq<string>, choice: nat)
      requires Valid() && currentStep == 3
      requires SliderMin <= duration <= SliderMax
      requires choice <= |available|
      modifies this
      ensures Valid()
      ensures videoOptions.durationPerScene == duration
      ensures videoOptions.addTitle == addTitle && videoOptions.addEnding == addEnding
      ensures videoOptions.selectedBgm ==
                if available == [] then old(videoOptions.selectedBgm)
                else if choice == 0 then None
                else Some(available[choice - 1])
      ensures unchanged(this`currentStep, this`script, this`scenes)
      ensures unchanged(this`keywords, this`selectedMedia)
      ensures unchanged(this`mediaSearchResults, this`generatedVideo)
    {
      var bgm := videoOptions.selectedBgm;
      if available != [] {
        bgm := if choice == 0 then None else Some(available[choice - 1]);
      }
      videoOptions := VideoOptions(duration, addTitle, addEnding, bgm);
    }

    /** `generate_video()` and its button: the options go to the generator,
        the video is planned and written under `tiktok_video_<time>.mp4`;
        `written` says whether writing the file succeeded.  Only a returned
        path moves the wizard to the output step. */
    method GenerateVideo(time: nat, probe: Probe, written: bool) returns (outputPath: Option<string>)
      requires Valid() && currentStep == 3
      modifies this, generator
      ensures Valid()
      ensures generator.sceneDuration == videoOptions.durationPerScene
      ensures generator.addTitle == videoOptions.addTitle && generator.addEnding == videoOptions.addEnding
      ensures var plan := PlanVideo(videoOptions.durationPerScene, videoOptions.addTitle, videoOptions.addEnding,
                                    generator.outputDir, keywords, selectedMedia, OutputFileName(time),
                                    BgmPath(audioDir, videoOptions), probe);
        outputPath == (if plan.Some? && written then Some(plan.value.outputPath) else None)
      ensures outputPath.Some? ==> currentStep == 4 && generatedVideo == outputPath
      ensures outputPath.None? ==> currentStep == 3 && unchanged(this`generatedVideo)
      ensures unchanged(this`script, this`scenes, this`keywords, this`selectedMedia, this`mediaSearchResults, this`videoOptions)
    {
      var plan := Render(time, probe);
      if plan.Some? && written {
        outputPath := Some(plan.value.outputPath);
        generatedVideo, currentStep := outputPath, 4;
      } else {
        outputPath := None;
      }
    }

    /** The options go to the generator, which plans the video. */
    method Render(time: nat, probe: Probe) returns (plan: Option<VideoPlan>)
      requires forall id :: id in selectedMedia ==> AllDownloaded(selectedMedia[id])
      modifies generator
      ensures generator.sceneDuration == videoOptions.durationPerScene
      ensures generator.addTitle == videoOptions.addTitle && generator.addEnding == videoOptions.addEnding
      ensures plan == PlanVideo(videoOptions.durationPerScene, videoOptions.addTitle, videoOptions.addEnding,
                                generator.outputDir, keywords, selectedMedia, OutputFileName(time),
                                BgmPath(audioDir, videoOptions), probe)
    {
      SelectionDownloaded(keywords, selectedMedia);
      var gen := generator;
      gen.sceneDuration, gen.addTitle, gen.addEnding := videoOptions.durationPerScene, videoOptions.addTitle, videoOptions.addEnding;
      plan := gen.GenerateVideo(keywords, selectedMedia, OutputFileName(time), BgmPath(audioDir, videoOptions), probe);
    }

    /** Back to media selection, from the render step. */
    method BackToMedia()
      requires Valid() && currentStep == 3
      modifies this
      ensures Valid() && currentStep == 2
      ensures unchanged(this`script, this`scenes, this`keywords)
      ensures unchanged(this`selectedMedia, this`mediaSearchResults)
      ensures unchanged(this`generatedVideo, this`videoOptions)
    {
      currentStep := 2;
    }

    /** Back to the render step from the output step (to change the
        settings, or because the file is missing). */
    method BackToRender()
      requires Valid() && currentStep == 4
      modifies this
      ensures Valid() && currentStep == 3
      ensures unchanged(this`script, this`scenes, this`keywords)
      ensures unchanged(this`selectedMedia, this`mediaSearchResults)
      ensures unchanged(this`generatedVideo, this`videoOptions)
    {
      currentStep := 3;
    }

    /** "Start over": the script, the analysis, the selection and the video
        are cleared; the search cache and the options survive. */
    method Restart()
      requires Valid() && currentStep == 4
      modifies this
      ensures Valid()
      ensures currentStep == 1 && script == [] && scenes == [] && keywords == []
      ensures selectedMedia == map[] && generatedVideo == None
      ensures unchanged(this`mediaSearchResults, this`videoOptions)
    {
      script, scenes, keywords := [], [], [];
      selectedMedia := map[];
      generatedVideo := None;
      currentStep := 1;
    }
  }

  /** `f"tiktok_video_{int(time.time())}.mp4"`. */
  function OutputFileName(time: nat): (name: string)
    ensures EndsWith(name, ".mp4")
  {
    "tiktok_video_" + Decimal(time) + ".mp4"
  }

  /** Renders at different seconds never share a file name. */
  lemma OutputFileNamesDiffer(t1: nat, t2: nat)
    requires OutputFileName(t1) == OutputFileName(t2)
    ensures t1 == t2
  {
    var a, b := OutputFileName(t1), OutputFileName(t2);
    assert Decimal(t1) == a[13..|a| - 4];
    assert Decimal(t2) == b[13..|b| - 4];
    DecimalInjective(t1, t2);
  }

  /** The background track's path: a selected name, joined to the audio
      directory; none when nothing (or an empty name) is selected. */
  function BgmPath(audioDir: string, options: VideoOptions): (p: Option<string>)
    ensures p.Some? <==> options.selectedBgm.Some? && options.selectedBgm.value != []
    ensures p.Some? ==> EndsWith(p.value, options.selectedBgm.value)
  {
    if options.selectedBgm.Some? && options.selectedBgm.value != [] then
      Some(PathJoin(audioDir, options.selectedBgm.value))
    else None
  }
}
