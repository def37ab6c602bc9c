# TikTok video generator: a Dafny model of its core

The application is a small Streamlit wizard. It turns a text script into a
vertical short video in four steps:

1. It splits the script into scenes and extracts keywords for each scene.
2. The user searches stock media and picks some for each scene.
3. The user picks render options, and a `VideoGenerator` composes the video.
4. The finished file is offered for download.

This project models the deterministic parts of that workflow and proves
properties about them:

- **Scene splitting** (`scenes.dfy`). `re.split(r'\n\s*\n', script)` is
  modelled with Python's leftmost, non-overlapping, greedy-with-backtracking
  match semantics. It is followed by `strip` and the dropping of empty pieces.
  Python's whitespace class and `str.strip` are in `pytext.dfy`.
- **Keyword extraction** (`keywords.dfy`). The tokens are filtered to
  alphabetic non-stopwords. A counting loop fills an insertion-ordered
  dictionary, held as a key order plus a map. Python's stable
  `sorted(..., reverse=True)` is an insertion sort. Python's `[:n]` slice is
  modelled for every `n`, negative ones included.
- **Script analysis** (`analysis.dfy`). Every scene gets an entry keyed
  `シーン1`, `シーン2`, …
- **The session** (`session.dfy`). It is a class holding the wizard state:
  - the step;
  - the script, scenes and entries;
  - the per-scene media selection;
  - the search cache;
  - the generated video;
  - the options.

  Each button handler is a method. Every state-changing method keeps the
  invariant `Valid()`. The search, the download, the clock, the fresh file
  names and whether the encode succeeds are inputs.
- **Render planning** (`render.dfy`). A `VideoGenerator` class produces a
  *plan*, not pixels:
  - an optional title card;
  - one clip per scene, holding segments (a still image, a half-zoomed image,
    a looped video or a black background) under a caption;
  - an optional ending card;
  - an optional background track with its loop count.

  The image and video crop windows are computed in integer arithmetic.
  Everything moviepy would read from files comes in as a `Probe`: image and
  video sizes, video and audio lengths, file existence, and rendered text
  height.

Some behaviour of the code is easy to misread:

- **A failed download.** The code has already created an empty list for the scene before the
  duplicate test and the download (`app.py:224-225`). So a first failed
  selection leaves an empty list behind.
- **The zoom.** The zoom is not gradual: the code plays
  the unzoomed image for half the time and the zoomed image for the other
  half (`video_generator.py:99-104`).
- **The per-media share.** It is the scene duration divided by the number of
  all paths, supported or not (`video_generator.py:119`). The zoom parity is
  taken on the raw index (`video_generator.py:128`). So a skipped file still
  takes its share and its position.
- **The caption height.** Its vertical position uses the height of the
  composited caption, which is the text height plus its 40-pixel background
  (`video_generator.py:44-59`).
- **The duration clamp.** Scene durations are clamped to [3, 8] at render time
  although the slider offers up to 10 (`video_generator.py:206`). The model
  reproduces this; `SliderMaximumIsClamped` states it.
- **The title card** needs at least one scene, the ending card does not
  (`video_generator.py:183`, `video_generator.py:213`).
- **A duplicate selection** returns `None`, which is distinct from `False`.
  The outcome is therefore three-valued.
- **The search cache key** is the plain concatenation `f"{scene_id}_{keyword}"`,
  so two different pairs can share a key (`CacheKeyCollision`). The scene ids
  the application makes contain no `_`, so for them the key is injective
  (`SceneCacheKeysDistinct`).

## Model

| member | source | states |
|---|---|---|
| Scenes.MatchEnd | app.py:186 | Where the match of `\n\s*\n` starting at a position ends. When it exists, it covers a blank line and no longer blank line starts there (greedy). It is absent exactly when no blank line starts there. |
| Scenes.RegexSplit | app.py:186 | `re.split(r'\n\s*\n', script)` gives at least one piece for every script, the empty one included. `RegexSplitRebuilds` states that the pieces and the separators rebuild the script. |
| Scenes.RegexSplitRebuilds | app.py:186 | The pieces of `re.split`, interleaved with the separators, rebuild the script exactly, and every separator is a blank line. |
| Scenes.StripNonEmpty | app.py:188 | `[p.strip() for p in pieces if p.strip()]` yields at most one item per piece, and each item is non-empty and stripped. Stripping keeps pieces free of blank lines. `StripNonEmptyOne` and `StripNonEmptyAppend` pin down the result itself. |
| Scenes.StripNonEmptyOne | app.py:188 | One piece gives `[p.strip()]`, or nothing when the piece is blank. |
| Scenes.StripNonEmptyAppend | app.py:188 | The comprehension works piece by piece, in order: on `a + b` it gives its result on `a` followed by its result on `b`. |
| Scenes.StripNonEmptyKeeps | app.py:188 | Over the first `k` pieces, the comprehension gives exactly the non-empty stripped pieces, in order. |
| Scenes.NonEmptyIndices | app.py:188 | The positions of the non-empty strings, in increasing order, each in range. |
| Scenes.NonEmptyIndicesComplete | app.py:188 | Every non-empty string's position is listed. |
| Scenes.KeepNonEmptyPicks | app.py:188 | Keeping the non-empty strings is picking them at their positions. |
| Scenes.StripNonEmptyPieces | app.py:188 | Item `j` of the comprehension is the stripped `j`-th piece that is not blank, and every piece left out is whitespace only. |
| Scenes.SplitIntoScenes | app.py:184-189 | `split_into_scenes` gives at most one scene per piece of the split, and every scene is non-empty and stripped. `ScenesArePieces` states which scenes they are, and `ScenesAreClean` adds that no scene holds a blank line. |
| Scenes.ScenesArePieces | app.py:184-189 | Scene `j` is the stripped `j`-th non-blank piece of `re.split`, in order, and every piece left out is whitespace only. With `RegexSplitRebuilds`, the script is its scenes in order, with only whitespace and blank lines around and between them. |
| Scenes.ScenesAreClean | app.py:186-188 | Every scene is non-empty, has no leading or trailing whitespace, and contains no blank line. |
| Scenes.WhitespaceScriptHasNoScenes | app.py:186-188 | A script of whitespace only has no scenes. |
| Scenes.SingleSceneScript | app.py:186-188 | A script without a blank line is one piece, and when it is not blank it gives exactly its stripped self. |
| Scenes.TwoScenes | app.py:186-188 | Two stripped one-line texts joined by an empty line give exactly those two scenes. |
| Scenes.HelloWorldExample | app.py:186-188 | `"Hello world.\n\nSecond scene here."` gives `["Hello world.", "Second scene here."]`. |
| PyText.Strip | app.py:188 | `str.strip`: the result is the text between the leading and the trailing whitespace. It is empty exactly when the text is all whitespace, and otherwise it is non-empty and stripped. |
| Keywords.ValidTokens | app.py:164-167 | A token survives the two filters exactly when it is alphabetic and not a stopword. |
| Keywords.ValidTokensCount | app.py:164-167 | The filters keep every occurrence of an alphabetic non-stopword and drop every occurrence of any other token: a valid word occurs in the filtered list exactly as often as among all tokens. |
| Keywords.ValidTokensKeepOrder | app.py:164-167 | The filters keep the tokens in order: two valid words first occur in the filtered list in the same order as among all tokens. |
| Keywords.CountWords | app.py:170-175 | The loop leaves the dictionary's key order equal to the order of first occurrence. Its keys are exactly the tokens, and each count is the token's number of occurrences. |
| Keywords.FirstOccurrenceOrder | app.py:170-175 | The dictionary keys come in the order in which the words first occur. |
| Keywords.ExtractKeywords | app.py:152-181 | `extract_keywords` returns the words of the first `n` items of the stably sorted `word_freq.items()`. |
| Keywords.Keywords | app.py:177-181 | Definition, no contract of its own: the words of the first `num_keywords` items of the sorted `word_freq.items()`. `KeywordsLength`, `KeywordsAreDistinctValidTokens`, `KeywordsOrdered` and `KeywordsAreTop` state its properties. |
| Keywords.SortByCountDesc | app.py:178 | `sorted(..., key=count, reverse=True)` as a stable insertion by count: as many items as its input. `SortPermutes` and `SortOrder` state that it is a permutation and how it orders. |
| Keywords.SortPermutes | app.py:178 | The sort is a permutation of the items. |
| Keywords.SortOrder | app.py:178 | The sort puts higher counts first and keeps the input order among equal counts (a stable sort in reverse). |
| Keywords.PyPrefix | app.py:181 | Python's `s[:n]` for every integer `n`: its length, and that it is a prefix, including negative `n` counted from the end. |
| Keywords.KeywordsLength | app.py:181 | At most `n` keywords: exactly `min(n, number of distinct valid words)` for `n >= 0`, with Python's slice semantics for negative `n`. |
| Keywords.KeywordsAreDistinctValidTokens | app.py:164-181 | The keywords are pairwise distinct and each is a valid token of the text. |
| Keywords.KeywordsAreWords | app.py:164-167 | Every keyword is alphabetic and not a stopword. |
| Keywords.KeywordsOrdered | app.py:170-181 | Keywords come by non-increasing count, and equal counts keep first-occurrence order. |
| Keywords.KeywordsAreTop | app.py:178-181 | A valid word that is not returned occurs no more often than the last keyword, and no word is left out when fewer than `n` come back. |
| Keywords.KeywordsRankByText | app.py:164-181 | In terms of the text's tokens: keywords come by non-increasing number of occurrences, and equally frequent keywords in order of first occurrence. |
| Analysis.SceneId | app.py:198 | Scene keys are `シーン` followed by the decimal position plus one, and contain no `_`. |
| Analysis.SceneIdInjective | app.py:198 | Different positions give different scene keys. |
| Analysis.EntryFor | app.py:197-201 | Definition, no contract of its own: the entry for scene `i` is the key `シーン{i+1}`, the scene's text and `extract_keywords(scene)`. `EntriesAreClean` and `EntryIdsDistinct` state its properties. |
| Analysis.Entries | app.py:196-201 | The loop over `enumerate(scenes)` gives one entry per scene, and entry `i` is the entry of scene `i`. |
| Analysis.AnalyzeScript | app.py:192-203 | The scenes of the script, and one entry per scene in scene order, each with its key `シーン{i+1}`, its text and `extract_keywords(scene)`. |
| Analysis.EntryIdsDistinct | app.py:196-201 | The entry keys are pairwise distinct, so the dictionary holds one entry per scene. |
| Analysis.EntriesAreClean | app.py:192-203 | Every entry's text is a stripped scene and its keywords are at most five distinct words. |
| Media.WithLocalPath | app.py:239 | Setting `local_path` to the save path keeps every other field: the id and source, the four URLs, the width and the height. |
| Session.CacheKey | app.py:208 | The key is the scene id, `_`, then the keyword. |
| Session.CacheKeyCollision | app.py:208 | `("a_b", "c")` and `("a", "b_c")` share a cache key. |
| Session.CacheKeyInjective | app.py:208 | For scene ids without `_`, the key determines the scene id and the keyword. |
| Session.SceneCacheKeysDistinct | app.py:208 | For the scene ids the application makes, distinct (scene, keyword) pairs never share a key. |
| Session.CachedSearch | app.py:206-220 | The search service is called and its result stored under the key exactly when the key is missing. A key that is present returns the stored result and leaves the cache as it was. |
| Session.SearchTwice | app.py:211-212 | A second search under the same key returns the first result and calls no search, whatever the service would answer. |
| Session.SearchKeepsOtherKeys | app.py:219 | A search changes no other cache entry. |
| Session.Session.SearchMediaForScene | app.py:206-220 | It updates the session's cache and returns the results as `CachedSearch` says, and changes nothing else. |
| Session.Session.FindDuplicate | app.py:228-230 | The loop finds an item with the same id and source exactly when one exists. |
| Session.FileExtension | app.py:233 | The saved file's extension is the URL's `splitext` extension when that is non-empty, and `.jpg` when it is empty. |
| PyText.SplitExt | app.py:233 | `os.path.splitext(p)[1]`: a non-empty extension starts with the last dot, ends the path and holds no other dot or `/`. It is empty exactly when the last dot is not after the last `/`, or only dots stand between them. |
| PyText.SplitExtExamples | app.py:233 | A final component of a dot and a name, like `.jpg`, has no extension, so its download falls back to `.jpg`. `a/b.c.png` has the extension `.png`. |
| PyText.PathJoin | app.py:235 | `os.path.join(a, b)` ends with `b`. When `b` is non-empty and does not start with `/`, and `a` is non-empty and does not end with `/`, it is `a + "/" + b`. |
| Session.SavePath | app.py:233-235 | The save path ends with the fresh name followed by the file extension. |
| Session.AfterSelect | app.py:223-242 | Definition, no contract of its own: the selection after `select_media_for_scene` and its outcome. `SelectOutcomes`, `SelectTwice` and `SelectKeepsDownloaded` state its properties. |
| Session.SelectOutcomes | app.py:223-242 | These outcomes hold: <br>- A duplicate (same id and source) reports `None` and leaves the list as it was. <br>- A successful download appends exactly the item, with its local path, at the end, and reports `True`. <br>- A failed download reports `False` and leaves the list as it was, or empty when there was none. <br>- The scene always has a list afterwards. <br>- Other scenes are untouched. |
| Session.SelectTwice | app.py:228-230 | Selecting an item just selected reports a duplicate and changes nothing. |
| Session.SelectKeepsDownloaded | app.py:237-241 | Every selected item keeps carrying a local path. |
| Session.Session.SelectMediaForScene | app.py:223-242 | The new selection and the outcome are those of `AfterSelect` for the save path `media/<name><ext>`. Nothing else changes and `Valid()` is kept. |
| Session.RemoveAt | app.py:475 | `pop(i)` removes exactly the item at `i`: the items before it stay, the ones after shift down by one, and the multiset loses only that item. |
| Session.Session.RemoveMedia | app.py:474-476 | The scene's list loses its `i`-th item, nothing else changes, and `Valid()` is kept. |
| Session.AllScenesHaveMedia | app.py:486-488 | The gate is open exactly when every scene key has a non-empty list. |
| Session.RemovingLastItemClosesGate | app.py:474-488 | Removing the only item of a scene closes the gate. |
| Session.Session.constructor | app.py:122-143 | The first run's state: step 1, empty script, scenes, entries, selection and cache, no video, and the default options (5 s, title, ending, no music). |
| Session.Session.Analyze | app.py:379-388 | An empty script changes nothing. Any other script is stored and analysed, and the wizard moves to step 2. The selection, cache, video and options are kept. |
| Session.Session.BackToScript | app.py:481-483 | Back from step 2 to step 1, changing nothing else. |
| Session.Session.ProceedToRender | app.py:486-492 | It moves from step 2 to step 3 exactly when every scene has media, and changes nothing else. |
| Session.Session.SetOptions | app.py:520-556 | It stores the slider and checkbox values. The music choice becomes none for the first option, or else the chosen file; with no file found it is kept. |
| Session.Session.Render | app.py:250-270 | The options reach the generator's fields, and the plan is `PlanVideo` for the entries, the selection, `tiktok_video_<time>.mp4` and the chosen music path. |
| Session.Session.GenerateVideo | app.py:569-574 | It returns the planned output path exactly when the render succeeds and the file is written, and only then moves to step 4 and records the video. Otherwise it stays at step 3. |
| Session.Session.BackToMedia | app.py:578-580 | Back from step 3 to step 2, changing nothing else. |
| Session.Session.BackToRender | app.py:636-644 | Back from step 4 to step 3, changing nothing else. |
| Session.Session.Restart | app.py:646-653 | It clears the script, scenes, entries, selection and video and returns to step 1. The search cache and the options are kept. |
| Session.OutputFileName | app.py:253 | The output file name ends with `.mp4`. |
| Session.OutputFileNamesDiffer | app.py:253 | Renders at different seconds get different file names. |
| Session.BgmPath | app.py:261-263 | There is a music path exactly when a non-empty file name is selected, and it ends with that name. |
| Render.VideoGenerator.constructor | video_generator.py:13-28 | The output directory, 1080×1920 at 30 fps, Arial 70, and the defaults of 5 s per scene with title and ending on. |
| Render.ImageFrame | video_generator.py:75-88 | Any crop of an image is a full 1080×1920 window inside the resized image. |
| Render.ImageFrameGeometry | video_generator.py:75-88 | There are two cases: <br>- A landscape image (`w*1920 > 1080*h`) is scaled to height 1920 and width `w*1920/h ≥ 1080`, then cut to the window starting at `(width-1080)/2`. <br>- Any other image is scaled to width 1080 and height `h*1080/w ≥ 1920`, and cut to a centred window only when it comes out taller than 1920. |
| Render.VideoFrame | video_generator.py:140-143 | A video is scaled to height 1920, and cut to a centred 1080-wide window exactly when it comes out wider. |
| Render.CaptionTop | video_generator.py:44-59 | The bottom caption's background, text height plus 40, ends 100 pixels above the lower edge. |
| Render.ClampSceneDuration | video_generator.py:206 | `max(3, min(8, d))` lies in [3, 8], equals `d` when `d` is already in range, and is 3 or 8 otherwise. |
| Render.SliderMaximumIsClamped | video_generator.py:206 | The slider's maximum of 10 seconds renders as 8. |
| Render.LoopCovers | video_generator.py:134-138 | For a piece shorter than the target, `int(total/d)+1` repetitions (at least 2) cover the target, and one fewer would not exceed it. |
| Render.Classify | video_generator.py:123-146 | Definition, no contract of its own: the three-way format test on the lower-cased path. `ClassifyBySuffixLists` and `ClassifyExamples` state its properties. |
| Render.ClassifyBySuffixLists | video_generator.py:123-146 | The case-insensitive format test: an image exactly when the lower-cased path ends with an image suffix, and a video exactly when it ends with no image suffix but a video suffix. |
| Render.ClassifyExamples | video_generator.py:123-146 | `X.JPEG` is an image and `clip.MoV` a video. A URL with a query string after `.jpeg` is skipped. |
| Render.MediaDuration | video_generator.py:119 | Each path's share is positive for a positive scene duration. |
| Render.PlanMedia | video_generator.py:122-148 | Definition, no contract of its own: what one path adds to the scene. `StepShape` and `StepSegment` state its properties. |
| Render.StepSegment | video_generator.py:123-143 | A path that adds a segment adds one that shows that path. An image is zoomed exactly when its raw position is even, and a video is a looped video. |
| Render.PlanSegments | video_generator.py:116-148 | Definition, no contract of its own: the loop over the paths, stopping at the first failure. `SegmentsOfPaths`, `SegmentsFollowPaths` and `FailurePersists` state its properties. |
| Render.SupportedIndices | video_generator.py:122-146 | The raw positions of the paths that the loop does not skip with `continue`: as many as there are supported paths, each in range and supported. |
| Render.SupportedIndicesOrdered | video_generator.py:122-146 | The supported positions come in increasing order, which is the selection order. |
| Render.SupportedIndicesComplete | video_generator.py:122-146 | Every supported position is listed. |
| Render.StepShape | video_generator.py:122-148 | For one path: <br>- Exactly the unsupported formats are skipped. <br>- Only a video of length zero fails. <br>- Each added segment lasts the path's share. <br>- A zoomed image is two halves of half the share each. |
| Render.VideoLoopsCover | video_generator.py:133-138 | A video shorter than its share is repeated often enough to last at least the share before the cut, and one copy fewer would not pass it. |
| Render.SegmentsOfPaths | video_generator.py:122-148 | One segment per supported path, each lasting the share of all paths. |
| Render.SegmentsFollowPaths | video_generator.py:122-148 | For any mix of images, videos and skipped files, segment `j` shows the `j`-th supported path in selection order. An image is zoomed exactly when its raw position among all paths is even, and a video is a looped video. |
| Render.FailurePersists | video_generator.py:134-135 | Once a path has failed (a zero-length video divides by zero), the whole scene fails. |
| Render.SceneShape | video_generator.py:114-176 | A scene plan always has a segment, its media never run past the scene, and its caption is the scene text at the bottom for the whole scene. |
| Render.AllSupportedFillScene | video_generator.py:119-148 | When every path is supported there is one segment of `duration/len(paths)` per path, and together they fill the scene exactly. |
| Render.NoUsableMediaIsBlack | video_generator.py:150-154 | With no usable path, the scene is a single black 1080×1920 segment lasting the whole scene. |
| Render.ScenePlanOf | video_generator.py:114-176 | Definition, no contract of its own: `create_scene_clip`'s plan, with the black background when no segment is left. `SceneShape`, `AllSupportedFillScene` and `NoUsableMediaIsBlack` state its properties. |
| Render.ImagesAlternateZoom | video_generator.py:122-129 | For images, the image at an even raw position is zoomed and the one at an odd position is not, in path order. |
| Render.TwoImagesExample | video_generator.py:99-129 | Two images in a five-second scene: 2.5 s each, the first zoomed in halves of 1.25 s. |
| Render.SkippedPathKeepsShareExample | video_generator.py:119-146 | After a `.gif`, one image gets half of a six-second scene at an odd position (no zoom). The caption still lasts six seconds. |
| Render.VideoGenerator.CreateSceneClip | video_generator.py:114-176 | The loop over the paths produces exactly the scene plan `ScenePlanOf`. |
| Render.BgmFor | video_generator.py:227-240 | Definition, no contract of its own: the music plan, or none when there is no existing file or the track has length zero. `BgmCoversVideo` states its properties. |
| Render.BgmCoversVideo | video_generator.py:227-238 | The music lasts exactly as long as the video, at volume 0.5. A short track is repeated just often enough to cover the video. |
| Render.BgmExample | video_generator.py:231-236 | A ten-second track under a 35-second video is played four times and cut to 35 seconds. |
| Render.LocalPaths | video_generator.py:200-202 | The media paths are the items' local paths, in selection order. |
| Render.CollectedInOrder | video_generator.py:196-210 | The scene clips come one per scene, in scene order, each with its scene's key and plan. |
| Render.CollectSucceeds | video_generator.py:196-210 | Collecting the scene clips succeeds exactly when no scene plan fails. |
| Render.SceneClipsPlans | video_generator.py:196-210 | Each scene clip holds the plan `create_scene_clip` makes for its own text and media at the clamped duration. |
| Render.SceneClipsFail | video_generator.py:196-210 | There are no scene clips exactly when the plan of some scene fails. |
| Render.BodyOfScenes | video_generator.py:196-210 | Every scene clip lasts the clamped duration and carries its scene's text as the caption. |
| Render.VideoGenerator.SceneClipsOf | video_generator.py:196-210 | The loop over the scenes yields exactly the collected scene clips, stopping at the first that fails. |
| Render.PlanVideo | video_generator.py:178-256 | Definition, no contract of its own: the whole plan of `generate_video`, or none when a scene fails. `PlanOrder`, `PlanDuration` and `PlanVideoOfBody` state its properties. |
| Render.Assemble | video_generator.py:224-256 | Definition, no contract of its own: the concatenation (none for no clips), the music for the total length and the output path. `PlanOrder` states its properties. |
| Render.PlanOrder | video_generator.py:178-224 | The clips are, in order: <br>- the title card (the first scene's text, 3 s) when enabled and there are scenes; <br>- one clip per scene in scene order, captioned with its text for the clamped duration; <br>- the ending card (the fixed text, 3 s) when enabled. <br>The file goes to the output directory. |
| Render.PlanDuration | video_generator.py:178-224 | The video lasts 3 s per card plus the clamped duration per scene, whatever media the scenes hold. |
| Render.ThreeScenesNoTitleExample | video_generator.py:183-221 | With no title, an ending and three scenes, there are four clips. |
| Render.VideoGenerator.GenerateVideo | video_generator.py:178-256 | `generate_video` for the generator's current settings gives exactly the plan `PlanVideo`. |

## Left out

- The Streamlit page is not modelled: layout, CSS, progress bar, previews, messages, sleeps and reruns. The sample scripts are only text constants.
- Bootstrapping is not modelled: environment loading, NLTK data downloads and `os.makedirs`. They are I/O.
- NLTK's `word_tokenize` (applied to the lower-cased text), the stopword corpora and the character class of `str.isalpha` come in as a `Lexicon` parameter. That is foreign code.
- media_search.py is not part of this model. A search is the result sequence it would return, and a download is its success flag.
- moviepy's pixel work is not modelled: text rasterisation (the rendered height is a `Probe` input), resizing, cropping, fades, compositing, concatenation and the encode. Only the plan and its arithmetic are modelled.
- The 1.05 zoom's own resize and crop are left out. That is floating-point scaling inside the library.
- ClipDuration: a scene clip is taken to last as long as its caption. moviepy makes a composite as long as its longest layer, and `SceneShape` proves that the media never run past the caption.
- Render.ImageFrame: the aspect test `w/h > 1080/1920` is taken exactly, as `w*1920 > 1080*h`. `int(a*b/c)` and the library's resize rounding are taken as floor division. Float rounding can differ from this only for extreme sizes.
- `uuid.uuid4()` and `time.time()` are inputs: the fresh name and the whole seconds.
- The `glob` listing of music files is an input (`available`). The file-size display on the output step is left out.
- Render.BgmFor: of the errors that the `try` around the music swallows, only a track of length zero is modelled (the loop count divides by zero). Any other decoding error would also leave the video silent.
- Render.BgmFor: the loop plan follows what the code means to do. The code passes audio clips to `concatenate_videoclips` (`video_generator.py:233`), which may itself raise. That error would also be swallowed and leave the video silent.
- Session.Session.GenerateVideo: `written` stands for `write_videofile` succeeding. Any exception there, like any other render failure, is caught by `generate_video` in app.py and leaves the wizard at step 3.
- The output step's check that the file exists is left out (it is file-system state). Both of its buttons are `BackToRender`.
- The aliasing of the search result dictionary is left out. `select_media_for_scene` writes `local_path` into the dictionary that the cache also holds. The model keeps values, so the cached result is not updated.
- Render.VideoGenerator.CreateSceneClip, Render.ScenePlanOf: require a positive scene duration. Their only caller passes the clamped duration, which is at least 3.
- Session.Session.SelectMediaForScene, Session.Session.RemoveMedia: require step 2, because their buttons exist only on that step. RemoveMedia also requires an index in range, because it is called only for a displayed item.
- PyText.AsciiLower: lower-cases ASCII letters only. Outside ASCII, Python's full `str.lower` turns the Kelvin sign (U+212A) into `k`, which no tested suffix contains, and `İ` (U+0130) into `i` followed by the combining mark U+0307. That mark always follows the `i` and ends no suffix, so no suffix can end at that `i`. The format test therefore gives the same answer as with the full `str.lower`.
