/** Script analysis (app.py `analyze_script`): the script is split into scenes
    and every scene gets an entry keyed `シーン1`, `シーン2`, ... holding its
    text and its five keywords.  The dictionary the source builds is kept as
    the sequence of its entries in insertion order. */
module Analysis {
  import opened PyText
  import opened Scenes
  import opened Keywords

  /** One value of the `scene_keywords` dictionary, with its key. */
  datatype SceneEntry = SceneEntry(id: string, text: string, keywords: seq<string>)

  /** How many keywords `extract_keywords` returns by default. */
  const KeywordsPerScene := 5

  const ScenePrefix := "シーン"

  /** The key of the scene at position `i`: `f"シーン{i+1}"`. */
  function SceneId(i: nat): (id: string)
    ensures |id| > |ScenePrefix| && id[..|ScenePrefix|] == ScenePrefix
    ensures id[|ScenePrefix|..] == Decimal(i + 1)
    ensures forall k :: 0 <= k < |id| ==> id[k] != '_'
  {
    ScenePrefix + Decimal(i + 1)
  }

  /** Scene keys of different positions differ. */
  lemma SceneIdInjective(i: nat, j: nat)
    requires SceneId(i) == SceneId(j)
    ensures i == j
  {
    var n := |ScenePrefix|;
    assert Decimal(i + 1) == SceneId(i)[n..] == SceneId(j)[n..] == Decimal(j + 1);
    DecimalInjective(i + 1, j + 1);
  }

  /** The entry `analyze_script` makes for the scene at position `i`. */
  function EntryFor(i: nat, scene: string, lex: Lexicon): SceneEntry
  {
    SceneEntry(SceneId(i), scene,
               Keywords.Keywords(ValidTokens(lex.tokenize(scene), lex.stopWords, lex.isLetter), KeywordsPerScene))
  }

  /** `analyze_script(script)`: the scenes, and one entry per scene in scene
      order. */
  method AnalyzeScript(script: string, lex: Lexicon) returns (scenes: seq<string>, entries: seq<SceneEntry>)
    ensures scenes == SplitIntoScenes(script)
    ensures |entries| == |scenes|
    ensures forall i :: 0 <= i < |entries| ==> entries[i] == EntryFor(i, scenes[i], lex)
  {
    scenes := SplitIntoScenes(script);
    entries := [];
    var i := 0;
    while i < |scenes|
      invariant 0 <= i <= |scenes|
      invariant |entries| == i
      invariant forall k :: 0 <= k < i ==> entries[k] == EntryFor(k, scenes[k], lex)
    {
      var keywords := ExtractKeywords(scenes[i], KeywordsPerScene, lex);
      var entry := SceneEntry(SceneId(i), scenes[i], keywords);
      assert entry == EntryFor(i, scenes[i], lex);
      EntriesExtend(scenes, i, lex, entries, entry);
      entries := entries + [entry];
      i := i + 1;
    }
  }

  /** The entries of the first `i` scenes, followed by the entry of scene `i`,
      are the entries of the first `i + 1` scenes. */
  lemma EntriesExtend(scenes: seq<string>, i: nat, lex: Lexicon, entries: seq<SceneEntry>, entry: SceneEntry)
    requires i < |scenes| && |entries| == i
    requires forall k :: 0 <= k < i ==> entries[k] == EntryFor(k, scenes[k], lex)
    requires entry == EntryFor(i, scenes[i], lex)
    ensures forall k :: 0 <= k < i + 1 ==> (entries + [entry])[k] == EntryFor(k, scenes[k], lex)
  {
    forall k | 0 <= k < i + 1
      ensures (entries + [entry])[k] == EntryFor(k, scenes[k], lex)
    {
      if k < i {
        assert (entries + [entry])[k] == entries[k];
      }
    }
  }

  /** The entries of an analysis, as a value. */
  function Entries(scenes: seq<string>, lex: Lexicon): (entries: seq<SceneEntry>)
    ensures |entries| == |scenes|
    ensures forall i :: 0 <= i < |scenes| ==> entries[i] == EntryFor(i, scenes[i], lex)
  {
    seq(|scenes|, i requires 0 <= i < |scenes| => EntryFor(i, scenes[i], lex))
  }

  /** The keys of the entries are pairwise distinct, so the dictionary has
      exactly one entry per scene. */
  lemma EntryIdsDistinct(scenes: seq<string>, lex: Lexicon)
    ensures var e := Entries(scenes, lex);
      forall i, j :: 0 <= i < j < |e| ==> e[i].id != e[j].id
  {
    var e := Entries(scenes, lex);
    forall i, j | 0 <= i < j < |e| ensures e[i].id != e[j].id {
      if e[i].id == e[j].id {
        SceneIdInjective(i, j);
      }
    }
  }

  /** Every entry's text is a clean scene and its keywords are at most five
      distinct valid tokens of that scene. */
  lemma EntriesAreClean(script: string, lex: Lexicon)
    ensures var scenes := SplitIntoScenes(script);
      var e := Entries(scenes, lex);
      forall i :: 0 <= i < |e| ==>
        && Stripped(e[i].text)
        && |e[i].keywords| <= KeywordsPerScene
        && Distinct(e[i].keywords)
  {
    var scenes := SplitIntoScenes(script);
    var e := Entries(scenes, lex);
    forall i | 0 <= i < |e|
      ensures |e[i].keywords| <= KeywordsPerScene && Distinct(e[i].keywords)
    {
      var valid := ValidTokens(lex.tokenize(scenes[i]), lex.stopWords, lex.isLetter);
      KeywordsLength(valid, KeywordsPerScene);
      KeywordsAreDistinctValidTokens(valid, KeywordsPerScene);
    }
  }
}
