/** Scene splitting (app.py `split_into_scenes`): the script is split with the
    regular expression `\n\s*\n`, each piece is stripped, and empty pieces are
    dropped.  The split follows Python's `re.split`: matches are searched left
    to right, do not overlap, and the greedy `\s*` backtracks to the last
    newline of the whitespace run that follows the first newline. */
module Scenes {
  import opened Wrappers
  import opened PyText

  /** A blank line of `s` from position `p` to position `q`: both hold a
      newline and everything between them is whitespace.  This is exactly a
      text that `\n\s*\n` matches, from its first to its last character. */
  predicate BlankLineAt(s: string, p: int, q: int)
  {
    0 <= p < q < |s| && s[p] == '\n' && s[q] == '\n' &&
    forall m :: p < m < q ==> IsSpace(s[m])
  }

  ghost predicate NoBlankLine(t: string)
  {
    forall p, q :: !BlankLineAt(t, p, q)
  }

  /** The last index in `[lo, hi)` that holds a newline, or `lo - 1`. */
  function LastNewline(s: string, lo: nat, hi: nat): (k: int)
    requires lo <= hi <= |s|
    ensures lo - 1 <= k < hi
    ensures k >= lo ==> s[k] == '\n'
    ensures forall m :: lo <= m < hi && k < m ==> s[m] != '\n'
    decreases hi - lo
  {
    if hi == lo then lo - 1
    else if s[hi - 1] == '\n' then hi - 1
    else LastNewline(s, lo, hi - 1)
  }

  /** A whitespace run that reaches `q` ends after it. */
  lemma {:induction false} SpaceRunPast(s: string, a: nat, q: nat)
    requires a <= q < |s|
    requires forall m :: a <= m < q ==> IsSpace(s[m])
    requires s[q] == '\n'
    ensures SpaceRunEnd(s, a) > q
    decreases q - a
  {
    if a < q {
      SpaceRunPast(s, a + 1, q);
    }
  }

  /** Where a match of `\n\s*\n` that starts at `i` ends, if one does: the
      match is a blank line, and the longest one starting at `i`. */
  function MatchEnd(s: string, i: nat): (e: Option<nat>)
    requires i < |s|
    ensures e.Some? ==> i + 2 <= e.value <= |s| && BlankLineAt(s, i, e.value - 1)
    ensures e.Some? ==> forall q :: BlankLineAt(s, i, q) ==> q < e.value
    ensures e.None? ==> forall q :: !BlankLineAt(s, i, q)
  {
    if s[i] != '\n' then None
    else
      var j := SpaceRunEnd(s, i + 1);
      var k := LastNewline(s, i + 1, j);
      assert forall q :: BlankLineAt(s, i, q) ==> q < j by {
        forall q | BlankLineAt(s, i, q) ensures q < j {
          SpaceRunPast(s, i + 1, q);
        }
      }
      if k >= i + 1 then Some(k + 1) else None
  }

  /** `re.split` from the piece that began at `start`, scanning at `i`. */
  function SplitFrom(s: string, start: nat, i: nat): (pieces: seq<string>)
    requires start <= i <= |s|
    ensures |pieces| > 0
    decreases |s| - i
  {
    if i == |s| then [s[start..]]
    else match MatchEnd(s, i)
      case Some(e) => [s[start..i]] + SplitFrom(s, e, e)
      case None => SplitFrom(s, start, i + 1)
  }

  /** The separators `re.split` removed, in order. */
  function SepsFrom(s: string, start: nat, i: nat): (seps: seq<string>)
    requires start <= i <= |s|
    ensures |seps| == |SplitFrom(s, start, i)| - 1
    decreases |s| - i
  {
    if i == |s| then []
    else match MatchEnd(s, i)
      case Some(e) => [s[i..e]] + SepsFrom(s, e, e)
      case None => SepsFrom(s, start, i + 1)
  }

  /** `re.split(r'\n\s*\n', s)`. */
  function RegexSplit(s: string): (pieces: seq<string>)
    ensures |pieces| > 0
  {
    SplitFrom(s, 0, 0)
  }

  function Separators(s: string): seq<string>
  {
    SepsFrom(s, 0, 0)
  }

  /** Concatenates pieces with the separators between them. */
  function Interleave(pieces: seq<string>, seps: seq<string>): string
    requires |pieces| == |seps| + 1
    decreases |seps|
  {
    if seps == [] then pieces[0] else pieces[0] + seps[0] + Interleave(pieces[1..], seps[1..])
  }

  /** `[p.strip() for p in pieces if p.strip()]`. */
  function StripNonEmpty(pieces: seq<string>): (r: seq<string>)
    ensures |r| <= |pieces|
    ensures forall k :: 0 <= k < |r| ==> Stripped(r[k])
    ensures (forall k :: 0 <= k < |pieces| ==> NoBlankLine(pieces[k])) ==>
              forall k :: 0 <= k < |r| ==> NoBlankLine(r[k])
  {
    if pieces == [] then []
    else
      var t := Strip(pieces[0]);
      var rest := StripNonEmpty(pieces[1..]);
      StripKeepsNoBlankLine(pieces[0]);
      if t == [] then rest else [t] + rest
  }

  /** `split_into_scenes(script)`. */
  function SplitIntoScenes(script: string): (scenes: seq<string>)
    ensures |scenes| <= |RegexSplit(script)|
    ensures forall k :: 0 <= k < |scenes| ==> Stripped(scenes[k])
  {
    StripNonEmpty(RegexSplit(script))
  }

  // ---------------------------------------------------------------------
  // Properties of the split

  lemma StripKeepsNoBlankLine(t: string)
    ensures NoBlankLine(t) ==> NoBlankLine(Strip(t))
  {
    var r, a := Strip(t), Lead(t);
    forall p, q ensures BlankLineAt(r, p, q) ==> BlankLineAt(t, a + p, a + q) {
      if BlankLineAt(r, p, q) {
        forall m | a + p < m < a + q ensures IsSpace(t[m]) { assert t[m] == r[m - a]; }
      }
    }
  }

  /** Skipping positions where no match starts does not change the split. */
  lemma {:induction false} SkipNoMatch(s: string, start: nat, i: nat, j: nat)
    requires start <= i <= j <= |s|
    requires forall p :: i <= p < j ==> MatchEnd(s, p).None?
    ensures SplitFrom(s, start, i) == SplitFrom(s, start, j)
    ensures SepsFrom(s, start, i) == SepsFrom(s, start, j)
    decreases j - i
  {
    if i < j {
      SkipNoMatch(s, start, i + 1, j);
      var m := MatchEnd(s, i);
      assert m.None?;
      assert SplitFrom(s, start, i) == SplitFrom(s, start, i + 1);
      assert SepsFrom(s, start, i) == SepsFrom(s, start, i + 1);
    }
  }

  /** The pieces and the separators rebuild the text they came from. */
  lemma {:induction false} SplitFromRebuilds(s: string, start: nat, i: nat)
    requires start <= i <= |s|
    ensures Interleave(SplitFrom(s, start, i), SepsFrom(s, start, i)) == s[start..]
    decreases |s| - i
  {
    if i < |s| {
      match MatchEnd(s, i)
      case Some(e) =>
        SplitFromRebuilds(s, e, e);
        SliceSplit3(s, start, i, e);
      case None =>
        SplitFromRebuilds(s, start, i + 1);
    }
  }

  lemma {:induction false} SepsAreBlankLines(s: string, start: nat, i: nat)
    requires start <= i <= |s|
    ensures forall k :: 0 <= k < |SepsFrom(s, start, i)| ==>
              var t := SepsFrom(s, start, i)[k]; BlankLineAt(t, 0, |t| - 1)
    decreases |s| - i
  {
    if i < |s| {
      match MatchEnd(s, i)
      case Some(e) =>
        SepsAreBlankLines(s, e, e);
        var t := s[i..e];
        assert BlankLineAt(t, 0, |t| - 1) by {
          forall m | 0 < m < |t| - 1 ensures IsSpace(t[m]) { assert t[m] == s[i + m]; }
        }
      case None =>
        SepsAreBlankLines(s, start, i + 1);
    }
  }

  /** `re.split` is undone by joining its pieces with the separators it
      removed, and every separator is a blank line. */
  lemma RegexSplitRebuilds(s: string)
    ensures |Separators(s)| == |RegexSplit(s)| - 1
    ensures Interleave(RegexSplit(s), Separators(s)) == s
    ensures forall k :: 0 <= k < |Separators(s)| ==>
              var t := Separators(s)[k]; BlankLineAt(t, 0, |t| - 1)
  {
    SplitFromRebuilds(s, 0, 0);
    SepsAreBlankLines(s, 0, 0);
  }

  /** No piece of the split contains a blank line. */
  lemma {:induction false} PiecesHaveNoBlankLine(s: string, start: nat, i: nat)
    requires start <= i <= |s|
    requires forall p :: start <= p < i ==> MatchEnd(s, p).None?
    ensures forall k :: 0 <= k < |SplitFrom(s, start, i)| ==> NoBlankLine(SplitFrom(s, start, i)[k])
    decreases |s| - i
  {
    if i == |s| {
      PrefixWithoutMatchHasNoBlankLine(s, start, |s|);
      assert s[start..] == s[start..|s|];
    } else {
      match MatchEnd(s, i)
      case Some(e) =>
        PrefixWithoutMatchHasNoBlankLine(s, start, i);
        PiecesHaveNoBlankLine(s, e, e);
      case None =>
        PiecesHaveNoBlankLine(s, start, i + 1);
    }
  }

  lemma PrefixWithoutMatchHasNoBlankLine(s: string, start: nat, i: nat)
    requires start <= i <= |s|
    requires forall p :: start <= p < i ==> MatchEnd(s, p).None?
    ensures NoBlankLine(s[start..i])
  {
    var t := s[start..i];
    forall p, q ensures BlankLineAt(t, p, q) ==>
                          BlankLineAt(s, start + p, start + q) && MatchEnd(s, start + p).None? {
      if BlankLineAt(t, p, q) {
        forall m | start + p < m < start + q ensures IsSpace(s[m]) { assert s[m] == t[m - start]; }
      }
    }
  }

  /** Every scene is non-empty, has no leading or trailing whitespace, and
      contains no blank line. */
  lemma ScenesAreClean(script: string)
    ensures forall k :: 0 <= k < |SplitIntoScenes(script)| ==>
              var sc := SplitIntoScenes(script)[k];
              Stripped(sc) && NoBlankLine(sc)
  {
    PiecesHaveNoBlankLine(script, 0, 0);
  }

  lemma {:induction false} AllSpacePieces(s: string, start: nat, i: nat)
    requires start <= i <= |s|
    requires AllSpace(s[start..])
    ensures forall k :: 0 <= k < |SplitFrom(s, start, i)| ==> AllSpace(SplitFrom(s, start, i)[k])
    decreases |s| - i
  {
    if i < |s| {
      match MatchEnd(s, i)
      case Some(e) =>
        assert AllSpace(s[start..i]) by {
          forall m | 0 <= m < i - start ensures IsSpace(s[start..i][m]) { assert s[start..i][m] == s[start..][m]; }
        }
        assert AllSpace(s[e..]) by {
          forall m | 0 <= m < |s| - e ensures IsSpace(s[e..][m]) { assert s[e..][m] == s[start..][m + e - start]; }
        }
        AllSpacePieces(s, e, e);
      case None =>
        AllSpacePieces(s, start, i + 1);
    }
  }

  lemma {:induction false} StripAllSpace(pieces: seq<string>)
    requires forall k :: 0 <= k < |pieces| ==> AllSpace(pieces[k])
    ensures StripNonEmpty(pieces) == []
  {
    if pieces != [] { StripAllSpace(pieces[1..]); }
  }

  /** A script of whitespace only has no scenes. */
  lemma WhitespaceScriptHasNoScenes(script: string)
    requires AllSpace(script)
    ensures SplitIntoScenes(script) == []
  {
    assert script[0..] == script;
    AllSpacePieces(script, 0, 0);
    StripAllSpace(RegexSplit(script));
  }

  /** A script without a blank line is one scene: the stripped script, or
      none when the script is whitespace only. */
  lemma SingleSceneScript(script: string)
    requires NoBlankLine(script)
    ensures RegexSplit(script) == [script]
    ensures !AllSpace(script) ==> SplitIntoScenes(script) == [Strip(script)]
  {
    SkipNoMatch(script, 0, 0, |script|);
    assert script[0..] == script;
  }

  lemma StripOfStripped(t: string)
    requires Stripped(t)
    ensures Strip(t) == t
  {
    assert Lead(t) == 0 && SpaceRunStart(t, |t|) == |t|;
    assert t[0..|t|] == t;
  }

  /** No match starts where there is no newline. */
  lemma NoMatchWithoutNewline(s: string, lo: nat, hi: nat)
    requires lo <= hi <= |s|
    requires forall p :: lo <= p < hi ==> s[p] != '\n'
    ensures forall p :: lo <= p < hi ==> MatchEnd(s, p).None?
  {
  }

  /** Two newlines followed by a non-space character are a match. */
  lemma DoubleNewlineMatch(s: string, n: nat)
    requires n + 2 < |s| && s[n] == '\n' && s[n + 1] == '\n' && !IsSpace(s[n + 2])
    ensures MatchEnd(s, n) == Some(n + 2)
  {
    assert SpaceRunEnd(s, n + 2) == n + 2;
    assert SpaceRunEnd(s, n + 1) == n + 2;
    assert LastNewline(s, n + 1, n + 2) == n + 1;
  }

  /** Two lines separated by one empty line give two pieces. */
  lemma {:induction false} TwoPieces(a: string, b: string)
    requires '\n' !in a && '\n' !in b && b != [] && !IsSpace(b[0])
    ensures RegexSplit(a + "\n\n" + b) == [a, b]
  {
    var s := a + "\n\n" + b;
    var n := |a|;
    assert forall p :: 0 <= p < n ==> s[p] == a[p];
    NoMatchWithoutNewline(s, 0, n);
    SkipNoMatch(s, 0, 0, n);
    assert s[n] == '\n' && s[n + 1] == '\n' && s[n + 2] == b[0];
    DoubleNewlineMatch(s, n);
    assert forall p :: n + 2 <= p < |s| ==> s[p] == b[p - n - 2];
    NoMatchWithoutNewline(s, n + 2, |s|);
    SkipNoMatch(s, n + 2, n + 2, |s|);
    assert SplitFrom(s, 0, n) == [s[..n]] + SplitFrom(s, n + 2, n + 2);
    assert s[..n] == a && s[n + 2..] == b;
  }

  /** Every piece stripped. */
  function Strips(pieces: seq<string>): (ss: seq<string>)
    ensures |ss| == |pieces|
  {
    seq(|pieces|, i requires 0 <= i < |pieces| => Strip(pieces[i]))
  }

  /** The non-empty strings among the first `k` of `ss`, in order. */
  function KeepNonEmpty(ss: seq<string>, k: nat): seq<string>
    requires k <= |ss|
  {
    if k == 0 then [] else KeepNonEmpty(ss, k - 1) + (if ss[k - 1] == [] then [] else [ss[k - 1]])
  }

  /** The positions, among the first `k`, of the non-empty strings of `ss`. */
  function NonEmptyIndices(ss: seq<string>, k: nat): (ix: seq<nat>)
    requires k <= |ss|
    ensures |ix| <= k
    ensures forall j :: 0 <= j < |ix| ==> ix[j] < k && ss[ix[j]] != []
    ensures forall a, b :: 0 <= a < b < |ix| ==> ix[a] < ix[b]
  {
    if k == 0 then [] else NonEmptyIndices(ss, k - 1) + (if ss[k - 1] == [] then [] else [k - 1])
  }

  /** No non-empty string is left out. */
  lemma {:induction false} NonEmptyIndicesComplete(ss: seq<string>, k: nat, m: nat)
    requires m < k <= |ss| && ss[m] != []
    ensures m in NonEmptyIndices(ss, k)
  {
    var ix0 := NonEmptyIndices(ss, k - 1);
    if m < k - 1 {
      assert m in ix0 by {
        NonEmptyIndicesComplete(ss, k - 1, m);
      }
    }
    assert NonEmptyIndices(ss, k) == ix0 + (if ss[k - 1] == [] then [] else [k - 1]);
  }

  /** The elements of `xs` at the positions `ix`, in that order. */
  function Pick<T>(xs: seq<T>, ix: seq<nat>): (r: seq<T>)
    requires forall j :: 0 <= j < |ix| ==> ix[j] < |xs|
    ensures |r| == |ix|
    ensures forall j :: 0 <= j < |ix| ==> r[j] == xs[ix[j]]
  {
    seq(|ix|, j requires 0 <= j < |ix| => xs[ix[j]])
  }

  /** Keeping the non-empty strings picks them at their positions. */
  lemma {:induction false} KeepNonEmptyPicks(ss: seq<string>, k: nat)
    requires k <= |ss|
    ensures KeepNonEmpty(ss, k) == Pick(ss, NonEmptyIndices(ss, k))
  {
    if k > 0 {
      var ix0 := NonEmptyIndices(ss, k - 1);
      assert KeepNonEmpty(ss, k - 1) == Pick(ss, ix0) by {
        KeepNonEmptyPicks(ss, k - 1);
      }
      if ss[k - 1] != [] {
        var ix := ix0 + [k - 1];
        assert NonEmptyIndices(ss, k) == ix;
        assert Pick(ss, ix) == Pick(ss, ix0) + [ss[k - 1]];
      } else {
        assert NonEmptyIndices(ss, k) == ix0;
      }
    }
  }

  /** One piece gives its stripped self, or nothing when that is empty. */
  lemma StripNonEmptyOne(p: string)
    ensures StripNonEmpty([p]) == if Strip(p) == [] then [] else [Strip(p)]
  {
    assert [p][1..] == [];
  }

  /** The comprehension works piece by piece, in order. */
  lemma {:induction false} StripNonEmptyAppend(a: seq<string>, b: seq<string>)
    ensures StripNonEmpty(a + b) == StripNonEmpty(a) + StripNonEmpty(b)
  {
    if a == [] {
      assert a + b == b;
    } else {
      assert (a + b)[1..] == a[1..] + b;
      StripNonEmptyAppend(a[1..], b);
    }
  }

  lemma StripNonEmptyLast(pieces: seq<string>, k: nat)
    requires 0 < k <= |pieces|
    ensures StripNonEmpty(pieces[..k]) == StripNonEmpty(pieces[..k - 1]) + StripNonEmpty([pieces[k - 1]])
  {
    var a, b := pieces[..k - 1], [pieces[k - 1]];
    assert pieces[..k] == a + b;
    StripNonEmptyAppend(a, b);
  }

  /** The comprehension over the first `k` pieces keeps the non-empty
      stripped pieces. */
  lemma {:induction false} StripNonEmptyKeeps(pieces: seq<string>, k: nat)
    requires k <= |pieces|
    ensures StripNonEmpty(pieces[..k]) == KeepNonEmpty(Strips(pieces), k)
  {
    if k > 0 {
      var ss := Strips(pieces);
      assert StripNonEmpty(pieces[..k - 1]) == KeepNonEmpty(ss, k - 1) by {
        StripNonEmptyKeeps(pieces, k - 1);
      }
      assert StripNonEmpty([pieces[k - 1]]) == if ss[k - 1] == [] then [] else [ss[k - 1]] by {
        StripNonEmptyOne(pieces[k - 1]);
      }
      StripNonEmptyLast(pieces, k);
    }
  }

  /** Item `j` of the comprehension is the stripped `j`-th piece that is
      not blank, and every piece left out is whitespace only. */
  lemma StripNonEmptyPieces(pieces: seq<string>)
    ensures var r, ix := StripNonEmpty(pieces), NonEmptyIndices(Strips(pieces), |pieces|);
      && |r| == |ix|
      && (forall j :: 0 <= j < |ix| ==> ix[j] < |pieces| && !AllSpace(pieces[ix[j]]) && r[j] == Strip(pieces[ix[j]]))
      && (forall m :: 0 <= m < |pieces| && m !in ix ==> AllSpace(pieces[m]))
  {
    var ss := Strips(pieces);
    var ix := NonEmptyIndices(ss, |pieces|);
    var r := StripNonEmpty(pieces);
    assert r == Pick(ss, ix) by {
      assert pieces[..|pieces|] == pieces;
      StripNonEmptyKeeps(pieces, |pieces|);
      KeepNonEmptyPicks(ss, |pieces|);
    }
    forall j | 0 <= j < |ix| ensures !AllSpace(pieces[ix[j]]) && r[j] == Strip(pieces[ix[j]]) {
      assert ss[ix[j]] == Strip(pieces[ix[j]]) != [];
    }
    forall m | 0 <= m < |pieces| && m !in ix ensures AllSpace(pieces[m]) {
      if ss[m] != [] {
        NonEmptyIndicesComplete(ss, |pieces|, m);
      }
      assert ss[m] == Strip(pieces[m]);
    }
  }

  /** The scenes are the regex pieces that are not blank, stripped and in
      order, and every piece left out is whitespace only.  With
      `RegexSplitRebuilds`, the script is its scenes in order with only
      whitespace and blank lines around and between them. */
  lemma ScenesArePieces(script: string)
    ensures var pieces := RegexSplit(script);
      var scenes, ix := SplitIntoScenes(script), NonEmptyIndices(Strips(pieces), |pieces|);
      && |scenes| == |ix|
      && (forall j :: 0 <= j < |ix| ==> ix[j] < |pieces| && !AllSpace(pieces[ix[j]]) && scenes[j] == Strip(pieces[ix[j]]))
      && (forall a, b :: 0 <= a < b < |ix| ==> ix[a] < ix[b])
      && (forall m :: 0 <= m < |pieces| && m !in ix ==> AllSpace(pieces[m]))
  {
    StripNonEmptyPieces(RegexSplit(script));
  }

  /** Two lines separated by one empty line give two scenes. */
  lemma TwoScenes(a: string, b: string)
    requires '\n' !in a && '\n' !in b
    requires Stripped(a) && Stripped(b)
    ensures SplitIntoScenes(a + "\n\n" + b) == [a, b]
  {
    TwoPieces(a, b);
    StripOfStripped(a);
    StripOfStripped(b);
    assert [b][1..] == [];
    assert StripNonEmpty([b]) == [b];
    assert [a, b][1..] == [b];
    assert StripNonEmpty([a, b]) == [a, b];
  }

  /** Two one-line scenes separated by a blank line. */
  lemma HelloWorldExample()
    ensures SplitIntoScenes("Hello world." + "\n\n" + "Second scene here.") == ["Hello world.", "Second scene here."]
  {
    TwoScenes("Hello world.", "Second scene here.");
  }
}
