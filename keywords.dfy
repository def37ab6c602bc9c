/** Keyword extraction (app.py `extract_keywords`): tokens that are alphabetic
    and not stopwords are counted in an insertion-ordered dictionary, the
    (word, count) pairs are stably sorted by count, highest first, and the
    words of the first `num_keywords` pairs are returned. */
module Keywords {
  import opened PyText

  /** The language resources the analysis is given: NLTK's `word_tokenize`
      applied to the lower-cased text, the stopword corpora, and the
      character class behind `str.isalpha`. */
  datatype Lexicon = Lexicon(
    tokenize: string -> seq<string>,
    stopWords: set<string>,
    isLetter: char -> bool)

  /** A word and its frequency, as in `word_freq.items()`. */
  type Item = (string, nat)

  /** `[t for t in tokens if t.isalpha()]` followed by
      `[t for t in tokens if t not in stop_words]`. */
  function ValidTokens(tokens: seq<string>, stopWords: set<string>, isLetter: char -> bool): (r: seq<string>)
    ensures forall w :: w in r <==> w in tokens && IsAlpha(w, isLetter) && w !in stopWords
    ensures |r| <= |tokens|
  {
    if tokens == [] then []
    else
      var rest := ValidTokens(tokens[1..], stopWords, isLetter);
      if IsAlpha(tokens[0], isLetter) && tokens[0] !in stopWords then [tokens[0]] + rest else rest
  }

  /** How often `w` occurs in `s`. */
  function Count(s: seq<string>, w: string): nat
  {
    if s == [] then 0 else Count(s[..|s| - 1], w) + (if s[|s| - 1] == w then 1 else 0)
  }

  /** The first index of `x` in `s`, or `|s|` when it is absent. */
  function IndexOf<T(==)>(s: seq<T>, x: T): (k: nat)
    ensures k <= |s|
    ensures k < |s| <==> x in s
    ensures k < |s| ==> s[k] == x
    ensures forall j :: 0 <= j < k ==> s[j] != x
  {
    if s == [] then 0 else if s[0] == x then 0 else 1 + IndexOf(s[1..], x)
  }

  /** `Count` from the front: the first element counts once when it is `w`. */
  lemma {:induction false} CountPrepend(x: string, s: seq<string>, w: string)
    ensures Count([x] + s, w) == (if x == w then 1 else 0) + Count(s, w)
  {
    var t := [x] + s;
    if s == [] {
      assert t[..0] == [];
    } else {
      assert t[..|t| - 1] == [x] + s[..|s| - 1];
      CountPrepend(x, s[..|s| - 1], w);
    }
  }

  /** The two filters keep every occurrence of a valid word and drop every
      occurrence of any other. */
  lemma {:induction false} ValidTokensCount(tokens: seq<string>, stopWords: set<string>, isLetter: char -> bool, w: string)
    ensures Count(ValidTokens(tokens, stopWords, isLetter), w) ==
      if IsAlpha(w, isLetter) && w !in stopWords then Count(tokens, w) else 0
  {
    if tokens != [] {
      var rest := ValidTokens(tokens[1..], stopWords, isLetter);
      ValidTokensCount(tokens[1..], stopWords, isLetter, w);
      assert tokens == [tokens[0]] + tokens[1..];
      CountPrepend(tokens[0], tokens[1..], w);
      if IsAlpha(tokens[0], isLetter) && tokens[0] !in stopWords {
        CountPrepend(tokens[0], rest, w);
      }
    }
  }

  /** The filters keep the tokens in order: two valid words first occur in
      the filtered list in the order in which they first occur in the text. */
  lemma {:induction false} ValidTokensKeepOrder(tokens: seq<string>, stopWords: set<string>, isLetter: char -> bool,
                                                u: string, v: string)
    requires u in ValidTokens(tokens, stopWords, isLetter) && v in ValidTokens(tokens, stopWords, isLetter)
    ensures var r := ValidTokens(tokens, stopWords, isLetter);
      IndexOf(r, u) < IndexOf(r, v) <==> IndexOf(tokens, u) < IndexOf(tokens, v)
  {
    var t := tokens[0];
    var rest := ValidTokens(tokens[1..], stopWords, isLetter);
    if IsAlpha(t, isLetter) && t !in stopWords {
      if u != t && v != t {
        ValidTokensKeepOrder(tokens[1..], stopWords, isLetter, u, v);
      }
    } else {
      ValidTokensKeepOrder(tokens[1..], stopWords, isLetter, u, v);
    }
  }

  predicate Distinct<T(==)>(s: seq<T>)
  {
    forall i, j :: 0 <= i < j < |s| ==> s[i] != s[j]
  }

  /** The distinct words of `s` in order of first occurrence: the keys of the
      dictionary the counting loop fills. */
  function FirstOccurrences(s: seq<string>): (d: seq<string>)
    ensures forall w :: w in d <==> w in s
    ensures Distinct(d)
  {
    if s == [] then []
    else
      var d0 := FirstOccurrences(s[..|s| - 1]);
      var x := s[|s| - 1];
      assert forall w :: w in s <==> w in s[..|s| - 1] || w == x by {
        assert s == s[..|s| - 1] + [x];
      }
      if x in d0 then d0 else d0 + [x]
  }

  /** `word_freq.items()` after counting `valid`. */
  function Items(valid: seq<string>): (items: seq<Item>)
    ensures |items| == |FirstOccurrences(valid)|
  {
    var d := FirstOccurrences(valid);
    seq(|d|, k requires 0 <= k < |d| => (d[k], Count(valid, d[k])))
  }

  /** One step of a stable sort by count, highest first: `x`, which comes
      after every element of `t` in the input, goes behind every element
      whose count is at least its own. */
  function InsertByCount(x: Item, t: seq<Item>): (r: seq<Item>)
    ensures |r| == |t| + 1
  {
    if t == [] then [x]
    else if t[0].1 < x.1 then [x] + t
    else [t[0]] + InsertByCount(x, t[1..])
  }

  /** Insertion adds `x` and loses nothing. */
  lemma {:induction false} InsertPermutes(x: Item, t: seq<Item>)
    ensures multiset(InsertByCount(x, t)) == multiset(t) + multiset{x}
  {
    if t != [] && t[0].1 >= x.1 {
      InsertPermutes(x, t[1..]);
      assert t == [t[0]] + t[1..];
    }
  }

  /** `sorted(items, key=lambda x: x[1], reverse=True)`: Python's sort is
      stable, also in reverse, so equal counts keep their input order. */
  function SortByCountDesc(items: seq<Item>): (r: seq<Item>)
    ensures |r| == |items|
  {
    if items == [] then []
    else InsertByCount(items[|items| - 1], SortByCountDesc(items[..|items| - 1]))
  }

  /** The sort is a permutation of its input. */
  lemma {:induction false} SortPermutes(items: seq<Item>)
    ensures multiset(SortByCountDesc(items)) == multiset(items)
  {
    if items != [] {
      var init := items[..|items| - 1];
      SortPermutes(init);
      InsertPermutes(items[|items| - 1], SortByCountDesc(init));
      assert items == init + [items[|items| - 1]];
    }
  }

  /** Python's `s[:n]`, including a negative `n`, which counts from the end. */
  function PyPrefix<T>(s: seq<T>, n: int): (r: seq<T>)
    ensures n >= 0 ==> |r| == if n <= |s| then n else |s|
    ensures n < 0 ==> |r| == if |s| + n >= 0 then |s| + n else 0
    ensures r == s[..|r|]
  {
    if n >= 0 then (if n <= |s| then s[..n] else s)
    else if |s| + n >= 0 then s[..|s| + n] else []
  }

  function Words(items: seq<Item>): (ws: seq<string>)
    ensures |ws| == |items|
    ensures forall k :: 0 <= k < |items| ==> ws[k] == items[k].0
  {
    seq(|items|, k requires 0 <= k < |items| => items[k].0)
  }

  /** What `extract_keywords` returns for the valid tokens `valid`. */
  function Keywords(valid: seq<string>, numKeywords: int): seq<string>
  {
    Words(PyPrefix(SortByCountDesc(Items(valid)), numKeywords))
  }

  /** `extract_keywords(text, num_keywords)`. */
  method ExtractKeywords(text: string, numKeywords: int, lex: Lexicon) returns (keywords: seq<string>)
    ensures keywords == Keywords(ValidTokens(lex.tokenize(text), lex.stopWords, lex.isLetter), numKeywords)
  {
    var valid := ValidTokens(lex.tokenize(text), lex.stopWords, lex.isLetter);
    var order, wordFreq := CountWords(valid);
    var items := DictItems(order, wordFreq);
    DictItemsAfterCounting(valid, order, wordFreq);
    keywords := Words(PyPrefix(SortByCountDesc(items), numKeywords));
  }

  /** The counting loop of `extract_keywords`, which fills an insertion-ordered
      dictionary, modelled as its key order and a map. */
  method CountWords(valid: seq<string>) returns (order: seq<string>, wordFreq: map<string, nat>)
    ensures order == FirstOccurrences(valid)
    ensures forall w :: w in wordFreq <==> w in valid
    ensures forall w :: w in wordFreq ==> wordFreq[w] == Count(valid, w)
  {
    order, wordFreq := [], map[];
    var i := 0;
    while i < |valid|
      invariant 0 <= i <= |valid|
      invariant Counted(valid[..i], order, wordFreq)
    {
      var token := valid[i];
      var order', wordFreq' := order, wordFreq;
      if token in wordFreq {
        wordFreq' := wordFreq[token := wordFreq[token] + 1];
      } else {
        order' := order + [token];
        wordFreq' := wordFreq[token := 1];
      }
      CountStep(valid, i, order, wordFreq, order', wordFreq');
      order, wordFreq, i := order', wordFreq', i + 1;
    }
    assert valid[..i] == valid;
  }

  /** The dictionary, with key order `order` and contents `freq`, holds the
      counts of the words of `s`. */
  ghost predicate Counted(s: seq<string>, order: seq<string>, freq: map<string, nat>)
  {
    && order == FirstOccurrences(s)
    && (forall w :: w in freq <==> w in s)
    && (forall w :: w in freq ==> freq[w] == Count(s, w))
  }

  /** One iteration of the counting loop keeps the dictionary right. */
  lemma CountStep(s: seq<string>, i: nat, order: seq<string>, freq: map<string, nat>,
                  order': seq<string>, freq': map<string, nat>)
    requires i < |s|
    requires Counted(s[..i], order, freq)
    requires order' == if s[i] in freq then order else order + [s[i]]
    requires freq' == if s[i] in freq then freq[s[i] := freq[s[i]] + 1] else freq[s[i] := 1]
    ensures Counted(s[..i + 1], order', freq')
  {
    assert s[i] in freq <==> s[i] in s[..i];
    assert order' == FirstOccurrences(s[..i + 1]) by {
      FirstOccurrencesStep(s, i);
    }
    FrequencyStep(s, i, freq, freq');
  }

  /** Counting one more token appends it to the key order when it is new. */
  lemma FirstOccurrencesStep(s: seq<string>, i: nat)
    requires i < |s|
    ensures FirstOccurrences(s[..i + 1]) ==
      if s[i] in s[..i] then FirstOccurrences(s[..i]) else FirstOccurrences(s[..i]) + [s[i]]
  {
    var t := s[..i + 1];
    assert t[..|t| - 1] == s[..i];
  }

  /** `d.items()` for a dictionary with key order `order` and contents `freq`. */
  function DictItems(order: seq<string>, freq: map<string, nat>): (items: seq<Item>)
    requires forall k :: 0 <= k < |order| ==> order[k] in freq
    ensures |items| == |order|
    ensures forall k :: 0 <= k < |order| ==> items[k] == (order[k], freq[order[k]])
  {
    seq(|order|, k requires 0 <= k < |order| => (order[k], freq[order[k]]))
  }

  lemma DictItemsAfterCounting(valid: seq<string>, order: seq<string>, freq: map<string, nat>)
    requires order == FirstOccurrences(valid)
    requires forall w :: w in freq <==> w in valid
    requires forall w :: w in freq ==> freq[w] == Count(valid, w)
    ensures DictItems(order, freq) == Items(valid)
  {
  }

  /** The dictionary update of one loop iteration keeps the counts right. */
  lemma FrequencyStep(s: seq<string>, i: nat, freq: map<string, nat>, f: map<string, nat>)
    requires i < |s|
    requires forall w :: w in freq <==> w in s[..i]
    requires forall w :: w in freq ==> freq[w] == Count(s[..i], w)
    requires f == if s[i] in freq then freq[s[i] := freq[s[i]] + 1] else freq[s[i] := 1]
    ensures forall w :: w in f <==> w in s[..i + 1]
    ensures forall w :: w in f ==> f[w] == Count(s[..i + 1], w)
  {
    CountingStep(s, i);
    forall w | w in f ensures f[w] == Count(s[..i + 1], w) {
      if w == s[i] {
        assert Count(s[..i + 1], w) == Count(s[..i], w) + 1;
        if s[i] !in freq {
          assert s[i] !in s[..i];
          CountAbsent(s[..i], w);
        }
      } else {
        assert Count(s[..i + 1], w) == Count(s[..i], w);
      }
    }
  }

  lemma {:induction false} CountAbsent(s: seq<string>, w: string)
    requires w !in s
    ensures Count(s, w) == 0
  {
    if s != [] {
      assert w !in s[..|s| - 1];
      CountAbsent(s[..|s| - 1], w);
    }
  }

  /** What one more token does to the membership and the counts. */
  lemma CountingStep(s: seq<string>, i: nat)
    requires i < |s|
    ensures forall w :: w in s[..i + 1] <==> w in s[..i] || w == s[i]
    ensures forall w :: Count(s[..i + 1], w) == Count(s[..i], w) + (if w == s[i] then 1 else 0)
  {
    assert s[..i + 1] == s[..i] + [s[i]];
  }

  // ---------------------------------------------------------------------
  // The order the sort produces

  /** `a` goes before `b`: a higher count, or the same count and an earlier
      position in `full`. */
  predicate Precedes(full: seq<Item>, a: Item, b: Item)
  {
    a.1 > b.1 || (a.1 == b.1 && IndexOf(full, a) < IndexOf(full, b))
  }

  predicate RankedBy(full: seq<Item>, t: seq<Item>)
  {
    forall i, j :: 0 <= i < j < |t| ==> Precedes(full, t[i], t[j])
  }

  /** Every item of `t` comes before `x` in `full`. */
  predicate AllBefore(full: seq<Item>, t: seq<Item>, x: Item)
  {
    forall m :: 0 <= m < |t| ==> IndexOf(full, t[m]) < IndexOf(full, x)
  }

  lemma {:induction false} InsertRanked(full: seq<Item>, x: Item, t: seq<Item>)
    requires RankedBy(full, t)
    requires AllBefore(full, t, x)
    ensures RankedBy(full, InsertByCount(x, t))
  {
    var r := InsertByCount(x, t);
    if t != [] && t[0].1 >= x.1 {
      var r' := InsertByCount(x, t[1..]);
      InsertRanked(full, x, t[1..]);
      InsertPermutes(x, t[1..]);
      forall j | 0 <= j < |r'| ensures Precedes(full, t[0], r'[j]) {
        assert r'[j] in multiset(r');
        if r'[j] != x {
          assert r'[j] in multiset(t[1..]);
          var m :| 0 <= m < |t[1..]| && t[1..][m] == r'[j];
          assert t[1 + m] == r'[j];
        }
      }
      assert r == [t[0]] + r';
    }
  }

  /** Sorting a prefix of `full` ranks it by count, then by position. */
  lemma {:induction false} SortPrefixRanked(full: seq<Item>, k: nat)
    requires Distinct(full)
    requires k <= |full|
    ensures RankedBy(full, SortByCountDesc(full[..k]))
  {
    if k > 0 {
      var t := SortByCountDesc(full[..k - 1]);
      var p := full[..k];
      assert SortByCountDesc(p) == InsertByCount(full[k - 1], t) by {
        assert p[..|p| - 1] == full[..k - 1];
      }
      assert RankedBy(full, t) by {
        SortPrefixRanked(full, k - 1);
      }
      assert AllBefore(full, t, full[k - 1]) by {
        SortPermutes(full[..k - 1]);
        EarlierInFull(full, k - 1, t);
      }
      InsertRanked(full, full[k - 1], t);
    }
  }

  /** A rearrangement of the first `k` items of `full` holds only items that
      come before item `k`. */
  lemma EarlierInFull(full: seq<Item>, k: nat, t: seq<Item>)
    requires Distinct(full) && k < |full|
    requires multiset(t) == multiset(full[..k])
    ensures AllBefore(full, t, full[k])
  {
    assert IndexOf(full, full[k]) == k;
    forall m | 0 <= m < |t| ensures IndexOf(full, t[m]) < IndexOf(full, full[k]) {
      assert t[m] in multiset(full[..k]);
      var a :| 0 <= a < k && full[..k][a] == t[m];
      assert full[a] == t[m];
    }
  }

  /** The sort puts higher counts first and keeps the input order among
      equal counts. */
  lemma SortOrder(items: seq<Item>)
    requires Distinct(items)
    ensures RankedBy(items, SortByCountDesc(items))
  {
    assert items[..|items|] == items;
    SortPrefixRanked(items, |items|);
  }

  // ---------------------------------------------------------------------
  // First occurrences and counts

  lemma {:induction false} PrefixIndexOf<T>(a: seq<T>, b: seq<T>, x: T)
    requires x in a
    ensures IndexOf(a + b, x) == IndexOf(a, x)
  {
    if a[0] != x {
      assert (a + b)[1..] == a[1..] + b;
      PrefixIndexOf(a[1..], b, x);
    }
  }

  /** The dictionary keys come in the order in which the words first occur. */
  lemma {:induction false} FirstOccurrenceOrder(s: seq<string>, i: nat, j: nat)
    requires i < j < |FirstOccurrences(s)|
    ensures IndexOf(s, FirstOccurrences(s)[i]) < IndexOf(s, FirstOccurrences(s)[j])
  {
    var init, x := s[..|s| - 1], s[|s| - 1];
    var d0, d := FirstOccurrences(init), FirstOccurrences(s);
    assert s == init + [x];
    assert d == d0 || d == d0 + [x];
    assert d[i] == d0[i] && d0[i] in init;
    PrefixIndexOf(init, [x], d0[i]);
    if j < |d0| {
      assert d[j] == d0[j] && d0[j] in init;
      FirstOccurrenceOrder(init, i, j);
      PrefixIndexOf(init, [x], d0[j]);
    } else {
      assert d[j] == x && x !in init;
      forall m | 0 <= m < |init| ensures s[m] != x { assert s[m] == init[m]; }
      assert IndexOf(s, x) == |init|;
    }
  }

  /** Each entry of `word_freq.items()` is found at its own position. */
  lemma ItemIndex(valid: seq<string>, k: nat)
    requires k < |Items(valid)|
    ensures IndexOf(Items(valid), Items(valid)[k]) == k
  {
    var items, d := Items(valid), FirstOccurrences(valid);
    var m := IndexOf(items, items[k]);
    assert items[m].0 == d[m] && items[k].0 == d[k];
  }

  lemma SortedIsItem(items: seq<Item>, i: nat)
    requires i < |SortByCountDesc(items)|
    ensures IndexOf(items, SortByCountDesc(items)[i]) < |items|
  {
    SortPermutes(items);
    assert SortByCountDesc(items)[i] in multiset(items);
  }

  /** A sorted entry pairs a valid word with its count. */
  lemma SortedEntry(valid: seq<string>, i: nat)
    requires i < |SortByCountDesc(Items(valid))|
    ensures var e := SortByCountDesc(Items(valid))[i];
      e.0 in valid && e.1 == Count(valid, e.0)
  {
    var items, d := Items(valid), FirstOccurrences(valid);
    SortedIsItem(items, i);
    var a := IndexOf(items, SortByCountDesc(items)[i]);
    assert items[a] == (d[a], Count(valid, d[a]));
  }

  /** Every valid word has a sorted entry. */
  lemma SortedCovers(valid: seq<string>, w: string) returns (i: nat)
    requires w in valid
    ensures i < |SortByCountDesc(Items(valid))| && SortByCountDesc(Items(valid))[i].0 == w
  {
    var items, d := Items(valid), FirstOccurrences(valid);
    var sorted := SortByCountDesc(items);
    var k := IndexOf(d, w);
    SortPermutes(items);
    assert items[k] in multiset(sorted);
    i :| 0 <= i < |sorted| && sorted[i] == items[k];
  }

  /** Two sorted entries: different words, non-increasing counts, and for
      equal counts the order of first occurrence in `valid`. */
  lemma SortedPair(valid: seq<string>, i: nat, j: nat)
    requires i < j < |SortByCountDesc(Items(valid))|
    ensures var sorted := SortByCountDesc(Items(valid));
      && sorted[i].0 != sorted[j].0
      && sorted[i].1 >= sorted[j].1
      && (sorted[i].1 == sorted[j].1 ==> IndexOf(valid, sorted[i].0) < IndexOf(valid, sorted[j].0))
  {
    var items, d := Items(valid), FirstOccurrences(valid);
    var sorted := SortByCountDesc(items);
    SortedIsItem(items, i);
    SortedIsItem(items, j);
    var a, b := IndexOf(items, sorted[i]), IndexOf(items, sorted[j]);
    assert sorted[i] == items[a] == (d[a], Count(valid, d[a]));
    assert sorted[j] == items[b] == (d[b], Count(valid, d[b]));
    ItemsDistinct(valid);
    SortOrder(items);
    assert Precedes(items, sorted[i], sorted[j]);
    assert a != b;
    if sorted[i].1 == sorted[j].1 {
      FirstOccurrenceOrder(valid, a, b);
    }
  }

  lemma ItemsDistinct(valid: seq<string>)
    ensures Distinct(Items(valid))
  {
    var items, d := Items(valid), FirstOccurrences(valid);
    forall i, j | 0 <= i < j < |items| ensures items[i] != items[j] {
      assert items[i].0 == d[i] && items[j].0 == d[j];
    }
  }

  // ---------------------------------------------------------------------
  // What `extract_keywords` promises

  /** At most `n` keywords (Python's slice semantics for a negative `n`). */
  lemma KeywordsLength(valid: seq<string>, n: int)
    ensures var d := |FirstOccurrences(valid)|;
      |Keywords(valid, n)| == if n >= 0 then (if n <= d then n else d)
                              else (if d + n >= 0 then d + n else 0)
  {
  }

  /** Keywords are distinct valid tokens. */
  lemma KeywordsAreDistinctValidTokens(valid: seq<string>, n: int)
    ensures Distinct(Keywords(valid, n))
    ensures forall k :: 0 <= k < |Keywords(valid, n)| ==> Keywords(valid, n)[k] in valid
  {
    var r, sorted := Keywords(valid, n), SortByCountDesc(Items(valid));
    forall k | 0 <= k < |r| ensures r[k] in valid {
      SortedEntry(valid, k);
    }
    forall i, j | 0 <= i < j < |r| ensures r[i] != r[j] {
      SortedPair(valid, i, j);
    }
  }

  /** Keywords come by non-increasing count; equal counts keep the order in
      which the words first occur. */
  lemma KeywordsOrdered(valid: seq<string>, n: int)
    ensures var r := Keywords(valid, n);
      forall i, j :: 0 <= i < j < |r| ==>
        && Count(valid, r[i]) >= Count(valid, r[j])
        && (Count(valid, r[i]) == Count(valid, r[j]) ==> IndexOf(valid, r[i]) < IndexOf(valid, r[j]))
  {
    var r := Keywords(valid, n);
    forall i, j | 0 <= i < j < |r|
      ensures Count(valid, r[i]) >= Count(valid, r[j])
      ensures Count(valid, r[i]) == Count(valid, r[j]) ==> IndexOf(valid, r[i]) < IndexOf(valid, r[j])
    {
      SortedPair(valid, i, j);
      SortedEntry(valid, i);
      SortedEntry(valid, j);
    }
  }

  /** Keywords are the most frequent words: a valid word left out occurs no
      more often than the last keyword, and when fewer than `n` keywords come
      back, none was left out. */
  lemma KeywordsAreTop(valid: seq<string>, n: int)
    ensures var r := Keywords(valid, n);
      forall w :: w in valid && w !in r ==>
        && (r != [] ==> Count(valid, w) <= Count(valid, r[|r| - 1]))
        && !(n >= 0 && |r| < n)
  {
    var sorted := SortByCountDesc(Items(valid));
    var r := Keywords(valid, n);
    var p := PyPrefix(sorted, n);
    forall w | w in valid && w !in r
      ensures r != [] ==> Count(valid, w) <= Count(valid, r[|r| - 1])
      ensures !(n >= 0 && |r| < n)
    {
      var i := SortedCovers(valid, w);
      assert |p| <= i by {
        assert forall k :: 0 <= k < |p| ==> r[k] == sorted[k].0;
      }
      if r != [] {
        var last := |p| - 1;
        assert r[last] == sorted[last].0;
        if last < i { SortedPair(valid, last, i); }
        SortedEntry(valid, last);
        SortedEntry(valid, i);
      }
    }
  }

  /** The keyword order in terms of the text itself: keywords come by
      non-increasing number of occurrences among the tokens, and keywords
      that occur equally often come in order of first occurrence. */
  lemma KeywordsRankByText(tokens: seq<string>, stopWords: set<string>, isLetter: char -> bool, n: int)
    ensures var r := Keywords(ValidTokens(tokens, stopWords, isLetter), n);
      forall i, j :: 0 <= i < j < |r| ==>
        && Count(tokens, r[i]) >= Count(tokens, r[j])
        && (Count(tokens, r[i]) == Count(tokens, r[j]) ==> IndexOf(tokens, r[i]) < IndexOf(tokens, r[j]))
  {
    var valid := ValidTokens(tokens, stopWords, isLetter);
    var r := Keywords(valid, n);
    KeywordsOrdered(valid, n);
    KeywordsAreDistinctValidTokens(valid, n);
    forall i, j | 0 <= i < j < |r|
      ensures && Count(tokens, r[i]) >= Count(tokens, r[j])
              && (Count(tokens, r[i]) == Count(tokens, r[j]) ==> IndexOf(tokens, r[i]) < IndexOf(tokens, r[j]))
    {
      ValidTokensCount(tokens, stopWords, isLetter, r[i]);
      ValidTokensCount(tokens, stopWords, isLetter, r[j]);
      ValidTokensKeepOrder(tokens, stopWords, isLetter, r[i], r[j]);
    }
  }

  /** Each keyword is alphabetic and not a stopword. */
  lemma KeywordsAreWords(text: string, n: int, lex: Lexicon)
    ensures var r := Keywords(ValidTokens(lex.tokenize(text), lex.stopWords, lex.isLetter), n);
      forall k :: 0 <= k < |r| ==> IsAlpha(r[k], lex.isLetter) && r[k] !in lex.stopWords
  {
    KeywordsAreDistinctValidTokens(ValidTokens(lex.tokenize(text), lex.stopWords, lex.isLetter), n);
  }
}
