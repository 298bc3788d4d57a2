/**
 * `retrieveTopLongTermMemories` and `retrieveTopPersonalityMemories`: keep
 * the candidates that carry an embedding, score each against the query,
 * sort by descending score (stably) and take the first `topK`. The cosine
 * similarity with the query is a parameter `score` of the candidate's
 * embedding, an abstract ordered value.
 */
module Retrieval {
  import opened Wrappers
  import opened JsText
  import opened StableSort
  import opened Seqs
  import opened Memory

  /** `{ ...entry, _score: score }`. */
  datatype Scored<T> = Scored(entry: T, score: real)

  /** Each candidate paired with its score, in candidate order. */
  function ScoreAll<T>(cands: seq<T>, score: T -> real): (r: seq<Scored<T>>)
    ensures |r| == |cands|
    ensures forall i :: 0 <= i < |r| ==> r[i] == Scored(cands[i], score(cands[i]))
  {
    seq(|cands|, i requires 0 <= i < |cands| => Scored(cands[i], score(cands[i])))
  }

  /** The candidates behind a list of results, in result order. */
  function Entries<T>(r: seq<Scored<T>>): seq<T> {
    seq(|r|, i requires 0 <= i < |r| => r[i].entry)
  }

  /** The sort key: ascending `-score` is `(a, b) => b._score - a._score`. */
  function NegScore<T>(r: Scored<T>): real {
    -r.score
  }

  /** Score, sort by descending score, `slice(0, topK)`. */
  function Rank<T>(cands: seq<T>, score: T -> real, topK: int): seq<Scored<T>> {
    JsSlice(SortBy(ScoreAll(cands, score), NegScore), 0, topK)
  }

  /** A non-negative `topK` bounds the result; it is exactly `topK` when there
    * are enough candidates. */
  lemma RankLength<T>(cands: seq<T>, score: T -> real, topK: int)
    requires topK >= 0
    ensures |Rank(cands, score, topK)| == if topK < |cands| then topK else |cands|
  {
  }

  /** The results come in non-increasing score order. */
  lemma RankSorted<T>(cands: seq<T>, score: T -> real, topK: int)
    ensures var r := Rank(cands, score, topK);
            forall i, j :: 0 <= i < j < |r| ==> r[i].score >= r[j].score
  {
    var sorted := SortBy(ScoreAll(cands, score), NegScore);
    SortBySorted(ScoreAll(cands, score), NegScore);
    var r := Rank(cands, score, topK);
    forall i, j | 0 <= i < j < |r| ensures r[i].score >= r[j].score {
      assert r[i] == sorted[i] && r[j] == sorted[j];
      assert NegScore(sorted[i]) <= NegScore(sorted[j]);
    }
  }

  /** A position of the sorted list holds a candidate with its own score. */
  lemma SortedEntry<T>(cands: seq<T>, score: T -> real, k: nat)
    requires k < |cands|
    ensures var s := SortBy(ScoreAll(cands, score), NegScore)[k];
            s.entry in cands && s.score == score(s.entry)
  {
    var all := ScoreAll(cands, score);
    SortByAt(all, NegScore);
  }

  /** Every result is a candidate carrying its own score. */
  lemma RankMembers<T>(cands: seq<T>, score: T -> real, topK: int)
    ensures forall s :: s in Rank(cands, score, topK) ==> s.entry in cands && s.score == score(s.entry)
  {
    var sorted := SortBy(ScoreAll(cands, score), NegScore);
    var r := Rank(cands, score, topK);
    forall s | s in r ensures s.entry in cands && s.score == score(s.entry) {
      var i :| 0 <= i < |r| && r[i] == s;
      var a := JsIndex(0, |sorted|);
      assert r[i] == sorted[a + i];
      SortedEntry(cands, score, a + i);
    }
  }

  /** The results are a selection of the candidates: sorting only reorders and
    * the slice only drops, so no candidate is returned more often than it occurs. */
  lemma RankSelects<T>(cands: seq<T>, score: T -> real, topK: int)
    ensures multiset(Rank(cands, score, topK)) <= multiset(ScoreAll(cands, score))
    ensures multiset(Entries(Rank(cands, score, topK))) <= multiset(cands)
  {
    var all := ScoreAll(cands, score);
    var sorted := SortBy(all, NegScore);
    var order := SortOrder(all, NegScore);
    var r := Rank(cands, score, topK);
    var n := |r|;
    assert r == sorted[..n];
    assert sorted == r + sorted[n..];
    SortByPermutes(all, NegScore);
    StableOrderFacts(Keys(all, NegScore), |all|);
    OrderDistinct(Keys(all, NegScore), order);
    PermutedByOrder(cands, order);
    var es := seq(|cands|, k requires 0 <= k < |cands| => cands[order[k]]);
    SortByAt(all, NegScore);
    assert Entries(r) == es[..n];
    assert es == es[..n] + es[n..];
  }

  /** Top-k: a candidate that is not among the results scores no higher than
    * any result. */
  lemma RankTakesBest<T>(cands: seq<T>, score: T -> real, topK: int, x: T)
    requires x in cands
    ensures var r := Rank(cands, score, topK);
            Scored(x, score(x)) in r || forall s :: s in r ==> score(x) <= s.score
  {
    var all := ScoreAll(cands, score);
    var sorted := SortBy(all, NegScore);
    var r := Rank(cands, score, topK);
    var i :| 0 <= i < |cands| && cands[i] == x;
    assert all[i] == Scored(x, score(x));
    SortByPermutes(all, NegScore);
    assert Scored(x, score(x)) in multiset(sorted);
    var k :| 0 <= k < |sorted| && sorted[k] == Scored(x, score(x));
    SortBySorted(all, NegScore);
    if k >= |r| {
      forall s | s in r ensures score(x) <= s.score {
        var j :| 0 <= j < |r| && r[j] == s;
        assert r[j] == sorted[j];
        assert NegScore(sorted[j]) <= NegScore(sorted[k]);
      }
    } else {
      assert r[k] == sorted[k];
    }
  }

  /** Ties keep candidate order: of two results with equal scores, the earlier
    * one came from the earlier candidate. */
  lemma RankStable<T>(cands: seq<T>, score: T -> real, topK: int, i: nat, j: nat)
    requires i < j < |Rank(cands, score, topK)|
    requires Rank(cands, score, topK)[i].score == Rank(cands, score, topK)[j].score
    ensures Rank(cands, score, topK)[i].entry == cands[SortOrder(ScoreAll(cands, score), NegScore)[i]]
    ensures Rank(cands, score, topK)[j].entry == cands[SortOrder(ScoreAll(cands, score), NegScore)[j]]
    ensures SortOrder(ScoreAll(cands, score), NegScore)[i] < SortOrder(ScoreAll(cands, score), NegScore)[j]
  {
    var sorted := SortBy(ScoreAll(cands, score), NegScore);
    SortByAt(ScoreAll(cands, score), NegScore);
    assert Rank(cands, score, topK)[i] == sorted[i] && Rank(cands, score, topK)[j] == sorted[j];
    SortByStable(ScoreAll(cands, score), NegScore, i, j);
  }

  // ---------------------------------------------------------------------------
  // The two retrievals

  /** The candidates of `retrieveTopLongTermMemories`: `long_summary` entries
    * with an embedding, of channel `c` unless channel instancing is disabled. */
  predicate IsLongCandidate(settings: Settings, c: string, m: Summary) {
    m.kind == LongKind && m.embedding.Some?
    && (settings.disableChannelInstancingForMemories || m.channelId == c)
  }

  function EmbeddingScore(score: Vector -> real, m: Summary): real {
    if m.embedding.Some? then score(m.embedding.value) else 0.0
  }

  function TopLongTerm(settings: Settings, long: seq<Summary>, c: string, score: Vector -> real, topK: int)
    : seq<Scored<Summary>>
  {
    Rank(Filter(long, (m: Summary) => IsLongCandidate(settings, c, m)),
         (m: Summary) => EmbeddingScore(score, m), topK)
  }

  /** Every long-term result is a stored `long_summary` with an embedding, of
    * channel `c` unless instancing is disabled, scored by that embedding. */
  lemma TopLongTermMembers(settings: Settings, long: seq<Summary>, c: string, score: Vector -> real, topK: int)
    ensures forall s :: s in TopLongTerm(settings, long, c, score, topK) ==>
              s.entry in long && IsLongCandidate(settings, c, s.entry)
              && s.score == score(s.entry.embedding.value)
    ensures multiset(Entries(TopLongTerm(settings, long, c, score, topK))) <= multiset(long)
  {
    var p := (m: Summary) => IsLongCandidate(settings, c, m);
    FilterMembers(long, p);
    FilterSubMultiset(long, p);
    RankMembers(Filter(long, p), (m: Summary) => EmbeddingScore(score, m), topK);
    RankSelects(Filter(long, p), (m: Summary) => EmbeddingScore(score, m), topK);
  }

  function PersonalityScore(score: Vector -> real, pm: PersonalityEntry): real {
    if pm.embedding.Some? then score(pm.embedding.value) else 0.0
  }

  function TopPersonality(personality: seq<PersonalityEntry>, score: Vector -> real, topK: int)
    : seq<Scored<PersonalityEntry>>
  {
    Rank(Filter(personality, (pm: PersonalityEntry) => pm.embedding.Some?),
         (pm: PersonalityEntry) => PersonalityScore(score, pm), topK)
  }

  /** Every personality result is a stored entry with an embedding, scored by it. */
  lemma TopPersonalityMembers(personality: seq<PersonalityEntry>, score: Vector -> real, topK: int)
    ensures forall s :: s in TopPersonality(personality, score, topK) ==>
              s.entry in personality && s.entry.embedding.Some?
              && s.score == score(s.entry.embedding.value)
    ensures multiset(Entries(TopPersonality(personality, score, topK))) <= multiset(personality)
  {
    var p := (pm: PersonalityEntry) => pm.embedding.Some?;
    FilterMembers(personality, p);
    FilterSubMultiset(personality, p);
    RankMembers(Filter(personality, p), (pm: PersonalityEntry) => PersonalityScore(score, pm), topK);
    RankSelects(Filter(personality, p), (pm: PersonalityEntry) => PersonalityScore(score, pm), topK);
  }
}
