/**
 * Oldest-first eviction of a channel's long-term summaries once their number
 * exceeds `longTermMemoryLimit`: the channel's `long_summary` entries are
 * sorted by timestamp (stably), the ids of the surplus at the front are
 * collected, and every entry of the channel with one of those ids is dropped.
 */
module Eviction {
  import opened Seqs
  import opened StableSort
  import opened JsText
  import opened Memory

  predicate IsChannelLong(c: string, m: Summary) {
    m.channelId == c && m.kind == LongKind
  }

  /** The channel's `long_summary` entries, in their order in the tier. */
  function ChannelLong(long: seq<Summary>, c: string): (r: seq<Summary>)
    ensures |r| <= |long|
  {
    Filter(long, (m: Summary) => IsChannelLong(c, m))
  }

  /** Entries of other channels. */
  function OtherChannels(long: seq<Summary>, c: string): (r: seq<Summary>)
    ensures |r| <= |long|
  {
    Filter(long, (m: Summary) => m.channelId != c)
  }

  function Timestamp(m: Summary): real {
    m.timestamp as real
  }

  function Ids(s: seq<Summary>): set<Id> {
    set m | m in s :: m.id
  }

  predicate DistinctIds(s: seq<Summary>) {
    forall i, j :: 0 <= i < j < |s| ==> s[i].id != s[j].id
  }

  /** The ids the eviction removes: those of the oldest `|entries| - limit` entries. */
  function SurplusIds(entries: seq<Summary>, limit: int): set<Id> {
    Ids(JsSlice(SortBy(entries, Timestamp), 0, |entries| - limit))
  }

  /** The eviction step of `processLongTermMemoryForChannel`; `-1` means unlimited. */
  function EvictOldest(long: seq<Summary>, c: string, limit: int): (r: seq<Summary>)
    ensures |r| <= |long|
  {
    if limit == -1 then long
    else
      var updated := ChannelLong(long, c);
      if |updated| <= limit then long
      else
        var removeIds := SurplusIds(updated, limit);
        Filter(long, (m: Summary) => m.channelId != c || m.id !in removeIds)
  }

  /** Eviction never touches another channel's entries. */
  lemma EvictKeepsOtherChannels(long: seq<Summary>, c: string, limit: int)
    ensures OtherChannels(EvictOldest(long, c, limit), c) == OtherChannels(long, c)
  {
    var updated := ChannelLong(long, c);
    if limit != -1 && |updated| > limit {
      var removeIds := SurplusIds(updated, limit);
      var keep := (m: Summary) => m.channelId != c || m.id !in removeIds;
      var other := (m: Summary) => m.channelId != c;
      FilterConj(long, keep, other, other);
    }
  }

  /** Below the limit (or with no limit) eviction changes nothing. */
  lemma EvictWithinLimit(long: seq<Summary>, c: string, limit: int)
    requires limit == -1 || |ChannelLong(long, c)| <= limit
    ensures EvictOldest(long, c, limit) == long
  {
  }

  /** The channel's summaries whose id is not in the surplus, in their order. */
  function Survivors(updated: seq<Summary>, limit: int): (r: seq<Summary>)
    ensures |r| <= |updated|
  {
    Filter(updated, (m: Summary) => m.id !in SurplusIds(updated, limit))
  }

  /** After eviction the channel's `long_summary` entries are those of the
    * original list whose id was not in the surplus, in their original order. */
  lemma EvictedChannelLong(long: seq<Summary>, c: string, limit: int)
    requires limit != -1 && |ChannelLong(long, c)| > limit
    ensures ChannelLong(EvictOldest(long, c, limit), c) == Survivors(ChannelLong(long, c), limit)
  {
    var updated := ChannelLong(long, c);
    var removeIds := SurplusIds(updated, limit);
    var keep := (m: Summary) => m.channelId != c || m.id !in removeIds;
    var isLong := (m: Summary) => IsChannelLong(c, m);
    var keepId := (m: Summary) => m.id !in removeIds;
    var both := (m: Summary) => IsChannelLong(c, m) && m.id !in removeIds;
    FilterConj(long, keep, isLong, both);
    FilterConj(long, isLong, keepId, both);
  }

  /** The stably sorted list keeps distinct ids distinct. */
  lemma SortedDistinct(entries: seq<Summary>)
    requires DistinctIds(entries)
    ensures DistinctIds(SortBy(entries, Timestamp))
  {
    var order := SortOrder(entries, Timestamp);
    StableOrderFacts(Keys(entries, Timestamp), |entries|);
    OrderDistinct(Keys(entries, Timestamp), order);
    SortByAt(entries, Timestamp);
  }

  /** Of the sorted list, the filter drops exactly the first `n` entries. */
  lemma SurplusIsPrefix(sorted: seq<Summary>, n: nat)
    requires n <= |sorted| && DistinctIds(sorted)
    ensures Filter(sorted, (m: Summary) => m.id !in Ids(sorted[..n])) == sorted[n..]
  {
    var keepId := (m: Summary) => m.id !in Ids(sorted[..n]);
    forall i | 0 <= i < n ensures !keepId(sorted[i]) {
      assert sorted[..n][i] == sorted[i];
    }
    forall i | n <= i < |sorted| ensures keepId(sorted[i]) {
      NotInPrefixIds(sorted, n, i);
    }
    FilterDropsPrefix(sorted, n, keepId);
  }

  /** With distinct ids, an entry after position `n` has none of the ids before it. */
  lemma NotInPrefixIds(sorted: seq<Summary>, n: nat, j: nat)
    requires n <= j < |sorted| && DistinctIds(sorted)
    ensures sorted[j].id !in Ids(sorted[..n])
  {
  }

  /** The survivors are, up to order, the entries after the surplus in the sorted list. */
  lemma SurvivorsAreNewest(updated: seq<Summary>, limit: int)
    requires 0 <= limit < |updated| && DistinctIds(updated)
    ensures var sorted := SortBy(updated, Timestamp);
            multiset(Survivors(updated, limit)) == multiset(sorted[|sorted| - limit..])
  {
    var sorted := SortBy(updated, Timestamp);
    var n := |updated| - limit;
    var removeIds := SurplusIds(updated, limit);
    assert JsSlice(sorted, 0, n) == sorted[..n];
    var keepId := (m: Summary) => m.id !in removeIds;
    SortByPermutes(updated, Timestamp);
    FilterPermutes(updated, sorted, keepId);
    SortedDistinct(updated);
    SurplusIsPrefix(sorted, n);
  }

  /** Exactly `limit` summaries survive. */
  lemma SurvivorsCount(updated: seq<Summary>, limit: int)
    requires 0 <= limit < |updated| && DistinctIds(updated)
    ensures |Survivors(updated, limit)| == limit
  {
    var sorted := SortBy(updated, Timestamp);
    var tail := sorted[|sorted| - limit..];
    SurvivorsAreNewest(updated, limit);
    assert |Survivors(updated, limit)| == |multiset(Survivors(updated, limit))| == |multiset(tail)| == |tail|;
  }

  /** Oldest-first eviction, counting: with distinct ids and a channel over its
    * limit (`limit >= 0`), exactly `limit` of the channel's summaries remain. */
  lemma EvictLeavesLimit(long: seq<Summary>, c: string, limit: int)
    requires 0 <= limit < |ChannelLong(long, c)|
    requires DistinctIds(ChannelLong(long, c))
    ensures |ChannelLong(EvictOldest(long, c, limit), c)| == limit
  {
    EvictedChannelLong(long, c, limit);
    SurvivorsCount(ChannelLong(long, c), limit);
  }

  /** Oldest-first eviction, which ones: the channel's remaining summaries are,
    * up to order, the last `limit` of its list stably sorted by timestamp. */
  lemma EvictKeepsNewest(long: seq<Summary>, c: string, limit: int)
    requires 0 <= limit < |ChannelLong(long, c)|
    requires DistinctIds(ChannelLong(long, c))
    ensures var kept := ChannelLong(EvictOldest(long, c, limit), c);
            var sorted := SortBy(ChannelLong(long, c), Timestamp);
            multiset(kept) == multiset(sorted[|sorted| - limit..])
  {
    var kept := ChannelLong(EvictOldest(long, c, limit), c);
    var updated := ChannelLong(long, c);
    var sorted := SortBy(updated, Timestamp);
    EvictedChannelLong(long, c, limit);
    SurvivorsAreNewest(updated, limit);
  }

  /** Oldest-first eviction, ordering: every removed summary (the first
    * `|updated| - limit` in stable timestamp order) is no newer than every kept
    * one, and on equal timestamps the removed one stood earlier in the tier. */
  lemma EvictRemovesOldest(long: seq<Summary>, c: string, limit: int)
    requires 0 <= limit < |ChannelLong(long, c)|
    requires DistinctIds(ChannelLong(long, c))
    ensures var updated := ChannelLong(long, c);
            var sorted := SortBy(updated, Timestamp);
            (forall i, k :: 0 <= i < |updated| - limit && k in ChannelLong(EvictOldest(long, c, limit), c)
               ==> sorted[i].timestamp <= k.timestamp) &&
            (forall i, j :: 0 <= i < |updated| - limit <= j < |updated| && sorted[i].timestamp == sorted[j].timestamp
               ==> SortOrder(updated, Timestamp)[i] < SortOrder(updated, Timestamp)[j])
  {
    var updated := ChannelLong(long, c);
    var sorted := SortBy(updated, Timestamp);
    var n := |updated| - limit;
    var kept := ChannelLong(EvictOldest(long, c, limit), c);
    EvictKeepsNewest(long, c, limit);
    SortBySorted(updated, Timestamp);
    forall i, k | 0 <= i < n && k in kept ensures sorted[i].timestamp <= k.timestamp {
      assert k in multiset(sorted[n..]);
      var j :| 0 <= j < |sorted[n..]| && sorted[n..][j] == k;
      assert Timestamp(sorted[i]) <= Timestamp(sorted[n + j]);
    }
    forall i, j | 0 <= i < n <= j < |updated| && sorted[i].timestamp == sorted[j].timestamp
      ensures SortOrder(updated, Timestamp)[i] < SortOrder(updated, Timestamp)[j]
    {
      SortByStable(updated, Timestamp, i, j);
    }
  }

  /** Every id in `s` is below `bound`. */
  predicate IdsBelow(s: seq<Summary>, bound: Id) {
    forall i :: 0 <= i < |s| ==> s[i].id < bound
  }

  /** Filtering keeps ids distinct and below any bound they were below. */
  lemma {:induction false} FilterKeepsIds(s: seq<Summary>, p: Summary -> bool, bound: Id)
    requires DistinctIds(s) && IdsBelow(s, bound)
    ensures DistinctIds(Filter(s, p)) && IdsBelow(Filter(s, p), bound)
  {
    if s != [] {
      var rest := Filter(s[1..], p);
      FilterKeepsIds(s[1..], p, bound);
      if p(s[0]) {
        FilterMembers(s[1..], p);
        var r := [s[0]] + rest;
        forall j | 0 <= j < |rest| ensures rest[j].id != s[0].id {
          assert rest[j] in s[1..];
          var k :| 0 <= k < |s[1..]| && s[1..][k] == rest[j];
          assert s[k + 1] == rest[j];
        }
        forall i, j | 0 <= i < j < |r| ensures r[i].id != r[j].id {
          assert r[j] == rest[j - 1];
          if i > 0 {
            assert r[i] == rest[i - 1];
          }
        }
      }
    }
  }

  /** Eviction only removes entries, so it keeps ids distinct and below the bound. */
  lemma EvictKeepsIds(long: seq<Summary>, c: string, limit: int, bound: Id)
    requires DistinctIds(long) && IdsBelow(long, bound)
    ensures DistinctIds(EvictOldest(long, c, limit)) && IdsBelow(EvictOldest(long, c, limit), bound)
  {
    var updated := ChannelLong(long, c);
    if limit != -1 && |updated| > limit {
      var removeIds := SurplusIds(updated, limit);
      FilterKeepsIds(long, (m: Summary) => m.channelId != c || m.id !in removeIds, bound);
    }
  }

  /** With distinct ids in the tier and a limit `>= 0`, eviction leaves at most
    * `limit` of the channel's `long_summary` entries. */
  lemma EvictBoundsChannel(long: seq<Summary>, c: string, limit: int, bound: Id)
    requires 0 <= limit && DistinctIds(long) && IdsBelow(long, bound)
    ensures |ChannelLong(EvictOldest(long, c, limit), c)| <= limit
  {
    FilterKeepsIds(long, (m: Summary) => IsChannelLong(c, m), bound);
    if |ChannelLong(long, c)| > limit {
      EvictLeavesLimit(long, c, limit);
    }
  }
}
