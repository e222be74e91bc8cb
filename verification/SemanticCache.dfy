/** The per-team semantic cache: bounded recency index, expiring entries, best-match lookup. */
module SemanticCaches {
  import opened Wrappers
  import opened Similarity

  /** A stored hash entry; an embedding that does not decode is `None`. */
  datatype Entry = Entry(embedding: Option<Vector>, configHash: string, response: string, expiresAt: int)

  datatype Stored = Stored(team: string, id: string, entry: Entry)

  /** What a lookup asks for. */
  datatype Query = Query(embedding: Vector, configHash: string, now: int)

  // ---------------------------------------------------------------- the specification

  /** Everything a team has stored, newest first. */
  function NewestFirst(stored: seq<Stored>, team: string): seq<Stored> {
    if stored == [] then []
    else
      var last := stored[|stored| - 1];
      (if last.team == team then [last] else []) + NewestFirst(stored[..|stored| - 1], team)
  }

  /** `LTRIM 0 max-1`; a bound of zero reads as -1 and keeps everything. */
  function Trim<T>(xs: seq<T>, max: nat): seq<T> {
    if max == 0 || |xs| <= max then xs else xs[..max]
  }

  /** What the team's index still lists, newest first. */
  function Listed(stored: seq<Stored>, team: string, max: nat): seq<Stored> {
    Trim(NewestFirst(stored, team), max)
  }

  /** An entry the lookup compares: alive, decodable, and stored for the same parameters. */
  predicate Comparable(e: Entry, q: Query) {
    q.now < e.expiresAt && e.configHash == q.configHash && e.embedding.Some?
  }

  function SimilarityTo(q: Query, e: Entry, sqrt: real -> real): real
    requires e.embedding.Some?
  {
    CosineSimilarity(q.embedding, e.embedding.value, sqrt)
  }

  /** Entry `k` is the most recent one of maximal similarity. */
  ghost predicate IsBest(listed: seq<Stored>, q: Query, sqrt: real -> real, k: nat) {
    && k < |listed| && Comparable(listed[k].entry, q)
    && var best := SimilarityTo(q, listed[k].entry, sqrt);
    forall j :: 0 <= j < |listed| && Comparable(listed[j].entry, q) ==>
      var other := SimilarityTo(q, listed[j].entry, sqrt);
      other <= best && (j < k ==> other < best)
  }

  /** Good enough for a hit: -1 itself never is. */
  predicate Qualifies(similarity: real, threshold: real) {
    similarity >= threshold && similarity > -1.0
  }

  ghost predicate LookupSpec(listed: seq<Stored>, q: Query, sqrt: real -> real, threshold: real,
                             answer: Option<Entry>) {
    match answer
    case Some(e) =>
      exists k: nat ::
        IsBest(listed, q, sqrt, k) && e == listed[k].entry && Qualifies(SimilarityTo(q, e, sqrt), threshold)
    case None =>
      forall j :: 0 <= j < |listed| && Comparable(listed[j].entry, q) ==>
        !Qualifies(SimilarityTo(q, listed[j].entry, sqrt), threshold)
  }

  // ---------------------------------------------------------------- properties

  lemma NewestFirstSnoc(stored: seq<Stored>, s: Stored, team: string)
    ensures NewestFirst(stored + [s], team) == (if s.team == team then [s] else []) + NewestFirst(stored, team)
  {
    assert (stored + [s])[..|stored|] == stored;
  }

  /** The incremental index is the newest entries of the whole history, and other teams' stores do not touch it. */
  lemma StoreTrims(stored: seq<Stored>, s: Stored, team: string, max: nat)
    ensures Listed(stored + [s], team, max)
         == if s.team == team then Trim([s] + Listed(stored, team, max), max) else Listed(stored, team, max)
  {
    NewestFirstSnoc(stored, s, team);
    var all := NewestFirst(stored, team);
    if s.team == team {
      TrimTwice(s, all, max);
    } else {
      assert [] + all == all;
    }
  }

  lemma TrimTwice<T>(x: T, all: seq<T>, max: nat)
    ensures Trim([x] + all, max) == Trim([x] + Trim(all, max), max)
  {
    if 0 < max < |all| {
      assert ([x] + all)[..max] == ([x] + all[..max])[..max];
    }
  }

  /** The index is bounded exactly when a bound of at least one is configured or little was stored. */
  lemma IndexIsBounded(stored: seq<Stored>, team: string, max: nat)
    ensures |Listed(stored, team, max)| <= max <==> max >= 1 || NewestFirst(stored, team) == []
    ensures max >= 1 ==> |Listed(stored, team, max)| == if |NewestFirst(stored,
        team)| <= max then |NewestFirst(stored, team)| else max
  {
  }

  /** Two stores into a cache bounded by zero entries leave both listed. */
  lemma ZeroBoundKeepsEverything(s: Stored, t: Stored)
    requires s.team == t.team
    ensures Listed([s, t], s.team, 0) == [t, s]
  {
    NewestFirstSnoc([], s, s.team);
    NewestFirstSnoc([s], t, s.team);
    assert [] + [s] == [s] && [s] + [t] == [s, t];
  }

  /** The specification leaves one answer. */
  lemma AnswerIsUnique(listed: seq<Stored>, q: Query, sqrt: real -> real, threshold: real, a: Option<Entry>,
                       b: Option<Entry>)
    requires LookupSpec(listed, q, sqrt, threshold, a) && LookupSpec(listed, q, sqrt, threshold, b)
    ensures a == b
  {
    if a.Some? && b.Some? {
      var k: nat :| IsBest(listed, q, sqrt, k) && a.value == listed[k].entry;
      var l: nat :| IsBest(listed, q, sqrt, l) && b.value == listed[l].entry;
      assert k == l;
    }
  }

  /**
   What was just stored is found again: asking with the same embedding and parameters before it
   expires answers the new entry, whatever else the cache holds.
   */
  lemma StoredIsFound(stored: seq<Stored>, s: Stored, max: nat, q: Query, sqrt: real -> real, threshold: real,
                      answer: Option<Entry>)
    requires IsSqrt(sqrt) && threshold <= 1.0
    requires Comparable(s.entry, q) && s.entry.embedding == Some(q.embedding) && Dot(q.embedding, q.embedding) != 0.0
    requires LookupSpec(Listed(stored + [s], s.team, max), q, sqrt, threshold, answer)
    ensures answer == Some(s.entry)
  {
    var listed := Listed(stored + [s], s.team, max);
    NewestFirstSnoc(stored, s, s.team);
    assert listed[0] == s;
    SelfSimilarity(q.embedding, sqrt);
    assert IsBest(listed, q, sqrt, 0);
    assert LookupSpec(listed, q, sqrt, threshold, Some(s.entry));
    AnswerIsUnique(listed, q, sqrt, threshold, answer, Some(s.entry));
  }

  // ---------------------------------------------------------------- the cache

  function Ids(index: map<string, seq<string>>, team: string): seq<string> {
    if team in index then index[team] else []
  }

  function IdsOf(listed: seq<Stored>): (ids: seq<string>)
    ensures |ids| == |listed| && forall k :: 0 <= k < |ids| ==> ids[k] == listed[k].id
  {
    seq(|listed|, k requires 0 <= k < |listed| => listed[k].id)
  }

  ghost predicate IndexMatches(index: map<string, seq<string>>, stored: seq<Stored>, max: nat) {
    forall team :: Ids(index, team) == IdsOf(Listed(stored, team, max))
  }

  /** Every entry ever stored can be fetched by its team and id. */
  ghost predicate EntriesMatch(entries: map<(string, string), Entry>, stored: seq<Stored>) {
    forall s :: s in stored ==> (s.team, s.id) in entries && entries[(s.team, s.id)] == s.entry
  }

  class SemanticCache {
    const threshold: real
    const ttl: nat
    const maxEntries: nat
    const sqrt: real -> real
    /** The Redis list of entry ids of each team, and the hashes by team and id. */
    var index: map<string, seq<string>>
    var entries: map<(string, string), Entry>
    /** Every entry ever stored. */
    ghost var stored: seq<Stored>

    ghost predicate Valid()
      reads this
    {
      && IndexMatches(index, stored, maxEntries)
      && EntriesMatch(entries, stored)
    }

    constructor (threshold: real, ttl: nat, maxEntries: nat, sqrt: real -> real)
      ensures Valid() && stored == []
      ensures this.threshold == threshold && this.ttl == ttl && this.maxEntries == maxEntries && this.sqrt == sqrt
    {
      this.threshold, this.ttl, this.maxEntries, this.sqrt := threshold, ttl, maxEntries, sqrt;
      index, entries, stored := map[], map[], [];
    }

    /** One pipeline: HSET, EXPIRE, LPUSH, LTRIM. Entry ids are never reused. */
    method Store(team: string, id: string, embedding: Vector, configHash: string, response: string, now: int)
      requires Valid() && (team, id) !in entries
      modifies this
      ensures Valid()
      ensures stored == old(stored) + [Stored(team, id, Entry(Some(embedding), configHash, response, now + ttl))]
    {
      var entry := Entry(Some(embedding), configHash, response, now + ttl);
      ghost var s := Stored(team, id, entry);
      IndexStaysMatched(index, stored, s, maxEntries);
      EntriesStayMatched(entries, stored, s);
      entries := entries[(team, id) := entry];
      index := index[team := Trim([id] + Ids(index, team), maxEntries)];
      stored := stored + [s];
    }

    method Lookup(team: string, q: Query) returns (answer: Option<Entry>)
      requires Valid()
      ensures LookupSpec(Listed(stored, team, maxEntries), q, sqrt, threshold, answer)
    {
      ghost var listed := Listed(stored, team, maxEntries);
      var ids := Ids(index, team);
      var bestSimilarity := -1.0;
      var bestEntry: Option<Entry> := None;
      ghost var best := 0;
      for i := 0 to |ids|
        invariant bestSimilarity >= -1.0
        invariant bestSimilarity > -1.0 ==>
                    best < i && Comparable(listed[best].entry, q) && SimilarityTo(q, listed[best].entry,
                        sqrt) == bestSimilarity
        invariant forall j :: 0 <= j < i && Comparable(listed[j].entry, q) ==>
                    var other := SimilarityTo(q, listed[j].entry, sqrt);
                    other <= bestSimilarity && (bestSimilarity > -1.0 && j < best ==> other < bestSimilarity)
        invariant bestEntry == if Qualifies(bestSimilarity, threshold) then Some(listed[best].entry) else None
      {
        ListedWereStored(stored, team, maxEntries, i);
        var raw := entries[(team, ids[i])];
        assert raw == listed[i].entry;
        if q.now >= raw.expiresAt || raw.configHash != q.configHash || raw.embedding.None? {
          continue;
        }
        var sim := CosineSimilarity(q.embedding, raw.embedding.value, sqrt);
        if sim > bestSimilarity {
          bestSimilarity := sim;
          best := i;
          if sim >= threshold {
            bestEntry := Some(raw);
          }
        }
      }
      if bestEntry.None? || bestSimilarity < threshold {
        return None;
      }
      assert IsBest(listed, q, sqrt, best);
      return bestEntry;
    }
  }

  lemma IndexStaysMatched(index: map<string, seq<string>>, stored: seq<Stored>, s: Stored, max: nat)
    requires IndexMatches(index, stored, max)
    ensures IndexMatches(index[s.team := Trim([s.id] + Ids(index, s.team), max)], stored + [s], max)
  {
    forall team: string
      ensures Ids(index[s.team := Trim([s.id] + Ids(index, s.team), max)],
                  team) == IdsOf(Listed(stored + [s], team, max))
    {
      StoreTrims(stored, s, team, max);
      if team == s.team {
        PushedIds(Listed(stored, team, max), s, max);
      }
    }
  }

  lemma PushedIds(listed: seq<Stored>, s: Stored, max: nat)
    ensures Trim([s.id] + IdsOf(listed), max) == IdsOf(Trim([s] + listed, max))
  {
    assert [s.id] + IdsOf(listed) == IdsOf([s] + listed);
    TrimIds([s] + listed, max);
  }

  lemma TrimIds(listed: seq<Stored>, max: nat)
    ensures Trim(IdsOf(listed), max) == IdsOf(Trim(listed, max))
  {
  }

  lemma EntriesStayMatched(entries: map<(string, string), Entry>, stored: seq<Stored>, s: Stored)
    requires EntriesMatch(entries, stored) && (s.team, s.id) !in entries
    ensures EntriesMatch(entries[(s.team, s.id) := s.entry], stored + [s])
  {
  }

  lemma {:induction false} ListedWereStored(stored: seq<Stored>, team: string, max: nat, k: nat)
    requires k < |Listed(stored, team, max)|
    ensures Listed(stored, team, max)[k] in stored && Listed(stored, team, max)[k].team == team
  {
    NewestWereStored(stored, team, k);
  }

  lemma {:induction false} NewestWereStored(stored: seq<Stored>, team: string, k: nat)
    requires k < |NewestFirst(stored, team)|
    ensures NewestFirst(stored, team)[k] in stored && NewestFirst(stored, team)[k].team == team
  {
    var front, last := stored[..|stored| - 1], stored[|stored| - 1];
    var own := if last.team == team then 1 else 0;
    if k < own {
    } else {
      NewestWereStored(front, team, k - own);
    }
  }

  /** A hit is one of the team's own entries, still alive and stored for the same parameters. */
  lemma AnswersStayInTeam(stored: seq<Stored>, team: string, max: nat, q: Query, sqrt: real -> real, threshold: real,
                          e: Entry)
    requires LookupSpec(Listed(stored, team, max), q, sqrt, threshold, Some(e))
    ensures exists s :: s in stored && s.team == team && s.entry == e
    ensures q.now < e.expiresAt && e.configHash == q.configHash && e.embedding.Some?
    ensures var similarity := CosineSimilarity(q.embedding, e.embedding.value, sqrt);
            similarity >= threshold && similarity > -1.0
  {
    var listed := Listed(stored, team, max);
    var k: nat :| IsBest(listed, q, sqrt, k) && e == listed[k].entry
                  && Qualifies(SimilarityTo(q, e, sqrt), threshold);
    ListedWereStored(stored, team, max, k);
  }

  /** A miss means that no listed entry that is alive and was stored for the same parameters is similar enough. */
  lemma MissMeans(listed: seq<Stored>, q: Query, sqrt: real -> real, threshold: real)
    ensures LookupSpec(listed, q, sqrt, threshold, None) <==>
              forall s | s in listed && q.now < s.entry.expiresAt && s.entry.configHash == q.configHash
                         && s.entry.embedding.Some? ::
                var similarity := CosineSimilarity(q.embedding, s.entry.embedding.value, sqrt);
                similarity < threshold || similarity <= -1.0
  {
  }

  /** A hit is at least as similar as every other such entry, and of the equally similar ones the newest. */
  lemma HitIsBest(listed: seq<Stored>, q: Query, sqrt: real -> real, threshold: real, e: Entry)
    requires LookupSpec(listed, q, sqrt, threshold, Some(e))
    ensures exists k :: 0 <= k < |listed| && listed[k].entry == e && e.embedding.Some?
              && forall j | 0 <= j < |listed| && q.now < listed[j].entry.expiresAt
                            && listed[j].entry.configHash == q.configHash && listed[j].entry.embedding.Some? ::
                   var best := CosineSimilarity(q.embedding, e.embedding.value, sqrt);
                   var other := CosineSimilarity(q.embedding, listed[j].entry.embedding.value, sqrt);
                   other <= best && (j < k ==> other < best)
  {
  }

  /** The index lists what the team stored from the newest on, up to the bound. */
  lemma ListedMeans(stored: seq<Stored>, s: Stored, team: string, max: nat)
    requires max > 0
    ensures Listed([], team, max) == []
    ensures s.team != team ==> Listed(stored + [s], team, max) == Listed(stored, team, max)
    ensures s.team == team ==>
              var before, after := Listed(stored, team, max), Listed(stored + [s], team, max);
              && |after| == (if |before| < max then |before| + 1 else max)
              && after[0] == s
              && forall k :: 1 <= k < |after| ==> after[k] == before[k - 1]
  {
    StoreTrims(stored, s, team, max);
  }
}
