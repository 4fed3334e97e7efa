/** The record store of dbService.ts: one object store of vault records
    keyed by `id`, with put (filling defaults), favourite toggle, usage
    increment, listing, delete and bulk put.  The browser database becomes a
    map; every operation runs to completion before the next one starts. */
module DbService {
  import opened Wrappers
  import opened Types
  import opened Seqs

  const DefaultUsageCount: int := 0
  const DefaultScore: int := 50
  const MaxScore: int := 100
  const FavoriteBoost: int := 20
  const NotFound: string := "Node not found"

  function Min(a: int, b: int): int {
    if a <= b then a else b
  }

  /** The record `saveNode` writes: the draft with `usageCount`,
      `neuralPreferenceScore`, `isFavorite` and `vaultDomain` filled with 0,
      50, false and X where they are missing (`??`), every other field as given. */
  function Normalize(d: NodeDraft): (v: VaultItem)
    ensures v.id == d.id && v.shortId == d.shortId && v.name == d.name
    ensures v.imageUrl == d.imageUrl && v.originalImageUrl == d.originalImageUrl
    ensures v.prompt == d.prompt && v.agentHistory == d.agentHistory && v.params == d.params
    ensures v.rating == d.rating && v.timestamp == d.timestamp && v.dna == d.dna && v.grading == d.grading
    ensures v.usageCount == (if d.usageCount.Some? then d.usageCount.value else 0)
    ensures v.neuralPreferenceScore == (if d.neuralPreferenceScore.Some? then d.neuralPreferenceScore.value else 50)
    ensures v.isFavorite == (d.isFavorite.Some? && d.isFavorite.value)
    ensures v.vaultDomain == (if d.vaultDomain.Some? then d.vaultDomain.value else X)
  {
    VaultItem(d.id, d.shortId, d.name, d.imageUrl, d.originalImageUrl, d.prompt,
              d.agentHistory, d.params, d.rating, d.timestamp, d.dna,
              d.usageCount.GetOr(DefaultUsageCount),
              d.neuralPreferenceScore.GetOr(DefaultScore),
              d.isFavorite.GetOr(false),
              d.vaultDomain.GetOr(X),
              d.grading)
  }

  /** A complete record passes through `saveNode` unchanged: defaults only
      fill what is missing. */
  lemma NormalizeKeepsComplete(v: VaultItem)
    ensures Normalize(AsDraft(v)) == v
  {
  }

  /** Filling defaults twice is filling them once. */
  lemma NormalizeIdempotent(d: NodeDraft)
    ensures Normalize(AsDraft(Normalize(d))) == Normalize(d)
  {
    NormalizeKeepsComplete(Normalize(d));
  }

  /** The record after `toggleFavoriteNode`: the flag flips; switching it on
      adds 20 to the score, capped at 100; switching it off keeps the score. */
  function Toggled(v: VaultItem): (r: VaultItem)
    ensures r.isFavorite == !v.isFavorite
    ensures r == v.(isFavorite := r.isFavorite, neuralPreferenceScore := r.neuralPreferenceScore)
  {
    var fav := !v.isFavorite;
    v.(isFavorite := fav,
       neuralPreferenceScore := if fav then Min(MaxScore, v.neuralPreferenceScore + FavoriteBoost)
                                else v.neuralPreferenceScore)
  }

  /** The score after a toggle: at most 100 after switching on, and never
      lower than before when the score was in range. */
  lemma ToggleScore(v: VaultItem)
    ensures Toggled(v).isFavorite ==> Toggled(v).neuralPreferenceScore <= MaxScore
    ensures Toggled(v).isFavorite && v.neuralPreferenceScore <= 80 ==>
              Toggled(v).neuralPreferenceScore == v.neuralPreferenceScore + 20
    ensures Toggled(v).isFavorite && v.neuralPreferenceScore >= MaxScore - FavoriteBoost ==>
              Toggled(v).neuralPreferenceScore == MaxScore
    ensures !Toggled(v).isFavorite ==> Toggled(v).neuralPreferenceScore == v.neuralPreferenceScore
    ensures v.neuralPreferenceScore <= MaxScore ==> Toggled(v).neuralPreferenceScore >= v.neuralPreferenceScore
  {
  }

  /** Toggling on and off again restores the flag but keeps the boost: the
      favourite boost is one-way. */
  lemma ToggleTwiceKeepsBoost(v: VaultItem)
    requires !v.isFavorite
    ensures Toggled(Toggled(v)).isFavorite == v.isFavorite
    ensures Toggled(Toggled(v)).neuralPreferenceScore == Min(MaxScore, v.neuralPreferenceScore + FavoriteBoost)
  {
  }

  /** The score `incrementNodeUsage` assigns, from the new usage count. */
  function UsageScore(usageCount: int, rating: int, isFavorite: bool): (r: int)
    ensures r <= MaxScore
    ensures usageCount >= 0 && rating >= 0 ==> 0 <= r
    ensures usageCount >= 0 && rating >= 0 && isFavorite ==> FavoriteBoost <= r
  {
    Min(MaxScore, usageCount * 5 + rating * 10 + (if isFavorite then FavoriteBoost else 0))
  }

  /** The record after `incrementNodeUsage`: one more use and a score
      recomputed from scratch; nothing else changes. */
  function Bumped(v: VaultItem): (r: VaultItem)
    ensures r.usageCount == v.usageCount + 1
    ensures r.neuralPreferenceScore <= MaxScore
    ensures r == v.(usageCount := r.usageCount, neuralPreferenceScore := r.neuralPreferenceScore)
  {
    var uses := v.usageCount + 1;
    v.(usageCount := uses, neuralPreferenceScore := UsageScore(uses, v.rating, v.isFavorite))
  }

  /** The new score does not depend on the old one: it is recomputed, not
      adjusted. */
  lemma BumpForgetsScore(v: VaultItem, s: int)
    ensures Bumped(v.(neuralPreferenceScore := s)) == Bumped(v)
  {
  }

  /** The worked example: rating 5, favourite, no uses yet gives 75. */
  lemma BumpExample(v: VaultItem)
    requires v.rating == 5 && v.isFavorite && v.usageCount == 0
    ensures Bumped(v).usageCount == 1 && Bumped(v).neuralPreferenceScore == 75
  {
  }

  /** Two increments in a row both land. */
  lemma TwoBumpsBothLand(v: VaultItem)
    ensures Bumped(Bumped(v)).usageCount == v.usageCount + 2
    ensures Bumped(Bumped(v)).neuralPreferenceScore == UsageScore(v.usageCount + 2, v.rating, v.isFavorite)
  {
  }

  /** A record whose score lies in 0..100 and whose counters are not
      negative. */
  predicate Sane(v: VaultItem) {
    ScoreInRange(v) && v.usageCount >= 0 && v.rating >= 0
  }

  /** Toggles and increments keep the score in 0..100, so any sequence of
      them does. */
  lemma ScoreStaysInRange(v: VaultItem)
    requires Sane(v)
    ensures Sane(Toggled(v)) && Sane(Bumped(v))
  {
  }

  /** The two record updates that change a score. */
  datatype ScoreOp = Toggle | Bump

  /** A record after a sequence of toggles and increments. */
  function ApplyOps(v: VaultItem, ops: seq<ScoreOp>): (r: VaultItem)
    ensures r.id == v.id && r.shortId == v.shortId && r.rating == v.rating
    decreases |ops|
  {
    if |ops| == 0 then v
    else ApplyOps(if ops[0] == Toggle then Toggled(v) else Bumped(v), ops[1..])
  }

  /** Whatever sequence of toggles and increments a record goes through, its
      score never leaves 0..100. */
  lemma {:induction false} ScoreStaysInRangeForever(v: VaultItem, ops: seq<ScoreOp>)
    requires Sane(v)
    ensures Sane(ApplyOps(v, ops))
    decreases |ops|
  {
    if |ops| > 0 {
      ScoreStaysInRange(v);
      ScoreStaysInRangeForever(if ops[0] == Toggle then Toggled(v) else Bumped(v), ops[1..]);
    }
  }

  ghost predicate AllSane(m: map<string, VaultItem>) {
    forall k :: k in m ==> Sane(m[k])
  }

  /** Every record is stored under its own id (the store's key path). */
  ghost predicate Keyed(m: map<string, VaultItem>) {
    forall k :: k in m ==> m[k].id == k
  }

  /** The ids of a record list. */
  ghost function Ids(items: seq<VaultItem>): set<string> {
    set i | 0 <= i < |items| :: items[i].id
  }

  lemma IdsSnoc(items: seq<VaultItem>, x: VaultItem)
    ensures Ids(items + [x]) == Ids(items) + {x.id}
  {
    var s := items + [x];
    forall k | k in Ids(s) ensures k in Ids(items) + {x.id} {
      var i :| 0 <= i < |s| && s[i].id == k;
      if i < |items| { assert items[i] == s[i]; }
    }
    forall k | k in Ids(items) + {x.id} ensures k in Ids(s) {
      if k in Ids(items) {
        var i :| 0 <= i < |items| && items[i].id == k;
        assert s[i] == items[i];
      } else {
        assert s[|items|] == x;
      }
    }
  }

  ghost predicate DistinctIds(items: seq<VaultItem>) {
    forall i, j :: 0 <= i < j < |items| ==> items[i].id != items[j].id
  }

  /** Every listed record is the one stored under its id. */
  ghost predicate DrawnFrom(items: seq<VaultItem>, m: map<string, VaultItem>) {
    forall i :: 0 <= i < |items| ==> items[i].id in m && m[items[i].id] == items[i]
  }

  /** `items` lists every stored record exactly once, in some order. */
  ghost predicate Listing(items: seq<VaultItem>, m: map<string, VaultItem>) {
    DrawnFrom(items, m) && DistinctIds(items) && Ids(items) == m.Keys
  }

  /** The store after putting `items` one after the other, with no
      defaults filled. */
  function PutAll(m: map<string, VaultItem>, items: seq<VaultItem>): (r: map<string, VaultItem>)
    ensures r.Keys == m.Keys + Ids(items)
    ensures |items| > 0 ==> r[items[|items| - 1].id] == items[|items| - 1]
    decreases |items|
  {
    if |items| == 0 then m
    else
      var last := items[|items| - 1];
      assert items == items[..|items| - 1] + [last];
      IdsSnoc(items[..|items| - 1], last);
      PutAll(m, items[..|items| - 1])[last.id := last]
  }

  /** The last record of `items` whose id is `k`. */
  function LastWith(items: seq<VaultItem>, k: string): (r: Option<VaultItem>)
    ensures r.Some? ==> r.value in items && r.value.id == k
    ensures r.None? <==> k !in Ids(items)
    decreases |items|
  {
    if |items| == 0 then None
    else if items[|items| - 1].id == k then Some(items[|items| - 1])
    else
      var r := LastWith(items[..|items| - 1], k);
      assert items == items[..|items| - 1] + [items[|items| - 1]];
      IdsSnoc(items[..|items| - 1], items[|items| - 1]);
      r
  }

  /** After a bulk put, an id holds the last record with that id in the
      batch, and otherwise what it held before. */
  lemma {:induction false} PutAllLastWins(m: map<string, VaultItem>, items: seq<VaultItem>, k: string)
    ensures k in PutAll(m, items) <==> k in m || k in Ids(items)
    ensures k in PutAll(m, items) ==>
              PutAll(m, items)[k] == if k in Ids(items) then LastWith(items, k).value else m[k]
    decreases |items|
  {
    if |items| > 0 {
      PutAllLastWins(m, items[..|items| - 1], k);
      assert items == items[..|items| - 1] + [items[|items| - 1]];
      IdsSnoc(items[..|items| - 1], items[|items| - 1]);
    }
  }

  /** A bulk put keeps every record under its own id. */
  lemma {:induction false} PutAllKeyed(m: map<string, VaultItem>, items: seq<VaultItem>)
    requires Keyed(m)
    ensures Keyed(PutAll(m, items))
    decreases |items|
  {
    if |items| > 0 {
      PutAllKeyed(m, items[..|items| - 1]);
    }
  }

  /** Putting back records drawn from the store leaves it as it was. */
  lemma {:induction false} PutAllRedundant(m: map<string, VaultItem>, items: seq<VaultItem>)
    requires DrawnFrom(items, m)
    ensures PutAll(m, items) == m
    decreases |items|
  {
    if |items| > 0 {
      PutAllRedundant(m, items[..|items| - 1]);
    }
  }

  /** Putting a listing of a store into an empty store rebuilds it. */
  lemma PutAllRebuilds(m: map<string, VaultItem>, items: seq<VaultItem>)
    requires Listing(items, m)
    ensures PutAll(map[], items) == m
  {
    var r := PutAll(map[], items);
    forall k | k in m ensures k in r && r[k] == m[k] {
      PutAllLastWins(map[], items, k);
    }
    forall k | k in r ensures k in m {
      PutAllLastWins(map[], items, k);
    }
  }

  /** The browser object store, as the map it holds. */
  class VaultStore {
    var nodes: map<string, VaultItem>

    ghost predicate Valid()
      reads this
    {
      Keyed(nodes)
    }

    /** An empty store, as `initDB` creates it on first use. */
    constructor ()
      ensures Valid() && nodes == map[]
    {
      nodes := map[];
    }

    /** `saveNode`: puts the record with defaults filled, replacing any
        record with the same id. */
    method SaveNode(item: NodeDraft)
      requires Valid()
      modifies this
      ensures Valid()
      ensures nodes == old(nodes)[item.id := Normalize(item)]
    {
      nodes := nodes[item.id := Normalize(item)];
    }

    /** `toggleFavoriteNode`: flips the flag of the record under `id` and
        returns the new flag; rejects with "Node not found" and writes
        nothing when there is no such record. */
    method ToggleFavoriteNode(id: string) returns (r: Result<bool, string>)
      requires Valid()
      modifies this
      ensures Valid()
      ensures id in old(nodes) ==>
                nodes == old(nodes)[id := Toggled(old(nodes)[id])] && r == Ok(!old(nodes)[id].isFavorite)
      ensures id !in old(nodes) ==> nodes == old(nodes) && r == Err(NotFound)
      ensures AllSane(old(nodes)) ==> AllSane(nodes)
    {
      if id in nodes {
        var item := nodes[id];
        item := Toggled(item);
        if Sane(nodes[id]) { ScoreStaysInRange(nodes[id]); }
        nodes := nodes[id := item];
        r := Ok(item.isFavorite);
      } else {
        r := Err(NotFound);
      }
    }

    /** `getAllNodes`: every stored record once.  The order is the store's
        own and carries no meaning. */
    method GetAllNodes() returns (items: seq<VaultItem>)
      requires Valid()
      ensures Listing(items, nodes)
    {
      items := [];
      var rest := nodes.Keys;
      while rest != {}
        invariant rest <= nodes.Keys
        invariant Ids(items) == nodes.Keys - rest
        invariant DrawnFrom(items, nodes)
        invariant DistinctIds(items)
        decreases rest
      {
        var k :| k in rest;
        IdsSnoc(items, nodes[k]);
        items := items + [nodes[k]];
        rest := rest - {k};
      }
    }

    /** `incrementNodeUsage`: the first record of the listing whose shortId
        matches gets one more use and a recomputed score; an unknown
        shortId changes nothing and is not an error.  `bumped` names the
        record that was updated. */
    method IncrementNodeUsage(shortId: string) returns (ghost bumped: Option<string>)
      requires Valid()
      modifies this
      ensures Valid()
      ensures bumped.None? <==> forall k :: k in old(nodes) ==> old(nodes)[k].shortId != shortId
      ensures bumped.None? ==> nodes == old(nodes)
      ensures bumped.Some? ==>
                var k := bumped.value;
                k in old(nodes) && old(nodes)[k].shortId == shortId
                && nodes == old(nodes)[k := Bumped(old(nodes)[k])]
      ensures AllSane(old(nodes)) ==> AllSane(nodes)
    {
      var items := GetAllNodes();
      var found := FindFirst(items, (v: VaultItem) => v.shortId == shortId);
      if found.Some? {
        var item := items[found.value];
        if Sane(item) { ScoreStaysInRange(item); }
        nodes := nodes[item.id := Bumped(item)];
        bumped := Some(item.id);
      } else {
        bumped := None;
        forall k | k in nodes ensures nodes[k].shortId != shortId {
          assert k in Ids(items);
        }
      }
    }

    /** `deleteNode`: removes the record under `id`; a missing id is not an
        error. */
    method DeleteNode(id: string)
      requires Valid()
      modifies this
      ensures Valid()
      ensures nodes == old(nodes) - {id}
    {
      nodes := nodes - {id};
    }

    /** `bulkSaveNodes`: puts each record in turn, as given, so a later
        record with the same id wins. */
    method BulkSaveNodes(items: seq<VaultItem>)
      requires Valid()
      modifies this
      ensures Valid()
      ensures nodes == PutAll(old(nodes), items)
    {
      for i := 0 to |items|
        invariant Keyed(nodes)
        invariant nodes == PutAll(old(nodes), items[..i])
      {
        assert items[..i + 1][..i] == items[..i];
        nodes := nodes[items[i].id := items[i]];
      }
      assert items[..|items|] == items;
    }
  }
}
