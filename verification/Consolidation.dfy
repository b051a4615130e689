/** Memory consolidation: greedy clustering of episodes, then supersession of the chosen clusters. */
module Consolidation {
  import opened Prelude
  import opened MemoryRepository

  /** An episode and the lower-cased white-space-separated tokens of its text. */
  datatype Episode = Episode(id: Id, tokens: set<string>)

  const STOP_WORDS := {"the", "a", "an", "is", "was", "to", "and", "of", "in", "for", "user", "asked", "said"}

  function Words(ep: Episode): set<string> { ep.tokens - STOP_WORDS }

  /** The two episodes share at least two significant words. */
  predicate Related(a: Episode, b: Episode) {
    |Words(a) * Words(b)| >= 2
  }

  /** A word that says something. */
  predicate Significant(w: string) {
    && w != "the" && w != "a" && w != "an" && w != "is" && w != "was" && w != "to" && w != "and" && w != "of"
    && w != "in" && w != "for" && w != "user" && w != "asked" && w != "said"
  }

  predicate Shared(a: Episode, b: Episode, w: string) {
    w in a.tokens && w in b.tokens && Significant(w)
  }

  /** Related means: two different tokens of both texts say something. */
  lemma RelatedMeans(a: Episode, b: Episode)
    ensures Related(a, b) <==> exists v, w :: v != w && Shared(a, b, v) && Shared(a, b, w)
  {
    var common := Words(a) * Words(b);
    assert forall w :: w in common <==> Shared(a, b, w);
    if |common| >= 2 {
      var v :| v in common;
      assert |common - {v}| == |common| - 1;
      var w :| w in common - {v};
      assert Shared(a, b, v) && Shared(a, b, w);
    }
    forall v, w | v != w && Shared(a, b, v) && Shared(a, b, w)
      ensures |common| >= 2
    {
      assert {v, w} <= common;
      assert common == {v, w} + (common - {v, w});
    }
  }

  type Cluster = c: seq<Episode> | |c| > 0 witness [Episode("", {})]

  function Seed(c: Cluster): Episode { c[0] }

  ghost predicate DistinctIds(episodes: seq<Episode>) {
    forall i, j :: 0 <= i < j < |episodes| ==> episodes[i].id != episodes[j].id
  }

  /** The cluster a greedy pass gives an episode: that of the first seed related to it, or its own. */
  ghost predicate BelongsTo(ep: Episode, clusters: seq<Cluster>, k: nat)
    requires k < |clusters|
  {
    && (ep == Seed(clusters[k]) || Related(Seed(clusters[k]), ep))
    && forall j :: 0 <= j < k ==> !Related(Seed(clusters[j]), ep)
  }

  predicate Member(ep: Episode, clusters: seq<Cluster>, k: nat) {
    k < |clusters| && ep in clusters[k]
  }

  /** Each placed episode is in one cluster only, once, and in the cluster it belongs to. */
  ghost predicate Placed(episodes: seq<Episode>, clusters: seq<Cluster>) {
    && (forall k, ep :: Member(ep, clusters, k) ==> ep in episodes && BelongsTo(ep, clusters, k))
    && (forall j, k, ep :: Member(ep, clusters, j) && Member(ep, clusters, k) ==> j == k)
    && (forall k :: 0 <= k < |clusters| ==> NoDuplicates(clusters[k]))
  }

  ghost predicate IsPlaced(ep: Episode, clusters: seq<Cluster>) {
    exists k :: Member(ep, clusters, k)
  }

  /** The clustering so far: `used` are the placed ones, and whoever is left is related to no seed. */
  ghost predicate Greedy(episodes: seq<Episode>, used: set<Id>, clusters: seq<Cluster>) {
    && Placed(episodes, clusters)
    && (forall ep :: ep in episodes ==> (ep.id in used <==> IsPlaced(ep, clusters)))
    && (forall ep, k :: ep in episodes && ep.id !in used && 0 <= k < |clusters| ==> !Related(Seed(clusters[k]), ep))
  }

  /** The finished clustering: a partition of the episodes in which each sits with the first seed related to it. */
  ghost predicate Clustering(episodes: seq<Episode>, clusters: seq<Cluster>) {
    Placed(episodes, clusters) && forall ep :: ep in episodes ==> IsPlaced(ep, clusters)
  }

  /** The inner loop: the cluster of one seed. */
  method Gather(episodes: seq<Episode>, seed: Episode, used: set<Id>) returns (cluster: Cluster, used': set<Id>)
    requires DistinctIds(episodes) && seed in episodes && seed.id !in used
    ensures cluster[0] == seed
    ensures forall ep :: ep in cluster <==> ep == seed || (ep in episodes && ep.id !in used && Related(seed, ep))
    ensures NoDuplicates(cluster)
    ensures used' == used + set ep | ep in cluster :: ep.id
  {
    var words := Words(seed);
    cluster := [seed];
    used' := used + {seed.id};
    for k := 0 to |episodes|
      invariant cluster[0] == seed
      invariant forall ep :: ep in cluster <==> ep == seed || (ep in episodes[..k] && ep.id !in used && Related(seed, ep))
      invariant NoDuplicates(cluster)
      invariant used' == used + set ep | ep in cluster :: ep.id
    {
      var other := episodes[k];
      assert episodes[..k + 1] == episodes[..k] + [other];
      if other.id !in used' {
        var overlap := words * Words(other);
        if |overlap| >= 2 {
          cluster := cluster + [other];
          used' := used' + {other.id};
        }
      } else if other.id !in used {
        var ep :| ep in cluster && ep.id == other.id;
        SameId(episodes, ep, other);
      }
    }
    assert episodes[..|episodes|] == episodes;
  }

  lemma SameId(episodes: seq<Episode>, a: Episode, b: Episode)
    requires DistinctIds(episodes) && a in episodes && b in episodes && a.id == b.id
    ensures a == b
  {
  }

  lemma AddCluster(episodes: seq<Episode>, used: set<Id>, clusters: seq<Cluster>, cluster: Cluster, used': set<Id>)
    requires DistinctIds(episodes) && Greedy(episodes, used, clusters)
    requires cluster[0] in episodes && cluster[0].id !in used && NoDuplicates(cluster)
    requires forall ep :: ep in cluster <==>
                          ep == cluster[0] || (ep in episodes && ep.id !in used && Related(cluster[0], ep))
    requires used' == used + set ep | ep in cluster :: ep.id
    ensures Greedy(episodes, used', clusters + [cluster])
  {
    var n, longer := |clusters|, clusters + [cluster];
    assert forall ep, k :: Member(ep, longer, k) <==> Member(ep, clusters, k) || (k == n && ep in cluster);
    forall ep | ep in cluster
      ensures !IsPlaced(ep, clusters) && BelongsTo(ep, longer, n)
    {
    }
    forall k, ep | Member(ep, clusters, k)
      ensures BelongsTo(ep, longer, k)
    {
      assert BelongsTo(ep, clusters, k);
    }
    forall ep | ep in episodes
      ensures ep.id in used' <==> IsPlaced(ep, longer)
    {
      if IsPlaced(ep, clusters) {
        var k :| Member(ep, clusters, k);
        assert Member(ep, longer, k);
      } else if ep in cluster {
        assert Member(ep, longer, n);
      } else if ep.id in used' {
        var twin :| twin in cluster && twin.id == ep.id;
        SameId(episodes, twin, ep);
      }
    }
  }

  method ClusterEpisodes(episodes: seq<Episode>) returns (clusters: seq<Cluster>)
    requires DistinctIds(episodes)
    ensures Clustering(episodes, clusters)
  {
    clusters := [];
    var used: set<Id> := {};
    for k := 0 to |episodes|
      invariant Greedy(episodes, used, clusters)
      invariant forall ep :: ep in episodes[..k] ==> ep.id in used
    {
      var ep := episodes[k];
      assert episodes[..k + 1] == episodes[..k] + [ep];
      if ep.id !in used {
        var cluster, used' := Gather(episodes, ep, used);
        AddCluster(episodes, used, clusters, cluster, used');
        clusters := clusters + [cluster];
        used := used';
      }
    }
    assert episodes[..|episodes|] == episodes;
  }

  /** Any two seeds share fewer than two significant words; every other member shares two with its own seed. */
  lemma SeedsUnrelated(episodes: seq<Episode>, clusters: seq<Cluster>, j: nat, k: nat)
    requires Clustering(episodes, clusters) && j < k < |clusters|
    ensures !Related(Seed(clusters[j]), Seed(clusters[k]))
    ensures forall ep :: ep in clusters[k] && ep != Seed(clusters[k]) ==> Related(Seed(clusters[k]), ep)
    ensures forall ep :: ep in clusters[k] ==> ep !in clusters[j]
  {
    assert Member(Seed(clusters[k]), clusters, k);
    forall ep | ep in clusters[k]
      ensures BelongsTo(ep, clusters, k) && ep !in clusters[j]
    {
      assert Member(ep, clusters, k);
      assert ep in clusters[j] ==> Member(ep, clusters, j);
    }
  }

  /** On the tokens: the members of a cluster have two telling tokens in common with its seed, two seeds have not. */
  lemma ClustersShareTokens(episodes: seq<Episode>, clusters: seq<Cluster>, j: nat, k: nat, ep: Episode)
    requires Clustering(episodes, clusters) && j < k < |clusters| && ep in clusters[k] && ep != Seed(clusters[k])
    ensures exists v, w :: v != w && Shared(Seed(clusters[k]), ep, v) && Shared(Seed(clusters[k]), ep, w)
    ensures !exists v, w :: && v != w && Shared(Seed(clusters[j]), Seed(clusters[k]), v)
                            && Shared(Seed(clusters[j]), Seed(clusters[k]), w)
    ensures !exists v, w :: v != w && Shared(Seed(clusters[j]), ep, v) && Shared(Seed(clusters[j]), ep, w)
  {
    SeedsUnrelated(episodes, clusters, j, k);
    assert Member(ep, clusters, k);
    assert BelongsTo(ep, clusters, k);
    RelatedMeans(Seed(clusters[k]), ep);
    RelatedMeans(Seed(clusters[j]), Seed(clusters[k]));
    RelatedMeans(Seed(clusters[j]), ep);
  }

  // --- The consolidation loop --------------------------------------------------------------

  /** What becomes of one cluster's request: the model call fails, it declines, its answer cannot be stored, or
      it is stored under a fresh id. */
  datatype Reply = CallFailed | Skipped | StoreFailed | Distilled(id: Id)

  function Ids(c: Cluster): set<Id> {
    set ep | ep in c :: ep.id
  }

  /** One pass: the clusters, how the request for each fares, and the two limits. */
  datatype Pass = Pass(clusters: seq<Cluster>, replies: nat -> Reply, minSize: nat, maxClusters: nat) {

    /** Cluster `k` is one of the first `maxClusters`, is big enough, and was distilled and stored. */
    predicate Chosen(k: nat) {
      k < |clusters| && k < maxClusters && |clusters[k]| >= minSize && replies(k).Distilled?
    }

    predicate Takes(k: nat, id: Id) { Chosen(k) && id in Ids(clusters[k]) }

    /** The records stored for the first `n` clusters. */
    function Fresh(n: nat): set<Id> {
      if n == 0 then {} else Fresh(n - 1) + (if Chosen(n - 1) then {replies(n - 1).id} else {})
    }

    /** What supersedes `id` among the first `n` clusters. */
    function Successor(n: nat, id: Id): Option<Id> {
      if n == 0 then None else if Takes(n - 1, id) then Some(replies(n - 1).id) else Successor(n - 1, id)
    }

    function Count(n: nat): nat {
      if n == 0 then 0 else Count(n - 1) + (if Chosen(n - 1) then 1 else 0)
    }
  }

  function Superseding(m: Memory, by_: Option<Id>): Memory {
    if by_ == None then m else m.(status := Superseded, supersededBy := by_)
  }

  /** The stored records have ids of their own. */
  ghost predicate FreshIds(rows: Rows, replies: nat -> Reply) {
    && (forall k: nat :: replies(k).Distilled? ==> replies(k).id !in rows)
    && (forall j: nat, k: nat :: replies(j).Distilled? && replies(k).Distilled? && replies(j).id == replies(k).id ==> j == k)
  }

  /** After the first `n` clusters: one fresh active record per chosen cluster and no other new row; each member
      of a chosen cluster superseded by that cluster's record; every other row as it was. */
  ghost predicate Outcome(before: Rows, p: Pass, n: nat, after: Rows) {
    && after.Keys == before.Keys + p.Fresh(n)
    && (forall id :: id in p.Fresh(n) && id in after ==> after[id].status == Active && after[id].supersededBy == None)
    && (forall id :: id in before && id in after ==> after[id] == Superseding(before[id], p.Successor(n, id)))
  }

  function SupersedeIds(rows: Rows, ids: set<Id>, newId: Id): Rows {
    map id | id in rows :: if id in ids then rows[id].(status := Superseded, supersededBy := Some(newId)) else rows[id]
  }

  /** Superseding one more id. */
  lemma OneMoreSuperseded(before: Rows, ids: set<Id>, id: Id, newId: Id)
    requires id in before && before[id].status == Active && id != newId
    ensures SupersedeRow(SupersedeIds(before, ids, newId), id, newId).0 == SupersedeIds(before, ids + {id}, newId)
            || id in ids
  {
  }

  /** The ids of the first `k` members. */
  function FirstIds(cluster: Cluster, k: nat): set<Id>
    requires k <= |cluster|
  {
    set j | 0 <= j < k :: cluster[j].id
  }

  lemma FirstIdsGrow(cluster: Cluster, k: nat)
    requires k < |cluster|
    ensures FirstIds(cluster, k + 1) == FirstIds(cluster, k) + {cluster[k].id}
  {
  }

  lemma AllIds(cluster: Cluster)
    ensures FirstIds(cluster, |cluster|) == Ids(cluster)
  {
    forall id | id in Ids(cluster)
      ensures id in FirstIds(cluster, |cluster|)
    {
      var ep :| ep in cluster && ep.id == id;
    }
  }

  /** Whatever chains there were: if all of them ended, all still do; if all ran to younger records, all still do. */
  ghost predicate ChainsKept(before: Rows, after: Rows) {
    (Ending(before) ==> Ending(after)) && (Forward(before) ==> Forward(after))
  }

  lemma ChainsKeptTwice(a: Rows, b: Rows, c: Rows)
    requires ChainsKept(a, b) && ChainsKept(b, c)
    ensures ChainsKept(a, c)
  {
  }

  /** The youngest record, which nothing supersedes. */
  ghost predicate Newest(rows: Rows, newId: Id) {
    && newId in rows && rows[newId].supersededBy == None
    && forall id :: id in rows && id != newId ==> rows[id].born < rows[newId].born
  }

  lemma SupersedeByNewest(rows: Rows, oldId: Id, newId: Id)
    requires Newest(rows, newId) && oldId != newId
    ensures ChainsKept(rows, SupersedeRow(rows, oldId, newId).0) && Newest(SupersedeRow(rows, oldId, newId).0, newId)
  {
    if Ending(rows) {
      assert ChainFrom(rows, newId, [newId]);
      if EndsAt(rows, newId, oldId) {
        var path :| ChainFrom(rows, newId, path) && path[|path| - 1] == oldId;
        ChainIsUnique(rows, newId, path, [newId]);
      }
      SupersedeKeepsEndingIff(rows, oldId, newId);
    }
    if Forward(rows) {
      SupersedeKeepsForwardIff(rows, oldId, newId);
    }
  }

  /** The supersession loop of one cluster. */
  method SupersedeCluster(repo: MemoryRepository, cluster: Cluster, newId: Id)
    requires Newest(repo.rows, newId) && newId !in Ids(cluster) && AllActive(cluster, repo.rows)
    modifies repo`rows
    ensures repo.rows == SupersedeIds(old(repo.rows), Ids(cluster), newId)
    ensures ChainsKept(old(repo.rows), repo.rows)
  {
    ghost var before := repo.rows;
    assert SupersedeIds(before, {}, newId) == before;
    for k := 0 to |cluster|
      invariant repo.rows == SupersedeIds(before, FirstIds(cluster, k), newId)
      invariant Newest(repo.rows, newId) && ChainsKept(before, repo.rows)
    {
      var ep := cluster[k];
      assert ep in cluster && ep.id in Ids(cluster);
      FirstIdsGrow(cluster, k);
      OneMoreSuperseded(before, FirstIds(cluster, k), ep.id, newId);
      SupersedeByNewest(repo.rows, ep.id, newId);
      var done := repo.Supersede(ep.id, newId);
    }
    AllIds(cluster);
  }

  ghost predicate AllActive(episodes: seq<Episode>, rows: Rows) {
    forall ep :: ep in episodes ==> ep.id in rows && rows[ep.id].status == Active
  }

  /** What holds before each turn of the loop over the clusters. */
  ghost predicate Consolidating(before: Rows, p: Pass, k: nat, rows: Rows, created: nat) {
    Outcome(before, p, k, rows) && ChainsKept(before, rows) && BornBefore(rows, created)
  }

  /** One turn: the `k`-th cluster, if chosen, is stored and superseded. */
  method ConsolidateCluster(repo: MemoryRepository, ghost before: Rows, ghost episodes: seq<Episode>, p: Pass, k: nat)
    returns (stored: bool)
    requires k < |p.clusters|
    requires DistinctIds(episodes) && Clustering(episodes, p.clusters) && FreshIds(before, p.replies)
    requires AllActive(episodes, before) && Consolidating(before, p, k, repo.rows, repo.created)
    modifies repo
    ensures stored <==> p.Chosen(k)
    ensures Consolidating(before, p, k + 1, repo.rows, repo.created)
  {
    stored := k < p.maxClusters && |p.clusters[k]| >= p.minSize && p.replies(k).Distilled?;
    if stored {
      ghost var rows, born := repo.rows, repo.created;
      ClusterUntouched(before, episodes, p, k, rows);
      StoreAndSupersede(repo, p.clusters[k], p.replies(k).id);
      OutcomeGrows(before, episodes, p, k, rows, born, repo.rows);
      ChainsKeptTwice(before, rows, repo.rows);
    } else {
      OutcomeStays(before, p, k, repo.rows);
    }
  }

  /** Cluster `k` is among the first `maxClusters`, big enough, and its request was answered and stored. */
  predicate GoesThrough(clusters: seq<Cluster>, replies: nat -> Reply, minSize: nat, maxClusters: nat, k: nat) {
    k < |clusters| && k < maxClusters && minSize <= |clusters[k]| && replies(k).Distilled?
  }

  /** What becomes of an episode of cluster `k`: it is superseded by its cluster's new record, or stays as it was. */
  predicate Fate(before: Rows, after: Rows, ep: Episode, reply: Reply, through: bool) {
    && ep.id in before && ep.id in after
    && if through && reply.Distilled? then
         && after[ep.id] == before[ep.id].(status := Superseded, supersededBy := Some(reply.id))
         && reply.id in after && after[reply.id].status == Active && after[reply.id].supersededBy == None
       else after[ep.id] == before[ep.id]
  }

  lemma {:induction false} SuccessorOfMember(episodes: seq<Episode>, p: Pass, n: nat, k: nat, ep: Episode)
    requires DistinctIds(episodes) && Placed(episodes, p.clusters) && Member(ep, p.clusters, k)
    ensures p.Successor(n, ep.id) == if k < n && p.Chosen(k) then Some(p.replies(k).id) else None
    ensures k < n && p.Chosen(k) ==> p.replies(k).id in p.Fresh(n)
  {
    if n > 0 {
      SuccessorOfMember(episodes, p, n - 1, k, ep);
      if n - 1 != k {
        TakenOnce(episodes, p, n - 1, k, ep);
      } else {
        assert ep.id in Ids(p.clusters[k]);
      }
    }
  }

  lemma {:induction false} NoSuccessor(p: Pass, n: nat, id: Id)
    requires forall k, ep :: Member(ep, p.clusters, k) ==> ep.id != id
    ensures p.Successor(n, id) == None
  {
    if n > 0 {
      NoSuccessor(p, n - 1, id);
      if p.Takes(n - 1, id) {
        var ep :| ep in p.clusters[n - 1] && ep.id == id;
        assert Member(ep, p.clusters, n - 1);
        assert false;
      }
    }
  }

  lemma EpisodeFate(before: Rows, episodes: seq<Episode>, p: Pass, after: Rows, k: nat, ep: Episode)
    requires DistinctIds(episodes) && Clustering(episodes, p.clusters) && AllActive(episodes, before)
    requires Outcome(before, p, |p.clusters|, after) && Member(ep, p.clusters, k)
    ensures Fate(before, after, ep, p.replies(k), GoesThrough(p.clusters, p.replies, p.minSize, p.maxClusters, k))
  {
    SuccessorOfMember(episodes, p, |p.clusters|, k, ep);
    assert ep in episodes && ep.id in before && ep.id in after;
  }

  /** The numbers of the clusters that go through. */
  function Through(clusters: seq<Cluster>, replies: nat -> Reply, minSize: nat, maxClusters: nat, n: nat): set<nat> {
    set k: nat | k < n && GoesThrough(clusters, replies, minSize, maxClusters, k)
  }

  lemma {:induction false} CountIsCard(p: Pass, n: nat)
    ensures p.Count(n) == |Through(p.clusters, p.replies, p.minSize, p.maxClusters, n)|
  {
    if n > 0 {
      CountIsCard(p, n - 1);
      assert Through(p.clusters, p.replies, p.minSize, p.maxClusters, n)
          == Through(p.clusters, p.replies, p.minSize, p.maxClusters, n - 1) + (if p.Chosen(n - 1) then {n - 1} else {});
    }
  }

  /** Every episode meets its fate, and no other record changes. */
  ghost predicate Fates(before: Rows, episodes: seq<Episode>, p: Pass, after: Rows) {
    && (forall k: nat, ep :: Member(ep, p.clusters, k) ==>
          Fate(before, after, ep, p.replies(k), GoesThrough(p.clusters, p.replies, p.minSize, p.maxClusters, k)))
    && (forall id :: id in before && (forall ep :: ep in episodes ==> ep.id != id) ==>
          id in after && after[id] == before[id])
  }

  lemma OutcomeIsFates(before: Rows, episodes: seq<Episode>, p: Pass, after: Rows)
    requires DistinctIds(episodes) && Clustering(episodes, p.clusters) && AllActive(episodes, before)
    requires Outcome(before, p, |p.clusters|, after)
    ensures Fates(before, episodes, p, after)
  {
    forall k: nat, ep | Member(ep, p.clusters, k)
      ensures Fate(before, after, ep, p.replies(k), GoesThrough(p.clusters, p.replies, p.minSize, p.maxClusters, k))
    {
      EpisodeFate(before, episodes, p, after, k, ep);
    }
    forall id | id in before && (forall ep :: ep in episodes ==> ep.id != id)
      ensures id in after && after[id] == before[id]
    {
      NoSuccessor(p, |p.clusters|, id);
    }
  }

  /** The loop over the clusters. */
  method ConsolidateAll(repo: MemoryRepository, ghost episodes: seq<Episode>, p: Pass) returns (count: nat)
    requires DistinctIds(episodes) && Clustering(episodes, p.clusters) && FreshIds(repo.rows, p.replies)
    requires AllActive(episodes, repo.rows) && BornBefore(repo.rows, repo.created)
    modifies repo
    ensures Consolidating(old(repo.rows), p, |p.clusters|, repo.rows, repo.created) && count == p.Count(|p.clusters|)
  {
    ghost var before := repo.rows;
    count := 0;
    for k := 0 to |p.clusters|
      invariant Consolidating(before, p, k, repo.rows, repo.created) && count == p.Count(k)
    {
      var stored := ConsolidateCluster(repo, before, episodes, p, k);
      if stored {
        count := count + 1;
      }
    }
  }

  /** The pass, and the number of records stored. */
  method Consolidate(repo: MemoryRepository, episodes: seq<Episode>, replies: nat -> Reply, minSize: nat, maxClusters: nat)
    returns (clusters: seq<Cluster>, count: nat)
    requires DistinctIds(episodes) && FreshIds(repo.rows, replies)
    requires AllActive(episodes, repo.rows)
    requires BornBefore(repo.rows, repo.created)
    modifies repo
    ensures |episodes| < minSize ==> clusters == [] && repo.rows == old(repo.rows)
    ensures |episodes| >= minSize ==> Clustering(episodes, clusters)
    ensures Outcome(old(repo.rows), Pass(clusters, replies, minSize, maxClusters), |clusters|, repo.rows)
    ensures count == Pass(clusters, replies, minSize, maxClusters).Count(|clusters|)
    // One record for each cluster that goes through; every episode meets its fate, and no other record changes.
    ensures count == |Through(clusters, replies, minSize, maxClusters, |clusters|)|
    ensures |episodes| >= minSize ==>
              Fates(old(repo.rows), episodes, Pass(clusters, replies, minSize, maxClusters), repo.rows)
    ensures ChainsKept(old(repo.rows), repo.rows) && BornBefore(repo.rows, repo.created)
  {
    clusters, count := [], 0;
    if |episodes| < minSize {
      CountIsCard(Pass(clusters, replies, minSize, maxClusters), 0);
      return;
    }
    ghost var before := repo.rows;
    clusters := ClusterEpisodes(episodes);
    var p := Pass(clusters, replies, minSize, maxClusters);
    count := ConsolidateAll(repo, episodes, p);
    CountIsCard(p, |clusters|);
    OutcomeIsFates(before, episodes, p, repo.rows);
  }

  method StoreAndSupersede(repo: MemoryRepository, cluster: Cluster, id: Id)
    requires BornBefore(repo.rows, repo.created)
    requires id !in repo.rows && id !in Ids(cluster) && AllActive(cluster, repo.rows)
    modifies repo
    ensures repo.rows == SupersedeIds(old(repo.rows)[id := Memory(Active, None, old(repo.created))], Ids(cluster), id)
    ensures repo.created == old(repo.created) + 1
    ensures ChainsKept(old(repo.rows), repo.rows) && BornBefore(repo.rows, repo.created)
  {
    ghost var before := repo.rows;
    CreateKeepsChains(repo.rows, repo.created, id);
    repo.Create(id);
    ghost var with := repo.rows;
    SupersedeCluster(repo, cluster, id);
    ChainsKeptTwice(before, with, repo.rows);
  }

  lemma CreateKeepsChains(rows: Rows, created: nat, id: Id)
    requires BornBefore(rows, created) && id !in rows
    ensures var after := rows[id := Memory(Active, None, created)];
            ChainsKept(rows, after) && Newest(after, id) && BornBefore(after, created + 1)
  {
    if Ending(rows) {
      CreateKeepsEnding(rows, created, id);
    }
    if Forward(rows) {
      CreateKeepsForward(rows, created, id);
    }
  }

  /** No other cluster takes a member of this one … */
  lemma TakenOnce(episodes: seq<Episode>, p: Pass, j: nat, k: nat, ep: Episode)
    requires DistinctIds(episodes) && Placed(episodes, p.clusters) && j != k && Member(ep, p.clusters, k)
    ensures !p.Takes(j, ep.id)
  {
    if p.Takes(j, ep.id) {
      var twin :| twin in p.clusters[j] && twin.id == ep.id;
      assert Member(twin, p.clusters, j);
      SameId(episodes, twin, ep);
      assert false;
    }
  }

  /** … so no earlier one has superseded it. */
  lemma {:induction false} NotTakenBefore(episodes: seq<Episode>, p: Pass, n: nat, k: nat, ep: Episode)
    requires DistinctIds(episodes) && Placed(episodes, p.clusters) && n <= k && Member(ep, p.clusters, k)
    ensures p.Successor(n, ep.id) == None
  {
    if n > 0 {
      NotTakenBefore(episodes, p, n - 1, k, ep);
      TakenOnce(episodes, p, n - 1, k, ep);
    }
  }

  lemma {:induction false} FreshAreReplies(rows: Rows, p: Pass, n: nat)
    requires FreshIds(rows, p.replies)
    ensures p.Fresh(n) !! rows.Keys
    ensures forall k: nat :: n <= k && p.replies(k).Distilled? ==> p.replies(k).id !in p.Fresh(n)
  {
    if n > 0 {
      FreshAreReplies(rows, p, n - 1);
    }
  }

  /** When its turn comes, no member of a cluster has been superseded and its record's id is unused. */
  lemma ClusterUntouched(before: Rows, episodes: seq<Episode>, p: Pass, k: nat, rows: Rows)
    requires DistinctIds(episodes) && Clustering(episodes, p.clusters) && FreshIds(before, p.replies)
    requires AllActive(episodes, before) && Outcome(before, p, k, rows) && p.Chosen(k)
    ensures p.replies(k).id !in rows && p.replies(k).id !in Ids(p.clusters[k])
    ensures AllActive(p.clusters[k], rows) && forall id :: id in Ids(p.clusters[k]) ==> id in before && rows[id] == before[id]
  {
    FreshAreReplies(before, p, k);
    forall ep | ep in p.clusters[k]
      ensures ep.id in before && ep.id in rows && rows[ep.id] == before[ep.id] && before[ep.id].status == Active
    {
      assert Member(ep, p.clusters, k);
      NotTakenBefore(episodes, p, k, k, ep);
    }
  }

  lemma OutcomeGrows(before: Rows, episodes: seq<Episode>, p: Pass, k: nat, rows: Rows, born: nat, rows': Rows)
    requires DistinctIds(episodes) && Clustering(episodes, p.clusters) && FreshIds(before, p.replies)
    requires AllActive(episodes, before) && Outcome(before, p, k, rows) && p.Chosen(k)
    requires rows' == SupersedeIds(rows[p.replies(k).id := Memory(Active, None, born)], Ids(p.clusters[k]), p.replies(k).id)
    ensures Outcome(before, p, k + 1, rows')
  {
    ClusterUntouched(before, episodes, p, k, rows);
    FreshAreReplies(before, p, k);
    assert p.Fresh(k + 1) == p.Fresh(k) + {p.replies(k).id};
    forall id | id in before && id in rows'
      ensures rows'[id] == Superseding(before[id], p.Successor(k + 1, id))
    {
      assert id in Ids(p.clusters[k]) ==> p.Takes(k, id);
    }
  }

  lemma OutcomeStays(before: Rows, p: Pass, k: nat, rows: Rows)
    requires Outcome(before, p, k, rows) && !p.Chosen(k)
    ensures Outcome(before, p, k + 1, rows)
  {
    forall id
      ensures p.Successor(k + 1, id) == p.Successor(k, id)
    {
    }
  }
}
