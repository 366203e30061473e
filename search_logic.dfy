/**
  * The two-stage retrieve-and-rerank step of the semantic searcher.
  *
  * The query is normalised once; the vector index is asked for up to `top_k`
  * candidates for the normalised query; when there are none the result is
  * empty and the re-ranker is not consulted. Otherwise the re-ranker scores
  * every candidate against the normalised query, each candidate's `score` is
  * overwritten in place with the score at its retrieval position, and the
  * candidates are returned in a stable sort by that score, highest first.
  *
  * The normaliser, the vector index and the cross-encoder are opaque here:
  * they are functions handed to the searcher, and nothing is assumed of them
  * beyond what a caller can observe.
  */
module SearchLogic {
  import opened Results
  import opened StableSort

  /** A retrieved node: its text, its source metadata and its current score. */
  class Node {
    var text: string
    var metadata: map<string, string>
    var score: int

    constructor (text: string, metadata: map<string, string>, score: int)
      ensures this.text == text && this.metadata == metadata && this.score == score
    {
      this.text := text;
      this.metadata := metadata;
      this.score := score;
    }
  }

  /** One call the searcher makes to a collaborator, with the arguments it passes. */
  datatype Call =
    | Normalize(raw: string)
    | Retrieve(query: string, topK: int)
    | Rerank(query: string, texts: seq<string>)

  /**
    * Indexing the re-ranker's scores past their end: raised when the
    * re-ranker returns fewer scores than there are candidates.
    */
  datatype SearchError = ScoreIndexOutOfRange(index: nat)

  /** The retriever hands back one node object per hit. */
  predicate Distinct(nodes: seq<Node>) {
    forall i, j :: 0 <= i < j < |nodes| ==> nodes[i] != nodes[j]
  }

  /** The texts the re-ranker pairs with the query, in retrieval order. */
  function Texts(nodes: seq<Node>): seq<string>
    reads set n | n in nodes
  {
    seq(|nodes|, i reads set n | n in nodes requires 0 <= i < |nodes| => nodes[i].text)
  }

  /** The current score of every node, in order: the sort key of each node. */
  function Scores(nodes: seq<Node>): seq<int>
    reads set n | n in nodes
  {
    seq(|nodes|, i reads set n | n in nodes requires 0 <= i < |nodes| => nodes[i].score)
  }

  /** The nodes whose current score is `v`, in the order they have in `nodes`. */
  function ScoredAt(nodes: seq<Node>, v: int): seq<Node>
    reads set n | n in nodes
  {
    if nodes == [] then []
    else (if nodes[0].score == v then [nodes[0]] else []) + ScoredAt(nodes[1..], v)
  }

  /** The key of `n`: the entry of `keys` at the first position of `n` in `hits`. */
  function KeyAt(hits: seq<Node>, keys: seq<int>, n: Node): int {
    if hits == [] || keys == [] then 0
    else if hits[0] == n then keys[0]
    else KeyAt(hits[1..], keys[1..], n)
  }

  function KeyOf(hits: seq<Node>, keys: seq<int>): Node -> int {
    (n: Node) => KeyAt(hits, keys, n)
  }

  /** `hits` in a stable sort by `keys` (one key per hit), highest key first. */
  function Ranked(hits: seq<Node>, keys: seq<int>): seq<Node> {
    SortDesc(hits, KeyOf(hits, keys))
  }

  /** With distinct hits, each hit is keyed by the entry at its own position. */
  lemma {:induction false} KeyAtPosition(hits: seq<Node>, keys: seq<int>, i: nat)
    requires Distinct(hits)
    requires i < |hits| && i < |keys|
    ensures KeyAt(hits, keys, hits[i]) == keys[i]
    decreases i
  {
    if i > 0 {
      assert hits[0] != hits[i];
      assert hits[1..][i - 1] == hits[i];
      KeyAtPosition(hits[1..], keys[1..], i - 1);
    }
  }

  /** Filtering by current score is filtering by a key that agrees with it. */
  lemma {:induction false} ScoredAtWithKey(nodes: seq<Node>, key: Node -> int, v: int)
    requires forall i :: 0 <= i < |nodes| ==> nodes[i].score == key(nodes[i])
    ensures ScoredAt(nodes, v) == WithKey(nodes, key, v)
    decreases |nodes|
  {
    if nodes != [] {
      ScoredAtWithKey(nodes[1..], key, v);
    }
  }

  /**
    * What a stable sort of the hits by their current score, highest first,
    * returns: the same nodes, ordered by score from highest to lowest, and
    * within one score in retrieval order.
    */
  lemma RankedByScore(hits: seq<Node>)
    requires Distinct(hits)
    ensures var r := Ranked(hits, Scores(hits));
      && multiset(r) == multiset(hits)
      && (forall i, j :: 0 <= i < j < |r| ==> r[i].score >= r[j].score)
      && (forall v :: ScoredAt(r, v) == ScoredAt(hits, v))
  {
    var keys := Scores(hits);
    var key := KeyOf(hits, keys);
    var r := Ranked(hits, keys);
    forall i | 0 <= i < |hits| ensures hits[i].score == key(hits[i]) {
      KeyAtPosition(hits, keys, i);
    }
    SortDescPermutes(hits, key);
    SortDescOrdered(hits, key);
    SortDescStable(hits, key);
    forall k | 0 <= k < |r| ensures r[k].score == key(r[k]) {
      assert r[k] in multiset(hits);
    }
    forall v ensures ScoredAt(r, v) == ScoredAt(hits, v) {
      ScoredAtWithKey(r, key, v);
      ScoredAtWithKey(hits, key, v);
    }
  }

  /**
    * Overwrites, in retrieval order, each hit's score with the re-ranker's
    * score at the same position. It stops with `false` at the first position
    * that has no score, after the earlier hits have been overwritten.
    */
  method OverwriteScores(hits: seq<Node>, scores: seq<int>) returns (complete: bool)
    requires Distinct(hits)
    modifies set n | n in hits
    ensures complete <==> |scores| >= |hits|
    ensures forall i :: 0 <= i < |hits| ==>
      hits[i].score == (if i < |scores| then scores[i] else old(hits[i].score))
    ensures forall i :: 0 <= i < |hits| ==>
      hits[i].text == old(hits[i].text) && hits[i].metadata == old(hits[i].metadata)
  {
    var idx := 0;
    while idx < |hits|
      invariant 0 <= idx <= |hits| && idx <= |scores|
      invariant forall i :: 0 <= i < idx ==> hits[i].score == scores[i]
      invariant forall i :: idx <= i < |hits| ==> hits[i].score == old(hits[i].score)
      invariant forall i :: 0 <= i < |hits| ==>
        hits[i].text == old(hits[i].text) && hits[i].metadata == old(hits[i].metadata)
    {
      if idx == |scores| {
        return false;
      }
      hits[idx].score := scores[idx];
      idx := idx + 1;
    }
    return true;
  }

  /**
    * The searcher over one AI core: its text normaliser and its cross-encoder,
    * which scores (query, text) pairs.
    */
  class SemanticSearcher {
    const normalize: string -> string
    const rerank: (string, seq<string>) -> seq<int>

    constructor (normalize: string -> string, rerank: (string, seq<string>) -> seq<int>)
      ensures this.normalize == normalize && this.rerank == rerank
    {
      this.normalize := normalize;
      this.rerank := rerank;
    }

    /**
      * `retrieve(q, k)` is the vector index asked for `k` nearest nodes of
      * the query `q`. `calls` records, in order, every call made to the
      * normaliser, the index and the re-ranker.
      */
    method SearchAndRank(query: string, retrieve: (string, int) -> seq<Node>, topK: int := 10)
      returns (result: Result<seq<Node>, SearchError>, ghost calls: seq<Call>)
      requires Distinct(retrieve(normalize(query), topK))
      modifies set n | n in retrieve(normalize(query), topK)
      ensures var q := normalize(query); var hits := retrieve(q, topK);
        hits == [] ==> result == Ok([]) && calls == [Normalize(query), Retrieve(q, topK)]
      ensures var q := normalize(query); var hits := retrieve(q, topK);
        var scores := rerank(q, old(Texts(hits)));
        hits != [] ==>
          && calls == [Normalize(query), Retrieve(q, topK), Rerank(q, old(Texts(hits)))]
          && (result.Ok? <==> |scores| >= |hits|)
          && (result.Err? ==> result.error == ScoreIndexOutOfRange(|scores|))
          && (result.Ok? ==> result.value == Ranked(hits, scores[..|hits|]))
      ensures var q := normalize(query); var hits := retrieve(q, topK);
        var scores := rerank(q, old(Texts(hits)));
        forall i :: 0 <= i < |hits| ==>
          && hits[i].score == (if i < |scores| then scores[i] else old(hits[i].score))
          && hits[i].text == old(hits[i].text)
          && hits[i].metadata == old(hits[i].metadata)
      ensures var hits := retrieve(normalize(query), topK);
        result.Ok? ==>
          && multiset(result.value) == multiset(hits)
          && (forall i, j :: 0 <= i < j < |result.value| ==>
                result.value[i].score >= result.value[j].score)
          && (forall v :: ScoredAt(result.value, v) == ScoredAt(hits, v))
    {
      var q := normalize(query);
      calls := [Normalize(query)];
      var hits := retrieve(q, topK);
      calls := calls + [Retrieve(q, topK)];
      if hits == [] {
        return Ok([]), calls;
      }
      var texts := Texts(hits);
      var scores := rerank(q, texts);
      calls := calls + [Rerank(q, texts)];
      var complete := OverwriteScores(hits, scores);
      if !complete {
        return Err(ScoreIndexOutOfRange(|scores|)), calls;
      }
      var keys := Scores(hits);
      assert keys == scores[..|hits|];
      RankedByScore(hits);
      result := Ok(Ranked(hits, keys));
    }
  }
}
