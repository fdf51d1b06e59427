/** The knowledge index: the best section of each of the best documents. */
module Retrieval {
  import opened Wrappers
  import opened Numbers
  import opened Text

  datatype Document = Document(docId: string, title: string, section: string, text: string)

  datatype Chunk = Chunk(document: Document, score: real)

  datatype SearchError = NotIndexed | NotFitted

  datatype IndexError = EmptyCorpus | NothingToLearn

  // ---------------------------------------------------------------- what a search must return

  /** A ranking as `argsort` reversed gives it: every position once, best score first, ties in any order. */
  ghost predicate Descending(order: seq<nat>, scores: seq<real>) {
    && |order| == |scores|
    && (forall m :: 0 <= m < |order| ==> order[m] < |scores|)
    && (forall i :: 0 <= i < |scores| ==> i in order)
    && (forall a, b :: 0 <= a < b < |order| ==> scores[order[a]] >= scores[order[b]])
  }

  /** `i` is a best section of its document. */
  ghost predicate BestSection(documents: seq<Document>, scores: seq<real>, i: nat) {
    && i < |documents| == |scores|
    && forall j | 0 <= j < |scores| && documents[j].docId == documents[i].docId :: scores[j] <= scores[i]
  }

  ghost predicate Has(documents: seq<Document>, picked: seq<nat>, docId: string) {
    exists k :: 0 <= k < |picked| && picked[k] < |documents| && documents[picked[k]].docId == docId
  }

  /** Best positive sections of distinct documents, best first. */
  ghost predicate Ranked(documents: seq<Document>, scores: seq<real>, picked: seq<nat>) {
    && |documents| == |scores|
    && (forall k :: 0 <= k < |picked| ==> BestSection(documents, scores, picked[k]) && scores[picked[k]] > 0.0)
    && (forall a, b :: 0 <= a < b < |picked| ==> scores[picked[a]] >= scores[picked[b]])
    && (forall a, b :: 0 <= a < b < |picked| ==> documents[picked[a]].docId != documents[picked[b]].docId)
  }

  /** A positive section whose document was not picked: the list is full, of scores that are as good. */
  ghost predicate Beaten(documents: seq<Document>, scores: seq<real>, topK: int, picked: seq<nat>, j: nat) {
    && |picked| >= topK
    && forall k :: 0 <= k < |picked| ==> picked[k] < |scores| && j < |scores| && scores[picked[k]] >= scores[j]
  }

  ghost predicate Missed(documents: seq<Document>, scores: seq<real>, picked: seq<nat>, j: nat) {
    j < |scores| == |documents| && scores[j] > 0.0 && !Has(documents, picked, documents[j].docId)
  }

  ghost predicate IsTop(documents: seq<Document>, scores: seq<real>, topK: int, picked: seq<nat>) {
    && Ranked(documents, scores, picked)
    && |picked| <= Max(topK, 0)
    && forall j: nat | Missed(documents, scores, picked, j) :: Beaten(documents, scores, topK, picked, j)
  }

  function Chunks(documents: seq<Document>, scores: seq<real>, picked: seq<nat>): (chunks: seq<Chunk>)
    requires forall k :: 0 <= k < |picked| ==> picked[k] < |documents| && picked[k] < |scores|
    ensures |chunks| == |picked|
    ensures forall k :: 0 <= k < |picked| ==> chunks[k] == Chunk(documents[picked[k]], scores[picked[k]])
  {
    seq(|picked|, k requires 0 <= k < |picked| => Chunk(documents[picked[k]], scores[picked[k]]))
  }

  // ---------------------------------------------------------------- one round of the search loop

  /** The part of the ranking already visited. */
  ghost predicate Visited(documents: seq<Document>, scores: seq<real>, topK: int, order: seq<nat>, n: nat, picked: seq<nat>) {
    && n <= |order|
    && (forall k :: 0 <= k < |picked| ==> picked[k] in order[..n])
    && forall m :: 0 <= m < n && Missed(documents, scores, picked, order[m]) ==> Beaten(documents, scores, topK, picked, order[m])
  }

  lemma PickedBefore(scores: seq<real>, order: seq<nat>, n: nat, i: nat)
    requires Descending(order, scores) && n < |order| && i in order[..n]
    ensures i < |scores| && scores[i] >= scores[order[n]]
  {
    var m :| 0 <= m < n && order[m] == i;
  }

  lemma NewIsBest(documents: seq<Document>, scores: seq<real>, topK: int, order: seq<nat>, n: nat, picked: seq<nat>)
    requires |documents| == |scores| && Descending(order, scores) && n < |order|
    requires Visited(documents, scores, topK, order, n, picked) && |picked| < topK
    requires Missed(documents, scores, picked, order[n])
    ensures BestSection(documents, scores, order[n])
  {
    var i := order[n];
    forall j | 0 <= j < |scores| && documents[j].docId == documents[i].docId ensures scores[j] <= scores[i] {
      assert j in order;
      var m :| 0 <= m < |order| && order[m] == j;
      if m < n { assert !Missed(documents, scores, picked, order[m]); }
    }
  }

  lemma Add(documents: seq<Document>, scores: seq<real>, topK: int, order: seq<nat>, n: nat, picked: seq<nat>)
    requires |documents| == |scores| && Descending(order, scores) && n < |order|
    requires Ranked(documents, scores, picked) && Visited(documents, scores, topK, order, n, picked) && |picked| < topK
    requires Missed(documents, scores, picked, order[n])
    ensures Ranked(documents, scores, picked + [order[n]])
    ensures Visited(documents, scores, topK, order, n + 1, picked + [order[n]])
  {
    var longer := picked + [order[n]];
    NewIsBest(documents, scores, topK, order, n, picked);
    forall k | 0 <= k < |picked| ensures scores[picked[k]] >= scores[order[n]] { PickedBefore(scores, order, n, picked[k]); }
    assert order[..n + 1] == order[..n] + [order[n]];
    forall m | 0 <= m < n + 1 ensures !Missed(documents, scores, longer, order[m]) {
      if m < n {
        if Has(documents, picked, documents[order[m]].docId) { HasMore(documents, picked, order[n], documents[order[m]].docId); }
      } else {
        assert longer[|picked|] == order[n];
      }
    }
  }

  lemma HasMore(documents: seq<Document>, picked: seq<nat>, i: nat, docId: string)
    requires Has(documents, picked, docId)
    ensures Has(documents, picked + [i], docId)
  {
    var k :| 0 <= k < |picked| && picked[k] < |documents| && documents[picked[k]].docId == docId;
    assert (picked + [i])[k] == picked[k];
  }

  lemma Skip(documents: seq<Document>, scores: seq<real>, topK: int, order: seq<nat>, n: nat, picked: seq<nat>)
    requires |documents| == |scores| && Descending(order, scores) && n < |order|
    requires Visited(documents, scores, topK, order, n, picked)
    requires Missed(documents, scores, picked, order[n]) ==> |picked| >= topK
    ensures Visited(documents, scores, topK, order, n + 1, picked)
  {
    assert order[..n + 1] == order[..n] + [order[n]];
    forall k | 0 <= k < |picked| ensures picked[k] < |scores| && scores[picked[k]] >= scores[order[n]] {
      PickedBefore(scores, order, n, picked[k]);
    }
  }

  /** Once every position has been visited, the list is a top-k list. */
  lemma Complete(documents: seq<Document>, scores: seq<real>, topK: int, order: seq<nat>, picked: seq<nat>)
    requires |documents| == |scores| && Descending(order, scores)
    requires Ranked(documents, scores, picked) && Visited(documents, scores, topK, order, |order|, picked)
    requires |picked| <= Max(topK, 0)
    ensures IsTop(documents, scores, topK, picked)
  {
    forall j: nat | Missed(documents, scores, picked, j) ensures Beaten(documents, scores, topK, picked, j) {
      assert j in order;
      var m :| 0 <= m < |order| && order[m] == j;
    }
  }

  lemma HasAdded(documents: seq<Document>, picked: seq<nat>, i: nat)
    requires i < |documents|
    ensures forall d :: Has(documents, picked + [i], d) <==> Has(documents, picked, d) || d == documents[i].docId
  {
    forall d ensures Has(documents, picked + [i], d) <==> Has(documents, picked, d) || d == documents[i].docId {
      if Has(documents, picked, d) { HasMore(documents, picked, i, d); }
      if d == documents[i].docId { assert (picked + [i])[|picked|] == i; }
      if Has(documents, picked + [i], d) {
        var k :| 0 <= k < |picked| + 1 && (picked + [i])[k] < |documents| && documents[(picked + [i])[k]].docId == d;
        if k < |picked| { assert picked[k] == (picked + [i])[k]; }
      }
    }
  }

  /** What the loop has built after `n` positions. */
  ghost predicate Built(documents: seq<Document>, scores: seq<real>, topK: int, order: seq<nat>, n: nat,
                        picked: seq<nat>, seenDocs: set<string>, found: seq<Chunk>) {
    && Ranked(documents, scores, picked) && |picked| <= Max(topK, 0)
    && Visited(documents, scores, topK, order, n, picked)
    && (forall d :: d in seenDocs <==> Has(documents, picked, d))
    && found == Chunks(documents, scores, picked)
  }

  lemma BuiltSkip(documents: seq<Document>, scores: seq<real>, topK: int, order: seq<nat>, n: nat,
                  picked: seq<nat>, seenDocs: set<string>, found: seq<Chunk>)
    requires |documents| == |scores| && Descending(order, scores) && n < |order|
    requires Built(documents, scores, topK, order, n, picked, seenDocs, found)
    requires scores[order[n]] <= 0.0 || |found| >= topK || documents[order[n]].docId in seenDocs
    ensures Built(documents, scores, topK, order, n + 1, picked, seenDocs, found)
  {
    Skip(documents, scores, topK, order, n, picked);
  }

  lemma BuiltAdd(documents: seq<Document>, scores: seq<real>, topK: int, order: seq<nat>, n: nat,
                 picked: seq<nat>, seenDocs: set<string>, found: seq<Chunk>)
    requires |documents| == |scores| && Descending(order, scores) && n < |order|
    requires Built(documents, scores, topK, order, n, picked, seenDocs, found)
    requires scores[order[n]] > 0.0 && |found| < topK && documents[order[n]].docId !in seenDocs
    ensures
      var i := order[n];
      Built(documents, scores, topK, order, n + 1, picked + [i], seenDocs + {documents[i].docId},
            found + [Chunk(documents[i], scores[i])])
  {
    Add(documents, scores, topK, order, n, picked);
    HasAdded(documents, picked, order[n]);
  }

  ghost predicate TopChunks(documents: seq<Document>, scores: seq<real>, topK: int, found: seq<Chunk>) {
    exists picked :: IsTop(documents, scores, topK, picked) && found == Chunks(documents, scores, picked)
  }

  /** The section with its own score, which is positive and the best of its document. */
  ghost predicate IsBestChunk(documents: seq<Document>, scores: seq<real>, c: Chunk)
    requires |documents| == |scores|
  {
    && c.score > 0.0
    && (exists i :: 0 <= i < |scores| && documents[i] == c.document && scores[i] == c.score)
    && forall j :: 0 <= j < |scores| && documents[j].docId == c.document.docId ==> scores[j] <= c.score
  }

  /** The loop over the ranking: whatever order ties come in, the result is a top-k list. */
  method BestSections(documents: seq<Document>, scores: seq<real>, topK: int, order: seq<nat>)
      returns (found: seq<Chunk>)
    requires |scores| == |documents| && Descending(order, scores)
    ensures TopChunks(documents, scores, topK, found)
    ensures forall k :: 0 <= k < |found| ==> IsBestChunk(documents, scores, found[k])
    ensures forall a, b :: 0 <= a < b < |found| ==>
      found[a].score >= found[b].score && found[a].document.docId != found[b].document.docId
  {
    found := [];
    ghost var picked: seq<nat> := [];
    var seenDocs: set<string> := {};
    for n := 0 to |order|
      invariant Built(documents, scores, topK, order, n, picked, seenDocs, found)
    {
      var idx := order[n];
      var score := scores[idx];
      if score <= 0.0 || |found| >= topK || documents[idx].docId in seenDocs {
        BuiltSkip(documents, scores, topK, order, n, picked, seenDocs, found);
        continue;
      }
      BuiltAdd(documents, scores, topK, order, n, picked, seenDocs, found);
      seenDocs := seenDocs + {documents[idx].docId};
      found := found + [Chunk(documents[idx], score)];
      picked := picked + [idx];
    }
    Complete(documents, scores, topK, order, picked);
  }

  // ---------------------------------------------------------------- how many, and which scores

  ghost function PositiveDocs(documents: seq<Document>, scores: seq<real>): set<string>
    requires |documents| == |scores|
  {
    set i | 0 <= i < |scores| && scores[i] > 0.0 :: documents[i].docId
  }

  ghost function Ids(documents: seq<Document>, picked: seq<nat>): (ids: seq<string>)
    requires forall k :: 0 <= k < |picked| ==> picked[k] < |documents|
    ensures |ids| == |picked| && forall k :: 0 <= k < |ids| ==> ids[k] == documents[picked[k]].docId
  {
    seq(|picked|, k requires 0 <= k < |picked| => documents[picked[k]].docId)
  }

  ghost function ToSet(ids: seq<string>): set<string> {
    set d | d in ids
  }

  lemma {:induction false} SetCount(ids: seq<string>)
    ensures |ToSet(ids)| <= |ids|
    ensures (forall a, b :: 0 <= a < b < |ids| ==> ids[a] != ids[b]) ==> |ToSet(ids)| == |ids|
  {
    if ids != [] {
      SetCount(ids[..|ids| - 1]);
      assert ToSet(ids) == ToSet(ids[..|ids| - 1]) + {ids[|ids| - 1]};
    }
  }

  lemma SubsetCount(a: set<string>, b: set<string>)
    requires a <= b
    ensures |a| <= |b| && (a != b ==> |a| < |b|)
  {
    assert b == a + (b - a) && |b| == |a| + |b - a|;
  }

  /** A search returns exactly `topK` documents, or all documents with a positive section if there are fewer. */
  lemma ExactlyTopK(documents: seq<Document>, scores: seq<real>, topK: int, picked: seq<nat>)
    requires IsTop(documents, scores, topK, picked)
    ensures |picked| == Min(Max(topK, 0), |PositiveDocs(documents, scores)|)
  {
    var ids, positive := ToSet(Ids(documents, picked)), PositiveDocs(documents, scores);
    SetCount(Ids(documents, picked));
    assert ids <= positive;
    SubsetCount(ids, positive);
    if ids != positive {
      var d :| d in positive && d !in ids;
      var j: nat :| j < |scores| && scores[j] > 0.0 && documents[j].docId == d;
      assert Missed(documents, scores, picked, j);
    }
  }

  /** A document that beats position `k` of a top-k list is in the list, before `k`. */
  lemma BetterIsBefore(documents: seq<Document>, scores: seq<real>, topK: int, picked: seq<nat>, i: nat, k: nat)
    requires IsTop(documents, scores, topK, picked) && k < |picked| && i < |scores| && scores[i] > scores[picked[k]]
    ensures documents[i].docId in Ids(documents, picked)[..k]
  {
    assert Missed(documents, scores, picked, i) ==> Beaten(documents, scores, topK, picked, i);
    var m :| 0 <= m < |picked| && picked[m] < |documents| && documents[picked[m]].docId == documents[i].docId;
    assert BestSection(documents, scores, picked[m]);
    assert Ids(documents, picked)[..k][m] == documents[picked[m]].docId;
  }

  lemma NoBetter(documents: seq<Document>, scores: seq<real>, topK: int, a: seq<nat>, b: seq<nat>, k: nat)
    requires IsTop(documents, scores, topK, a) && IsTop(documents, scores, topK, b) && k < |a| && k < |b|
    ensures scores[a[k]] <= scores[b[k]]
  {
    var better, before := Ids(documents, a)[..k + 1], Ids(documents, b)[..k];
    SetCount(better);
    SetCount(before);
    if scores[a[k]] > scores[b[k]] {
      forall d | d in better ensures d in before {
        var m :| 0 <= m < k + 1 && better[m] == d;
        BetterIsBefore(documents, scores, topK, b, a[m], k);
      }
      SubsetCount(ToSet(better), ToSet(before));
    }
  }

  /** However ties are broken, the returned scores are the same. */
  lemma ScoresAreDetermined(documents: seq<Document>, scores: seq<real>, topK: int, a: seq<nat>, b: seq<nat>)
    requires IsTop(documents, scores, topK, a) && IsTop(documents, scores, topK, b)
    ensures |a| == |b| && forall k :: 0 <= k < |a| ==> scores[a[k]] == scores[b[k]]
  {
    ExactlyTopK(documents, scores, topK, a);
    ExactlyTopK(documents, scores, topK, b);
    forall k | 0 <= k < |a| ensures scores[a[k]] == scores[b[k]] {
      NoBetter(documents, scores, topK, a, b, k);
      NoBetter(documents, scores, topK, b, a, k);
    }
  }

  /** The same of the returned chunks: as many as there should be, with the same scores for every ranking. */
  lemma SearchIsDetermined(documents: seq<Document>, scores: seq<real>, topK: int, a: seq<Chunk>, b: seq<Chunk>)
    requires |documents| == |scores| && TopChunks(documents, scores, topK, a) && TopChunks(documents, scores, topK, b)
    ensures |a| == |b| == Min(Max(topK, 0), |PositiveDocs(documents, scores)|)
    ensures forall k :: 0 <= k < |a| ==> a[k].score == b[k].score
  {
    var p :| IsTop(documents, scores, topK, p) && a == Chunks(documents, scores, p);
    var q :| IsTop(documents, scores, topK, q) && b == Chunks(documents, scores, q);
    ExactlyTopK(documents, scores, topK, p);
    ScoresAreDetermined(documents, scores, topK, p, q);
  }

  // ---------------------------------------------------------------- the index

  class RetrievalIndex {
    var documents: seq<Document>
    /** None before the first call of `Index`; otherwise whether fitting succeeded. */
    var vectorizer: Option<bool>
    /** The number of rows of the fitted matrix. */
    var rows: Option<nat>

    ghost predicate Valid()
      reads this
    {
      Fitted() ==> rows == Some(|documents|)
    }

    predicate Fitted()
      reads this
    {
      vectorizer.Some? && vectorizer.value
    }

    constructor ()
      ensures Valid() && documents == [] && vectorizer == None && rows == None
    {
      documents, vectorizer, rows := [], None, None;
    }

    /** `learnable` says whether the vectorizer finds a vocabulary; when not, the documents are replaced already. */
    method Index(newDocuments: seq<Document>, learnable: bool) returns (size: Result<nat, IndexError>)
      requires Valid()
      modifies this
      ensures Valid()
      ensures newDocuments == [] ==> size == Failure(EmptyCorpus) && unchanged(this)
      ensures newDocuments != [] ==> documents == newDocuments && vectorizer == Some(learnable)
      ensures newDocuments != [] ==> rows == if learnable then Some(|newDocuments|) else old(rows)
      ensures newDocuments != [] ==> size == if learnable then Success(|newDocuments|) else Failure(NothingToLearn)
    {
      if newDocuments == [] { return Failure(EmptyCorpus); }
      documents := newDocuments;
      vectorizer := Some(false);
      if !learnable { return Failure(NothingToLearn); }
      vectorizer, rows := Some(true), Some(|documents|);
      size := Success(|documents|);
    }

    /** `scores` are the similarities of the query to the rows, and `order` how a sort ranks them. */
    method Search(query: string, topK: int, scores: seq<real>, order: seq<nat>)
        returns (results: Result<seq<Chunk>, SearchError>)
      requires Valid()
      requires Fitted() ==> |scores| == |documents| && Descending(order, scores)
      ensures vectorizer == None || rows == None ==> results == Failure(NotIndexed)
      ensures vectorizer != None && rows != None && Strip(query) == "" ==> results == Success([])
      ensures vectorizer != None && rows != None && Strip(query) != "" && !Fitted() ==> results == Failure(NotFitted)
      ensures Fitted() && Strip(query) != "" && rows != None ==>
        results.Success? && TopChunks(documents, scores, topK, results.value)
    {
      if vectorizer == None || rows == None { return Failure(NotIndexed); }
      if Strip(query) == "" { return Success([]); }
      if !Fitted() { return Failure(NotFitted); }
      var found := BestSections(documents, scores, topK, order);
      results := Success(found);
    }
  }
}
