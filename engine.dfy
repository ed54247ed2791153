/**
 * The class `EmbeddingSearch` of app/lib/embedding-search.ts. Its fields are
 * filled once by the constructor through `buildIndex`; `search` scores every
 * document against the query, boosts title and keyword matches, sorts and
 * keeps the first k. `Math.log` and `Math.sqrt` are the `ln` and `sqrt` of the
 * `math` field.
 */
module Engine {
  import opened Text
  import opened Tokenizer
  import opened HostMath
  import opened RealArith
  import opened SparseVector
  import opened Corpus
  import opened Ranking

  datatype ModelStatus = ModelStatus(loaded: bool, modelName: string)

  /** `keywords.some(kw => kw.toLowerCase().includes(q))`. */
  function SomeKeywordIncludes(keywords: seq<string>, q: string): bool {
    if keywords == [] then false
    else Includes(ToLower(keywords[0]), q) || SomeKeywordIncludes(keywords[1..], q)
  }

  lemma {:induction false} SomeKeywordIncludesIff(keywords: seq<string>, q: string)
    ensures SomeKeywordIncludes(keywords, q) <==> exists i :: 0 <= i < |keywords| && Includes(ToLower(keywords[i]), q)
  {
    if keywords != [] {
      SomeKeywordIncludesIff(keywords[1..], q);
      if exists i :: 0 <= i < |keywords| && Includes(ToLower(keywords[i]), q) {
        var i :| 0 <= i < |keywords| && Includes(ToLower(keywords[i]), q);
        if i > 0 {
          assert keywords[1..][i - 1] == keywords[i];
        }
      }
    }
  }

  function TitleBoost(query: string, d: Document): real {
    if Includes(ToLower(d.title), ToLower(query)) then 0.2 else 0.0
  }

  function KeywordBoost(query: string, d: Document): real {
    if SomeKeywordIncludes(d.keywords, ToLower(query)) then 0.1 else 0.0
  }

  /**
   * The boosts: 0.2 exactly when the lower-cased query occurs in the
   * lower-cased title, 0.1 exactly when it occurs in some lower-cased keyword,
   * and 0 otherwise.
   */
  lemma BoostsMeaning(query: string, d: Document)
    ensures TitleBoost(query, d) == (if exists i :: OccursAt(ToLower(d.title), ToLower(query), i) then 0.2 else 0.0)
    ensures KeywordBoost(query, d) == (if exists j :: 0 <= j < |d.keywords| && Includes(ToLower(d.keywords[j]), ToLower(query)) then 0.1 else 0.0)
  {
    IncludesAt(ToLower(d.title), ToLower(query));
    SomeKeywordIncludesIff(d.keywords, ToLower(query));
  }

  /** The empty query occurs in every text: every document gets the title boost, and the keyword boost if it has a keyword. */
  lemma EmptyQueryBoosts(d: Document)
    ensures TitleBoost("", d) == 0.2
    ensures KeywordBoost("", d) == if d.keywords == [] then 0.0 else 0.1
  {
    SomeKeywordIncludesIff(d.keywords, "");
    if d.keywords != [] {
      assert Includes(ToLower(d.keywords[0]), "");
    }
  }

  /** The score of one document: cosine similarity plus the two boosts. */
  ghost function Score(sqrt: real -> real, queryVector: Vector, query: string, d: Document, docVector: Vector): real {
    Cosine(sqrt, queryVector, docVector) + TitleBoost(query, d) + KeywordBoost(query, d)
  }

  /** The `scores` list before sorting: each document that has a vector, in corpus order. */
  ghost function Scored(sqrt: real -> real, docs: seq<Document>, vectors: map<string, Vector>,
                        queryVector: Vector, query: string): seq<SearchResult>
  {
    if docs == [] then []
    else
      var d := docs[|docs| - 1];
      Scored(sqrt, docs[..|docs| - 1], vectors, queryVector, query)
        + (if d.id in vectors then [SearchResult(d, Score(sqrt, queryVector, query, d, vectors[d.id]))] else [])
  }

  /** Scoring one more document appends its result when it has a vector. */
  lemma ScoredSnoc(sqrt: real -> real, docs: seq<Document>, d: Document, vectors: map<string, Vector>,
                   queryVector: Vector, query: string)
    ensures Scored(sqrt, docs + [d], vectors, queryVector, query)
         == Scored(sqrt, docs, vectors, queryVector, query)
            + (if d.id in vectors then [SearchResult(d, Score(sqrt, queryVector, query, d, vectors[d.id]))] else [])
  {
    assert (docs + [d])[..|docs|] == docs;
  }

  /** When every document has a vector, each one is scored, in corpus order. */
  lemma {:induction false} ScoredAll(sqrt: real -> real, docs: seq<Document>, vectors: map<string, Vector>,
                                     queryVector: Vector, query: string)
    requires forall i :: 0 <= i < |docs| ==> docs[i].id in vectors
    ensures var s := Scored(sqrt, docs, vectors, queryVector, query);
            && |s| == |docs|
            && forall i :: 0 <= i < |docs| ==>
                 s[i] == SearchResult(docs[i], Score(sqrt, queryVector, query, docs[i], vectors[docs[i].id]))
  {
    if docs != [] {
      ScoredAll(sqrt, docs[..|docs| - 1], vectors, queryVector, query);
    }
  }

  /** Every value of the `documentVectors` table is the vector of some document. */
  lemma {:induction false} IndexByValues<V>(ids: seq<string>, values: seq<V>, id: string)
    requires |ids| == |values| && id in IndexBy(ids, values)
    ensures exists i :: 0 <= i < |ids| && IndexBy(ids, values)[id] == values[i]
  {
    var n := |ids| - 1;
    if ids[n] != id {
      IndexByValues(ids[..n], values[..n], id);
      var i :| 0 <= i < n && IndexBy(ids[..n], values[..n])[id] == values[..n][i];
      assert values[..n][i] == values[i];
    }
  }

  /** Scores lie between 0 and 1.3 once the weights are non-negative. */
  lemma ScoreBounds(sqrt: real -> real, queryVector: Vector, query: string, d: Document, docVector: Vector)
    requires LawfulSqrt(sqrt)
    requires NonNegative(queryVector) && NonNegative(docVector)
    ensures 0.0 <= Score(sqrt, queryVector, query, d, docVector) <= 1.3
  {
    CosineBounds(sqrt, queryVector, docVector);
  }

  /** A query without terms matches on the boosts alone. */
  lemma QueryWithoutTerms(sqrt: real -> real, idf: map<string, real>, query: string, d: Document, docVector: Vector)
    requires LawfulSqrt(sqrt)
    requires Tokenize(query) == []
    ensures Score(sqrt, TfIdf(Tokenize(query), idf), query, d, docVector) == TitleBoost(query, d) + KeywordBoost(query, d)
  {
    CosineZeroVector(sqrt, TfIdf(Tokenize(query), idf), docVector);
  }

  class EmbeddingSearch {
    const documents: seq<Document>
    const math: RealMath
    var vocabulary: set<string>
    var idf: map<string, real>
    var documentVectors: map<string, Vector>

    /** The fields hold the tables of the corpus. */
    ghost predicate Valid()
      reads this
    {
      && vocabulary == CorpusTerms(documents)
      && idf == IdfTable(math.ln, documents)
      && documentVectors == DocumentVectors(documents, idf)
    }

    constructor(documents: seq<Document>, math: RealMath)
      ensures this.documents == documents && this.math == math
      ensures Valid()
    {
      this.documents := documents;
      this.math := math;
      vocabulary := {};
      idf := map[];
      documentVectors := map[];
      new;
      BuildIndex();
      MergeEmpty(IdfTable(math.ln, documents));
      MergeEmpty(DocumentVectors(documents, idf));
    }

    /**
     * `buildIndex`: adds every corpus term to the vocabulary, the idf of every
     * corpus term to `idf`, and every document's vector to `documentVectors`.
     */
    method BuildIndex()
      modifies this
      ensures vocabulary == old(vocabulary) + CorpusTerms(documents)
      ensures idf == old(idf) + IdfTable(math.ln, documents)
      ensures documentVectors == old(documentVectors) + DocumentVectors(documents, idf)
    {
      var df := CountTerms();
      ComputeIdf(df);
      IndexVectors();
    }

    /**
     * The first loop of `buildIndex`: counts, for each term, the documents
     * that have it, and adds each term to the vocabulary.
     */
    method CountTerms() returns (df: map<string, nat>)
      modifies this`vocabulary
      ensures df == Frequencies(TermSets(documents))
      ensures vocabulary == old(vocabulary) + CorpusTerms(documents)
    {
      ghost var sets := TermSets(documents);
      df := map[];
      var i := 0;
      while i < |documents|
        invariant 0 <= i <= |documents|
        invariant vocabulary == old(vocabulary) + Union(sets[..i])
        invariant df == Frequencies(sets[..i])
      {
        var tokens := DocTerms(documents[i]);
        df := CountDocument(df, tokens);
        FrequenciesSnoc(sets[..i], tokens);
        PrefixSnoc(sets, i);
        i := i + 1;
      }
      assert sets[..i] == sets;
    }

    /** The inner loop of the first loop of `buildIndex`: one document's distinct terms. */
    method CountDocument(df: map<string, nat>, tokens: set<string>) returns (counted: map<string, nat>)
      modifies this`vocabulary
      ensures counted == CountOnce(df, tokens)
      ensures vocabulary == old(vocabulary) + tokens
    {
      counted := df;
      var remaining := tokens;
      while remaining != {}
        invariant remaining <= tokens
        invariant vocabulary == old(vocabulary) + (tokens - remaining)
        invariant counted.Keys == df.Keys + (tokens - remaining)
        invariant forall t :: t in counted ==> counted[t] == (if t in df then df[t] else 0) + (if t in tokens - remaining then 1 else 0)
        decreases remaining
      {
        var token :| token in remaining;
        counted := counted[token := (if token in counted then counted[token] else 0) + 1];
        vocabulary := vocabulary + {token};
        remaining := remaining - {token};
      }
    }

    /** The second loop of `buildIndex`: `Math.log(N / freq)` for each counted term. */
    method ComputeIdf(df: map<string, nat>)
      requires forall t :: t in df ==> 1 <= df[t]
      modifies this`idf
      ensures idf == old(idf) + Idfs(math.ln, |documents|, df)
    {
      var n := |documents|;
      ghost var table := Idfs(math.ln, n, df);
      var remaining := df.Keys;
      while remaining != {}
        invariant remaining <= df.Keys
        invariant idf.Keys == old(idf).Keys + (df.Keys - remaining)
        invariant forall t :: t in idf ==> idf[t] == if t in df.Keys - remaining then table[t] else old(idf)[t]
        decreases remaining
      {
        var token :| token in remaining;
        idf := idf[token := math.ln(n as real / df[token] as real)];
        remaining := remaining - {token};
      }
      assert idf == old(idf) + table;
    }

    /** The last loop of `buildIndex`: the vector of each document under its id. */
    method IndexVectors()
      modifies this`documentVectors
      ensures documentVectors == old(documentVectors) + DocumentVectors(documents, idf)
    {
      ghost var ids, vectors := Ids(documents), DocVectors(documents, idf);
      ghost var vectors0 := documentVectors;
      var i := 0;
      while i < |documents|
        invariant 0 <= i <= |documents|
        invariant documentVectors == vectors0 + IndexBy(ids[..i], vectors[..i])
      {
        var doc := documents[i];
        var vector := CalculateTfIdf(DocText(doc));
        MergeUpdate(vectors0, IndexBy(ids[..i], vectors[..i]), doc.id, vector);
        documentVectors := documentVectors[doc.id := vector];
        IndexBySnoc(ids[..i], vectors[..i], doc.id, vector);
        PrefixSnoc(ids, i);
        PrefixSnoc(vectors, i);
        i := i + 1;
      }
      assert ids[..i] == ids && vectors[..i] == vectors;
    }

    /** `calculateTfIdf(text)`: the max-normalised term frequencies of the text times their idf. */
    method CalculateTfIdf(text: string) returns (vector: Vector)
      ensures vector == TfIdf(Tokenize(text), idf)
    {
      var tokens := Tokenize(text);
      var tf := CountTokens(tokens);
      var maxFreq := MaxFrequency(tokens);
      vector := WeighTokens(tokens, tf, maxFreq, idf);
    }

    /** The first loop of `calculateTfIdf`: how often each token occurs. */
    static method CountTokens(tokens: seq<string>) returns (tf: map<string, nat>)
      ensures tf == TermCounts(tokens)
    {
      tf := map[];
      var i := 0;
      while i < |tokens|
        invariant 0 <= i <= |tokens|
        invariant tf == TermCounts(tokens[..i])
      {
        TermCountsSnoc(tokens[..i], tokens[i]);
        PrefixSnoc(tokens, i);
        tf := tf[tokens[i] := (if tokens[i] in tf then tf[tokens[i]] else 0) + 1];
        i := i + 1;
      }
      assert tokens[..i] == tokens;
    }

    /** The last loop of `calculateTfIdf`: each count over the largest, times the term's idf. */
    static method WeighTokens(tokens: seq<string>, tf: map<string, nat>, maxFreq: nat, idf: map<string, real>)
      returns (vector: Vector)
      requires tf == TermCounts(tokens) && maxFreq == MaxFrequency(tokens)
      ensures vector == TfIdf(tokens, idf)
    {
      vector := map[];
      var remaining := tf.Keys;
      while remaining != {}
        invariant remaining <= tf.Keys
        invariant vector.Keys == tf.Keys - remaining
        invariant forall t :: t in vector ==> t in tokens && vector[t] == Product(NormalisedTf(tokens, t), Weight(idf, t))
        decreases remaining
      {
        var token :| token in remaining;
        var normalizedTf := tf[token] as real / maxFreq as real;
        var idfValue := if token in idf then idf[token] else 0.0;
        assert normalizedTf == NormalisedTf(tokens, token);
        assert normalizedTf * idfValue == Product(normalizedTf, idfValue);
        vector := vector[token := normalizedTf * idfValue];
        remaining := remaining - {token};
      }
      TfIdfByWeights(tokens, idf, vector);
    }

    /** `cosineSimilarity(vec1, vec2)`. */
    method CosineSimilarity(vec1: Vector, vec2: Vector) returns (similarity: real)
      ensures similarity == Cosine(math.sqrt, vec1, vec2)
    {
      var dotProduct, norm1, norm2 := 0.0, 0.0, 0.0;
      var allKeys := vec1.Keys + vec2.Keys;
      var remaining := allKeys;
      while remaining != {}
        invariant remaining <= allKeys
        invariant Sums(dotProduct, norm1, norm2) == Accumulate(vec1, vec2, allKeys - remaining)
        decreases remaining
      {
        var key :| key in remaining;
        var val1 := if key in vec1 then vec1[key] else 0.0;
        var val2 := if key in vec2 then vec2[key] else 0.0;
        dotProduct := dotProduct + val1 * val2;
        norm1 := norm1 + val1 * val1;
        norm2 := norm2 + val2 * val2;
        assert val1 * val2 == Product(val1, val2);
        assert val1 * val1 == Square(val1) && val2 * val2 == Square(val2);
        AccumulateRemove(vec1, vec2, allKeys - (remaining - {key}), key);
        assert allKeys - (remaining - {key}) - {key} == allKeys - remaining;
        remaining := remaining - {key};
      }
      assert allKeys - remaining == AllKeys(vec1, vec2);
      norm1 := math.sqrt(norm1);
      norm2 := math.sqrt(norm2);
      if norm1 == 0.0 || norm2 == 0.0 {
        return 0.0;
      }
      ProductNonZero(norm1, norm2);
      assert Product(norm1, norm2) == norm1 * norm2;
      return dotProduct / (norm1 * norm2);
    }

    /**
     * `search(query, k)`: the scored documents sorted by descending score,
     * equal scores in corpus order, cut to the first k as `slice(0, k)` does.
     */
    method Search(query: string, k: int := 3) returns (results: seq<SearchResult>)
      ensures results == Top(SortByScore(Scored(math.sqrt, documents, documentVectors, TfIdf(Tokenize(query), idf), query)), k)
      ensures NonIncreasing(results)
      ensures forall v :: WithScore(results, v) <= WithScore(Scored(math.sqrt, documents, documentVectors, TfIdf(Tokenize(query), idf), query), v)
      ensures Valid() && 0 <= k ==> |results| == if k < |documents| then k else |documents|
    {
      var queryVector := CalculateTfIdf(query);
      var scores := ScoreDocuments(queryVector, query);
      ghost var scored := scores;
      scores := SortByScore(scores);
      results := scores[..SliceEnd(|scores|, k)];
      SearchOrder(scored, k);
      if Valid() {
        DocumentVectorsKeys(documents, idf);
        forall j | 0 <= j < |documents| ensures documents[j].id in documentVectors {
          assert documents[j].id in set m | 0 <= m < |documents| :: documents[m].id;
        }
        ScoredAll(math.sqrt, documents, documentVectors, queryVector, query);
      }
    }

    /** The loop of `search`: each document that has a vector, with its boosted score. */
    method ScoreDocuments(queryVector: Vector, query: string) returns (scores: seq<SearchResult>)
      ensures scores == Scored(math.sqrt, documents, documentVectors, queryVector, query)
    {
      scores := [];
      var i := 0;
      while i < |documents|
        invariant 0 <= i <= |documents|
        invariant scores == Scored(math.sqrt, documents[..i], documentVectors, queryVector, query)
      {
        var doc := documents[i];
        if doc.id in documentVectors {
          var docVector := documentVectors[doc.id];
          var score := CosineSimilarity(queryVector, docVector);
          var queryLower := ToLower(query);
          var titleBoost := if Includes(ToLower(doc.title), queryLower) then 0.2 else 0.0;
          var keywordBoost := if SomeKeywordIncludes(doc.keywords, queryLower) then 0.1 else 0.0;
          scores := scores + [SearchResult(doc, score + titleBoost + keywordBoost)];
        }
        ScoredSnoc(math.sqrt, documents[..i], doc, documentVectors, queryVector, query);
        PrefixSnoc(documents, i);
        i := i + 1;
      }
      assert documents[..i] == documents;
    }

    /** `getModelStatus()`: the model is always loaded and named tf-idf. */
    function GetModelStatus(): (status: ModelStatus)
      ensures status.loaded && status.modelName == "tf-idf"
    {
      ModelStatus(true, "tf-idf")
    }
  }

  /** What `search(query, k)` returns on an engine built over `docs`. */
  ghost function Ranked(math: RealMath, docs: seq<Document>, query: string, k: int): seq<SearchResult> {
    var idf := IdfTable(math.ln, docs);
    Top(SortByScore(Scored(math.sqrt, docs, DocumentVectors(docs, idf), TfIdf(Tokenize(query), idf), query)), k)
  }

  /**
   * On a built index, under the laws of Math.log and Math.sqrt: every result
   * is a corpus document with a score between 0 and 1.3, the scores do not
   * increase, and a non-negative k yields min(k, N) results.
   */
  lemma RankedResults(math: RealMath, docs: seq<Document>, query: string, k: int)
    requires Lawful(math)
    ensures var r := Ranked(math, docs, query, k);
            && NonIncreasing(r)
            && (0 <= k ==> |r| == if k < |docs| then k else |docs|)
            && forall x :: x in r ==> x.document in docs && 0.0 <= x.score <= 1.3
  {
    var idf := IdfTable(math.ln, docs);
    var tokens := Tokenize(query);
    BuiltVectors(math.ln, docs);
    IdfNonNegative(math.ln, docs);
    TfIdfNonNegative(tokens, idf);
    TopScored(math.sqrt, docs, DocumentVectors(docs, idf), TfIdf(tokens, idf), query, k);
  }

  /** The table of a built index holds every document's id, and no negative weight. */
  lemma BuiltVectors(ln: real -> real, docs: seq<Document>)
    requires LawfulLn(ln)
    ensures var vectors := DocumentVectors(docs, IdfTable(ln, docs));
            && (forall m :: 0 <= m < |docs| ==> docs[m].id in vectors)
            && forall id :: id in vectors ==> NonNegative(vectors[id])
  {
    var idf := IdfTable(ln, docs);
    var vectors := DocumentVectors(docs, idf);
    DocumentVectorsKeys(docs, idf);
    forall m | 0 <= m < |docs| ensures docs[m].id in vectors {
      assert docs[m].id in set x | 0 <= x < |docs| :: docs[x].id;
    }
    IdfNonNegative(ln, docs);
    forall id | id in vectors ensures NonNegative(vectors[id]) {
      IndexByValues(Ids(docs), DocVectors(docs, idf), id);
      var j :| 0 <= j < |docs| && vectors[id] == DocVectors(docs, idf)[j];
      TfIdfNonNegative(Tokenize(DocText(docs[j])), idf);
    }
  }

  /** Sorting and cutting scores of documents that all have non-negative vectors. */
  lemma TopScored(sqrt: real -> real, docs: seq<Document>, vectors: map<string, Vector>,
                  queryVector: Vector, query: string, k: int)
    requires LawfulSqrt(sqrt) && NonNegative(queryVector)
    requires forall m :: 0 <= m < |docs| ==> docs[m].id in vectors
    requires forall id :: id in vectors ==> NonNegative(vectors[id])
    ensures var r := Top(SortByScore(Scored(sqrt, docs, vectors, queryVector, query)), k);
            && NonIncreasing(r)
            && (0 <= k ==> |r| == if k < |docs| then k else |docs|)
            && forall x :: x in r ==> x.document in docs && 0.0 <= x.score <= 1.3
  {
    var scored := Scored(sqrt, docs, vectors, queryVector, query);
    ScoredAll(sqrt, docs, vectors, queryVector, query);
    SearchOrder(scored, k);
    var sorted := SortByScore(scored);
    forall x | x in Top(sorted, k) ensures x.document in docs && 0.0 <= x.score <= 1.3 {
      assert x in multiset(scored);
      var i :| 0 <= i < |scored| && scored[i] == x;
      ScoreBounds(sqrt, queryVector, query, docs[i], vectors[docs[i].id]);
    }
  }

  /** Sorting and cutting keep the results ordered and, for each score, a prefix of that score's entries. */
  lemma SearchOrder(scored: seq<SearchResult>, k: int)
    ensures NonIncreasing(Top(SortByScore(scored), k))
    ensures forall v :: WithScore(Top(SortByScore(scored), k), v) <= WithScore(scored, v)
  {
    SortByScoreSorted(scored);
    forall v ensures WithScore(Top(SortByScore(scored), k), v) <= WithScore(scored, v) {
      TopOfSorted(SortByScore(scored), k, v);
      SortByScoreStable(scored, v);
    }
    TopOfSorted(SortByScore(scored), k, 0.0);
  }

  /**
   * For an engine built over a corpus, under the laws of Math.log and
   * Math.sqrt, every score lies between 0 and 1.3, and a document whose id a
   * later document repeats is scored against that later document's vector.
   */
  lemma ScoredBuiltIndex(e: EmbeddingSearch, query: string, i: nat, j: nat)
    requires e.Valid() && Lawful(e.math)
    requires i <= j < |e.documents| && e.documents[j].id == e.documents[i].id
    requires forall m :: j < m < |e.documents| ==> e.documents[m].id != e.documents[i].id
    ensures var s := Scored(e.math.sqrt, e.documents, e.documentVectors, TfIdf(Tokenize(query), e.idf), query);
            && |s| == |e.documents|
            && s[i].document == e.documents[i]
            && s[i].score == Score(e.math.sqrt, TfIdf(Tokenize(query), e.idf), query, e.documents[i], DocVector(e.documents[j], e.idf))
            && 0.0 <= s[i].score <= 1.3
  {
    var docs, qv := e.documents, TfIdf(Tokenize(query), e.idf);
    DocumentVectorsKeys(docs, e.idf);
    forall m | 0 <= m < |docs| ensures docs[m].id in e.documentVectors {
      assert docs[m].id in set x | 0 <= x < |docs| :: docs[x].id;
    }
    ScoredAll(e.math.sqrt, docs, e.documentVectors, qv, query);
    DocumentVectorOfLast(docs, e.idf, j);
    IdfNonNegative(e.math.ln, docs);
    TfIdfNonNegative(Tokenize(query), e.idf);
    TfIdfNonNegative(Tokenize(DocText(docs[j])), e.idf);
    ScoreBounds(e.math.sqrt, qv, query, docs[i], DocVector(docs[j], e.idf));
  }
}
