/**
 * The context assembler of app/lib/utils.ts: the module keeps one
 * `EmbeddingSearch` over the knowledge base, created lazily by
 * `getEmbeddingSearch` and forced at module load, and `retrieveContext` turns
 * the top results of a search into the prompt context (titles and contents
 * joined by a separator) and the list of sources shown to the user (id, title,
 * a 150-character snippet and the score rounded to two decimals).
 */
module Utils {
  import opened Text
  import opened HostMath
  import opened Corpus
  import opened Ranking
  import opened Engine

  datatype RagSource = RagSource(id: string, fileName: string, snippet: string, score: real)

  datatype Retrieval = Retrieval(context: string, isRagWorking: bool, ragSources: seq<RagSource>)

  /** What the `await` in the `try` block produced: the search results, or an exception. */
  datatype Outcome = Found(results: seq<SearchResult>) | Thrown

  const SnippetLength := 150

  const Separator := "\n\n---\n\n"

  /** `content.substring(0, 150) + "..."`. */
  function Snippet(content: string): string {
    content[..if |content| < SnippetLength then |content| else SnippetLength] + "..."
  }

  /**
   * A snippet is the first 150 characters of the content (all of it when it
   * is shorter) followed by an ellipsis, so never longer than 153.
   */
  lemma SnippetShape(content: string)
    ensures var s := Snippet(content);
            && |s| <= SnippetLength + 3
            && |s| == (if |content| < SnippetLength then |content| else SnippetLength) + 3
            && s[..|s| - 3] <= content
            && s[|s| - 3..] == "..."
            && (|content| <= SnippetLength ==> s == content + "...")
  {
  }

  /** `Math.round(x * 100) / 100`: Math.round rounds halves up, that is, it is floor(y + 0.5). */
  function Round2(x: real): real {
    (x * 100.0 + 0.5).Floor as real / 100.0
  }

  /** The rounded score is within half a hundredth of the score. */
  lemma Round2Close(x: real)
    ensures x - 0.005 < Round2(x) <= x + 0.005
  {
    var f := (x * 100.0 + 0.5).Floor;
    assert f as real <= x * 100.0 + 0.5 < f as real + 1.0;
  }

  /** Rounding keeps the order of the scores. */
  lemma Round2Monotone(x: real, y: real)
    requires x <= y
    ensures Round2(x) <= Round2(y)
  {
    var a, b := x * 100.0 + 0.5, y * 100.0 + 0.5;
    var fx, fy := a.Floor, b.Floor;
    assert fx as real <= a <= b < fy as real + 1.0;
    assert fx <= fy;
    assert fx as real / 100.0 <= fy as real / 100.0;
  }

  /** A whole number of hundredths is left as it is. */
  lemma Round2Cents(c: int)
    ensures Round2(c as real / 100.0) == c as real / 100.0
  {
    var x := c as real / 100.0;
    var y := x * 100.0 + 0.5;
    assert x * 100.0 == c as real;
    var f := y.Floor;
    assert f as real <= c as real + 0.5 < f as real + 1.0;
    assert f == c;
  }

  /** `${result.document.title}:\n${result.document.content}`. */
  function Entry(r: SearchResult): string {
    r.document.title + ":\n" + r.document.content
  }

  function Entries(results: seq<SearchResult>): (entries: seq<string>)
    ensures |entries| == |results|
    ensures forall i :: 0 <= i < |results| ==> entries[i] == Entry(results[i])
  {
    seq(|results|, i requires 0 <= i < |results| => Entry(results[i]))
  }

  /** The context string: the entries in rank order, separated by a horizontal rule. */
  function ContextOf(results: seq<SearchResult>): string {
    Join(Entries(results), Separator)
  }

  /**
   * The i-th entry of the context sits between the context of the results
   * ranked before it and the context of those ranked after it, each joined to
   * it by the separator.
   */
  lemma ContextEntry(results: seq<SearchResult>, i: nat)
    requires i < |results|
    ensures ContextOf(results)
         == (if i == 0 then "" else ContextOf(results[..i]) + Separator)
            + Entry(results[i])
            + (if i == |results| - 1 then "" else Separator + ContextOf(results[i + 1..]))
  {
    var es := Entries(results);
    var rest := results[i..];
    assert Entries(rest) == es[i..];
    assert Entries(rest[1..]) == Entries(results[i + 1..]);
    if i > 0 {
      assert Entries(results[..i]) == es[..i];
      JoinSplit(es, i, Separator);
    }
    if i < |results| - 1 {
      JoinSplit(es[i..], 1, Separator);
      assert es[i..][..1] == [Entry(results[i])];
      assert es[i..][1..] == Entries(results[i + 1..]);
    } else {
      assert es[i..] == [Entry(results[i])];
    }
  }

  /** One more result adds the separator and its entry at the end of the context. */
  lemma ContextAppend(results: seq<SearchResult>, r: SearchResult)
    requires results != []
    ensures ContextOf(results + [r]) == ContextOf(results) + Separator + Entry(r)
  {
    assert Entries(results + [r]) == Entries(results) + [Entry(r)];
    JoinAppend(Entries(results), Entry(r), Separator);
  }

  /** The context is empty exactly when there is no result: an entry holds at least ":\n". */
  lemma ContextEmpty(results: seq<SearchResult>)
    ensures ContextOf(results) == "" <==> results == []
  {
    if results != [] {
      ContextEntry(results, 0);
      assert |Entry(results[0])| >= 2;
    }
  }

  /** The source shown for one result. */
  function SourceOf(r: SearchResult): RagSource {
    RagSource(r.document.id, r.document.title, Snippet(r.document.content), Round2(r.score))
  }

  function Sources(results: seq<SearchResult>): (sources: seq<RagSource>)
    ensures |sources| == |results|
    ensures forall i :: 0 <= i < |results| ==> sources[i] == SourceOf(results[i])
  {
    seq(|results|, i requires 0 <= i < |results| => SourceOf(results[i]))
  }

  /**
   * The body of `retrieveContext` after the search: an exception gives an
   * empty context and `isRagWorking` false; no result gives an empty context
   * and `isRagWorking` true; otherwise the context and one source per result,
   * in rank order.
   */
  function Assemble(o: Outcome): (r: Retrieval)
    ensures r.isRagWorking <==> o.Found?
    ensures r.context == "" <==> o.Thrown? || o.results == []
    ensures o.Found? ==> r.context == ContextOf(o.results)
    ensures o.Thrown? ==> r.ragSources == []
    ensures o.Found? ==> |r.ragSources| == |o.results|
    ensures o.Found? ==> forall i :: 0 <= i < |o.results| ==>
              && r.ragSources[i].id == o.results[i].document.id
              && r.ragSources[i].fileName == o.results[i].document.title
              && r.ragSources[i].snippet == Snippet(o.results[i].document.content)
              && r.ragSources[i].score == Round2(o.results[i].score)
  {
    match o
    case Thrown => Retrieval("", false, [])
    case Found(results) =>
      if results == [] then Retrieval("", true, [])
      else
        ContextEmpty(results);
        Retrieval(ContextOf(results), true, Sources(results))
  }

  /**
   * Sources fit to show for a corpus: each names a corpus document by its id
   * and title, their scores do not increase, and each lies between 0 and 1.3.
   */
  predicate Presentable(docs: seq<Document>, sources: seq<RagSource>) {
    && (forall i :: 0 <= i < |sources| ==>
          exists d :: d in docs && sources[i].id == d.id && sources[i].fileName == d.title)
    && (forall i, j :: 0 <= i < j < |sources| ==> sources[j].score <= sources[i].score)
    && forall i :: 0 <= i < |sources| ==> 0.0 <= sources[i].score <= 1.3
  }

  /**
   * Assembling ranked results of a corpus whose scores lie between 0 and 1.3
   * gives presentable sources: rounding keeps the order and the bounds.
   */
  lemma AssembleRanked(docs: seq<Document>, results: seq<SearchResult>)
    requires NonIncreasing(results)
    requires forall x :: x in results ==> x.document in docs && 0.0 <= x.score <= 1.3
    ensures Presentable(docs, Assemble(Found(results)).ragSources)
  {
    var s := Assemble(Found(results)).ragSources;
    forall i, j | 0 <= i < j < |s| ensures s[j].score <= s[i].score {
      Round2Monotone(results[j].score, results[i].score);
    }
    Round2Cents(0);
    Round2Cents(130);
    forall i | 0 <= i < |s|
      ensures 0.0 <= s[i].score <= 1.3
      ensures exists d :: d in docs && s[i].id == d.id && s[i].fileName == d.title
    {
      assert results[i] in results;
      Round2Monotone(0.0, results[i].score);
      Round2Monotone(results[i].score, 1.3);
    }
  }

  /**
   * What `retrieveContext(query, n)` returns over a knowledge base, under the
   * laws of Math.log and Math.sqrt: RAG works, a non-negative n gives
   * min(n, N) sources, the context is empty exactly when there are no
   * sources, and the sources are presentable.
   */
  lemma RetrievalOfRanked(math: RealMath, docs: seq<Document>, query: string, n: int)
    requires Lawful(math)
    ensures var r := Assemble(Found(Ranked(math, docs, query, n)));
            && r.isRagWorking
            && (0 <= n ==> |r.ragSources| == if n < |docs| then n else |docs|)
            && (r.context == "" <==> r.ragSources == [])
            && Presentable(docs, r.ragSources)
  {
    RankedResults(math, docs, query, n);
    AssembleRanked(docs, Ranked(math, docs, query, n));
  }

  /**
   * The module state of app/lib/utils.ts: the knowledge base, the lazily
   * created singleton `embeddingSearchInstance`, and the module constant
   * `embeddingSearch` that holds it once the module is loaded.
   */
  class RagService {
    const documents: seq<Document>
    const math: RealMath
    var embeddingSearchInstance: EmbeddingSearch?
    var embeddingSearch: EmbeddingSearch?

    ghost predicate Valid()
      reads this, embeddingSearch
    {
      && embeddingSearch != null
      && embeddingSearchInstance == embeddingSearch
      && embeddingSearch.documents == documents
      && embeddingSearch.math == math
      && embeddingSearch.Valid()
    }

    /** Loading the module: the singleton starts empty and `getEmbeddingSearch()` fills it. */
    constructor (documents: seq<Document>, math: RealMath)
      ensures this.documents == documents && this.math == math
      ensures fresh(embeddingSearch)
      ensures Valid()
    {
      this.documents := documents;
      this.math := math;
      embeddingSearchInstance := null;
      embeddingSearch := null;
      new;
      var e := GetEmbeddingSearch();
      embeddingSearch := e;
    }

    /** The first call builds the engine over the knowledge base; later calls return the same one. */
    method GetEmbeddingSearch() returns (e: EmbeddingSearch)
      modifies this`embeddingSearchInstance
      ensures old(embeddingSearchInstance) != null ==> e == old(embeddingSearchInstance)
      ensures old(embeddingSearchInstance) == null ==> fresh(e) && e.documents == documents && e.math == math && e.Valid()
      ensures embeddingSearchInstance == e
    {
      if embeddingSearchInstance == null {
        embeddingSearchInstance := new EmbeddingSearch(documents, math);
      }
      e := embeddingSearchInstance;
    }

    /** `retrieveContext(query, n = 3)`: the search result assembled into context and sources. */
    method RetrieveContext(query: string, n: int := 3) returns (r: Retrieval)
      requires Valid()
      ensures r == Assemble(Found(Ranked(math, documents, query, n)))
      ensures r.isRagWorking
      ensures r.context == ContextOf(Ranked(math, documents, query, n))
      ensures r.context == "" <==> r.ragSources == []
      ensures Lawful(math) ==> Presentable(documents, r.ragSources)
      ensures 0 <= n ==> |r.ragSources| == if n < |documents| then n else |documents|
    {
      var results := embeddingSearch.Search(query, n);
      r := Assemble(Found(results));
      if Lawful(math) {
        RetrievalOfRanked(math, documents, query, n);
      }
    }
  }
}
