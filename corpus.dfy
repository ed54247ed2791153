/**
 * The knowledge-base documents and the tables the search index is made of,
 * as functions of the corpus: the terms of a document, document frequency,
 * inverse document frequency, and the max-normalised TF-IDF vector of a text.
 * The class in engine.dfy fills its fields with loops and proves that they
 * end up equal to these functions.
 */
module Corpus {
  import opened Text
  import opened Tokenizer
  import opened HostMath
  import opened SparseVector
  import opened RealArith

  datatype Document = Document(id: string, title: string, content: string, category: string, keywords: seq<string>)

  /** The text a document is indexed under: content, title and keywords, separated by spaces. */
  function DocText(d: Document): string {
    d.content + " " + d.title + " " + Join(d.keywords, " ")
  }

  /** `new Set(tokenize(docText))`: the distinct terms of a document. */
  function DocTerms(d: Document): set<string> {
    set t | t in Tokenize(DocText(d))
  }

  /** The term set of each document, in corpus order. */
  function TermSets(docs: seq<Document>): (sets: seq<set<string>>)
    ensures |sets| == |docs|
    ensures forall i :: 0 <= i < |docs| ==> sets[i] == DocTerms(docs[i])
  {
    seq(|docs|, i requires 0 <= i < |docs| => DocTerms(docs[i]))
  }

  /** The union of a list of term sets. */
  function Union(sets: seq<set<string>>): set<string> {
    if sets == [] then {}
    else Union(sets[..|sets| - 1]) + sets[|sets| - 1]
  }

  /** In how many of the sets `t` occurs. */
  function Frequency(sets: seq<set<string>>, t: string): (n: nat)
    ensures n <= |sets|
  {
    if sets == [] then 0
    else Frequency(sets[..|sets| - 1], t) + (if t in sets[|sets| - 1] then 1 else 0)
  }

  /** A term is in the union exactly when some set has it. */
  lemma {:induction false} UnionHas(sets: seq<set<string>>, t: string)
    ensures t in Union(sets) <==> exists i :: 0 <= i < |sets| && t in sets[i]
  {
    if sets != [] {
      var init := sets[..|sets| - 1];
      UnionHas(init, t);
      if t in Union(init) {
        var i :| 0 <= i < |init| && t in init[i];
        assert sets[i] == init[i];
      }
      if exists i :: 0 <= i < |sets| && t in sets[i] {
        var i :| 0 <= i < |sets| && t in sets[i];
        if i < |init| {
          assert init[i] == sets[i];
        }
      }
    }
  }

  /** The frequency of a term is positive exactly when the term is in the union. */
  lemma {:induction false} FrequencyPositive(sets: seq<set<string>>, t: string)
    ensures t in Union(sets) <==> 1 <= Frequency(sets, t)
  {
    if sets != [] {
      FrequencyPositive(sets[..|sets| - 1], t);
    }
  }

  /** The frequency is the number of sets exactly when every set has the term. */
  lemma {:induction false} FrequencyFull(sets: seq<set<string>>, t: string)
    ensures Frequency(sets, t) == |sets| <==> forall i :: 0 <= i < |sets| ==> t in sets[i]
  {
    if sets != [] {
      var init := sets[..|sets| - 1];
      FrequencyFull(init, t);
      assert forall i :: 0 <= i < |init| ==> sets[i] == init[i];
    }
  }

  /** The union of the terms of every document: the key set of `vocabulary`, `df` and `idf`. */
  function CorpusTerms(docs: seq<Document>): set<string> {
    Union(TermSets(docs))
  }

  /** How many documents have `t` among their terms. */
  function DocumentFrequency(docs: seq<Document>, t: string): nat {
    Frequency(TermSets(docs), t)
  }

  /** A corpus term is a term of some document, and a term of a document is a token of its text. */
  lemma CorpusTermsAreTokens(docs: seq<Document>, t: string)
    requires t in CorpusTerms(docs)
    ensures exists i :: 0 <= i < |docs| && t in DocTerms(docs[i])
    ensures IsToken(t)
  {
    UnionHas(TermSets(docs), t);
    var i :| 0 <= i < |docs| && t in TermSets(docs)[i];
    var ts := Tokenize(DocText(docs[i]));
    var k :| 0 <= k < |ts| && ts[k] == t;
  }

  /** The document-frequency table `df`. */
  function Frequencies(sets: seq<set<string>>): (df: map<string, nat>)
    ensures df.Keys == Union(sets)
    ensures forall t :: t in df ==> 1 <= df[t] <= |sets|
  {
    FrequencyBounds(sets);
    map t | t in Union(sets) :: Frequency(sets, t)
  }

  /** The counts after one more document with terms `s`: each of its terms is counted once more. */
  function CountOnce(df: map<string, nat>, s: set<string>): (df': map<string, nat>)
    ensures df'.Keys == df.Keys + s
  {
    map t | t in df.Keys + s :: (if t in df then df[t] else 0) + (if t in s then 1 else 0)
  }

  /** Counting a list of term sets one set at a time gives the document frequencies. */
  lemma FrequenciesSnoc(sets: seq<set<string>>, s: set<string>)
    ensures Frequencies(sets + [s]) == CountOnce(Frequencies(sets), s)
    ensures Union(sets + [s]) == Union(sets) + s
  {
    assert (sets + [s])[..|sets|] == sets;
    forall t | t !in Union(sets) ensures Frequency(sets, t) == 0 {
      FrequencyPositive(sets, t);
    }
  }

  lemma FrequencyBounds(sets: seq<set<string>>)
    ensures forall t :: t in Union(sets) ==> 1 <= Frequency(sets, t)
  {
    forall t | t in Union(sets) {
      FrequencyPositive(sets, t);
    }
  }

  /** A document-frequency entry is the number of documents holding the term, between 1 and N. */
  lemma DocumentFrequencyBounds(docs: seq<Document>, t: string)
    requires t in Frequencies(TermSets(docs))
    ensures Frequencies(TermSets(docs))[t] == DocumentFrequency(docs, t)
    ensures 1 <= DocumentFrequency(docs, t) <= |docs|
    ensures DocumentFrequency(docs, t) == |docs| <==> forall i :: 0 <= i < |docs| ==> t in DocTerms(docs[i])
  {
    FrequencyFull(TermSets(docs), t);
  }

  /** `Math.log(N / freq)`, the inverse document frequency for a frequency of at least 1. */
  function InverseFrequency(ln: real -> real, n: nat, df: nat): real
    requires 1 <= df
  {
    ln(n as real / df as real)
  }

  /** The idf of every counted term in a corpus of `n` documents. */
  function Idfs(ln: real -> real, n: nat, df: map<string, nat>): (idf: map<string, real>)
    requires forall t :: t in df ==> 1 <= df[t]
    ensures idf.Keys == df.Keys
  {
    map t | t in df :: InverseFrequency(ln, n, df[t])
  }

  /** The `idf` table: one entry per corpus term. */
  function IdfTable(ln: real -> real, docs: seq<Document>): (idf: map<string, real>)
    ensures idf.Keys == CorpusTerms(docs)
  {
    Idfs(ln, |docs|, Frequencies(TermSets(docs)))
  }

  /**
   * Under the laws of the logarithm an idf is never negative, it is 0 exactly
   * for a term every document has, and a rarer term never weighs less.
   */
  lemma InverseFrequencyLaws(ln: real -> real, n: nat, df1: nat, df2: nat)
    requires LawfulLn(ln)
    requires 1 <= df1 <= n && 1 <= df2 <= n
    ensures 0.0 <= InverseFrequency(ln, n, df1)
    ensures InverseFrequency(ln, n, df1) == 0.0 <==> df1 == n
    ensures df1 <= df2 ==> InverseFrequency(ln, n, df2) <= InverseFrequency(ln, n, df1)
  {
    var r1 := n as real / df1 as real;
    var r2 := n as real / df2 as real;
    QuotientAtLeastOne(n as real, df1 as real);
    QuotientAtLeastOne(n as real, df2 as real);
    assert ln(1.0) <= ln(r1);
    if df1 <= df2 {
      QuotientAntitone(n as real, df1 as real, df2 as real);
    }
  }

  lemma QuotientAtLeastOne(n: real, d: real)
    requires 1.0 <= d <= n
    ensures 1.0 <= n / d
    ensures n / d == 1.0 <==> d == n
  {
    var q := n / d;
    assert q * d == n;
    if q < 1.0 {
      ProductPositive(1.0 - q, d);
      assert false;
    }
  }

  lemma QuotientAntitone(n: real, d1: real, d2: real)
    requires 0.0 < d1 <= d2 && 0.0 <= n
    ensures n / d2 <= n / d1
  {
    var q1, q2 := n / d1, n / d2;
    assert q1 * d1 == n && q2 * d2 == n;
    ProductMonotone(d1, d2, q1);
    ProductNonNegative(q1, d1);
    if q1 < q2 {
      ProductPositive(q2 - q1, d2);
      assert false;
    }
  }

  /** The idf of each corpus term, under the laws of the logarithm. */
  lemma IdfTableLaws(ln: real -> real, docs: seq<Document>, t: string)
    requires LawfulLn(ln)
    requires t in CorpusTerms(docs)
    ensures 0.0 <= IdfTable(ln, docs)[t]
    ensures IdfTable(ln, docs)[t] == 0.0 <==> forall i :: 0 <= i < |docs| ==> t in DocTerms(docs[i])
  {
    var df := Frequencies(TermSets(docs));
    InverseFrequencyLaws(ln, |docs|, df[t], df[t]);
    DocumentFrequencyBounds(docs, t);
  }

  /** A term held by fewer documents never gets a smaller idf. */
  lemma IdfAntitone(ln: real -> real, docs: seq<Document>, t1: string, t2: string)
    requires LawfulLn(ln)
    requires t1 in CorpusTerms(docs) && t2 in CorpusTerms(docs)
    requires DocumentFrequency(docs, t1) <= DocumentFrequency(docs, t2)
    ensures IdfTable(ln, docs)[t2] <= IdfTable(ln, docs)[t1]
  {
    var df := Frequencies(TermSets(docs));
    DocumentFrequencyBounds(docs, t1);
    DocumentFrequencyBounds(docs, t2);
    InverseFrequencyLaws(ln, |docs|, df[t1], df[t2]);
  }

  lemma IdfNonNegative(ln: real -> real, docs: seq<Document>)
    requires LawfulLn(ln)
    ensures NonNegative(IdfTable(ln, docs))
  {
    forall t | t in IdfTable(ln, docs) ensures 0.0 <= IdfTable(ln, docs)[t] {
      IdfTableLaws(ln, docs, t);
    }
  }

  /** How often `t` occurs among the tokens. */
  function Occurrences(tokens: seq<string>, t: string): nat {
    multiset(tokens)[t]
  }

  /** The `tf` map: each distinct token with the number of its occurrences. */
  function TermCounts(tokens: seq<string>): (tf: map<string, nat>)
    ensures tf.Keys == set t | t in tokens
    ensures forall t :: t in tf ==> 1 <= tf[t]
  {
    map t | t in tokens :: Occurrences(tokens, t)
  }

  /** Counting one more token adds one to its count, or enters it with count 1. */
  lemma TermCountsSnoc(tokens: seq<string>, x: string)
    ensures var tf := TermCounts(tokens);
            TermCounts(tokens + [x]) == tf[x := (if x in tf then tf[x] else 0) + 1]
  {
    assert multiset(tokens + [x]) == multiset(tokens) + multiset{x};
  }

  /** `Math.max(...tf.values())`; 0 stands for the -Infinity of an empty list, which is never used. */
  function MaxFrequency(tokens: seq<string>): nat {
    if tokens == [] then 0
    else
      var rest := MaxFrequency(tokens[1..]);
      var here := Occurrences(tokens, tokens[0]);
      if here < rest then rest else here
  }

  /** MaxFrequency is the largest count: it bounds every count and some token attains it. */
  lemma {:induction false} MaxFrequencyIsMax(tokens: seq<string>)
    ensures forall t :: t in tokens ==> Occurrences(tokens, t) <= MaxFrequency(tokens)
    ensures tokens != [] ==> exists t :: t in tokens && Occurrences(tokens, t) == MaxFrequency(tokens)
  {
    if tokens != [] {
      var rest := tokens[1..];
      MaxFrequencyIsMax(rest);
      assert tokens == [tokens[0]] + rest;
      assert forall t :: Occurrences(rest, t) <= Occurrences(tokens, t);
      assert forall t :: t != tokens[0] ==> Occurrences(rest, t) == Occurrences(tokens, t);
      if rest != [] && Occurrences(tokens, tokens[0]) < MaxFrequency(rest) {
        var m :| m in rest && Occurrences(rest, m) == MaxFrequency(rest);
        assert m in tokens;
      }
    }
  }

  /** A bound that is attained is the maximum. */
  lemma MaxFrequencyUnique(tokens: seq<string>, m: nat)
    requires tokens != []
    requires forall t :: t in tokens ==> Occurrences(tokens, t) <= m
    requires exists t :: t in tokens && Occurrences(tokens, t) == m
    ensures m == MaxFrequency(tokens)
  {
    MaxFrequencyIsMax(tokens);
  }

  /** `freq / maxFreq`, the normalised term frequency of a token of the text. */
  function NormalisedTf(tokens: seq<string>, t: string): (tf: real)
    requires t in tokens
  {
    MaxFrequencyIsMax(tokens);
    Occurrences(tokens, t) as real / MaxFrequency(tokens) as real
  }

  /**
   * The vector of `calculateTfIdf`: every distinct token, weighted by its
   * normalised frequency times its idf (0 for a token the idf table lacks).
   */
  function TfIdf(tokens: seq<string>, idf: map<string, real>): (v: Vector)
    ensures v.Keys == set t | t in tokens
  {
    map t | t in tokens :: Product(NormalisedTf(tokens, t), Weight(idf, t))
  }

  /** A vector holding exactly the distinct tokens, each with its weight, is the TF-IDF vector. */
  lemma TfIdfByWeights(tokens: seq<string>, idf: map<string, real>, v: Vector)
    requires v.Keys == set t | t in tokens
    requires forall t :: t in tokens ==> t in v && v[t] == Product(NormalisedTf(tokens, t), Weight(idf, t))
    ensures v == TfIdf(tokens, idf)
  {
  }

  /** The normalised frequency lies in (0, 1] and is 1 for a most frequent token. */
  lemma NormalisedTfBounds(tokens: seq<string>, t: string)
    requires t in tokens
    ensures 0.0 < NormalisedTf(tokens, t) <= 1.0
    ensures NormalisedTf(tokens, t) == 1.0 <==> forall u :: u in tokens ==> Occurrences(tokens, u) <= Occurrences(tokens, t)
  {
    MaxFrequencyIsMax(tokens);
    var c, m := Occurrences(tokens, t), MaxFrequency(tokens);
    QuotientBounds(c as real, m as real);
    QuotientPositive(c as real, m as real);
    QuotientOne(c as real, m as real);
    if forall u :: u in tokens ==> Occurrences(tokens, u) <= c {
      MaxFrequencyUnique(tokens, c);
    }
  }

  /** With a non-negative idf table every weight is non-negative. */
  lemma TfIdfNonNegative(tokens: seq<string>, idf: map<string, real>)
    requires NonNegative(idf)
    ensures NonNegative(TfIdf(tokens, idf))
  {
    var v := TfIdf(tokens, idf);
    forall t | t in v ensures 0.0 <= v[t] {
      NormalisedTfBounds(tokens, t);
      var tf, w := NormalisedTf(tokens, t), Weight(idf, t);
      ProductNonNegative(tf, w);
    }
  }

  /** A most frequent token weighs its full idf; a token the idf table lacks weighs 0. */
  lemma TfIdfWeights(tokens: seq<string>, idf: map<string, real>, t: string)
    requires t in tokens
    ensures t !in idf ==> TfIdf(tokens, idf)[t] == 0.0
    ensures (forall u :: u in tokens ==> Occurrences(tokens, u) <= Occurrences(tokens, t)) ==> TfIdf(tokens, idf)[t] == Weight(idf, t)
  {
    NormalisedTfBounds(tokens, t);
  }

  /**
   * A map filled in list order, `ids[i]` to `values[i]`: a later entry with
   * the same id replaces an earlier one, as `Map.prototype.set` does.
   */
  function IndexBy<V>(ids: seq<string>, values: seq<V>): map<string, V>
    requires |ids| == |values|
  {
    if ids == [] then map[]
    else IndexBy(ids[..|ids| - 1], values[..|ids| - 1])[ids[|ids| - 1] := values[|ids| - 1]]
  }

  /** Entering one more pair updates the map at that id. */
  lemma IndexBySnoc<V>(ids: seq<string>, values: seq<V>, id: string, v: V)
    requires |ids| == |values|
    ensures IndexBy(ids + [id], values + [v]) == IndexBy(ids, values)[id := v]
  {
    assert (ids + [id])[..|ids|] == ids;
    assert (values + [v])[..|ids|] == values;
  }

  /** Merging into the empty map changes nothing. */
  lemma MergeEmpty<V>(m: map<string, V>)
    ensures map[] + m == m
  {
  }

  /** Entering a pair into a merged map enters it into the right-hand map. */
  lemma MergeUpdate<V>(m0: map<string, V>, m: map<string, V>, id: string, v: V)
    ensures (m0 + m)[id := v] == m0 + m[id := v]
  {
  }

  /** A prefix one longer is the prefix followed by the next element. */
  lemma PrefixSnoc<T>(s: seq<T>, i: nat)
    requires i < |s|
    ensures s[..i + 1] == s[..i] + [s[i]]
  {
  }

  /** Every id, and nothing else, is a key. */
  lemma {:induction false} IndexByKeys<V>(ids: seq<string>, values: seq<V>)
    requires |ids| == |values|
    ensures IndexBy(ids, values).Keys == set i | 0 <= i < |ids| :: ids[i]
  {
    if ids != [] {
      var init := ids[..|ids| - 1];
      IndexByKeys(init, values[..|ids| - 1]);
      assert forall i :: 0 <= i < |init| ==> init[i] == ids[i];
      assert (set i | 0 <= i < |ids| :: ids[i]) == (set i | 0 <= i < |init| :: init[i]) + {ids[|ids| - 1]};
    }
  }

  /** The value under an id is the one paired with its last occurrence. */
  lemma {:induction false} IndexByLast<V>(ids: seq<string>, values: seq<V>, i: nat)
    requires |ids| == |values| && i < |ids|
    requires forall j :: i < j < |ids| ==> ids[j] != ids[i]
    ensures ids[i] in IndexBy(ids, values) && IndexBy(ids, values)[ids[i]] == values[i]
  {
    if i < |ids| - 1 {
      var init := ids[..|ids| - 1];
      assert init[i] == ids[i];
      IndexByLast(init, values[..|ids| - 1], i);
    }
  }

  function Ids(docs: seq<Document>): (ids: seq<string>)
    ensures |ids| == |docs| && forall i :: 0 <= i < |docs| ==> ids[i] == docs[i].id
  {
    seq(|docs|, i requires 0 <= i < |docs| => docs[i].id)
  }

  /** The vector of a document's indexed text. */
  function DocVector(d: Document, idf: map<string, real>): Vector {
    TfIdf(Tokenize(DocText(d)), idf)
  }

  function DocVectors(docs: seq<Document>, idf: map<string, real>): (vs: seq<Vector>)
    ensures |vs| == |docs| && forall i :: 0 <= i < |docs| ==> vs[i] == DocVector(docs[i], idf)
  {
    seq(|docs|, i requires 0 <= i < |docs| => DocVector(docs[i], idf))
  }

  /** The `documentVectors` table: each document's vector under its id. */
  function DocumentVectors(docs: seq<Document>, idf: map<string, real>): map<string, Vector> {
    IndexBy(Ids(docs), DocVectors(docs, idf))
  }

  /**
   * Every document has a vector under its id; when ids repeat, the vector is
   * the one of the last document carrying the id.
   */
  lemma DocumentVectorOfLast(docs: seq<Document>, idf: map<string, real>, i: nat)
    requires i < |docs|
    requires forall j :: i < j < |docs| ==> docs[j].id != docs[i].id
    ensures docs[i].id in DocumentVectors(docs, idf)
    ensures DocumentVectors(docs, idf)[docs[i].id] == DocVector(docs[i], idf)
  {
    IndexByLast(Ids(docs), DocVectors(docs, idf), i);
  }

  lemma DocumentVectorsKeys(docs: seq<Document>, idf: map<string, real>)
    ensures DocumentVectors(docs, idf).Keys == set i | 0 <= i < |docs| :: docs[i].id
  {
    IndexByKeys(Ids(docs), DocVectors(docs, idf));
    assert (set i | 0 <= i < |docs| :: docs[i].id) == set i | 0 <= i < |docs| :: Ids(docs)[i];
  }
}
