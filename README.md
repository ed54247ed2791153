# TF-IDF knowledge-base search, context assembly and chat UI logic, in Dafny

This project models the retrieval core of a customer-support chat application
and proves properties of the model.

- **The search engine** (`app/lib/embedding-search.ts`, class `EmbeddingSearch`):
  - It tokenises a text by lower-casing it, blanking everything but word characters and white space, splitting on white space and keeping tokens longer than two characters.
  - At construction it builds a vocabulary, a document-frequency count and an inverse-document-frequency table.
  - It stores one max-normalised TF-IDF vector per document id.
  - A query is scored against every document by cosine similarity, plus 0.2 when the query occurs in the title and 0.1 when it occurs in a keyword.
  - The scores are sorted in descending order with a stable sort, and the first k are kept.
- **The context assembler** (`app/lib/utils.ts`):
  - A module-level singleton holds the engine, created lazily.
  - `retrieveContext` joins the top results into a context string and a list of sources (id, title, 150-character snippet, rounded score).
  - It reports `isRagWorking: false` instead of throwing.
- **Logic lifted from two React components:**
  - `components/LeftSidebar.tsx`: the bounded, de-duplicated, newest-first "thinking" history; the mood and debug colours; category labels; when the context button opens its dialog.
  - `components/ChatArea.tsx`: image validation and accumulation; image removal; the transcript updates of a submission; when Enter or the Send button submits.

## Files

| file | module | contents |
|---|---|---|
| `wrappers.dfy` | `Wrappers` | `Option` |
| `text.dfy` | `Text` | ASCII character classes, `toLowerCase`, `join`, `includes`, `trim`, `split` on one character |
| `host_math.dfy` | `HostMath` | `Math.log` and `Math.sqrt` as a pair of functions, and the laws assumed of them |
| `real_arith.dfy` | `RealArith` | facts about products of reals (Cauchy–Schwarz step) |
| `tokenizer.dfy` | `Tokenizer` | `tokenize` and its properties |
| `sparse_vector.dfy` | `SparseVector` | sparse vectors, the cosine-similarity specification |
| `corpus.dfy` | `Corpus` | the index tables as functions of the corpus (df, idf, TF-IDF, document vectors) |
| `ranking.dfy` | `Ranking` | stable descending sort and `slice(0, k)` |
| `engine.dfy` | `Engine` | class `EmbeddingSearch`, its loops proved against `Corpus`/`Ranking` |
| `utils.dfy` | `Utils` | `retrieveContext`, class `RagService` (the singleton) |
| `left_sidebar.dfy` | `LeftSidebar` | history update, colours, labels, context button |
| `chat_area.dfy` | `ChatArea` | image validation, class `ImageUpload`, transcript transitions, submit predicates |

### Design of the model

- **The engine is a class.** `vocabulary` is a `set`; `idf` and `documentVectors` are `map` fields filled by `BuildIndex`.
  - Each `forEach` loop of the source is a `while` loop in a method.
  - Each method's `ensures` ties the new field value to a function of the corpus (`Corpus.IdfTable`, `Corpus.DocumentVectors`, ...).
  - The properties are proved about those functions.
  - `Valid()` states that the fields hold these tables. The constructor establishes it and nothing else modifies the fields.
- **Iteration over a `Set` or `Map` takes its elements in an arbitrary order.**
  - `CosineSimilarity` is proved against a sum defined over the key set. `SparseVector.AccumulateRemove` proves that the sum does not depend on the order.
  - The df and idf loops are proved with pointwise invariants.
- **`Math.log` and `Math.sqrt` are the fields of a `RealMath` value.** The laws used are hypotheses (`HostMath.Lawful`) of exactly the lemmas that need them:
  - `ln(1) = 0`;
  - `ln` is non-negative from 1 on and monotone;
  - `sqrt` is non-negative and squares back.
- **`Array.prototype.sort` is stable.** `Ranking.SortByScore` specifies it as the stable insertion by descending score:
  - its result is a non-increasing permutation that keeps the order of equal scores (`Ranking.WithScore`);
  - `Ranking.SortByScoreUnique` proves that this determines the result.
- **The React state updates are functions** from the old state to the new. `handleFileSelect` loops over the files, so it is a method of class `ImageUpload`, proved against `ChatArea.Accepted` and `ChatArea.LastError`.

### Where the code decides

- **Vocabulary ids.** `vocabulary.set(token, vocabulary.size)` (`app/lib/embedding-search.ts:36`) runs at every sighting of a term, so a term's id is not the one it got when first seen: it is overwritten each time. Nothing reads the ids. The model keeps the key set only.
- **The history limit.** The comment at `components/LeftSidebar.tsx:99` says the history keeps the latest 20. The constant `MAX_THINKING_HISTORY` (line 61) is 15, and the model uses 15.
- **The result count.** `retrieveContext` (`app/lib/utils.ts:46-56`) does not check `n`. It passes any number to `search`, whose `slice(0, k)` also accepts 0 and negative values. The model takes `n` and `k` as integers, and `Ranking.SliceEnd` models `slice` for every integer.

## Model

| member | source | states |
|---|---|---|
| Text.ToLower | app/lib/embedding-search.ts:22 | `toLowerCase` keeps the length and lower-cases each ASCII letter, leaving every other character |
| Text.ToLowerIdempotent | app/lib/embedding-search.ts:22 | lower-casing twice is lower-casing once |
| Text.IncludesAt | app/lib/embedding-search.ts:108 | `includes` holds exactly when the pattern occurs at some index |
| Text.JoinAppend | app/lib/utils.ts:67-69 | joining one more part appends the separator and that part |
| Text.JoinSplit | app/lib/utils.ts:67-69 | a join splits at any part boundary into the joins of both sides around the separator |
| Text.TrimEmptyIffBlank | components/ChatArea.tsx:976 | `trim()` is empty exactly when the text is blank |
| Text.SplitOnCount | components/LeftSidebar.tsx:212-213 | `split('_')` yields one more field than there are underscores |
| Text.SplitOnJoin | components/LeftSidebar.tsx:212-218 | joining the fields of `split(c)` with `c` restores the text |
| Text.JoinSplitOn | components/LeftSidebar.tsx:212-218 | splitting a join on its one-character separator gives the parts back when no part holds it |
| Text.JoinSameLength | components/LeftSidebar.tsx:212-218 | joins of parts of equal lengths with separators of equal length have equal lengths |
| Text.JoinAvoids | components/LeftSidebar.tsx:212-218 | a character absent from the parts and the separator is absent from the join |
| Tokenizer.Clean | app/lib/embedding-search.ts:23 | `replace(/[^\w\s]/g, ' ')` keeps the length, keeps word and space characters and blanks every other one |
| Tokenizer.SplitWhitespace | app/lib/embedding-search.ts:24 | `split(/\s+/)` gives at least one field, no field holds white space, and blank text gives only empty fields |
| Tokenizer.LongTokens | app/lib/embedding-search.ts:25 | the filter keeps only tokens longer than 2, all from its input, and none when no input token is long |
| Tokenizer.LongTokensComplete | app/lib/embedding-search.ts:25 | every field longer than 2 characters is kept |
| Tokenizer.LongTokensAppend | app/lib/embedding-search.ts:25 | the filter keeps the order: filtering a concatenation filters each side |
| Tokenizer.LongTokensKeepsLong | app/lib/embedding-search.ts:25 | the filter keeps a list of long tokens unchanged |
| Tokenizer.CleanedChars | app/lib/embedding-search.ts:22-23 | after lower-casing and cleaning only `[a-z0-9_]` and white space remain |
| Tokenizer.Tokenize | app/lib/embedding-search.ts:21-26 | every token has at least 3 characters, all from `[a-z0-9_]` |
| Tokenizer.NoWordCharsNoTokens | app/lib/embedding-search.ts:21-26 | empty, blank or punctuation-only text has no tokens |
| Tokenizer.SplitJoined | app/lib/embedding-search.ts:24 | splitting the space-join of non-empty, blank-free tokens gives them back |
| Tokenizer.CleanJoined | app/lib/embedding-search.ts:22-23 | lower-casing and cleaning leave space-joined tokens unchanged |
| Tokenizer.TokenizeJoined | app/lib/embedding-search.ts:21-26 | tokenising words that are already tokens, separated by single spaces, gives exactly those words in order |
| Tokenizer.TokenizeIdempotent | app/lib/embedding-search.ts:21-26 | tokenising the space-join of the tokens of a text gives the same tokens |
| SparseVector.AllKeys | app/lib/embedding-search.ts:81 | the loop visits exactly the terms of either vector |
| SparseVector.AccumulateRemove | app/lib/embedding-search.ts:82-88 | the dot product and squared norms do not depend on the order the terms are visited in |
| SparseVector.AccumulateNonNegative | app/lib/embedding-search.ts:82-88 | squared norms are never negative, and with non-negative weights neither is the dot product |
| SparseVector.AccumulateCauchySchwarz | app/lib/embedding-search.ts:82-88 | the squared dot product is at most the product of the squared norms |
| SparseVector.AccumulateSwap | app/lib/embedding-search.ts:82-88 | swapping the vectors swaps the norms and keeps the dot product |
| SparseVector.AccumulateZeroWeights | app/lib/embedding-search.ts:82-88 | a vector with only zero weights, or none, has zero norm and zero dot product |
| SparseVector.AccumulatePositiveNorm | app/lib/embedding-search.ts:86 | one non-zero weight makes the squared norm positive |
| SparseVector.AccumulateDiagonal | app/lib/embedding-search.ts:82-88 | against itself, the dot product equals both squared norms |
| SparseVector.RatioSymmetric | app/lib/embedding-search.ts:93-94 | the final quotient is symmetric in the two norms |
| SparseVector.RatioBounds | app/lib/embedding-search.ts:90-94 | when the norms are square roots of squared norms satisfying Cauchy-Schwarz, the quotient lies in [0, 1] |
| SparseVector.CosineSymmetric | app/lib/embedding-search.ts:75-95 | cosine similarity is symmetric |
| SparseVector.CosineBounds | app/lib/embedding-search.ts:75-95 | with non-negative weights the similarity lies in [0, 1] |
| SparseVector.CosineZeroVector | app/lib/embedding-search.ts:93 | a vector with no non-zero weight (the empty one included) has similarity 0 with anything |
| SparseVector.CosineSelf | app/lib/embedding-search.ts:75-95 | a vector with a non-zero weight has similarity 1 with itself |
| Corpus.TermSets | app/lib/embedding-search.ts:32-33 | one set of distinct tokens per document, in corpus order |
| Corpus.Frequency | app/lib/embedding-search.ts:32-38 | a document frequency never exceeds the number of documents |
| Corpus.UnionHas | app/lib/embedding-search.ts:32-37 | a term is in the union exactly when some document has it |
| Corpus.FrequencyPositive | app/lib/embedding-search.ts:35 | a term is in the union exactly when its document frequency is at least 1 |
| Corpus.FrequencyFull | app/lib/embedding-search.ts:35 | the document frequency is N exactly when every document has the term |
| Corpus.CorpusTermsAreTokens | app/lib/embedding-search.ts:33-36 | every vocabulary term comes from some document and is a well-formed token |
| Corpus.Frequencies | app/lib/embedding-search.ts:30-38 | the `df` map has the union of the term sets as keys, with values between 1 and N |
| Corpus.CountOnce | app/lib/embedding-search.ts:34-35 | counting one document enters each of its terms into `df` |
| Corpus.FrequenciesSnoc | app/lib/embedding-search.ts:32-38 | one more document adds 1 to the count of each of its distinct terms and adds them to the union |
| Corpus.DocumentFrequencyBounds | app/lib/embedding-search.ts:30-38 | `df(t)` is the number of documents having `t`, between 1 and N, and N exactly when all have it |
| Corpus.Idfs | app/lib/embedding-search.ts:41-44 | the idf loop gives every counted term a value and no other term |
| Corpus.IdfTable | app/lib/embedding-search.ts:41-44 | the idf table has exactly the corpus terms as keys |
| Corpus.InverseFrequencyLaws | app/lib/embedding-search.ts:43 | `ln(N / df)` is non-negative, 0 exactly when df = N, and does not grow with df |
| Corpus.IdfTableLaws | app/lib/embedding-search.ts:41-44 | each idf is non-negative, and 0 exactly when every document has the term |
| Corpus.IdfAntitone | app/lib/embedding-search.ts:41-44 | a term in fewer documents never has a smaller idf |
| Corpus.IdfNonNegative | app/lib/embedding-search.ts:41-44 | the idf table has no negative value |
| Corpus.TermCounts | app/lib/embedding-search.ts:55-60 | `tf` has the distinct tokens as keys, each with a count of at least 1 |
| Corpus.TermCountsSnoc | app/lib/embedding-search.ts:58-60 | one more token adds one to its count or enters it with 1 |
| Corpus.MaxFrequencyIsMax | app/lib/embedding-search.ts:64 | `maxFreq` bounds every count and some token attains it |
| Corpus.MaxFrequencyUnique | app/lib/embedding-search.ts:64 | any attained bound of the counts is `maxFreq` |
| Corpus.TfIdf | app/lib/embedding-search.ts:53-73 | the vector has exactly the distinct tokens of the text as keys, so no tokens give the empty map |
| Corpus.TfIdfByWeights | app/lib/embedding-search.ts:66-70 | a map with those keys and the weight `freq/maxFreq * idf` at each is the TF-IDF vector |
| Corpus.NormalisedTfBounds | app/lib/embedding-search.ts:67 | `freq / maxFreq` lies in (0, 1] and is 1 exactly for a most frequent token |
| Corpus.TfIdfWeights | app/lib/embedding-search.ts:68-69 | a token unknown to `idf` weighs 0, and a most frequent token weighs its full idf |
| Corpus.TfIdfNonNegative | app/lib/embedding-search.ts:66-70 | with a non-negative idf table every weight is non-negative |
| Corpus.IndexBySnoc | app/lib/embedding-search.ts:49 | `documentVectors.set` on one more document updates the table at its id |
| Corpus.IndexByKeys | app/lib/embedding-search.ts:47-50 | the table's keys are exactly the document ids |
| Corpus.IndexByLast | app/lib/embedding-search.ts:49 | under an id is the value paired with its last occurrence |
| Corpus.DocumentVectorOfLast | app/lib/embedding-search.ts:47-50 | every document has a vector under its id; with repeated ids it is the last such document's |
| Corpus.DocumentVectorsKeys | app/lib/embedding-search.ts:47-50 | `documentVectors` has exactly the document ids as keys |
| Ranking.WithScore | app/lib/embedding-search.ts:120 | the entries picked for a score all carry it and come from the list, at most as many as the list has |
| Ranking.WithScoreAppend | app/lib/embedding-search.ts:120 | the entries with one score of a concatenation are those of each side, in order |
| Ranking.Insert | app/lib/embedding-search.ts:120 | inserting adds exactly the new entry |
| Ranking.InsertSorted | app/lib/embedding-search.ts:120 | insertion keeps a list non-increasing |
| Ranking.InsertStable | app/lib/embedding-search.ts:120 | the inserted entry comes after the earlier entries with its score |
| Ranking.SortByScore | app/lib/embedding-search.ts:120 | the sorted list is a permutation of the scores list |
| Ranking.SortByScoreSorted | app/lib/embedding-search.ts:120 | the sorted list has non-increasing scores |
| Ranking.SortByScoreStable | app/lib/embedding-search.ts:120 | equal scores keep their corpus order |
| Ranking.StableArrangementsEqual | app/lib/embedding-search.ts:120 | two non-increasing lists that agree score by score on entries and order are equal |
| Ranking.SortByScoreUnique | app/lib/embedding-search.ts:120 | any non-increasing list that keeps the order of equal scores is the sorted list |
| Ranking.SliceEnd | app/lib/embedding-search.ts:121 | the end index of `slice(0, k)` lies in [0, length] |
| Ranking.Top | app/lib/embedding-search.ts:121 | `slice(0, k)` is a prefix of the list of length `SliceEnd` |
| Ranking.TopOfSorted | app/lib/embedding-search.ts:120-121 | a prefix of a sorted list stays sorted, keeps for each score a prefix of its entries, and leaves out nothing with a higher score |
| Engine.SomeKeywordIncludesIff | app/lib/embedding-search.ts:109-110 | `keywords.some(...)` holds exactly when some lower-cased keyword includes the query |
| Engine.BoostsMeaning | app/lib/embedding-search.ts:107-110 | the title boost is 0.2 exactly when the lower-cased query occurs in the lower-cased title, and the keyword boost is 0.1 exactly when it occurs in some lower-cased keyword; otherwise 0 |
| Engine.EmptyQueryBoosts | app/lib/embedding-search.ts:107-110 | the empty query gets the title boost on every document, and the keyword boost on every document with a keyword |
| Engine.ScoredSnoc | app/lib/embedding-search.ts:101-117 | scoring one more document appends its result when it has a vector |
| Engine.ScoredAll | app/lib/embedding-search.ts:101-117 | when every document has a vector, each is scored, in corpus order |
| Engine.IndexByValues | app/lib/embedding-search.ts:47-50 | every value of `documentVectors` is the vector of some document |
| Engine.ScoreBounds | app/lib/embedding-search.ts:104-115 | with non-negative vectors a score lies in [0, 1.3] |
| Engine.QueryWithoutTerms | app/lib/embedding-search.ts:98-115 | a query without tokens scores its boosts only |
| Engine.EmbeddingSearch.constructor | app/lib/embedding-search.ts:16-19 | the engine holds the documents and its fields hold the corpus tables (`Valid`) |
| Engine.EmbeddingSearch.BuildIndex | app/lib/embedding-search.ts:28-51 | adds the corpus terms to `vocabulary`, the idf table to `idf` and the document vectors to `documentVectors` |
| Engine.EmbeddingSearch.CountTerms | app/lib/embedding-search.ts:32-38 | `df` is the document frequency of every corpus term, and `vocabulary` gains the corpus terms |
| Engine.EmbeddingSearch.CountDocument | app/lib/embedding-search.ts:34-37 | one document's distinct terms are counted once each and added to `vocabulary` |
| Engine.EmbeddingSearch.ComputeIdf | app/lib/embedding-search.ts:41-44 | `idf` gains `ln(N / df(t))` for each counted term |
| Engine.EmbeddingSearch.IndexVectors | app/lib/embedding-search.ts:47-50 | `documentVectors` gains each document's vector under its id, a later document replacing an earlier one with the same id |
| Engine.EmbeddingSearch.CalculateTfIdf | app/lib/embedding-search.ts:53-73 | the result is the TF-IDF vector of the text's tokens |
| Engine.EmbeddingSearch.CountTokens | app/lib/embedding-search.ts:55-60 | `tf` counts every token's occurrences |
| Engine.EmbeddingSearch.WeighTokens | app/lib/embedding-search.ts:63-72 | the weighting loop builds the TF-IDF vector |
| Engine.EmbeddingSearch.CosineSimilarity | app/lib/embedding-search.ts:75-95 | the loop computes the cosine similarity of the specification, whatever the iteration order |
| Engine.EmbeddingSearch.ScoreDocuments | app/lib/embedding-search.ts:99-117 | the scores list holds each document that has a vector with cosine plus boosts, in corpus order |
| Engine.EmbeddingSearch.Search | app/lib/embedding-search.ts:97-122 | the results are the first k of the stably sorted scores, non-increasing, keeping the corpus order of equal scores; on a built index a non-negative k gives min(k, N) results |
| Engine.EmbeddingSearch.GetModelStatus | app/lib/embedding-search.ts:129-134 | the model is loaded and named "tf-idf" |
| Engine.RankedResults | app/lib/embedding-search.ts:97-122 | over any corpus, the results are corpus documents scoring in [0, 1.3], non-increasing, and min(k, N) of them for k >= 0 |
| Engine.BuiltVectors | app/lib/embedding-search.ts:47-50 | after building, every document id has a vector and no vector has a negative weight |
| Engine.TopScored | app/lib/embedding-search.ts:101-121 | sorting and cutting scores of documents with non-negative vectors gives min(k, N) ordered corpus documents scoring in [0, 1.3] |
| Engine.SearchOrder | app/lib/embedding-search.ts:120-121 | sorting and cutting give non-increasing results that keep, per score, a prefix of the corpus order |
| Engine.ScoredBuiltIndex | app/lib/embedding-search.ts:47-115 | on a built index every document is scored, in [0, 1.3], against the vector of the last document sharing its id |
| Utils.SnippetShape | app/lib/utils.ts:75 | a snippet is the first min(150, length) characters of the content plus "...", at most 153 long, and the whole content plus "..." when short |
| Utils.Round2Close | app/lib/utils.ts:76 | the rounded score is within half a hundredth of the score |
| Utils.Round2Monotone | app/lib/utils.ts:76 | rounding keeps the order of scores |
| Utils.Round2Cents | app/lib/utils.ts:76 | a whole number of hundredths is left as it is |
| Utils.Entries | app/lib/utils.ts:67-68 | one `title:\ncontent` entry per result, in rank order |
| Utils.ContextEntry | app/lib/utils.ts:67-69 | the i-th entry sits between the contexts of the results ranked before and after it, each separated by `\n\n---\n\n` |
| Utils.ContextAppend | app/lib/utils.ts:67-69 | one more result appends the separator and its entry |
| Utils.ContextEmpty | app/lib/utils.ts:58-69 | the context is empty exactly when there are no results |
| Utils.Sources | app/lib/utils.ts:72-77 | one source per result, in rank order |
| Utils.Assemble | app/lib/utils.ts:54-92 | an exception gives `("", false, [])`; no results give `("", true, [])`; otherwise each source has its result's id, title, snippet and rounded score, and the context is the `title:\ncontent` entries in rank order joined by `\n\n---\n\n` (`ContextOf`), which is non-empty |
| Utils.AssembleRanked | app/lib/utils.ts:72-77 | the sources of sorted results in [0, 1.3] name corpus documents, with rounded scores non-increasing and in [0, 1.3] |
| Utils.RetrievalOfRanked | app/lib/utils.ts:46-83 | over any knowledge base RAG works, n >= 0 gives min(n, N) sources, the context is empty exactly when there are none, and the sources are presentable |
| Utils.RagService.constructor | app/lib/utils.ts:32-44 | loading the module creates the engine over the knowledge base and keeps it in both `embeddingSearchInstance` and `embeddingSearch` |
| Utils.RagService.GetEmbeddingSearch | app/lib/utils.ts:35-41 | the first call builds the engine; later calls return the same instance |
| Utils.RagService.RetrieveContext | app/lib/utils.ts:46-93 | the result is the assembly of `search(query, n)` over the knowledge base: RAG works, the context is the join of the ranked entries, context empty exactly when no sources, min(n, N) sources for n >= 0, and, under the laws of `Math.log` and `Math.sqrt`, sources presentable |
| LeftSidebar.UpdateSidebar | components/LeftSidebar.tsx:79-108 | no detail, no id or a known id leave the history; otherwise the stamped entry comes first, followed by the previous entries cut to 14 |
| LeftSidebar.UpdateSidebarValid | components/LeftSidebar.tsx:83-99 | an update keeps the history at most 15 long with distinct ids |
| LeftSidebar.ReplayValid | components/LeftSidebar.tsx:61-108 | after any sequence of events the history holds at most 15 entries with distinct ids |
| LeftSidebar.UpdateSidebarEntries | components/LeftSidebar.tsx:91-99 | every entry is an old one or the new one, and an event with an id always leaves that id in the history |
| LeftSidebar.DebugPillColor | components/LeftSidebar.tsx:43-47 | green exactly when the context was used, yellow exactly when not |
| LeftSidebar.MoodColor | components/LeftSidebar.tsx:49-59 | a mood among the six, lower-cased, gets its colour; anything else, absence included, gets gray |
| LeftSidebar.MoodColorIgnoresCase | components/LeftSidebar.tsx:58 | moods equal once lower-cased get the same colour |
| LeftSidebar.MoodColorDefault | components/LeftSidebar.tsx:58 | an absent mood, or one outside the six, is gray |
| LeftSidebar.MoodColorAsWrittenConstructor | components/LeftSidebar.tsx:49-59 | as written, the mood "constructor" yields the inherited Object constructor instead of gray |
| LeftSidebar.MoodColorAsWrittenInherited | components/LeftSidebar.tsx:58 | as written, exactly the moods lower-casing to "constructor" or "__proto__" reach an inherited member |
| LeftSidebar.MoodColorAgrees | components/LeftSidebar.tsx:49-59 | for every other mood the code as written and the corrected lookup agree |
| LeftSidebar.Capitalize | components/LeftSidebar.tsx:155-156 | capitalising upper-cases a lower-case first letter, keeps any other first character and the rest of the word, so keeps the length and neither adds nor removes spaces and underscores |
| LeftSidebar.CategoryWords | components/LeftSidebar.tsx:212-217 | one capitalised word per `_`-separated field |
| LeftSidebar.CategoryLabel | components/LeftSidebar.tsx:212-218 | the label is as long as the category and has no underscore |
| LeftSidebar.CategoryLabelWords | components/LeftSidebar.tsx:212-218 | a category without spaces splits back at the label's spaces into its capitalised words, one more than its underscores |
| LeftSidebar.OnContextClick | components/LeftSidebar.tsx:160-174 | the click opens the dialog exactly when the button is enabled (context used and non-empty), with that context and the sources or none |
| ChatArea.SpeedBadgeColor | components/ChatArea.tsx:58-70 | fast, balanced and thorough each get their class, and exactly the other speeds get gray |
| ChatArea.ValidateImageFile | components/ChatArea.tsx:118-137 | valid exactly when the type is png, jpeg, jpg or gif and the size is at most 5 MiB; the type error wins over the size error |
| ChatArea.AcceptedValid | components/ChatArea.tsx:583-603 | every collected image has an allowed type and a size of at most 5 MiB |
| ChatArea.AcceptedAll | components/ChatArea.tsx:583-603 | when every file is valid and compresses, the images are the files, one for one and in order |
| ChatArea.AcceptedAtMost | components/ChatArea.tsx:583-603 | at most one image per file |
| ChatArea.LastErrorEmpty | components/ChatArea.tsx:581-603 | the upload error ends empty exactly when every file was accepted |
| ChatArea.AcceptedSnoc | components/ChatArea.tsx:583-603 | one more file appends its image when it is valid and compresses |
| ChatArea.LastErrorSnoc | components/ChatArea.tsx:583-603 | one more file sets the error when it is invalid or fails to compress, else leaves it |
| ChatArea.ImageUpload.constructor | components/ChatArea.tsx:572-574 | the component starts with the given images and no upload error |
| ChatArea.ImageUpload.HandleFileSelect | components/ChatArea.tsx:577-609 | no files change nothing; otherwise the error is the last one seen, and `onImagesChange` gets the old images and then the accepted ones in order, and is not called when none are accepted |
| ChatArea.RemoveImage | components/ChatArea.tsx:611-614 | removes exactly the image at the index, keeping the rest in order; an index out of range changes nothing |
| ChatArea.UserMessage | components/ChatArea.tsx:845-850 | the user message carries the event text or the input, and the images exactly when there are some |
| ChatArea.AppendSubmitted | components/ChatArea.tsx:865-869 | two messages are appended, the user's then the placeholder, and earlier ones are unchanged |
| ChatArea.ReplaceLast | components/ChatArea.tsx:934-943 | only the last message is replaced; the length and earlier messages are unchanged |
| ChatArea.BeginSubmit | components/ChatArea.tsx:838-871 | submitting starts loading, clears input and images, and appends two messages after the unchanged transcript |
| ChatArea.SubmitRoundTrip | components/ChatArea.tsx:832-971 | an answered submission adds the user message and the reply; a failed one leaves the placeholder |
| ChatArea.HandleKeyDown | components/ChatArea.tsx:973-980 | the default is prevented exactly for Enter without Shift, and only then can it submit |
| ChatArea.SubmitConditions | components/ChatArea.tsx:973-980 | Enter submits exactly when the input is not blank, never when Send would be disabled; with a blank input Send depends on the images only |
| ChatArea.SubmitDisablesSend | components/ChatArea.tsx:1166 | after submitting, Send is disabled while loading and still disabled once loading ends, the input and images having been cleared |

## Left out

- **Floating point.** Numbers are reals: sums, products, quotients, the `b.score - a.score` comparator and `Math.round(x * 100) / 100` (`Utils.Round2`, floor of 100x + 0.5 over 100) are exact. Rounding errors, NaN and infinities are not modelled.
- **`Math.log` and `Math.sqrt`.** They are uninterpreted function parameters. Only their laws (`HostMath.Lawful`) are assumed, as hypotheses, not their values.
- **Unicode.** `toLowerCase`, `toUpperCase`, `\w`, `\s` and `trim` are modelled over ASCII only, without Unicode case folding or Unicode white space. String lengths and indices count Unicode scalar values, where JavaScript counts UTF-16 code units, so `length`, `substring`, `slice` and `charAt` differ on characters outside the Basic Multilingual Plane (emoji, for instance).
- Utils.SnippetShape: the snippet keeps the first 150 whole characters. `content.substring(0, 150)` counts UTF-16 code units, so on text with characters outside the Basic Multilingual Plane the source's snippet is shorter and can end in half a surrogate pair. This is not modelled.
- **Vocabulary ids.** The ids of `vocabulary` are left out. Only its key set is kept, because the ids are overwritten at every sighting and never read.
- **`Math.max` of an empty list.** `Math.max(...[])` is -Infinity; the model uses 0. The value is unused, because the weighting loop then does not run.
- **Sorting and iteration order.** The sort algorithm of the JavaScript engine is replaced by its specified outcome, a stable sort by descending score. The iteration order of a `Set` or `Map` is arbitrary in the model.
- **The engine factory.** The factory `getEmbeddingSearch` of `app/lib/embedding-search.ts` (lines 138-146, a `require` of a JSON file) is left out.
- **Knowledge-base loading.** The JSON import of `app/lib/utils.ts` is I/O. The knowledge base is a constructor parameter of `RagService`.
- **`initialize` and `async`.** `initialize` does nothing. `async` and `await` do no real waiting in this core, so `search` and `retrieveContext` are synchronous.
- **`cn`.** It wraps two styling libraries and is left out.
- **Logging.** Console logging is left out, including the `content.slice(0, 50)` log in `handleUpdateSidebar` (`components/LeftSidebar.tsx:86-89`). `LeftSidebar.ThinkingContent.content` is a string, as the declared interface says (line 28). The chat area can dispatch a detail whose `content` is undefined (`data.thinking?.trim()`, `components/ChatArea.tsx:947`, when a reply has no `thinking`). The log then throws inside the state updater. That throwing path is not modelled.
- **`formatFileSize`.** Its formatting relies on `Math.log` and `toFixed`, so it is left out.
- **Browser and server effects.** `compressImage` (canvas and image decoding) is a parameter that may fail. Ids from `crypto.randomUUID` and timestamps from `new Date()` are opaque parameters. The server's reply is a parameter.
- **Network and event plumbing.** `fetch`, response headers, `JSON.parse`, window events, JSX rendering and hook wiring are left out. Only the state transitions they trigger are modelled.
- **Utils.Assemble: the exception path.** Its catch branch (`("", false, [])`) is modelled. `Utils.RagService.RetrieveContext` never takes it, because nothing in the modelled search throws.
- **Utils.RagService.RetrieveContext: bounds and order.** The statements about the rounded scores (bounds and order) are made under the laws of `Math.log` and `Math.sqrt` (`Lawful`). The number of sources (min(n, N) for n >= 0) and their shape hold unconditionally.
- **Fractional counts.** `n` and `k` are integers in the model. A fractional JavaScript number, which `slice` truncates toward zero, is not modelled.
- **LeftSidebar.CategoryLabelWords: categories with spaces.** The split-back property requires a category without spaces. A space already in the category would split its words further.
- **LeftSidebar.ThinkingContent: missing id.** A missing `id` and an empty one are both the empty string. The code treats both as absent.

## Findings

| source | as written | input that shows it | evidently intended | confidence | as-written member | corrected member |
|---|---|---|---|---|---|---|
| components/LeftSidebar.tsx:58 | `colors[mood?.toLowerCase()] \|\| gray` indexes a plain object literal, so a key naming an inherited `Object.prototype` member finds that (truthy) member instead of falling back to gray | mood `"constructor"` (also `"Constructor"`, or `"__proto__"`) | any mood other than the six gets the gray class | not executed | LeftSidebar.MoodColorAsWrittenConstructor | LeftSidebar.MoodColor |
