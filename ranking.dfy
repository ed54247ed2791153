/**
 * The ranking step of `search` in app/lib/embedding-search.ts: the scored
 * documents are sorted by descending score with `Array.prototype.sort`, which
 * is stable, and the first k are kept with `slice(0, k)`. The sort is the
 * JavaScript engine's; it is specified here by a stable insertion sort, and
 * stability is stated as: for every score, the entries with that score keep
 * their relative order (WithScore).
 */
module Ranking {
  import opened Corpus

  datatype SearchResult = SearchResult(document: Document, score: real)

  predicate NonIncreasing(s: seq<SearchResult>) {
    forall i, j :: 0 <= i < j < |s| ==> s[j].score <= s[i].score
  }

  /** The entries scoring exactly `v`, in their order in `s`. */
  function WithScore(s: seq<SearchResult>, v: real): (r: seq<SearchResult>)
    ensures |r| <= |s|
    ensures forall i :: 0 <= i < |r| ==> r[i].score == v && r[i] in s
  {
    if s == [] then []
    else WithScore(s[..|s| - 1], v) + (if s[|s| - 1].score == v then [s[|s| - 1]] else [])
  }

  lemma {:induction false} WithScoreAppend(s: seq<SearchResult>, t: seq<SearchResult>, v: real)
    ensures WithScore(s + t, v) == WithScore(s, v) + WithScore(t, v)
    decreases |t|
  {
    if t == [] {
      assert s + t == s;
    } else {
      var init := t[..|t| - 1];
      WithScoreAppend(s, init, v);
      assert (s + t)[..|s + t| - 1] == s + init;
    }
  }

  /**
   * Put `r` after every entry of the sorted list that scores at least as much:
   * a later entry goes after the earlier ones with the same score.
   */
  function Insert(sorted: seq<SearchResult>, r: SearchResult): (out: seq<SearchResult>)
    ensures |out| == |sorted| + 1
    ensures multiset(out) == multiset(sorted) + multiset{r}
  {
    if sorted == [] || r.score <= sorted[|sorted| - 1].score then sorted + [r]
    else
      var init := sorted[..|sorted| - 1];
      assert sorted == init + [sorted[|sorted| - 1]];
      Insert(init, r) + [sorted[|sorted| - 1]]
  }

  lemma {:induction false} InsertSorted(sorted: seq<SearchResult>, r: SearchResult)
    requires NonIncreasing(sorted)
    ensures NonIncreasing(Insert(sorted, r))
  {
    if !(sorted == [] || r.score <= sorted[|sorted| - 1].score) {
      var init, last := sorted[..|sorted| - 1], sorted[|sorted| - 1];
      InsertSorted(init, r);
      var front := Insert(init, r);
      forall x | x in front ensures last.score <= x.score {
        assert x in multiset(front);
        if x != r {
          var i :| 0 <= i < |init| && init[i] == x;
        }
      }
    }
  }

  lemma {:induction false} InsertStable(sorted: seq<SearchResult>, r: SearchResult, v: real)
    ensures WithScore(Insert(sorted, r), v) == WithScore(sorted, v) + WithScore([r], v)
  {
    if sorted == [] || r.score <= sorted[|sorted| - 1].score {
      WithScoreAppend(sorted, [r], v);
    } else {
      var init, last := sorted[..|sorted| - 1], sorted[|sorted| - 1];
      var wr, wl := WithScore([r], v), WithScore([last], v);
      assert wr == (if r.score == v then [r] else []) by {
        assert [r][..0] == [];
      }
      assert wl == (if last.score == v then [last] else []) by {
        assert [last][..0] == [];
      }
      calc {
        WithScore(Insert(sorted, r), v);
        WithScore(Insert(init, r) + [last], v);
        { WithScoreAppend(Insert(init, r), [last], v); }
        WithScore(Insert(init, r), v) + wl;
        { InsertStable(init, r, v); }
        WithScore(init, v) + wr + wl;
        { assert wr == [] || wl == []; }
        WithScore(init, v) + wl + wr;
        WithScore(sorted, v) + wr;
      }
    }
  }

  /** `scores.sort((a, b) => b.score - a.score)`: stable sort by descending score. */
  function SortByScore(s: seq<SearchResult>): (r: seq<SearchResult>)
    ensures |r| == |s|
    ensures multiset(r) == multiset(s)
  {
    if s == [] then []
    else
      var init := s[..|s| - 1];
      assert s == init + [s[|s| - 1]];
      Insert(SortByScore(init), s[|s| - 1])
  }

  /** The sorted list is in non-increasing score order... */
  lemma {:induction false} SortByScoreSorted(s: seq<SearchResult>)
    ensures NonIncreasing(SortByScore(s))
  {
    if s != [] {
      SortByScoreSorted(s[..|s| - 1]);
      InsertSorted(SortByScore(s[..|s| - 1]), s[|s| - 1]);
    }
  }

  /** ...and entries with equal scores keep their original order. */
  lemma {:induction false} SortByScoreStable(s: seq<SearchResult>, v: real)
    ensures WithScore(SortByScore(s), v) == WithScore(s, v)
  {
    if s != [] {
      var init, last := s[..|s| - 1], s[|s| - 1];
      var wl := WithScore([last], v);
      assert wl == (if last.score == v then [last] else []) by {
        assert [last][..0] == [];
      }
      calc {
        WithScore(SortByScore(s), v);
        WithScore(Insert(SortByScore(init), last), v);
        { InsertStable(SortByScore(init), last, v); }
        WithScore(SortByScore(init), v) + wl;
        { SortByScoreStable(init, v); }
        WithScore(init, v) + wl;
        WithScore(s, v);
      }
    }
  }

  /**
   * Two lists in non-increasing score order that agree, score by score, on
   * the entries and their order are the same list.
   */
  lemma {:induction false} StableArrangementsEqual(t1: seq<SearchResult>, t2: seq<SearchResult>)
    requires NonIncreasing(t1) && NonIncreasing(t2)
    requires forall v :: WithScore(t1, v) == WithScore(t2, v)
    ensures t1 == t2
    decreases |t1|
  {
    if t1 != [] && t2 == [] {
      LastWithScore(t1);
      assert false;
    } else if t1 == [] && t2 != [] {
      LastWithScore(t2);
      assert false;
    } else if t1 != [] {
      var init1, init2 := t1[..|t1| - 1], t2[..|t2| - 1];
      SameLast(t1, t2);
      forall v ensures WithScore(init1, v) == WithScore(init2, v) {
        SameInit(t1, t2, v);
      }
      StableArrangementsEqual(init1, init2);
      assert t1 == init1 + [t1[|t1| - 1]] && t2 == init2 + [t2[|t2| - 1]];
    }
  }

  lemma SameLast(t1: seq<SearchResult>, t2: seq<SearchResult>)
    requires NonIncreasing(t1) && NonIncreasing(t2) && t1 != [] && t2 != []
    requires forall v :: WithScore(t1, v) == WithScore(t2, v)
    ensures t1[|t1| - 1] == t2[|t2| - 1]
  {
    var l1, l2 := t1[|t1| - 1], t2[|t2| - 1];
    LastWithScore(t1);
    LastWithScore(t2);
    var w1 := WithScore(t2, l1.score);
    assert w1[|w1| - 1] in t2;
    var w2 := WithScore(t1, l2.score);
    assert w2[|w2| - 1] in t1;
    assert l1.score == l2.score;
  }

  lemma SameInit(t1: seq<SearchResult>, t2: seq<SearchResult>, v: real)
    requires t1 != [] && t2 != [] && t1[|t1| - 1] == t2[|t2| - 1]
    requires WithScore(t1, v) == WithScore(t2, v)
    ensures WithScore(t1[..|t1| - 1], v) == WithScore(t2[..|t2| - 1], v)
  {
    var l := t1[|t1| - 1];
    var x := if l.score == v then [l] else [];
    var w := WithScore(t1, v);
    assert w == WithScore(t1[..|t1| - 1], v) + x;
    assert w == WithScore(t2[..|t2| - 1], v) + x;
    assert WithScore(t1[..|t1| - 1], v) == w[..|w| - |x|];
  }

  /** The last entry of a non-increasing list has the smallest score and ends the entries with that score. */
  lemma LastWithScore(t: seq<SearchResult>)
    requires NonIncreasing(t) && t != []
    ensures var l := t[|t| - 1];
            var w := WithScore(t, l.score);
            w != [] && w[|w| - 1] == l
    ensures forall x :: x in t ==> t[|t| - 1].score <= x.score
  {
  }

  /**
   * SortByScore is the only stable arrangement of a list in non-increasing
   * score order: any list that is sorted and keeps the order of equal scores
   * equals it.
   */
  lemma SortByScoreUnique(s: seq<SearchResult>, t: seq<SearchResult>)
    requires NonIncreasing(t)
    requires forall v :: WithScore(t, v) == WithScore(s, v)
    ensures t == SortByScore(s)
  {
    SortByScoreSorted(s);
    forall v ensures WithScore(SortByScore(s), v) == WithScore(s, v) {
      SortByScoreStable(s, v);
    }
    StableArrangementsEqual(t, SortByScore(s));
  }

  /**
   * The end index of `slice(0, k)` on a list of length `len`: k itself when
   * it is in range, the length when k is larger, and for a negative k that
   * many entries before the end (never before the start).
   */
  function SliceEnd(len: nat, k: int): (e: nat)
    ensures e <= len
  {
    if k < 0 then (if len + k < 0 then 0 else len + k)
    else if k < len then k
    else len
  }

  /** `slice(0, k)`. */
  function Top(s: seq<SearchResult>, k: int): (r: seq<SearchResult>)
    ensures r <= s && |r| == SliceEnd(|s|, k)
  {
    s[..SliceEnd(|s|, k)]
  }

  /** Keeping a prefix keeps the order and, for each score, a prefix of the entries with that score. */
  lemma {:induction false} TopOfSorted(s: seq<SearchResult>, k: int, v: real)
    requires NonIncreasing(s)
    ensures NonIncreasing(Top(s, k))
    ensures WithScore(Top(s, k), v) <= WithScore(s, v)
    ensures forall i, j :: 0 <= i < |Top(s, k)| <= j < |s| ==> s[j].score <= s[i].score
  {
    var e := SliceEnd(|s|, k);
    assert s == s[..e] + s[e..];
    WithScoreAppend(s[..e], s[e..], v);
  }
}
