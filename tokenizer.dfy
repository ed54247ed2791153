/**
 * The tokenizer of app/lib/embedding-search.ts (`tokenize`): lower-case the
 * text, turn every character that is neither a word character nor white space
 * into a space, split on runs of white space, and keep the fields longer than
 * two characters.
 */
module Tokenizer {
  import opened Text

  /** `replace(/[^\w\s]/g, ' ')`. */
  function Clean(s: string): (r: string)
    ensures |r| == |s|
    ensures forall i :: 0 <= i < |s| ==> r[i] == (if IsWordChar(s[i]) || IsSpace(s[i]) then s[i] else ' ')
  {
    seq(|s|, i requires 0 <= i < |s| => if IsWordChar(s[i]) || IsSpace(s[i]) then s[i] else ' ')
  }

  /**
   * `split(/\s+/)`: each maximal run of white space separates two fields, so
   * a leading or trailing run yields an empty field and "" splits to [""].
   * Every character of every field is a non-blank character of the input.
   */
  function SplitWhitespace(s: string): (r: seq<string>)
    ensures |r| >= 1
    ensures forall i, j :: 0 <= i < |r| && 0 <= j < |r[i]| ==> r[i][j] in s && !IsSpace(r[i][j])
    ensures IsBlank(s) ==> forall i :: 0 <= i < |r| ==> r[i] == []
  {
    if s == [] then [""]
    else
      var rest := SplitWhitespace(s[1..]);
      if IsSpace(s[0]) then
        if |s| > 1 && IsSpace(s[1]) then rest else [""] + rest
      else
        [[s[0]] + rest[0]] + rest[1..]
  }

  /** `filter(token => token.length > 2)`. */
  function LongTokens(ts: seq<string>): (r: seq<string>)
    ensures forall i :: 0 <= i < |r| ==> |r[i]| > 2 && r[i] in ts
    ensures (forall i :: 0 <= i < |ts| ==> |ts[i]| <= 2) ==> r == []
  {
    if ts == [] then []
    else (if |ts[0]| > 2 then [ts[0]] else []) + LongTokens(ts[1..])
  }

  predicate IsTokenChar(c: char) {
    ('a' <= c <= 'z') || ('0' <= c <= '9') || c == '_'
  }

  /** A term of the index: at least three characters from [a-z0-9_]. */
  predicate IsToken(t: string) {
    |t| > 2 && forall i :: 0 <= i < |t| ==> IsTokenChar(t[i])
  }

  /** Characters that survive lower-casing and cleaning are token characters or white space. */
  lemma CleanedChars(text: string, c: char)
    requires c in Clean(ToLower(text))
    ensures IsTokenChar(c) || IsSpace(c)
  {
    var lowered := ToLower(text);
    var k :| 0 <= k < |lowered| && Clean(lowered)[k] == c;
    assert lowered[k] == LowerChar(text[k]);
  }

  function Tokenize(text: string): (tokens: seq<string>)
    ensures forall i :: 0 <= i < |tokens| ==> IsToken(tokens[i])
  {
    var cleaned := Clean(ToLower(text));
    var fields := SplitWhitespace(cleaned);
    var tokens := LongTokens(fields);
    assert forall i, j :: 0 <= i < |tokens| && 0 <= j < |tokens[i]| ==> IsTokenChar(tokens[i][j]) by {
      forall i, j | 0 <= i < |tokens| && 0 <= j < |tokens[i]|
        ensures IsTokenChar(tokens[i][j])
      {
        var f :| f in fields && f == tokens[i];
        var n :| 0 <= n < |fields| && fields[n] == f;
        CleanedChars(text, fields[n][j]);
      }
    }
    tokens
  }

  /** Text without a single word character (empty, blank, punctuation) has no tokens. */
  lemma NoWordCharsNoTokens(text: string)
    requires forall i :: 0 <= i < |text| ==> !IsWordChar(text[i])
    ensures Tokenize(text) == []
  {
    var cleaned := Clean(ToLower(text));
    assert IsBlank(cleaned) by {
      forall k | 0 <= k < |cleaned| ensures IsSpace(cleaned[k]) {
        assert ToLower(text)[k] == LowerChar(text[k]);
      }
    }
  }

  predicate NoSpace(w: string) {
    forall i :: 0 <= i < |w| ==> !IsSpace(w[i])
  }

  /** A field without blanks glues onto the first field of what follows it. */
  lemma {:induction false} SplitWordThen(w: string, s: string)
    requires NoSpace(w)
    ensures SplitWhitespace(w + s) == [w + SplitWhitespace(s)[0]] + SplitWhitespace(s)[1..]
  {
    if w == [] {
      var r := SplitWhitespace(s);
      assert w + s == s;
      assert w + r[0] == r[0];
      assert r == [r[0]] + r[1..];
    } else {
      SplitWordThen(w[1..], s);
      var tail := SplitWhitespace(w[1..] + s);
      assert (w + s)[1..] == w[1..] + s;
      assert (w + s)[0] == w[0] && !IsSpace(w[0]);
      assert SplitWhitespace(w + s) == [[w[0]] + tail[0]] + tail[1..];
      assert tail[0] == w[1..] + SplitWhitespace(s)[0];
      assert tail[1..] == SplitWhitespace(s)[1..];
      assert [w[0]] + (w[1..] + SplitWhitespace(s)[0]) == w + SplitWhitespace(s)[0];
    }
  }

  lemma JoinStartsWith(ts: seq<string>, sep: string)
    requires ts != [] && ts[0] != []
    ensures Join(ts, sep) != [] && Join(ts, sep)[0] == ts[0][0]
  {
  }

  /** Splitting space-joined fields that contain no blank gives the fields back. */
  lemma {:induction false} SplitJoined(ts: seq<string>)
    requires ts != []
    requires forall i :: 0 <= i < |ts| ==> ts[i] != [] && NoSpace(ts[i])
    ensures SplitWhitespace(Join(ts, " ")) == ts
  {
    if |ts| == 1 {
      SplitWordThen(ts[0], []);
      assert ts[0] + [] == ts[0];
    } else {
      var rest := Join(ts[1..], " ");
      SplitJoined(ts[1..]);
      JoinStartsWith(ts[1..], " ");
      assert SplitWhitespace(" " + rest) == [""] + ts[1..] by {
        assert (" " + rest)[1..] == rest;
      }
      assert Join(ts, " ") == ts[0] + (" " + rest);
      SplitWordThen(ts[0], " " + rest);
      assert ts[0] + "" == ts[0];
      assert ([""] + ts[1..])[1..] == ts[1..];
    }
  }

  /** Filtering keeps a list whose entries are all long enough. */
  lemma {:induction false} LongTokensKeepsLong(ts: seq<string>)
    requires forall i :: 0 <= i < |ts| ==> |ts[i]| > 2
    ensures LongTokens(ts) == ts
  {
    if ts != [] {
      LongTokensKeepsLong(ts[1..]);
    }
  }

  /** The filter drops no long field: every field longer than two characters is kept. */
  lemma {:induction false} LongTokensComplete(ts: seq<string>, i: nat)
    requires i < |ts| && |ts[i]| > 2
    ensures ts[i] in LongTokens(ts)
  {
    if i > 0 {
      LongTokensComplete(ts[1..], i - 1);
      assert ts[1..][i - 1] == ts[i];
    }
  }

  /** The filter keeps the order of the fields: filtering a concatenation filters each side. */
  lemma {:induction false} LongTokensAppend(a: seq<string>, b: seq<string>)
    ensures LongTokens(a + b) == LongTokens(a) + LongTokens(b)
  {
    if a == [] {
      assert a + b == b;
    } else {
      var c := a + b;
      var head: seq<string> := if |a[0]| > 2 then [a[0]] else [];
      assert c[0] == a[0] && c[1..] == a[1..] + b;
      LongTokensAppend(a[1..], b);
      assert LongTokens(c) == head + LongTokens(a[1..] + b);
      assert LongTokens(a) == head + LongTokens(a[1..]);
    }
  }

  /** Space-joined tokens are left as they are by lower-casing and cleaning. */
  lemma CleanJoined(ts: seq<string>)
    requires forall i :: 0 <= i < |ts| ==> IsToken(ts[i])
    ensures Clean(ToLower(Join(ts, " "))) == Join(ts, " ")
  {
    var joined := Join(ts, " ");
    JoinedTokenChars(ts);
    assert ToLower(joined) == joined;
  }

  /**
   * Tokenizing words that are already tokens, separated by single spaces,
   * gives exactly those words, in order: every word of such a text becomes a
   * token and nothing else does.
   */
  lemma TokenizeJoined(ts: seq<string>)
    requires forall i :: 0 <= i < |ts| ==> IsToken(ts[i])
    ensures Tokenize(Join(ts, " ")) == ts
  {
    var joined := Join(ts, " ");
    CleanJoined(ts);
    if ts == [] {
      assert SplitWhitespace(joined) == [""];
      assert LongTokens([""]) == [];
    } else {
      TokensAreFields(ts);
      SplitJoined(ts);
      LongTokensKeepsLong(ts);
    }
  }

  lemma TokensAreFields(ts: seq<string>)
    requires forall i :: 0 <= i < |ts| ==> IsToken(ts[i])
    ensures forall i :: 0 <= i < |ts| ==> ts[i] != [] && NoSpace(ts[i])
  {
    forall i | 0 <= i < |ts| ensures ts[i] != [] && NoSpace(ts[i]) {
      assert IsToken(ts[i]);
    }
  }

  /** Tokenizing the space-joined tokens of a text gives the same tokens: tokenizing is idempotent. */
  lemma TokenizeIdempotent(text: string)
    ensures Tokenize(Join(Tokenize(text), " ")) == Tokenize(text)
  {
    TokenizeJoined(Tokenize(text));
  }

  /** Every character of joined tokens is a token character or the joining space. */
  lemma {:induction false} JoinedTokenChars(ts: seq<string>)
    requires forall i :: 0 <= i < |ts| ==> IsToken(ts[i])
    ensures forall k :: 0 <= k < |Join(ts, " ")| ==> IsTokenChar(Join(ts, " ")[k]) || Join(ts, " ")[k] == ' '
  {
    if |ts| > 1 {
      JoinedTokenChars(ts[1..]);
      var rest := Join(ts[1..], " ");
      assert Join(ts, " ") == ts[0] + " " + rest;
      assert IsToken(ts[0]);
    } else if |ts| == 1 {
      assert IsToken(ts[0]);
    }
  }
}
