/**
 * The string primitives the application borrows from JavaScript, over ASCII:
 * character classes of regular expressions, toLowerCase / toUpperCase,
 * Array.prototype.join, String.prototype.includes, trim and split on one
 * character.
 */
module Text {

  /** The regular-expression class `\w`: ASCII letters, digits and underscore. */
  predicate IsWordChar(c: char) {
    ('a' <= c <= 'z') || ('A' <= c <= 'Z') || ('0' <= c <= '9') || c == '_'
  }

  /** The regular-expression class `\s` (and what `trim` removes), restricted to ASCII. */
  predicate IsSpace(c: char) {
    c == ' ' || c == '\t' || c == '\n' || c == '\r' || c == '\U{000B}' || c == '\U{000C}'
  }

  function LowerChar(c: char): (r: char)
    ensures IsWordChar(r) <==> IsWordChar(c)
    ensures !('A' <= r <= 'Z')
  {
    if 'A' <= c <= 'Z' then (c as int + 32) as char else c
  }

  function UpperChar(c: char): (r: char)
    ensures r == '_' <==> c == '_'
    ensures !('a' <= r <= 'z')
  {
    if 'a' <= c <= 'z' then (c as int - 32) as char else c
  }

  /** `String.prototype.toLowerCase` on ASCII text. */
  function ToLower(s: string): (r: string)
    ensures |r| == |s|
    ensures forall i :: 0 <= i < |s| ==> r[i] == LowerChar(s[i])
  {
    seq(|s|, i requires 0 <= i < |s| => LowerChar(s[i]))
  }

  /** Lower-casing twice is lower-casing once. */
  lemma ToLowerIdempotent(s: string)
    ensures ToLower(ToLower(s)) == ToLower(s)
  {
    var once := ToLower(s);
    forall i | 0 <= i < |s| ensures ToLower(once)[i] == once[i] {
      assert !('A' <= once[i] <= 'Z');
    }
  }

  /** `Array.prototype.join(sep)`: the empty list joins to the empty string. */
  function Join(parts: seq<string>, sep: string): string
  {
    if |parts| == 0 then ""
    else if |parts| == 1 then parts[0]
    else parts[0] + sep + Join(parts[1..], sep)
  }

  lemma {:induction false} JoinAppend(parts: seq<string>, last: string, sep: string)
    requires parts != []
    ensures Join(parts + [last], sep) == Join(parts, sep) + sep + last
  {
    if |parts| == 1 {
      assert parts + [last] == [parts[0], last];
    } else {
      assert (parts + [last])[1..] == parts[1..] + [last];
      JoinAppend(parts[1..], last, sep);
    }
  }

  /** Joining splits at any boundary between parts: the rank-ordered shape of a joined list. */
  lemma {:induction false} JoinSplit(parts: seq<string>, j: nat, sep: string)
    requires 0 < j < |parts|
    ensures Join(parts, sep) == Join(parts[..j], sep) + sep + Join(parts[j..], sep)
  {
    if j == 1 {
      assert parts[..1] == [parts[0]];
      assert parts[1..] == parts[j..];
    } else {
      JoinSplit(parts[1..], j - 1, sep);
      assert parts[1..][..j - 1] == parts[1..j];
      assert parts[1..][j - 1..] == parts[j..];
      assert parts[..j][1..] == parts[1..j];
    }
  }

  /** `String.prototype.includes`: does `pattern` occur in `s`? Every text includes "". */
  function Includes(s: string, pattern: string): bool
    decreases |s|
  {
    if pattern <= s then true
    else if s == [] then false
    else Includes(s[1..], pattern)
  }

  /** `pattern` is the slice of `s` that starts at position `i`. */
  predicate OccursAt(s: string, pattern: string, i: int) {
    0 <= i <= |s| - |pattern| && s[i..i + |pattern|] == pattern
  }

  /** `Includes` means: `pattern` occurs in `s` at some position. */
  lemma {:induction false} IncludesAt(s: string, pattern: string)
    ensures Includes(s, pattern) <==> exists i :: OccursAt(s, pattern, i)
    decreases |s|
  {
    if pattern <= s {
      assert OccursAt(s, pattern, 0);
    } else if s == [] {
    } else {
      IncludesAt(s[1..], pattern);
      if exists i :: OccursAt(s, pattern, i) {
        var i :| OccursAt(s, pattern, i);
        assert OccursAt(s[1..], pattern, i - 1);
      }
      if Includes(s, pattern) {
        var i :| OccursAt(s[1..], pattern, i);
        assert OccursAt(s, pattern, i + 1);
      }
    }
  }

  function TrimStart(s: string): (r: string)
    ensures r == [] || !IsSpace(r[0])
    ensures r <= s || exists k :: 0 <= k <= |s| && r == s[k..]
    ensures forall c :: c in r ==> c in s
  {
    if s != [] && IsSpace(s[0]) then TrimStart(s[1..]) else s
  }

  function TrimEnd(s: string): (r: string)
    ensures r == [] || !IsSpace(r[|r| - 1])
    ensures forall c :: c in r ==> c in s
  {
    if s != [] && IsSpace(s[|s| - 1]) then TrimEnd(s[..|s| - 1]) else s
  }

  /** `String.prototype.trim`. */
  function Trim(s: string): string {
    TrimEnd(TrimStart(s))
  }

  predicate IsBlank(s: string) {
    forall i :: 0 <= i < |s| ==> IsSpace(s[i])
  }

  lemma {:induction false} TrimStartBlank(s: string)
    ensures TrimStart(s) == [] <==> IsBlank(s)
  {
    if s != [] && IsSpace(s[0]) {
      TrimStartBlank(s[1..]);
      assert IsBlank(s) <==> IsBlank(s[1..]) by {
        assert forall i :: 1 <= i < |s| ==> s[i] == s[1..][i - 1];
      }
    }
  }

  lemma {:induction false} TrimEndBlank(s: string)
    ensures TrimEnd(s) == [] <==> IsBlank(s)
  {
    if s != [] && IsSpace(s[|s| - 1]) {
      var p := s[..|s| - 1];
      TrimEndBlank(p);
      assert IsBlank(s) <==> IsBlank(p) by {
        assert forall i :: 0 <= i < |p| ==> s[i] == p[i];
      }
    }
  }

  /** The trimmed text is empty exactly when the text is all white space. */
  lemma TrimEmptyIffBlank(s: string)
    ensures Trim(s) == "" <==> IsBlank(s)
  {
    TrimStartBlank(s);
    var t := TrimStart(s);
    TrimEndBlank(t);
  }

  /** `s.split(sep)` for a one-character separator: empty fields are kept. */
  function SplitOn(s: string, sep: char): (r: seq<string>)
    ensures |r| >= 1
    ensures forall i, j :: 0 <= i < |r| && 0 <= j < |r[i]| ==> r[i][j] != sep
  {
    if s == [] then [""]
    else
      var rest := SplitOn(s[1..], sep);
      if s[0] == sep then [""] + rest
      else [[s[0]] + rest[0]] + rest[1..]
  }

  function Count(s: string, c: char): nat {
    if s == [] then 0 else (if s[0] == c then 1 else 0) + Count(s[1..], c)
  }

  /** Splitting yields one more field than there are separators. */
  lemma {:induction false} SplitOnCount(s: string, sep: char)
    ensures |SplitOn(s, sep)| == Count(s, sep) + 1
  {
    if s != [] {
      SplitOnCount(s[1..], sep);
    }
  }

  /** Joining the fields back with the separator restores the text. */
  lemma {:induction false} SplitOnJoin(s: string, sep: char)
    ensures Join(SplitOn(s, sep), [sep]) == s
  {
    if s != [] {
      var rest := SplitOn(s[1..], sep);
      SplitOnJoin(s[1..], sep);
      if s[0] == sep {
        assert ([""] + rest)[1..] == rest;
        assert s == [sep] + s[1..];
      } else {
        var parts := [[s[0]] + rest[0]] + rest[1..];
        if |rest| == 1 {
          assert Join(rest, [sep]) == rest[0];
        } else {
          assert parts[1..] == rest[1..];
          assert Join(rest, [sep]) == rest[0] + [sep] + Join(rest[1..], [sep]);
        }
        assert s == [s[0]] + s[1..];
      }
    }
  }

  /** Fields without the separator: the text of one field splits into itself. */
  lemma {:induction false} SplitOnField(w: string, sep: char)
    requires sep !in w
    ensures SplitOn(w, sep) == [w]
  {
    if w != [] {
      SplitOnField(w[1..], sep);
      assert [w[0]] + w[1..] == w;
    }
  }

  /** A field followed by the separator splits off as the first field. */
  lemma {:induction false} SplitOnFirstField(w: string, s: string, sep: char)
    requires sep !in w
    ensures SplitOn(w + [sep] + s, sep) == [w] + SplitOn(s, sep)
  {
    var t := w + [sep] + s;
    if w == [] {
      assert t[1..] == s;
    } else {
      assert t[1..] == w[1..] + [sep] + s;
      SplitOnFirstField(w[1..], s, sep);
      assert [w[0]] + w[1..] == w;
    }
  }

  /** Splitting undoes joining when no field holds the separator. */
  lemma {:induction false} JoinSplitOn(parts: seq<string>, sep: char)
    requires parts != []
    requires forall k :: 0 <= k < |parts| ==> sep !in parts[k]
    ensures SplitOn(Join(parts, [sep]), sep) == parts
  {
    if |parts| == 1 {
      SplitOnField(parts[0], sep);
    } else {
      JoinSplitOn(parts[1..], sep);
      SplitOnFirstField(parts[0], Join(parts[1..], [sep]), sep);
      assert [parts[0]] + parts[1..] == parts;
    }
  }

  /** Joining fields of the same lengths with separators of the same length gives strings of the same length. */
  lemma {:induction false} JoinSameLength(ps: seq<string>, qs: seq<string>, s1: string, s2: string)
    requires |ps| == |qs| && |s1| == |s2|
    requires forall k :: 0 <= k < |ps| ==> |ps[k]| == |qs[k]|
    ensures |Join(ps, s1)| == |Join(qs, s2)|
  {
    if |ps| > 1 {
      JoinSameLength(ps[1..], qs[1..], s1, s2);
    }
  }

  /** A character neither in the fields nor in the separator is not in their join. */
  lemma {:induction false} JoinAvoids(parts: seq<string>, sep: string, c: char)
    requires c !in sep
    requires forall k :: 0 <= k < |parts| ==> c !in parts[k]
    ensures c !in Join(parts, sep)
  {
    if |parts| > 1 {
      JoinAvoids(parts[1..], sep, c);
    }
  }
}
