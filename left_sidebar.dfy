/**
 * The logic of components/LeftSidebar.tsx, lifted out of the React
 * component: the thinking history kept by `handleUpdateSidebar` (newest
 * first, no two entries with the same id, at most MAX_THINKING_HISTORY), the
 * colour lookups for moods and debug pills, the category labels and when the
 * context button opens the context dialog.
 */
module LeftSidebar {
  import opened Wrappers
  import opened Text
  import opened Utils

  /** The `debug` part of a thinking event. */
  datatype DebugInfo = DebugInfo(contextUsed: bool, context: Option<string>, ragSources: Option<seq<RagSource>>)

  /**
   * The detail of an `updateSidebar` event. A missing id and the empty id
   * are both falsy in the source and are rejected alike; both are the empty
   * string here.
   */
  datatype ThinkingContent = ThinkingContent(
    id: string,
    content: string,
    userMood: Option<string>,
    matchedCategories: Option<seq<string>>,
    debug: Option<DebugInfo>)

  /** `{ ...event.detail, timestamp }`: an event detail stamped with the time it arrived. */
  datatype Entry = Entry(detail: ThinkingContent, timestamp: string)

  const MaxThinkingHistory := 15

  /** No two entries of the history share an id. */
  predicate DistinctIds(history: seq<Entry>) {
    forall i, j :: 0 <= i < j < |history| ==> history[i].detail.id != history[j].detail.id
  }

  predicate ValidHistory(history: seq<Entry>) {
    |history| <= MaxThinkingHistory && DistinctIds(history)
  }

  predicate HasId(history: seq<Entry>, id: string) {
    exists i :: 0 <= i < |history| && history[i].detail.id == id
  }

  /**
   * `handleUpdateSidebar`: an event without a detail or without an id, or
   * with an id already in the history, leaves it as it is; otherwise the
   * stamped entry goes first and the history is cut to its first 15 entries.
   */
  function UpdateSidebar(prev: seq<Entry>, detail: Option<ThinkingContent>, timestamp: string): (next: seq<Entry>)
    ensures detail.None? || detail.value.id == "" ==> next == prev
    ensures detail.Some? && HasId(prev, detail.value.id) ==> next == prev
    ensures detail.Some? && detail.value.id != "" && !HasId(prev, detail.value.id) ==>
              && next != []
              && next[0] == Entry(detail.value, timestamp)
              && next[1..] == prev[..if |prev| < MaxThinkingHistory then |prev| else MaxThinkingHistory - 1]
  {
    if detail.None? || detail.value.id == "" then prev
    else if HasId(prev, detail.value.id) then prev
    else
      var newHistory := [Entry(detail.value, timestamp)] + prev;
      newHistory[..if |newHistory| < MaxThinkingHistory then |newHistory| else MaxThinkingHistory]
  }

  /** An update keeps the history within 15 entries with distinct ids. */
  lemma UpdateSidebarValid(prev: seq<Entry>, detail: Option<ThinkingContent>, timestamp: string)
    requires ValidHistory(prev)
    ensures ValidHistory(UpdateSidebar(prev, detail, timestamp))
  {
    var next := UpdateSidebar(prev, detail, timestamp);
    if detail.Some? && detail.value.id != "" && !HasId(prev, detail.value.id) {
      forall i, j | 0 <= i < j < |next| ensures next[i].detail.id != next[j].detail.id {
        assert next[j] == prev[j - 1];
        if i > 0 {
          assert next[i] == prev[i - 1];
        }
      }
    }
  }

  /** The history after a sequence of events, starting from the empty one. */
  function Replay(events: seq<(Option<ThinkingContent>, string)>): seq<Entry> {
    if events == [] then []
    else
      var last := events[|events| - 1];
      UpdateSidebar(Replay(events[..|events| - 1]), last.0, last.1)
  }

  /** Whatever the events, the history holds at most 15 entries, no two with the same id. */
  lemma {:induction false} ReplayValid(events: seq<(Option<ThinkingContent>, string)>)
    ensures ValidHistory(Replay(events))
  {
    if events != [] {
      var last := events[|events| - 1];
      ReplayValid(events[..|events| - 1]);
      UpdateSidebarValid(Replay(events[..|events| - 1]), last.0, last.1);
    }
  }

  /** An accepted event's entry is the newest one, and every entry came from the previous history or from it. */
  lemma UpdateSidebarEntries(prev: seq<Entry>, detail: Option<ThinkingContent>, timestamp: string)
    ensures var next := UpdateSidebar(prev, detail, timestamp);
            forall e :: e in next ==> e in prev || (detail.Some? && e == Entry(detail.value, timestamp))
    ensures detail.Some? && detail.value.id != "" ==> HasId(UpdateSidebar(prev, detail, timestamp), detail.value.id)
  {
    var next := UpdateSidebar(prev, detail, timestamp);
    if detail.Some? && detail.value.id != "" && !HasId(prev, detail.value.id) {
      forall e | e in next ensures e in prev || e == Entry(detail.value, timestamp) {
        var i :| 0 <= i < |next| && next[i] == e;
        if i > 0 {
          assert next[i] == next[1..][i - 1];
        }
      }
      assert next[0].detail.id == detail.value.id;
    }
  }

  const Green := "bg-green-100 text-green-800 border-green-300"
  const Yellow := "bg-yellow-100 text-yellow-800 border-yellow-300"

  /** `getDebugPillColor`: green when the context was used, yellow when it was not. */
  function DebugPillColor(value: bool): (c: string)
    ensures c == Green <==> value
    ensures c == Yellow <==> !value
  {
    if value then Green else Yellow
  }

  const Gray := "bg-gray-100 text-gray-800"

  /** The `colors` table of `getMoodColor`: its own properties. */
  const MoodColors: map<string, string> := map[
    "positive" := "bg-green-100 text-green-800",
    "negative" := "bg-red-100 text-red-800",
    "curious" := "bg-blue-100 text-blue-800",
    "frustrated" := "bg-orange-100 text-orange-800",
    "confused" := "bg-yellow-100 text-yellow-800",
    "neutral" := Gray
  ]

  /** The property name `colors[mood?.toLowerCase()]` looks up: "undefined" for an absent mood. */
  function MoodKey(mood: Option<string>): string {
    if mood.None? then "undefined" else ToLower(mood.value)
  }

  /**
   * `getMoodColor` as intended: the colour of a mood among the six, compared
   * without regard to case; gray for anything else.
   */
  function MoodColor(mood: Option<string>): (c: string)
    ensures c in MoodColors.Values || c == Gray
    ensures MoodKey(mood) in MoodColors ==> c == MoodColors[MoodKey(mood)]
    ensures MoodKey(mood) !in MoodColors ==> c == Gray
  {
    var key := MoodKey(mood);
    if key in MoodColors then MoodColors[key] else Gray
  }

  /** The lookup ignores case: moods that agree once lower-cased get the same colour. */
  lemma MoodColorIgnoresCase(m1: string, m2: string)
    requires ToLower(m1) == ToLower(m2)
    ensures MoodColor(Some(m1)) == MoodColor(Some(m2))
  {
  }

  /** An absent mood, and any mood outside the six, is gray. */
  lemma MoodColorDefault(mood: Option<string>)
    requires mood.None? || ToLower(mood.value) !in MoodColors
    ensures MoodColor(mood) == Gray
  {
    assert "undefined" !in MoodColors;
  }

  /**
   * What a property lookup on a JavaScript object literal can produce: one of
   * its own values, or a member every object inherits from Object.prototype
   * (a function or, for `__proto__`, an object; both are truthy).
   */
  datatype JsValue = Str(s: string) | Inherited(name: string)

  const InheritedMembers: set<string> := {
    "constructor", "toString", "toLocaleString", "valueOf", "hasOwnProperty",
    "isPrototypeOf", "propertyIsEnumerable", "__proto__", "__defineGetter__",
    "__defineSetter__", "__lookupGetter__", "__lookupSetter__"
  }

  /**
   * `getMoodColor` as written: `colors[key] || gray` also finds the members
   * inherited from Object.prototype, which are truthy, so they are returned
   * instead of the gray default.
   */
  function MoodColorAsWritten(mood: Option<string>): JsValue {
    var key := MoodKey(mood);
    if key in MoodColors then Str(MoodColors[key])
    else if key in InheritedMembers then Inherited(key)
    else Str(Gray)
  }

  /** The mood "constructor" gets the Object constructor rather than a colour class. */
  lemma MoodColorAsWrittenConstructor()
    ensures MoodColorAsWritten(Some("constructor")) == Inherited("constructor")
    ensures MoodColor(Some("constructor")) == Gray
  {
    assert ToLower("constructor") == "constructor";
  }

  /**
   * Since the key is lower-cased, only the moods that lower-case to
   * "constructor" or "__proto__" reach an inherited member.
   */
  lemma MoodColorAsWrittenInherited(mood: Option<string>)
    ensures MoodColorAsWritten(mood).Inherited? <==> MoodKey(mood) == "constructor" || MoodKey(mood) == "__proto__"
  {
    if mood.Some? {
      var m := mood.value;
      LoweredDiffers(m, "toString", 2);
      LoweredDiffers(m, "toLocaleString", 2);
      LoweredDiffers(m, "valueOf", 5);
      LoweredDiffers(m, "hasOwnProperty", 3);
      LoweredDiffers(m, "isPrototypeOf", 2);
      LoweredDiffers(m, "propertyIsEnumerable", 8);
      LoweredDiffers(m, "__defineGetter__", 8);
      LoweredDiffers(m, "__defineSetter__", 8);
      LoweredDiffers(m, "__lookupGetter__", 8);
      LoweredDiffers(m, "__lookupSetter__", 8);
    }
  }

  /** A lower-cased string differs from any name with an upper-case letter. */
  lemma LoweredDiffers(s: string, name: string, i: nat)
    requires i < |name| && 'A' <= name[i] <= 'Z'
    ensures ToLower(s) != name
  {
  }

  /** Everywhere else the two agree. */
  lemma MoodColorAgrees(mood: Option<string>)
    requires MoodKey(mood) !in InheritedMembers
    ensures MoodColorAsWritten(mood) == Str(MoodColor(mood))
  {
  }

  /**
   * `word.charAt(0).toUpperCase() + word.slice(1)`: a lower-case first letter
   * becomes its capital, any other first character stays, and the rest of the
   * word is kept.
   */
  function Capitalize(word: string): (r: string)
    ensures |r| == |word|
    ensures word != [] ==> !('a' <= r[0] <= 'z') && r[1..] == word[1..]
    ensures word != [] && 'a' <= word[0] <= 'z' ==> 'A' <= r[0] <= 'Z' && LowerChar(r[0]) == word[0]
    ensures word != [] && !('a' <= word[0] <= 'z') ==> r[0] == word[0]
    ensures forall c :: c == ' ' || c == '_' ==> (c in r <==> c in word)
  {
    if word == [] then [] else [UpperChar(word[0])] + word[1..]
  }

  /** The words of a category: its `_`-separated fields, each capitalised. */
  function CategoryWords(category: string): (words: seq<string>)
    ensures |words| == |SplitOn(category, '_')|
    ensures forall k :: 0 <= k < |words| ==> words[k] == Capitalize(SplitOn(category, '_')[k])
  {
    var fields := SplitOn(category, '_');
    seq(|fields|, k requires 0 <= k < |fields| => Capitalize(fields[k]))
  }

  /**
   * The label of a category: its words joined by spaces. It is as long as
   * the category and holds no underscore.
   */
  function CategoryLabel(category: string): (caption: string)
    ensures |caption| == |category|
    ensures '_' !in caption
  {
    var fields := SplitOn(category, '_');
    var words := CategoryWords(category);
    SplitOnJoin(category, '_');
    JoinSameLength(fields, words, "_", " ");
    forall k | 0 <= k < |words| ensures '_' !in words[k] {
      assert forall j :: 0 <= j < |fields[k]| ==> fields[k][j] != '_';
    }
    JoinAvoids(words, " ", '_');
    Join(words, " ")
  }

  /**
   * A category without spaces splits back at the spaces of its label into
   * its capitalised words, one more than it has underscores.
   */
  lemma CategoryLabelWords(category: string)
    requires ' ' !in category
    ensures SplitOn(CategoryLabel(category), ' ') == CategoryWords(category)
    ensures |CategoryWords(category)| == Count(category, '_') + 1
  {
    var fields := SplitOn(category, '_');
    var words := CategoryWords(category);
    SplitOnJoin(category, '_');
    forall k | 0 <= k < |words| ensures ' ' !in words[k] {
      forall j | 0 <= j < |fields[k]| ensures fields[k][j] != ' ' {
        JoinHasField(fields, "_", k, j);
      }
    }
    JoinSplitOn(words, ' ');
    SplitOnCount(category, '_');
  }

  /** Every character of a field is a character of the join. */
  lemma {:induction false} JoinHasField(parts: seq<string>, sep: string, k: nat, j: nat)
    requires k < |parts| && j < |parts[k]|
    ensures parts[k][j] in Join(parts, sep)
  {
    if k == 0 {
      assert parts[0][j] in parts[0];
    } else {
      JoinHasField(parts[1..], sep, k - 1, j);
    }
  }

  /** `disabled={!context_used || !context}`. */
  predicate ContextButtonDisabled(debug: DebugInfo) {
    !debug.contextUsed || debug.context.None? || debug.context.value == ""
  }

  /** What the context dialog shows. */
  datatype SelectedContext = SelectedContext(context: string, sources: seq<RagSource>)

  /** The button's `onClick`: the context and the sources (none when absent) to show, if any. */
  function OnContextClick(debug: DebugInfo): (selected: Option<SelectedContext>)
    ensures selected.Some? <==> !ContextButtonDisabled(debug)
    ensures selected.Some? ==> debug.context == Some(selected.value.context) && selected.value.context != ""
    ensures selected.Some? ==> selected.value.sources == if debug.ragSources.Some? then debug.ragSources.value else []
  {
    if debug.context.Some? && debug.context.value != "" && debug.contextUsed then
      Some(SelectedContext(debug.context.value, if debug.ragSources.Some? then debug.ragSources.value else []))
    else None
  }
}
