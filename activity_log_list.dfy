/** `formatAction` of `src/components/activity/activity-log-list.tsx`: the
    phrase shown for an activity-log entry, such as "created task". */
module ActivityLog {
  import opened JsString

  /** `actionMap`: the past-tense word for each known action code. */
  const ActionMap: map<string, string> := map[
    "CREATE" := "created",
    "UPDATE" := "updated",
    "DELETE" := "deleted",
    "ARCHIVE" := "archived",
    "RESTORE" := "restored"
  ]

  /** `entityMap`: the noun for each known entity type. */
  const EntityMap: map<string, string> := map[
    "TASK" := "task",
    "PROJECT" := "project",
    "WORKSPACE" := "workspace",
    "COMMENT" := "comment",
    "ATTACHMENT" := "attachment"
  ]

  /** `m[key] || key.toLowerCase()`: the table's entry when it is present and
      non-empty, the lower-cased key otherwise. */
  function LookupOrLower(m: map<string, string>, key: string): (r: string)
    ensures key in m && m[key] != "" ==> r == m[key]
    ensures !(key in m && m[key] != "") ==> r == ToLower(key)
    ensures key !in m ==> |r| == |key| && forall i :: 0 <= i < |r| ==> !IsUpper(r[i])
    ensures r == "" ==> key == ""
  {
    if key in m && m[key] != "" then m[key] else ToLower(key)
  }

  /** `formatAction(action, entityType)`: the action's word, one space, then
      the entity's word. Each word is the table's entry for a known code (no
      entry is empty, so the fallback never replaces one) and the lower-cased
      code otherwise, so no phrase contains an upper-case ASCII letter. */
  function FormatAction(action: string, entityType: string): (r: string)
    ensures r == (if action in ActionMap then ActionMap[action] else ToLower(action))
                 + " "
                 + (if entityType in EntityMap then EntityMap[entityType] else ToLower(entityType))
    ensures forall i :: 0 <= i < |r| ==> !IsUpper(r[i])
  {
    TableWordsAreLowerWords();
    var actionText := LookupOrLower(ActionMap, action);
    var entityText := LookupOrLower(EntityMap, entityType);
    actionText + " " + entityText
  }

  /** The five known action codes and the five known entity types read as
      their fixed words. */
  lemma KnownCodes()
    ensures LookupOrLower(ActionMap, "CREATE") == "created"
    ensures LookupOrLower(ActionMap, "UPDATE") == "updated"
    ensures LookupOrLower(ActionMap, "DELETE") == "deleted"
    ensures LookupOrLower(ActionMap, "ARCHIVE") == "archived"
    ensures LookupOrLower(ActionMap, "RESTORE") == "restored"
    ensures LookupOrLower(EntityMap, "TASK") == "task"
    ensures LookupOrLower(EntityMap, "PROJECT") == "project"
    ensures LookupOrLower(EntityMap, "WORKSPACE") == "workspace"
    ensures LookupOrLower(EntityMap, "COMMENT") == "comment"
    ensures LookupOrLower(EntityMap, "ATTACHMENT") == "attachment"
  {
  }

  /** A non-empty word made of lower-case ASCII letters only. */
  predicate IsLowerWord(w: string)
  {
    w != [] && forall i :: 0 <= i < |w| ==> 'a' <= w[i] <= 'z'
  }

  /** Every word in the two tables is a lower-case word. */
  lemma TableWordsAreLowerWords()
    ensures forall k | k in ActionMap :: IsLowerWord(ActionMap[k])
    ensures forall k | k in EntityMap :: IsLowerWord(EntityMap[k])
  {
    assert ActionMap.Keys == {"CREATE", "UPDATE", "DELETE", "ARCHIVE", "RESTORE"};
    assert EntityMap.Keys == {"TASK", "PROJECT", "WORKSPACE", "COMMENT", "ATTACHMENT"};
  }

  /** The text before the first space of `s`, and the text after it. */
  function SplitAtFirstSpace(s: string): (parts: (string, string))
  {
    if s == [] then ("", "")
    else if s[0] == ' ' then ("", s[1..])
    else
      var rest := SplitAtFirstSpace(s[1..]);
      ([s[0]] + rest.0, rest.1)
  }

  /** A phrase is read back as its two words when the first has no space. */
  lemma {:induction false} SplitPhrase(x: string, y: string)
    requires ' ' !in x
    ensures SplitAtFirstSpace(x + " " + y) == (x, y)
  {
    if x == [] {
      assert x + " " + y == [' '] + y;
    } else {
      assert (x + " " + y)[1..] == x[1..] + " " + y;
      SplitPhrase(x[1..], y);
      assert [x[0]] + x[1..] == x;
    }
  }

  /** Distinct known (action, entity) pairs give distinct phrases, so a phrase
      names the event it describes. */
  lemma KnownPhrasesDistinct(a1: string, e1: string, a2: string, e2: string)
    requires a1 in ActionMap && a2 in ActionMap && e1 in EntityMap && e2 in EntityMap
    requires FormatAction(a1, e1) == FormatAction(a2, e2)
    ensures a1 == a2 && e1 == e2
  {
    TableWordsAreLowerWords();
    SplitPhrase(ActionMap[a1], EntityMap[e1]);
    SplitPhrase(ActionMap[a2], EntityMap[e2]);
  }
}
