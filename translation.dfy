/** The translation service: a dictionary from message keys to English
    texts, looked up by key with `{{name}}` placeholders filled in from a
    parameter object. */
module Translation {
  import opened Wrappers
  import opened Text

  /** The dictionary the service starts with. */
  const DEFAULT_TRANSLATIONS: map<string, string> := map[
    "taskType.add.title" := "Add Task Type",
    "taskType.add.subtitle" := "Create a new task type with custom appearance",
    "taskType.edit.title" := "Edit Task Type",
    "taskType.edit.subtitle" := "Modify the task type details",
    "taskType.name.label" := "Name",
    "taskType.name.placeholder" := "Enter task type name",
    "taskType.description.label" := "Description",
    "taskType.description.placeholder" := "Enter description (optional)",
    "taskType.appearance" := "Appearance",
    "taskType.appearance.subtitle" := "Choose an icon and color",
    "common.cancel" := "Cancel",
    "common.add" := "Add",
    "common.save" := "Save",
    "common.edit" := "Edit",
    "common.delete" := "Delete",
    "common.required" := "This field is required",
    "validation.name.required" := "Name is required for task type",
    "validation.taskType.create.success" := "Task type created successfully",
    "validation.taskType.create.error" := "Failed to create task type. Please try again.",
    "validation.task.notFound" := "Task not found",
    "validation.task.loadError" := "Failed to load task details",
    "validation.task.saveError" := "Failed to save task. Please try again.",
    "validation.task.created" := "Task created successfully",
    "validation.task.updated" := "Task updated successfully",
    "label.name" := "Name",
    "label.description" := "Description",
    "label.icon" := "Icon",
    "label.color" := "Color",
    "label.appearance" := "Appearance"
  ]

  /** `translations[key] || key`: a missing key and an empty text both fall
      back to the key itself, so the result is empty only for the empty key. */
  function Lookup(translations: map<string, string>, key: string): (r: string)
    ensures key !in translations || translations[key] == "" ==> r == key
    ensures key in translations && translations[key] != "" ==> r == translations[key]
    ensures r == "" ==> key == ""
  {
    if key in translations && translations[key] != "" then translations[key] else key
  }

  /** The text a parameter named `name` stands for: `{{name}}`. */
  function Placeholder(name: string): (p: string)
    ensures |p| == |name| + 4
  {
    "{{" + name + "}}"
  }

  /** The text after each parameter, in key order, has replaced the first
      occurrence of its placeholder. */
  function Substitute(s: string, params: seq<(string, string)>): string
  {
    if params == [] then s
    else
      var last := params[|params| - 1];
      ReplaceFirst(Substitute(s, params[..|params| - 1]), Placeholder(last.0), last.1)
  }

  /** Substituting two parameter lists one after the other is substituting
      their concatenation: parameters are applied strictly in order. */
  lemma {:induction false} SubstituteAppend(s: string, a: seq<(string, string)>, b: seq<(string, string)>)
    ensures Substitute(s, a + b) == Substitute(Substitute(s, a), b)
    decreases |b|
  {
    if b == [] {
      assert a + b == a;
    } else {
      var b' := b[..|b| - 1];
      assert (a + b)[..|a + b| - 1] == a + b';
      SubstituteAppend(s, a, b');
    }
  }

  /** A text that holds none of the placeholders comes back unchanged. */
  lemma {:induction false} SubstituteWithoutPlaceholders(s: string, params: seq<(string, string)>)
    requires forall k :: 0 <= k < |params| ==> !Contains(s, Placeholder(params[k].0))
    ensures Substitute(s, params) == s
    decreases |params|
  {
    if params != [] {
      var last := params[|params| - 1];
      SubstituteWithoutPlaceholders(s, params[..|params| - 1]);
      assert !Contains(s, Placeholder(last.0));
    }
  }

  /** Only the first occurrence is replaced: a later occurrence of the
      placeholder, clear of the first, survives, shifted by the difference
      in length. */
  lemma ReplaceFirstKeepsLaterOccurrence(s: string, p: string, repl: string, i: nat, j: nat)
    requires OccursAt(s, p, i) && OccursAt(s, p, j) && i + |p| <= j
    ensures OccursAt(ReplaceFirst(s, p, repl), p, j - |p| + |repl|)
  {
    var k := IndexOf(s, p).value;
    assert k <= i;
    var front, rest := s[..k] + repl, s[k + |p|..];
    assert ReplaceFirst(s, p, repl) == front + rest;
    var x := j - k - |p|;
    SliceOfSuffix(s, k + |p|, x, |p|);
    SliceAfterPrefix(front, rest, x, |p|);
    assert |front| + x == j - |p| + |repl|;
  }

  lemma SliceOfSuffix<T>(s: seq<T>, from: nat, x: nat, n: nat)
    requires from + x + n <= |s|
    ensures s[from..][x..x + n] == s[from + x..from + x + n]
  {
  }

  lemma SliceAfterPrefix<T>(front: seq<T>, rest: seq<T>, x: nat, n: nat)
    requires x + n <= |rest|
    ensures (front + rest)[|front| + x..|front| + x + n] == rest[x..x + n]
  {
  }

  class TranslationService {
    var translations: map<string, string>

    constructor ()
      ensures translations == DEFAULT_TRANSLATIONS
    {
      translations := DEFAULT_TRANSLATIONS;
    }

    /** `translate`: looks the key up and, when a parameter object is given,
        replaces each parameter's placeholder in key order. */
    method Translate(key: string, params: Option<seq<(string, string)>>) returns (r: string)
      ensures r == Substitute(Lookup(translations, key), params.GetOr([]))
      ensures params.None? ==> r == Lookup(translations, key)
    {
      var translation := if key in translations && translations[key] != "" then translations[key] else key;
      if params.Some? {
        var ps := params.value;
        for i := 0 to |ps|
          invariant translation == Substitute(Lookup(translations, key), ps[..i])
        {
          assert ps[..i + 1][..i] == ps[..i];
          translation := ReplaceFirst(translation, Placeholder(ps[i].0), ps[i].1);
        }
        assert ps[..|ps|] == ps;
      }
      r := translation;
    }

    /** `t`, the short name of `translate`. */
    method T(key: string, params: Option<seq<(string, string)>>) returns (r: string)
      ensures r == Substitute(Lookup(translations, key), params.GetOr([]))
    {
      r := Translate(key, params);
    }

    /** `setTranslations`: merges the given entries over the current ones. */
    method SetTranslations(entries: map<string, string>)
      modifies this
      ensures translations.Keys == old(translations).Keys + entries.Keys
      ensures forall k :: k in entries ==> translations[k] == entries[k]
      ensures forall k :: k in old(translations) && k !in entries ==> translations[k] == old(translations)[k]
    {
      translations := translations + entries;
    }

    /** `getTranslations`: a copy of the dictionary. */
    method GetTranslations() returns (r: map<string, string>)
      ensures r == translations
    {
      r := map k | k in translations :: translations[k];
    }
  }
}
