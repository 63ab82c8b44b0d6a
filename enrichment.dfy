/** The enrichment step of the graph builder: the key validation applied to the
    dict decoded from the language model's answer, and the merge that folds the
    validated dict into a Python or JavaScript record as duplicate-free unions. */
module Enrichment {
  import opened Wrappers
  import opened Extractors

  /** A value of the decoded dict: a list (of strings) or anything else. */
  datatype Json = JList(items: seq<string>) | JOther

  const ExpectedKeys: seq<string> :=
    ["imports", "functions", "function_calls", "file_references", "external_apis"]

  /** The validated dict: each expected key that is missing or not a list is set
      to the empty list; everything else is kept. */
  function Validated(raw: map<string, Json>): (r: map<string, Json>)
    ensures r.Keys == raw.Keys + set k | k in ExpectedKeys
    ensures forall k :: k in ExpectedKeys ==> r[k].JList?
    ensures forall k :: k in ExpectedKeys && k in raw && raw[k].JList? ==> r[k] == raw[k]
    ensures forall k :: k in ExpectedKeys && (k !in raw || raw[k].JOther?) ==> r[k] == JList([])
    ensures forall k :: k in raw && k !in ExpectedKeys ==> r[k] == raw[k]
  {
    map k | k in raw.Keys + (set j | j in ExpectedKeys) ::
      if k in ExpectedKeys && (k !in raw || raw[k].JOther?) then JList([]) else raw[k]
  }

  /** The validation applied to the keys of keys, one after the other. */
  function ValidateKeys(raw: map<string, Json>, keys: seq<string>): map<string, Json>
    decreases |keys|
  {
    if keys == [] then raw
    else
      var r := ValidateKeys(raw, keys[..|keys| - 1]);
      var key := keys[|keys| - 1];
      if key !in r || r[key].JOther? then r[key := JList([])] else r
  }

  /** Key by key, the validation of a list of keys is the validated dict
      restricted to those keys. */
  lemma {:induction false} ValidateKeysEffect(raw: map<string, Json>, keys: seq<string>)
    ensures forall k :: k in ValidateKeys(raw, keys) <==> k in raw || k in keys
    ensures forall k :: k in ValidateKeys(raw, keys) ==>
      ValidateKeys(raw, keys)[k] == (if k in keys && (k !in raw || raw[k].JOther?) then JList([]) else raw[k])
    decreases |keys|
  {
    if keys != [] {
      ValidateKeysEffect(raw, keys[..|keys| - 1]);
      assert keys == keys[..|keys| - 1] + [keys[|keys| - 1]];
    }
  }

  /** The validation loop: one expected key at a time, in order. */
  method ValidateResult(raw: map<string, Json>) returns (result: map<string, Json>)
    ensures result == Validated(raw)
  {
    result := raw;
    var i := 0;
    while i < |ExpectedKeys|
      invariant 0 <= i <= |ExpectedKeys|
      invariant result == ValidateKeys(raw, ExpectedKeys[..i])
    {
      var key := ExpectedKeys[i];
      assert ExpectedKeys[..i + 1][..i] == ExpectedKeys[..i];
      if key !in result {
        result := result[key := JList([])];
      } else if !result[key].JList? {
        result := result[key := JList([])];
      }
      i := i + 1;
    }
    assert ExpectedKeys[..i] == ExpectedKeys;
    ValidateKeysEffect(raw, ExpectedKeys);
  }

  /** The dict the enrichment call hands back: `{}` when there is no client or
      when the answer could not be obtained or decoded as a dict (None),
      otherwise the validated dict. */
  function AiResult(hasClient: bool, response: Option<map<string, Json>>): (r: map<string, Json>)
    ensures r == map[] <==> !hasClient || response.None?
  {
    if hasClient && response.Some? then
      assert ExpectedKeys[0] in Validated(response.value);
      Validated(response.value)
    else map[]
  }

  // ---------------------------------------------------------------------------
  // The merge

  predicate NoDup(xs: seq<string>) {
    forall i, j :: 0 <= i < j < |xs| ==> xs[i] != xs[j]
  }

  /** `list(set(xs))`, in first-occurrence order. */
  function Dedup(xs: seq<string>): (r: seq<string>)
    ensures forall x :: x in r <==> x in xs
    ensures NoDup(r)
    ensures |r| <= |xs|
    decreases |xs|
  {
    if xs == [] then []
    else
      var init := Dedup(xs[..|xs| - 1]);
      var last := xs[|xs| - 1];
      if last in xs[..|xs| - 1] then init else init + [last]
  }

  /** The merge raises a TypeError: a key of the answer that the record also
      has holds something that is not a list. */
  predicate MergeCrashes(deps: Facts, ai: map<string, Json>) {
    exists k :: k in ai && k in Keys(deps) && ai[k].JOther?
  }

  const AllKeys: seq<string> :=
    [ImportsKey, FunctionsKey, ClassesKey, FunctionCallsKey, FileReferencesKey,
     CssLinksKey, JsLinksKey, ImageLinksKey, OtherLinksKey, UrlReferencesKey]

  /** The answer and the record share the key, and the answer holds a list there. */
  predicate Shared(deps: Facts, ai: map<string, Json>, key: string) {
    key in ai && key in Keys(deps) && ai[key].JList?
  }

  /** `list(set(deps[key] + ai[key]))`. */
  function Union(deps: Facts, ai: map<string, Json>, key: string): seq<string>
    requires key in ai && ai[key].JList?
  {
    Dedup(Get(deps, key) + ai[key].items)
  }

  /** The record with each key of keys that the answer and the record share
      replaced by the union of both lists. */
  function MergeKeys(deps: Facts, ai: map<string, Json>, keys: seq<string>): (r: Facts)
    ensures r.schema == deps.schema
    ensures WellFormed(deps) ==> WellFormed(r)
    ensures forall k :: Get(r, k) == if k in keys && Shared(deps, ai, k) then Union(deps, ai, k) else Get(deps, k)
    decreases |keys|
  {
    if keys == [] then deps
    else
      var r := MergeKeys(deps, ai, keys[..|keys| - 1]);
      var k := keys[|keys| - 1];
      assert keys == keys[..|keys| - 1] + [k];
      if Shared(deps, ai, k) then Put(r, k, Union(deps, ai, k)) else r
  }

  /** The record after the merge, or None when it raises. */
  function Merged(deps: Facts, ai: map<string, Json>): (r: Option<Facts>)
    ensures r.None? <==> MergeCrashes(deps, ai)
  {
    if MergeCrashes(deps, ai) then None else Some(MergeKeys(deps, ai, AllKeys))
  }

  lemma MergeKeysSnoc(deps: Facts, ai: map<string, Json>, keys: seq<string>, k: string)
    ensures MergeKeys(deps, ai, keys + [k]) ==
      if Shared(deps, ai, k) then Put(MergeKeys(deps, ai, keys), k, Union(deps, ai, k)) else MergeKeys(deps, ai, keys)
  {
    assert (keys + [k])[..|keys|] == keys;
  }

  /** Only which shared keys are listed matters, not their order. */
  lemma MergeKeysAgree(deps: Facts, ai: map<string, Json>, a: seq<string>, b: seq<string>)
    requires WellFormed(deps)
    requires forall k :: Shared(deps, ai, k) ==> (k in a <==> k in b)
    ensures MergeKeys(deps, ai, a) == MergeKeys(deps, ai, b)
  {
    FactsExt(MergeKeys(deps, ai, a), MergeKeys(deps, ai, b));
  }

  /** The merge loop over the answer's keys: only keys the record already has
      are rewritten, each to the duplicate-free union of both lists. */
  method MergeEnrichment(deps: Facts, ai: map<string, Json>) returns (r: Option<Facts>)
    requires WellFormed(deps)
    ensures r == Merged(deps, ai)
  {
    var cur := deps;
    var todo := ai.Keys;
    ghost var done: seq<string> := [];
    while todo != {}
      invariant forall k :: k in ai <==> k in todo || k in done
      invariant forall k :: k in todo ==> k !in done
      invariant forall k :: k in done && k in Keys(deps) ==> ai[k].JList?
      invariant cur == MergeKeys(deps, ai, done)
      decreases |todo|
    {
      var key :| key in todo;
      MergeKeysSnoc(deps, ai, done, key);
      if key in Keys(cur) {
        if !ai[key].JList? {
          assert MergeCrashes(deps, ai);
          return None;
        }
        cur := Put(cur, key, Dedup(Get(cur, key) + ai[key].items));
      }
      todo := todo - {key};
      done := done + [key];
    }
    assert !MergeCrashes(deps, ai);
    forall k | Shared(deps, ai, k) ensures k in done <==> k in AllKeys {
      assert k in AllKeys;
    }
    MergeKeysAgree(deps, ai, done, AllKeys);
    r := Some(cur);
  }

  // ---------------------------------------------------------------------------
  // Properties of the merge

  /** The merge keeps the record's key set, so keys only the answer has (such as
      `external_apis`) are dropped; each shared key holds the union of both lists
      without duplicates; the other keys keep their lists. */
  lemma MergeContents(deps: Facts, ai: map<string, Json>, key: string)
    requires WellFormed(deps) && !MergeCrashes(deps, ai)
    ensures Keys(Merged(deps, ai).value) == Keys(deps)
    ensures key in ai && key in Keys(deps) ==>
      NoDup(Get(Merged(deps, ai).value, key))
      && forall x :: x in Get(Merged(deps, ai).value, key) <==> x in Get(deps, key) || x in ai[key].items
    ensures key !in ai ==> Get(Merged(deps, ai).value, key) == Get(deps, key)
  {
    assert key in Keys(deps) ==> key in AllKeys;
  }

  /** For a Python or JavaScript record, a validated answer can only make the
      merge raise through `classes`, the one record key validation does not
      coerce to a list. */
  lemma ValidatedCrashOnlyClasses(deps: Facts, raw: map<string, Json>)
    requires deps.schema == ScriptSchema
    ensures MergeCrashes(deps, Validated(raw)) <==> ClassesKey in raw && raw[ClassesKey].JOther?
  {
    var v := Validated(raw);
    if MergeCrashes(deps, v) {
      var k :| k in v && k in Keys(deps) && v[k].JOther?;
      assert k !in ExpectedKeys;
    }
    if ClassesKey in raw && raw[ClassesKey].JOther? {
      assert ClassesKey !in ExpectedKeys;
      assert v[ClassesKey].JOther?;
    }
  }

  /** An answer from the service counts as a success and is merged; an empty
      result counts as a failure and leaves the record as it was. */
  lemma EmptyAnswerKeepsRecord(deps: Facts)
    requires WellFormed(deps)
    ensures Merged(deps, map[]) == Some(deps)
  {
    var m := Merged(deps, map[]).value;
    FactsExt(deps, m);
  }
}
