/**
 * The candidate profile kept in `user_info`: its seven fixed keys, the merge of
 * an extraction into it (Python truthiness decides), and the required-field check.
 */
module Profile {
  import opened JsonValue
  import opened Text

  /** The keys of `user_info`, in the dictionary's insertion order. */
  const InfoKeys: seq<string> :=
    ["name", "email", "phone", "years_experience", "desired_position", "current_location", "tech_stack"]

  /** The fields that must be truthy before questions are generated, in the order checked. */
  const RequiredKeys: seq<string> := ["name", "email", "years_experience"]

  /** A profile dictionary holds exactly the seven keys. */
  predicate WellKeyed(info: map<string, Json>)
  {
    info.Keys == set k | k in InfoKeys
  }

  /** `user_info` as created at session start: every field None. */
  function InitialInfo(): (info: map<string, Json>)
    ensures WellKeyed(info)
    ensures forall k :: k in info ==> info[k] == Null
  {
    map k | k in InfoKeys :: Null
  }

  /** The value a field holds after the merge loop: the extracted one when it is truthy. */
  function MergedValue(info: map<string, Json>, extracted: map<string, Json>, key: string): Json
    requires key in info
  {
    if Truthy(Get(extracted, key)) then extracted[key] else info[key]
  }

  /** The merge `for key in user_info: if extracted.get(key): user_info[key] = extracted[key]`. */
  function MergeInfo(info: map<string, Json>, extracted: map<string, Json>): map<string, Json>
  {
    map k | k in info :: MergedValue(info, extracted, k)
  }

  /** Merging keeps the key set, takes every truthy extracted value for a known key,
      keeps the old value otherwise, and never consults keys outside the profile. */
  lemma MergeSpec(info: map<string, Json>, extracted: map<string, Json>)
    ensures MergeInfo(info, extracted).Keys == info.Keys
    ensures forall k :: k in info && k in extracted && Truthy(extracted[k]) ==>
      MergeInfo(info, extracted)[k] == extracted[k]
    ensures forall k :: k in info && !Truthy(Get(extracted, k)) ==>
      MergeInfo(info, extracted)[k] == info[k]
  {
  }

  /** Merging is monotonic: a truthy field stays truthy, whatever is extracted. */
  lemma MergeKeepsKnown(info: map<string, Json>, extracted: map<string, Json>, k: string)
    requires k in info && Truthy(info[k])
    ensures Truthy(MergeInfo(info, extracted)[k])
  {
  }

  /** Merging the same extraction twice changes nothing more. */
  lemma MergeIdempotent(info: map<string, Json>, extracted: map<string, Json>)
    ensures MergeInfo(MergeInfo(info, extracted), extracted) == MergeInfo(info, extracted)
  {
    var once := MergeInfo(info, extracted);
    assert forall k :: k in once ==> MergedValue(once, extracted, k) == once[k];
  }

  /** `[f for f in keys if not info.get(f)]`. */
  function MissingAmong(keys: seq<string>, info: map<string, Json>): (missing: seq<string>)
    ensures forall f :: f in missing <==> f in keys && !Truthy(Get(info, f))
    ensures |missing| <= |keys|
  {
    if keys == [] then []
    else
      var rest := MissingAmong(keys[1..], info);
      if Truthy(Get(info, keys[0])) then rest else [keys[0]] + rest
  }

  /** The missing required fields, in the order name, email, years_experience. */
  function Missing(info: map<string, Json>): seq<string>
  {
    MissingAmong(RequiredKeys, info)
  }

  /** Nothing is missing exactly when the three required fields are all truthy. */
  lemma NothingMissingIff(info: map<string, Json>)
    ensures Missing(info) == [] <==>
      Truthy(Get(info, "name")) && Truthy(Get(info, "email")) && Truthy(Get(info, "years_experience"))
  {
    var m := Missing(info);
    if m != [] {
      assert m[0] in m;
    }
  }

  /** Missing keeps the check order: it is RequiredKeys with the truthy fields left out. */
  lemma MissingOrder(info: map<string, Json>)
    ensures Missing(info) ==
      (if Truthy(Get(info, "name")) then [] else ["name"]) +
      (if Truthy(Get(info, "email")) then [] else ["email"]) +
      (if Truthy(Get(info, "years_experience")) then [] else ["years_experience"])
  {
    var k1, k2, k3 := RequiredKeys[1..], RequiredKeys[2..], RequiredKeys[3..];
    assert k3 == [] && k2 == ["years_experience"] && k1 == ["email", "years_experience"];
    assert k2[1..] == k3 && k1[1..] == k2;
    assert MissingAmong(k3, info) == [];
    assert MissingAmong(k2, info) ==
      (if Truthy(Get(info, "years_experience")) then [] else ["years_experience"]);
    assert MissingAmong(k1, info) ==
      (if Truthy(Get(info, "email")) then [] else ["email"]) + MissingAmong(k2, info);
  }

  /** The text of the "Missing fields" reply: `f"Missing fields: {', '.join(missing)}"`. */
  function MissingMessage(missing: seq<string>): string
  {
    "Missing fields: " + Join(missing, ", ")
  }
}
