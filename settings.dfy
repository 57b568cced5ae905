/** The settings store: one record with the sub-records `profile`,
    `emergency`, `medical` and `preferences`. It is loaded by merging the
    stored object over the defaults, and each sub-record has its own
    shallow-merge updater. */
module Settings {
  import opened Json
  import opened Collections

  const PROFILE := "profile"
  const EMERGENCY := "emergency"
  const MEDICAL := "medical"
  const PREFERENCES := "preferences"
  const ALLERGIES := "allergies"

  function DefaultSettings(): (r: Obj)
    ensures r.Keys == {PROFILE, EMERGENCY, MEDICAL, PREFERENCES}
  {
    map[
      PROFILE := Object(map["name" := Str(""), "dateOfBirth" := Str("")]),
      EMERGENCY := Object(map[
        "contactName" := Str(""), "contactPhone" := Str(""), "contactRelation" := Str(""),
        "doctorName" := Str(""), "doctorPhone" := Str(""),
        "neurologistName" := Str(""), "neurologistPhone" := Str("")]),
      MEDICAL := Object(map[ALLERGIES := Array([]), "notes" := Str("")]),
      PREFERENCES := Object(map["language" := Str("nl")])
    ]
  }

  /** The settings at start-up. `stored` is what storage holds under the
      settings key (None when nothing is stored) and `parse` is JSON parsing
      (None when it throws). Nothing stored, an empty string or a parse
      failure gives the defaults; otherwise the stored top-level keys replace
      the defaults, one whole sub-record at a time. */
  function LoadSettings(stored: Option<string>, parse: string -> Option<Value>): (r: Obj)
    ensures stored.None? || stored == Some("") ==> r == DefaultSettings()
    ensures stored.Some? && stored.value != "" && parse(stored.value).None? ==> r == DefaultSettings()
    ensures DefaultSettings().Keys <= r.Keys
    ensures stored.Some? && stored.value != "" && parse(stored.value).Some? ==>
      var parsed := Spread(parse(stored.value).value);
      && r.Keys == DefaultSettings().Keys + parsed.Keys
      && (forall k :: k in parsed ==> r[k] == parsed[k])
      && (forall k :: k in DefaultSettings() && k !in parsed ==> r[k] == DefaultSettings()[k])
  {
    match stored
    case None => DefaultSettings()
    case Some(text) =>
      if text == "" then DefaultSettings()
      else
        match parse(text)
        case None => DefaultSettings()
        case Some(v) => Merge(DefaultSettings(), Spread(v))
  }

  /** The merge on load is shallow: a stored profile without a date of birth
      does not get the default one back. */
  lemma LoadDoesNotBackfillSubRecords(parse: string -> Option<Value>, text: string)
    requires text != ""
    requires parse(text) == Some(Object(map[PROFILE := Object(map["name" := Str("Ann")])]))
    ensures var r := LoadSettings(Some(text), parse);
      && r[PROFILE] == Object(map["name" := Str("Ann")])
      && "dateOfBirth" !in r[PROFILE].fields
      && r[MEDICAL] == DefaultSettings()[MEDICAL]
  {
  }

  /** `settings[section] = {...settings[section], ...partial}`: keys of the
      partial win, the rest of that sub-record is kept and every other
      top-level key is untouched. */
  function MergeSection(settings: Obj, section: string, partial: Obj): (r: Obj)
    ensures r.Keys == settings.Keys + {section}
    ensures forall k :: k in settings && k != section ==> r[k] == settings[k]
    ensures r[section].Object?
    ensures r[section].fields.Keys == Spread(Get(settings, section)).Keys + partial.Keys
    ensures forall k :: k in partial ==> r[section].fields[k] == partial[k]
    ensures forall k :: k in Spread(Get(settings, section)) && k !in partial ==>
      r[section].fields[k] == Spread(Get(settings, section))[k]
  {
    settings[section := Object(Merge(Spread(Get(settings, section)), partial))]
  }

  /** The allergy list after `addAllergy`: the allergy is appended when it is
      non-empty and not in the list yet. */
  function WithAllergy(allergies: seq<Value>, allergy: string): (r: seq<Value>)
    ensures allergy == "" ==> r == allergies
    ensures allergy != "" ==> Str(allergy) in r
    ensures allergies <= r && |r| <= |allergies| + 1
    ensures Str(allergy) in allergies ==> r == allergies
    ensures allergy != "" && Str(allergy) !in allergies ==> r == allergies + [Str(allergy)]
    ensures forall v :: v in r ==> v in allergies || v == Str(allergy)
  {
    if allergy != "" && Str(allergy) !in allergies then allergies + [Str(allergy)] else allergies
  }

  predicate NoDuplicates(s: seq<Value>)
  {
    forall i, j :: 0 <= i < j < |s| ==> s[i] != s[j]
  }

  /** Adding never introduces a duplicate. */
  lemma WithAllergyKeepsNoDuplicates(allergies: seq<Value>, allergy: string)
    requires NoDuplicates(allergies)
    ensures NoDuplicates(WithAllergy(allergies, allergy))
  {
    var r := WithAllergy(allergies, allergy);
    if r != allergies {
      forall i, j | 0 <= i < j < |r|
        ensures r[i] != r[j]
      {
        if j == |allergies| {
          assert r[i] == allergies[i];
        }
      }
    }
  }

  /** Adding the same allergy twice is the same as adding it once. */
  lemma WithAllergyIdempotent(allergies: seq<Value>, allergy: string)
    ensures WithAllergy(WithAllergy(allergies, allergy), allergy) == WithAllergy(allergies, allergy)
  {
  }

  /** `allergies.splice(index, 1)`: a negative index counts back from the
      end (clamped to the first element) and an index at or past the end
      removes nothing. */
  function WithoutAllergy(allergies: seq<Value>, index: int): (r: seq<Value>)
    ensures 0 <= index < |allergies| ==> r == allergies[..index] + allergies[index + 1..]
    ensures |allergies| <= index ==> r == allergies
    ensures index < 0 && allergies != [] ==>
      var at := if |allergies| + index < 0 then 0 else |allergies| + index;
      r == allergies[..at] + allergies[at + 1..]
    ensures |r| == if allergies == [] || |allergies| <= index then |allergies| else |allergies| - 1
  {
    var start := if index < 0 then (if |allergies| + index < 0 then 0 else |allergies| + index)
                 else if index < |allergies| then index else |allergies|;
    if start < |allergies| then RemoveAt(allergies, start) else allergies
  }

  /** Removing an element keeps the list free of duplicates. */
  lemma WithoutAllergyKeepsNoDuplicates(allergies: seq<Value>, index: int)
    requires NoDuplicates(allergies)
    ensures NoDuplicates(WithoutAllergy(allergies, index))
  {
    var r := WithoutAllergy(allergies, index);
    if |r| < |allergies| {
      var at :| 0 <= at < |allergies| && r == allergies[..at] + allergies[at + 1..];
      forall i, j | 0 <= i < j < |r|
        ensures r[i] != r[j]
      {
        var i' := if i < at then i else i + 1;
        var j' := if j < at then j else j + 1;
        assert r[i] == allergies[i'] && r[j] == allergies[j'];
      }
    }
  }

  /** What `addAllergy` and `removeAllergy` do when `settings.medical.allergies`
      is not an array: reading or calling through it throws a TypeError. */
  datatype Outcome = Done | TypeError

  /** The allergy list, when the medical sub-record holds one. */
  function AllergiesOf(settings: Obj): Option<seq<Value>>
  {
    match Prop(Get(settings, MEDICAL), ALLERGIES)
    case Array(items) => Some(items)
    case _ => None
  }

  /** The settings with the allergy list of the medical sub-record replaced. */
  function WithAllergies(settings: Obj, allergies: seq<Value>): (r: Obj)
    requires Get(settings, MEDICAL).Object?
    ensures r.Keys == settings.Keys
    ensures AllergiesOf(r) == Some(allergies)
    ensures forall k :: k in settings && k != MEDICAL ==> r[k] == settings[k]
    ensures r[MEDICAL].Object? && r[MEDICAL].fields.Keys == settings[MEDICAL].fields.Keys + {ALLERGIES}
    ensures forall k :: k in settings[MEDICAL].fields && k != ALLERGIES ==>
      r[MEDICAL].fields[k] == settings[MEDICAL].fields[k]
  {
    settings[MEDICAL := Object(settings[MEDICAL].fields[ALLERGIES := Array(allergies)])]
  }

  class SettingsStore {
    var settings: Obj

    constructor (stored: Option<string>, parse: string -> Option<Value>)
      ensures settings == LoadSettings(stored, parse)
    {
      settings := LoadSettings(stored, parse);
    }

    method UpdateProfile(profile: Obj)
      modifies this
      ensures settings == MergeSection(old(settings), PROFILE, profile)
    {
      settings := MergeSection(settings, PROFILE, profile);
    }

    method UpdateEmergency(emergency: Obj)
      modifies this
      ensures settings == MergeSection(old(settings), EMERGENCY, emergency)
    {
      settings := MergeSection(settings, EMERGENCY, emergency);
    }

    method UpdateMedical(medical: Obj)
      modifies this
      ensures settings == MergeSection(old(settings), MEDICAL, medical)
    {
      settings := MergeSection(settings, MEDICAL, medical);
    }

    method UpdatePreferences(preferences: Obj)
      modifies this
      ensures settings == MergeSection(old(settings), PREFERENCES, preferences)
    {
      settings := MergeSection(settings, PREFERENCES, preferences);
    }

    /** An empty name is ignored before the list is looked at; otherwise a
        missing allergy list throws and leaves the settings as they were. */
    method AddAllergy(allergy: string) returns (outcome: Outcome)
      modifies this
      ensures allergy == "" ==> outcome == Done && settings == old(settings)
      ensures allergy != "" && AllergiesOf(old(settings)).None? ==>
        outcome == TypeError && settings == old(settings)
      ensures allergy != "" && AllergiesOf(old(settings)).Some? ==>
        && outcome == Done
        && Get(old(settings), MEDICAL).Object?
        && settings == WithAllergies(old(settings), WithAllergy(AllergiesOf(old(settings)).value, allergy))
    {
      if allergy == "" {
        return Done;
      }
      var current := AllergiesOf(settings);
      if current.None? {
        return TypeError;
      }
      var list := current.value;
      if Str(allergy) !in list {
        settings := WithAllergies(settings, list + [Str(allergy)]);
      } else {
        var medical := settings[MEDICAL].fields;
        assert medical[ALLERGIES := Array(list)] == medical;
        assert settings[MEDICAL := Object(medical)] == settings;
      }
      outcome := Done;
    }

    method RemoveAllergy(index: int) returns (outcome: Outcome)
      modifies this
      ensures AllergiesOf(old(settings)).None? ==> outcome == TypeError && settings == old(settings)
      ensures AllergiesOf(old(settings)).Some? ==>
        && outcome == Done
        && Get(old(settings), MEDICAL).Object?
        && settings == WithAllergies(old(settings), WithoutAllergy(AllergiesOf(old(settings)).value, index))
    {
      var current := AllergiesOf(settings);
      if current.None? {
        return TypeError;
      }
      settings := WithAllergies(settings, WithoutAllergy(current.value, index));
      outcome := Done;
    }
  }
}
