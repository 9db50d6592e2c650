/**
 * The Hive OS client (`HiveService`): reading the overclocking profiles and the
 * worker's current profile, choosing the high or low profile by name, and the
 * PATCH that switches the worker to it. HTTP exchanges are inputs: a status
 * code and the fields the source reads from the reply.
 */
module Hive {
  import opened Wrappers
  import Json

  const HttpOk: int := 200

  /** An overclocking profile: its id and name (its settings are not read). */
  datatype OcProfile = OcProfile(id: int, name: string)

  /** The profile names of the power settings. */
  datatype PowerConfig = PowerConfig(highProfileName: string, lowProfileName: string)

  datatype HiveError =
    | HttpStatus(code: int)              // IOException "Hive API Response Code ..."
    | DuplicateProfileId                 // Collectors.toMap on a repeated id
    | UndefinedProfileId(id: int)        // IllegalArgumentException in changeWorkerOcProfile
    | ProfileNameNotFound(name: string)  // Exception thrown by orElseThrow

  /** The `oc_id` member of the worker record. */
  datatype OcIdField = Absent | NullValue | IntValue(i: int)

  predicate DistinctIds(profiles: seq<OcProfile>) {
    forall i, j :: 0 <= i < j < |profiles| ==> profiles[i].id != profiles[j].id
  }

  predicate KeyedById(m: map<int, OcProfile>) {
    forall k :: k in m ==> m[k].id == k
  }

  /**
   * `getOcProfiles`: the `data` array of the reply as a map from id to profile.
   * A status other than 200 and a repeated id are errors.
   */
  function GetOcProfiles(status: int, data: seq<OcProfile>): (r: Result<map<int, OcProfile>, HiveError>)
    ensures status != HttpOk ==> r == Err(HttpStatus(status))
    ensures status == HttpOk ==> (r.Ok? <==> DistinctIds(data))
    ensures r.Ok? ==> KeyedById(r.value)
    ensures r.Ok? ==> forall p :: p in data ==> p.id in r.value && r.value[p.id] == p
    ensures r.Ok? ==> forall k :: k in r.value ==> r.value[k] in data
  {
    if status != HttpOk then Err(HttpStatus(status))
    else if !DistinctIds(data) then Err(DuplicateProfileId)
    else Ok(map p | p in data :: p.id := p)
  }

  /**
   * `getWorkerOcProfileId`: the worker's `oc_id`, `null` when the member is
   * missing. A JSON null is read by `asInt()` as 0.
   */
  function GetWorkerOcProfileId(status: int, ocId: OcIdField): (r: Result<Option<int>, HiveError>)
    ensures status != HttpOk ==> r == Err(HttpStatus(status))
    ensures status == HttpOk ==> r.Ok?
    ensures r.Ok? ==> (r.value.None? <==> ocId.Absent?)
    ensures r.Ok? && ocId.IntValue? ==> r.value == Some(ocId.i)
    ensures r.Ok? && ocId.NullValue? ==> r.value == Some(0)
  {
    if status != HttpOk then Err(HttpStatus(status))
    else
      match ocId
      case Absent => Ok(None)
      case NullValue => Ok(Some(0))
      case IntValue(i) => Ok(Some(i))
  }

  /** `filter(name equals).findFirst()`: the first profile with that name. */
  function FindByName(values: seq<OcProfile>, name: string): (r: Option<OcProfile>)
    ensures r.Some? ==> r.value in values && r.value.name == name
    ensures r.None? <==> forall p :: p in values ==> p.name != name
    ensures r.Some? ==>
      exists i :: 0 <= i < |values| && values[i] == r.value && forall j :: 0 <= j < i ==> values[j].name != name
  {
    if |values| == 0 then None
    else if values[0].name == name then Some(values[0])
    else
      var r := FindByName(values[1..], name);
      assert forall p :: p in values ==> p == values[0] || p in values[1..];
      if r.Some? then
        var i :| 0 <= i < |values[1..]| && values[1..][i] == r.value
                 && forall j :: 0 <= j < i ==> values[1..][j].name != name;
        assert values[i + 1] == r.value && forall j :: 0 <= j < i + 1 ==> values[j].name != name;
        r
      else r
  }

  predicate UniqueName(values: seq<OcProfile>, name: string) {
    forall p, q :: p in values && q in values && p.name == name && q.name == name ==> p == q
  }

  /**
   * The iteration order of the profile map does not matter when the name
   * belongs to one profile: any order of the same profiles selects the same one.
   */
  lemma SelectionIgnoresOrder(v1: seq<OcProfile>, v2: seq<OcProfile>, name: string)
    requires forall p :: p in v1 <==> p in v2
    requires UniqueName(v1, name)
    ensures FindByName(v1, name) == FindByName(v2, name)
  {
  }

  /** The PATCH payload: `oc_id` and `oc_apply_mode` = "replace", in that order. */
  method OcPayload(profile: OcProfile) returns (payload: Json.Json)
    ensures payload.JObj? && |payload.fields| == 2
    ensures Json.Lookup(payload.fields, "oc_id") == Some(Json.JInt(profile.id))
    ensures Json.Lookup(payload.fields, "oc_apply_mode") == Some(Json.JStr("replace"))
  {
    var root: seq<Json.Field> := [];
    root := Json.Put(root, "oc_id", Json.JInt(profile.id));
    assert !Json.HasKey(root, "oc_apply_mode");
    root := Json.Put(root, "oc_apply_mode", Json.JStr("replace"));
    payload := Json.JObj(root);
  }

  /**
   * `changeWorkerOcProfile`: look the id up in the freshly read profiles; an
   * unknown id is an error before anything is sent; otherwise PATCH the payload
   * and, on status 200, return the profile.
   */
  method ChangeWorkerOcProfile(profiles: Result<map<int, OcProfile>, HiveError>, ocProfileId: int, patchStatus: int)
    returns (patch: Option<Json.Json>, result: Result<OcProfile, HiveError>)
    requires profiles.Ok? ==> KeyedById(profiles.value)
    ensures profiles.Err? ==> patch.None? && result == Err(profiles.error)
    ensures profiles.Ok? && ocProfileId !in profiles.value ==>
      patch.None? && result == Err(UndefinedProfileId(ocProfileId))
    ensures patch.Some? <==> profiles.Ok? && ocProfileId in profiles.value
    ensures patch.Some? ==>
      && patch.value.JObj? && |patch.value.fields| == 2
      && Json.Lookup(patch.value.fields, "oc_id") == Some(Json.JInt(ocProfileId))
      && Json.Lookup(patch.value.fields, "oc_apply_mode") == Some(Json.JStr("replace"))
    ensures patch.Some? ==>
      result == if patchStatus == HttpOk then Ok(profiles.value[ocProfileId]) else Err(HttpStatus(patchStatus))
  {
    if profiles.Err? {
      return None, Err(profiles.error);
    }
    if ocProfileId !in profiles.value {
      return None, Err(UndefinedProfileId(ocProfileId));
    }
    var ocProfile := profiles.value[ocProfileId];
    var payload := OcPayload(ocProfile);
    patch := Some(payload);
    if patchStatus != HttpOk {
      result := Err(HttpStatus(patchStatus));
    } else {
      result := Ok(ocProfile);
    }
  }

  /**
   * The body shared by `turnUpPowerLimit` and `turnDownPowerLimit`: take the
   * first profile named `profileName` among `values` (the profile map's values
   * in its iteration order), fail when there is none, ask for a change only
   * when its id differs from the worker's current one, and return it.
   */
  method SetProfileByName(values: Result<seq<OcProfile>, HiveError>, currentId: Result<Option<int>, HiveError>,
                          profileName: string, refetched: Result<map<int, OcProfile>, HiveError>, patchStatus: int)
    returns (patch: Option<Json.Json>, result: Result<OcProfile, HiveError>)
    requires refetched.Ok? ==> KeyedById(refetched.value)
    ensures values.Err? ==> patch.None? && result == Err(values.error)
    ensures values.Ok? && currentId.Err? ==> patch.None? && result == Err(currentId.error)
    ensures values.Ok? && currentId.Ok? && FindByName(values.value, profileName).None? ==>
      patch.None? && result == Err(ProfileNameNotFound(profileName))
    ensures values.Ok? && currentId.Ok? && FindByName(values.value, profileName).Some? ==>
      var chosen := FindByName(values.value, profileName).value;
      && (currentId.value == Some(chosen.id) ==> patch.None? && result == Ok(chosen))
      && (currentId.value != Some(chosen.id) && refetched.Ok? && chosen.id in refetched.value ==>
            patch.Some? && patch.value.JObj? && Json.Lookup(patch.value.fields, "oc_id") == Some(Json.JInt(chosen.id))
            && Json.Lookup(patch.value.fields, "oc_apply_mode") == Some(Json.JStr("replace"))
            && result == if patchStatus == HttpOk then Ok(chosen) else Err(HttpStatus(patchStatus)))
      && (currentId.value != Some(chosen.id) && refetched.Ok? && chosen.id !in refetched.value ==>
            patch.None? && result == Err(UndefinedProfileId(chosen.id)))
      && (currentId.value != Some(chosen.id) && refetched.Err? ==>
            patch.None? && result == Err(refetched.error))
    ensures result.Ok? ==> values.Ok? && currentId.Ok? && FindByName(values.value, profileName) == Some(result.value)
  {
    if values.Err? {
      return None, Err(values.error);
    }
    if currentId.Err? {
      return None, Err(currentId.error);
    }
    var found := FindByName(values.value, profileName);
    if found.None? {
      return None, Err(ProfileNameNotFound(profileName));
    }
    var chosen := found.value;
    patch := None;
    if currentId.value != Some(chosen.id) {
      var changed;
      patch, changed := ChangeWorkerOcProfile(refetched, chosen.id, patchStatus);
      if changed.Err? {
        return patch, Err(changed.error);
      }
    }
    result := Ok(chosen);
  }

  /** `turnUpPowerLimit`: switch to the profile named `highProfileName`. */
  method TurnUpPowerLimit(values: Result<seq<OcProfile>, HiveError>, currentId: Result<Option<int>, HiveError>,
                          powerConfig: PowerConfig, refetched: Result<map<int, OcProfile>, HiveError>, patchStatus: int)
    returns (patch: Option<Json.Json>, result: Result<OcProfile, HiveError>)
    requires refetched.Ok? ==> KeyedById(refetched.value)
    ensures values.Err? ==> patch.None? && result == Err(values.error)
    ensures values.Ok? && currentId.Err? ==> patch.None? && result == Err(currentId.error)
    ensures values.Ok? && currentId.Ok? && FindByName(values.value, powerConfig.highProfileName).None? ==>
      patch.None? && result == Err(ProfileNameNotFound(powerConfig.highProfileName))
    ensures values.Ok? && currentId.Ok? && FindByName(values.value, powerConfig.highProfileName).Some? ==>
      var chosen := FindByName(values.value, powerConfig.highProfileName).value;
      && (currentId.value == Some(chosen.id) ==> patch.None? && result == Ok(chosen))
      && (currentId.value != Some(chosen.id) && refetched.Ok? && chosen.id in refetched.value ==>
            patch.Some? && patch.value.JObj? && Json.Lookup(patch.value.fields, "oc_id") == Some(Json.JInt(chosen.id))
            && Json.Lookup(patch.value.fields, "oc_apply_mode") == Some(Json.JStr("replace"))
            && result == if patchStatus == HttpOk then Ok(chosen) else Err(HttpStatus(patchStatus)))
      && (currentId.value != Some(chosen.id) && refetched.Ok? && chosen.id !in refetched.value ==>
            patch.None? && result == Err(UndefinedProfileId(chosen.id)))
      && (currentId.value != Some(chosen.id) && refetched.Err? ==>
            patch.None? && result == Err(refetched.error))
    ensures result.Ok? ==> values.Ok? && result.value in values.value && result.value.name == powerConfig.highProfileName
  {
    patch, result := SetProfileByName(values, currentId, powerConfig.highProfileName, refetched, patchStatus);
  }

  /** `turnDownPowerLimit`: switch to the profile named `lowProfileName`. */
  method TurnDownPowerLimit(values: Result<seq<OcProfile>, HiveError>, currentId: Result<Option<int>, HiveError>,
                            powerConfig: PowerConfig, refetched: Result<map<int, OcProfile>, HiveError>, patchStatus: int)
    returns (patch: Option<Json.Json>, result: Result<OcProfile, HiveError>)
    requires refetched.Ok? ==> KeyedById(refetched.value)
    ensures values.Err? ==> patch.None? && result == Err(values.error)
    ensures values.Ok? && currentId.Err? ==> patch.None? && result == Err(currentId.error)
    ensures values.Ok? && currentId.Ok? && FindByName(values.value, powerConfig.lowProfileName).None? ==>
      patch.None? && result == Err(ProfileNameNotFound(powerConfig.lowProfileName))
    ensures values.Ok? && currentId.Ok? && FindByName(values.value, powerConfig.lowProfileName).Some? ==>
      var chosen := FindByName(values.value, powerConfig.lowProfileName).value;
      && (currentId.value == Some(chosen.id) ==> patch.None? && result == Ok(chosen))
      && (currentId.value != Some(chosen.id) && refetched.Ok? && chosen.id in refetched.value ==>
            patch.Some? && patch.value.JObj? && Json.Lookup(patch.value.fields, "oc_id") == Some(Json.JInt(chosen.id))
            && Json.Lookup(patch.value.fields, "oc_apply_mode") == Some(Json.JStr("replace"))
            && result == if patchStatus == HttpOk then Ok(chosen) else Err(HttpStatus(patchStatus)))
      && (currentId.value != Some(chosen.id) && refetched.Ok? && chosen.id !in refetched.value ==>
            patch.None? && result == Err(UndefinedProfileId(chosen.id)))
      && (currentId.value != Some(chosen.id) && refetched.Err? ==>
            patch.None? && result == Err(refetched.error))
    ensures result.Ok? ==> values.Ok? && result.value in values.value && result.value.name == powerConfig.lowProfileName
  {
    patch, result := SetProfileByName(values, currentId, powerConfig.lowProfileName, refetched, patchStatus);
  }
}
