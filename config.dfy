/**
 * The application settings file: reading it over the defaults and saving a
 * partial update with the `ai` section merged one level deep.
 */
module Config {
  import opened Wrappers
  import opened Json

  const DefaultAi: Members := [("engine", JString("claude-code")), ("model", JString("claude-sonnet-4-5-20250929"))]

  const DefaultConfig: Members := [("ai", JObject(DefaultAi))]

  /** The TypeError that reading `ai` off a `null` update raises. */
  const NullUpdateError := "Cannot read properties of null (reading 'ai')"

  /** `{...v}` of a possibly missing value (undefined and null spread nothing). */
  function FieldsOf(v: Option<Json>): Members {
    if v.Some? then Fields(v.value) else []
  }

  /**
   * `{...current, ...update, ai: {...current.ai, ...(update.ai ?? {})}}` for
   * an update that is not `null` (a `null` update throws before merging).
   */
  function Merge(current: Members, update: Json): (r: Members)
    ensures Lookup(r, "ai").Some? && Lookup(r, "ai").value.JObject?
  {
    var ai := Spread(FieldsOf(Lookup(current, "ai")), FieldsOf(Get(update, "ai")));
    LookupAssign(Spread(current, Fields(update)), "ai", JObject(ai), "ai");
    Assign(Spread(current, Fields(update)), "ai", JObject(ai))
  }

  /** The `ai` section of a merge reads each key from the update when it supplies it, else from the current section. */
  lemma MergeAi(current: Members, update: Json)
    ensures Lookup(Merge(current, update), "ai") ==
      Some(JObject(Spread(FieldsOf(Lookup(current, "ai")), FieldsOf(Get(update, "ai")))))
    ensures forall k ::
      var ai := Fields(Lookup(Merge(current, update), "ai").value);
      Lookup(ai, k) ==
        if k in KeysOf(FieldsOf(Get(update, "ai"))) then Lookup(FieldsOf(Get(update, "ai")), k)
        else Lookup(FieldsOf(Lookup(current, "ai")), k)
  {
    var ai := Spread(FieldsOf(Lookup(current, "ai")), FieldsOf(Get(update, "ai")));
    LookupAssign(Spread(current, Fields(update)), "ai", JObject(ai), "ai");
    SpreadLookups(FieldsOf(Lookup(current, "ai")), FieldsOf(Get(update, "ai")));
  }

  /** Outside `ai`, a merge reads each key from the update when it supplies it, else from the current settings. */
  lemma MergeTop(current: Members, update: Json)
    ensures forall k :: k != "ai" ==>
      Lookup(Merge(current, update), k) ==
        if k in KeysOf(Fields(update)) then Lookup(Fields(update), k) else Lookup(current, k)
  {
    var ai := Spread(FieldsOf(Lookup(current, "ai")), FieldsOf(Get(update, "ai")));
    AssignLookups(Spread(current, Fields(update)), "ai", JObject(ai));
    SpreadLookups(current, Fields(update));
  }

  /** The settings file; None when it is missing or does not parse as JSON. */
  class ConfigStore {
    var file: Option<Json>

    constructor (file: Option<Json>)
      ensures this.file == file
    {
      this.file := file;
    }

    /** The stored settings spread over the defaults: a stored key replaces the default one whole. */
    function GetConfig(): (c: Members)
      reads this
      ensures file.None? ==> c == DefaultConfig
      ensures file.Some? ==> forall k ::
        Lookup(c, k) == if k in KeysOf(Fields(file.value)) then Lookup(Fields(file.value), k) else Lookup(DefaultConfig, k)
    {
      match file
      case None => DefaultConfig
      case Some(j) =>
        SpreadLookups(DefaultConfig, Fields(j));
        Spread(DefaultConfig, Fields(j))
    }

    /**
     * Merges the update into the current settings, writes the result and
     * returns it; a `null` update throws while reading its `ai` and nothing
     * is written.
     */
    method SaveConfig(update: Json) returns (r: Result<Members, string>)
      modifies this
      ensures update == JNull ==> r == Failure(NullUpdateError) && file == old(file)
      ensures update != JNull ==> r == Success(Merge(old(GetConfig()), update)) && file == Some(JObject(r.value))
    {
      if update == JNull {
        return Failure(NullUpdateError);
      }
      var current := GetConfig();
      var merged := Merge(current, update);
      file := Some(JObject(merged));
      r := Success(merged);
    }
  }

  /** Reading back a saved merge gives the merged value for every key. */
  lemma ReadBack(current: Members, update: Json)
    ensures forall k ::
      Lookup(Spread(DefaultConfig, Merge(current, update)), k) == Lookup(Merge(current, update), k)
  {
    var merged := Merge(current, update);
    var ai := Spread(FieldsOf(Lookup(current, "ai")), FieldsOf(Get(update, "ai")));
    LookupAssign(Spread(current, Fields(update)), "ai", JObject(ai), "ai");
    SpreadLookups(DefaultConfig, merged);
    forall k
      ensures Lookup(Spread(DefaultConfig, merged), k) == Lookup(merged, k)
    {
      if k !in KeysOf(merged) {
        assert Lookup(merged, k).None?;
        assert k != "ai";
        assert Lookup(DefaultConfig, k) == None by {
          assert DefaultConfig[..0] == [];
        }
      }
    }
  }
}
