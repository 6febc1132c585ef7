/**
 * GET and PUT /api/settings: the settings as stored (or as just saved) with
 * the API key masked down to its last four characters.  A key set to
 * undefined is dropped when the response is serialised, so a missing or
 * falsy key leaves no `apiKey` property at all.
 */
module Settings {
  import opened Wrappers
  import opened Text
  import opened Json
  import opened Config

  const MaskPrefix := "****"
  /**
   * The error `.slice` raises on a truthy apiKey that is not a string; it
   * names the expression it was called on (`config` in GET, `updated` in PUT).
   */
  function SliceError(receiver: string): string {
    receiver + ".ai.apiKey.slice is not a function"
  }

  /** The error reading `apiKey` off a `null` ai section raises (a stored `"ai": null`). */
  const NullAiError := "Cannot read properties of null (reading 'apiKey')"
  /** The error reading `apiKey` off a missing ai section would raise. */
  const UndefinedAiError := "Cannot read properties of undefined (reading 'apiKey')"

  /** The masked form of a stored key: None when the property is to be dropped. */
  function MaskKey(key: Option<Json>, receiver: string): (r: Result<Option<Json>, string>)
    ensures !TruthyOpt(key) ==> r == Success(None)
    ensures key.Some? && key.value.JString? && key.value.s != "" ==>
      var s := key.value.s;
      && r.Success? && r.value.Some? && r.value.value.JString?
      && |r.value.value.s| >= 4 && r.value.value.s[..4] == MaskPrefix
      && r.value.value.s[4..] == TakeLast(s, 4)
      && (|s| <= 4 ==> r.value.value.s[4..] == s)
    ensures TruthyOpt(key) && !key.value.JString? ==> r == Failure(SliceError(receiver))
  {
    if !TruthyOpt(key) then Success(None)
    else match key.value
      case JString(s) => Success(Some(JString(MaskPrefix + TakeLast(s, 4))))
      case _ => Failure(SliceError(receiver))
  }

  /** Two keys that end in the same four characters mask identically: nothing else of the key shows. */
  lemma MaskShowsLastFour(a: string, b: string)
    requires a != "" && b != ""
    requires |a| >= 4 && |b| >= 4 && a[|a| - 4..] == b[|b| - 4..]
    ensures forall receiver :: MaskKey(Some(JString(a)), receiver) == MaskKey(Some(JString(b)), receiver)
  {
  }

  /** `{...ai, apiKey: v}` as serialised: the property is set, or dropped when v is undefined. */
  function WithKey(ai: Members, v: Option<Json>): (r: Members)
    ensures forall k :: Lookup(r, k) == if k == "apiKey" then v else Lookup(ai, k)
  {
    match v
    case Some(m) =>
      AssignLookups(ai, "apiKey", m);
      Assign(ai, "apiKey", m)
    case None =>
      assert forall k :: Lookup(Remove(ai, "apiKey"), k) == if k == "apiKey" then None else Lookup(ai, k) by {
        forall k
          ensures Lookup(Remove(ai, "apiKey"), k) == if k == "apiKey" then None else Lookup(ai, k)
        {
          LookupRemove(ai, "apiKey", k);
        }
      }
      Remove(ai, "apiKey")
  }

  /** `{...config, ai: {...config.ai, apiKey: masked}}` as serialised. */
  function Masked(config: Members, receiver: string): (r: Result<Members, string>)
    ensures Lookup(config, "ai").None? ==> r == Failure(UndefinedAiError)
    ensures Lookup(config, "ai") == Some(JNull) ==> r == Failure(NullAiError)
    ensures r.Failure? && Lookup(config, "ai").Some? && Lookup(config, "ai") != Some(JNull) ==>
      r.error == SliceError(receiver)
    ensures r.Success? ==>
      && (forall k :: k != "ai" ==> Lookup(r.value, k) == Lookup(config, k))
      && Lookup(r.value, "ai").Some? && Lookup(r.value, "ai").value.JObject?
      && var ai := Fields(Lookup(config, "ai").value);
         var ai' := Fields(Lookup(r.value, "ai").value);
         && (forall k :: k != "apiKey" ==> Lookup(ai', k) == Lookup(ai, k))
         && MaskKey(Lookup(ai, "apiKey"), receiver).Success?
         && Lookup(ai', "apiKey") == MaskKey(Lookup(ai, "apiKey"), receiver).value
  {
    match Lookup(config, "ai")
    case None => Failure(UndefinedAiError)
    case Some(JNull) => Failure(NullAiError)
    case Some(aiv) =>
      var ai := Fields(aiv);
      assert Get(aiv, "apiKey") == Lookup(ai, "apiKey");
      match MaskKey(Lookup(ai, "apiKey"), receiver)
      case Failure(e) => Failure(e)
      case Success(masked) =>
        var ai' := WithKey(ai, masked);
        AssignLookups(config, "ai", JObject(ai'));
        Success(Assign(config, "ai", JObject(ai')))
  }

  /**
   * GET: the stored settings, masked. The settings always carry an `ai`
   * entry, so GET fails only on a stored `"ai": null` or a non-string key.
   */
  function GetSettings(store: ConfigStore): (r: Result<Members, string>)
    reads store
    ensures r == Masked(store.GetConfig(), "config")
    ensures r.Success? ==> forall k :: k != "ai" ==> Lookup(r.value, k) == Lookup(store.GetConfig(), k)
    ensures r.Failure? ==> r.error == NullAiError || r.error == SliceError("config")
  {
    assert Lookup(DefaultConfig, "ai").Some? by {
      assert DefaultConfig[..0] == [];
    }
    Masked(store.GetConfig(), "config")
  }

  /**
   * PUT: save the body as an update and answer with the saved settings,
   * masked; a `null` body fails in the save and changes nothing. The saved
   * `ai` is always an object, so otherwise only a non-string key fails.
   */
  method PutSettings(store: ConfigStore, body: Json) returns (r: Result<Members, string>)
    modifies store
    ensures body == JNull ==> r == Failure(NullUpdateError) && store.file == old(store.file)
    ensures body != JNull ==> r == Masked(Merge(old(store.GetConfig()), body), "updated")
    ensures body != JNull && r.Failure? ==> r.error == SliceError("updated")
    ensures body != JNull ==> store.file == Some(JObject(Merge(old(store.GetConfig()), body)))
  {
    var saved := store.SaveConfig(body);
    match saved
    case Failure(e) =>
      r := Failure(e);
    case Success(updated) =>
      r := Masked(updated, "updated");
  }
}
