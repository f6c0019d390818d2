/** LLM providers: created for an existing user, listed with an optional
    user filter, read, partially updated, and deleted unless an LLM
    configuration still uses them. */
module LLMProviderUsecase {
  import opened Rows
  import opened Schema
  import opened Store

  /* ---------- create_provider ---------- */

  function CreateProviderEffect(
    t: Tables, userId: int, name: string, providerType: ProviderType,
    apiKey: string, baseUrl: Option<string>, isDefault: bool)
    : (r: Effect<LLMProvider>)
    ensures r.result.Failure? ==> r.after == t
    ensures userId !in t.users ==> r.result == Failure(UserNotFound)
    ensures r.result.Success? <==>
      && userId in t.users && VarcharAccepts(name, ProviderNameMax)
      && (baseUrl.Some? ==> VarcharAccepts(baseUrl.value, BaseUrlMax))
    ensures userId in t.users && !r.result.Success? ==> r.result == Failure(ValueTooLong)
    ensures r.result.Success? ==>
      var p := r.result.value;
      && p.userId == userId && CutTo(name, ProviderNameMax, p.name) && p.providerType == providerType
      && p.apiKey == apiKey && p.isDefault == isDefault
      && p.baseUrl.Some? == baseUrl.Some?
      && (baseUrl.Some? ==> CutTo(baseUrl.value, BaseUrlMax, p.baseUrl.value))
      && (KeysAreIds(t) ==> p.id !in t.providers)
      && r.after == t.(providers := t.providers[p.id := p], next := t.next.(provider := r.after.next.provider))
      && r.after.next.provider > p.id
    ensures Valid(t) ==> Valid(r.after)
  {
    if userId !in t.users then Effect(Failure(UserNotFound), t)
    else InsertProvider(t, userId, name, providerType, apiKey, baseUrl, isDefault)
  }

  /** Only the new row is written: other providers of the user keep their
      `is_default` flag. */
  method CreateProvider(
    db: Database, userId: int, name: string, providerType: ProviderType, apiKey: string,
    baseUrl: Option<string> := None, isDefault: bool := false)
    returns (r: Result<LLMProvider>)
    requires Valid(db.State())
    modifies db
    ensures Valid(db.State())
    ensures Effect(r, db.State()) == CreateProviderEffect(old(db.State()), userId, name, providerType, apiKey, baseUrl, isDefault)
  {
    if userId !in db.users {
      return Failure(UserNotFound);
    }
    ghost var before := db.State();
    r := db.InsertProvider(userId, name, providerType, apiKey, baseUrl, isDefault);
    assert Effect(r, db.State()) == CreateProviderEffect(before, userId, name, providerType, apiKey, baseUrl, isDefault);
  }

  /* ---------- reads ---------- */

  /** All providers, or only those of `userId` when it is truthy. */
  function GetProviders(t: Tables, userId: Option<int>): (r: map<int, LLMProvider>)
    ensures forall k :: k in r <==> k in t.providers && (Truthy(userId) ==> t.providers[k].userId == userId.value)
    ensures forall k :: k in r ==> r[k] == t.providers[k]
  {
    if Truthy(userId) then Where(t.providers, (p: LLMProvider) => p.userId == userId.value)
    else t.providers
  }

  function GetProvider(t: Tables, providerId: int): (r: Result<LLMProvider>)
    ensures r.Success? <==> providerId in t.providers
    ensures r.Success? ==> r.value == t.providers[providerId]
    ensures r.Failure? ==> r.error == LLMProviderNotFound
  {
    match Lookup(t.providers, providerId)
    case None => Failure(LLMProviderNotFound)
    case Some(p) => Success(p)
  }

  /* ---------- update_provider ---------- */

  function UpdateProviderEffect(t: Tables, providerId: int, p: ProviderPatch): (r: Effect<LLMProvider>)
    ensures r.result.Failure? ==> r.after == t
    ensures p.IsEmpty() ==> r.after == t
    ensures providerId !in t.providers ==> r.result == Failure(LLMProviderNotFound)
    ensures providerId in t.providers && p.IsEmpty() ==> r.result == Success(t.providers[providerId])
    ensures providerId in t.providers && !p.IsEmpty() ==>
      (r.result.Success? <==> ProviderAccepted(p.ApplyTo(t.providers[providerId])))
    ensures providerId in t.providers && !p.IsEmpty() && !ProviderAccepted(p.ApplyTo(t.providers[providerId])) ==>
      r.result == Failure(ValueTooLong)
    ensures r.result.Failure? ==> r.result.error in {LLMProviderNotFound, ValueTooLong}
    ensures r.result.Success? ==>
      var v := r.result.value;
      var v0 := t.providers[providerId];
      var baseUrl := if p.baseUrl.Some? then p.baseUrl else v0.baseUrl;
      && v.id == v0.id && v.userId == v0.userId
      && v.providerType == p.providerType.GetOr(v0.providerType)
      && v.apiKey == p.apiKey.GetOr(v0.apiKey)
      && v.isDefault == p.isDefault.GetOr(v0.isDefault)
      && (!p.IsEmpty() ==>
           && CutTo(p.name.GetOr(v0.name), ProviderNameMax, v.name)
           && v.baseUrl.Some? == baseUrl.Some?
           && (baseUrl.Some? ==> CutTo(baseUrl.value, BaseUrlMax, v.baseUrl.value)))
      && r.after == t.(providers := t.providers[providerId := v])
    ensures Valid(t) ==> Valid(r.after)
  {
    if p.IsEmpty() then Effect(GetProvider(t, providerId), t)
    else OrNotFound(UpdateProviderBy(t, providerId, p), LLMProviderNotFound)
  }

  method UpdateProvider(db: Database, providerId: int, p: ProviderPatch) returns (r: Result<LLMProvider>)
    requires Valid(db.State())
    modifies db
    ensures Valid(db.State())
    ensures Effect(r, db.State()) == UpdateProviderEffect(old(db.State()), providerId, p)
  {
    if p.IsEmpty() {
      return GetProvider(db.State(), providerId);
    }
    ghost var before := db.State();
    assert UpdateProviderEffect(before, providerId, p) == OrNotFound(UpdateProviderBy(before, providerId, p), LLMProviderNotFound);
    var updated := db.UpdateProviderBy(providerId, p);
    if updated.Failure? {
      return Failure(updated.error);
    }
    if updated.value.None? {
      return Failure(LLMProviderNotFound);
    }
    r := Success(updated.value.value);
    assert Effect(r, db.State()) == UpdateProviderEffect(before, providerId, p);
  }

  /* ---------- delete_provider ---------- */

  /** A provider still named by an LLM configuration is kept and the
      database's refusal reaches the caller; otherwise the provider is
      removed, or LLMProviderNotFound when there was none. */
  function DeleteProviderEffect(t: Tables, providerId: int): (r: Effect<()>)
    ensures r.result.Failure? ==> r.after == t
    ensures ProviderReferenced(t, providerId) ==> r.result == Failure(ForeignKeyRestrict)
    ensures !ProviderReferenced(t, providerId) && providerId !in t.providers ==> r.result == Failure(LLMProviderNotFound)
    ensures r.result.Success? <==> !ProviderReferenced(t, providerId) && providerId in t.providers
    ensures r.result.Success? ==> r.after == t.(providers := t.providers - {providerId})
    ensures Valid(t) ==> Valid(r.after)
  {
    DeletedOr(DeleteProviderBy(t, providerId), LLMProviderNotFound)
  }

  method DeleteProvider(db: Database, providerId: int) returns (r: Result<()>)
    requires Valid(db.State())
    modifies db
    ensures Valid(db.State())
    ensures Effect(r, db.State()) == DeleteProviderEffect(old(db.State()), providerId)
  {
    ghost var before := db.State();
    var deleted := db.DeleteProviderBy(providerId);
    if deleted.Failure? {
      return Failure(deleted.error);
    }
    if !deleted.value {
      return Failure(LLMProviderNotFound);
    }
    r := Success(());
    assert Effect(r, db.State()) == DeleteProviderEffect(before, providerId);
  }

  /* ---------- properties ---------- */

  /** The provider of any stored LLM configuration cannot be deleted, and
      the attempt changes nothing. */
  lemma ProviderInUseIsKept(t: Tables, nodeId: int)
    requires nodeId in t.llmNodes
    ensures var id := t.llmNodes[nodeId].llmProviderId;
      DeleteProviderEffect(t, id) == Effect(Failure(ForeignKeyRestrict), t)
  {
  }
}
