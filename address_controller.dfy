/**
 * The address handlers: create and update behind the active-company check,
 * list with the company and status filters, get by id.
 *
 * The payload normaliser is given twice: as written, it never copies the
 * `cep` the schema requires, so no address can ever be created and an
 * update never changes `cep`.  `CreateAddress` and `UpdateAddress` are the
 * handlers as written; `CreateAddressCorrected` and `UpdateAddressCorrected`
 * run the corrected normaliser that copies `cep`.
 */
module AddressController {
  import opened JsValues
  import opened Query
  import opened Store
  import opened Http
  import opened Referential
  import RecordModels
  import Filters

  const FieldsRequired := "Rua, número, cidade, estado e bairro são obrigatórios."
  const AddressNotFound := "Endereço não encontrado."

  /** `status === undefined || status === null ? undefined : Number(status)` */
  function StatusValue(v: Value): (r: Value)
    ensures Nullish(v) <==> r == Undefined
    ensures !Nullish(v) ==> (r == NaN <==> ToNumber(v).None?)
    ensures !Nullish(v) && ToNumber(v).Some? ==> r == Num(ToNumber(v).value)
  {
    if Nullish(v) then Undefined else NumberValue(v)
  }

  /** The keys the normaliser sets itself are not string paths. */
  lemma SetKeysNotCopied()
    ensures "company" !in RecordModels.AddressTrimmed && "status" !in RecordModels.AddressTrimmed
  {
  }

  /** `normalizePayload` as written: the keys it copies leave out `cep`. */
  function NormalizePayloadAsWritten(body: Value): (p: Doc)
    ensures "cep" !in p
    ensures forall k | k in p :: p[k] != Undefined
    ensures Get(p, "company") == Or(Prop(body, "companyId"), Prop(body, "company"))
    ensures Get(p, "status") == StatusValue(Prop(body, "status"))
    ensures forall k | k in RecordModels.AddressTrimmed - {"cep"} :: Get(p, k) == Prop(body, k)
  {
    SetKeysNotCopied();
    DropUndefined(Copy(body, RecordModels.AddressTrimmed - {"cep"}) + map[
      "company" := Or(Prop(body, "companyId"), Prop(body, "company")),
      "status" := StatusValue(Prop(body, "status"))])
  }

  /** `normalizePayload` as intended: the same, and `cep` copied as well. */
  function NormalizePayload(body: Value): (p: Doc)
    ensures forall k | k in p :: p[k] != Undefined
    ensures Get(p, "company") == Or(Prop(body, "companyId"), Prop(body, "company"))
    ensures Get(p, "status") == StatusValue(Prop(body, "status"))
    ensures forall k | k in RecordModels.AddressTrimmed :: Get(p, k) == Prop(body, k)
  {
    var asWritten := NormalizePayloadAsWritten(body);
    if Prop(body, "cep") == Undefined then asWritten else asWritten["cep" := Prop(body, "cep")]
  }

  /** The two normalisers differ in `cep` only. */
  lemma NormalizersDifferInCep(body: Value)
    ensures NormalizePayload(body) - {"cep"} == NormalizePayloadAsWritten(body)
  {
  }

  /**
   * As written, `createAddress` can never store a record: whatever the body,
   * the document it hands to the store lacks `cep`, which the schema
   * requires, so validation fails and the request ends in a 500.
   */
  lemma CreateAsWrittenNeverValid(body: Value, id: string)
    ensures !RecordModels.AddressValid(Prepared(Addresses, id, NormalizePayloadAsWritten(body)))
  {
    var p := NormalizePayloadAsWritten(body);
    var m := RecordModels.AddressDefaults() + DropUndefined(p);
    assert "cep" !in m;
    assert "cep" !in Prepared(Addresses, id, p);
    assert !RecordModels.Present(Get(Prepared(Addresses, id, p), "cep"));
  }

  /** A value the `trim` setter leaves non-empty. */
  predicate Filled(v: Value)
  {
    v.Str? && Trim(v.s) != ""
  }

  /** On create, a field of the payload reaches the record through the `trim` setter. */
  lemma PreparedValue(id: string, p: Doc, k: string)
    requires k in p && p[k] != Undefined && k != "_id"
    ensures Get(Prepared(Addresses, id, p), k)
      == if k in RecordModels.AddressTrimmed && p[k].Str? then Str(Trim(p[k].s)) else p[k]
  {
    var m := RecordModels.AddressDefaults() + DropUndefined(p);
    assert k in m && m[k] == p[k];
  }

  /** The required paths other than the company are the trimmed string paths. */
  lemma RequiredStringsTrimmed()
    ensures RecordModels.AddressRequiredStrings <= RecordModels.AddressTrimmed
    ensures "_id" !in RecordModels.AddressRequired && "company" !in RecordModels.AddressRequiredStrings
  {
  }

  /**
   * With the corrected normaliser, a body with every field the schema
   * requires filled in, a company and no status is stored.
   */
  lemma CreateCompleteBodyValid(body: Value, id: string)
    requires forall k | k in RecordModels.AddressRequiredStrings :: Filled(Prop(body, k))
    requires Truthy(Or(Prop(body, "companyId"), Prop(body, "company")))
    requires Nullish(Prop(body, "status"))
    ensures RecordModels.AddressValid(Prepared(Addresses, id, NormalizePayload(body)))
  {
    var p := NormalizePayload(body);
    RequiredStringsTrimmed();
    assert Get(p, "status") == Undefined;
    CompletePayloadValid(p, id);
  }

  lemma CompletePayloadValid(p: Doc, id: string)
    requires forall k | k in RecordModels.AddressRequiredStrings :: Filled(Get(p, k))
    requires Truthy(Get(p, "company")) && Get(p, "status") == Undefined
    requires forall k | k in p :: p[k] != Undefined
    ensures RecordModels.AddressValid(Prepared(Addresses, id, p))
  {
    var d := Prepared(Addresses, id, p);
    RequiredStringsTrimmed();
    forall k | k in RecordModels.AddressRequired ensures RecordModels.Present(Get(d, k)) {
      RequiredPathPresent(id, p, k, k == "company");
    }
    PreparedDefaultStatus(id, p);
  }

  /** Without a status in the payload, a new address gets the default status 1. */
  lemma PreparedDefaultStatus(id: string, p: Doc)
    requires Get(p, "status") == Undefined
    ensures Get(Prepared(Addresses, id, p), "status") == Num(1)
  {
    var m := RecordModels.AddressDefaults() + DropUndefined(p);
    assert m["status"] == Num(1);
  }

  /** A required path the payload fills in is present in the prepared record. */
  lemma RequiredPathPresent(id: string, p: Doc, k: string, isCompany: bool)
    requires isCompany <==> k == "company"
    requires k != "_id"
    requires isCompany ==> Truthy(Get(p, k))
    requires !isCompany ==> Filled(Get(p, k)) && k in RecordModels.AddressTrimmed
    ensures RecordModels.Present(Get(Prepared(Addresses, id, p), k))
  {
    PreparedValue(id, p, k);
    if isCompany {
      SetKeysNotCopied();
    }
  }

  /** The fields the 400 check of `createAddress` demands (`cep` is not among them). */
  predicate HasListedFields(p: Doc)
  {
    && Truthy(Get(p, "street")) && Truthy(Get(p, "number")) && Truthy(Get(p, "city"))
    && Truthy(Get(p, "state")) && Truthy(Get(p, "district"))
  }

  /** The response `createAddress` stops at before writing, if any. */
  function CreateRejection(companies: Table, p: Doc): (r: Option<Response>)
    ensures r.None? <==> HasListedFields(p) && Truthy(Get(p, "company")) && ActiveIn(companies, Get(p, "company"))
    ensures !HasListedFields(p) ==> r == Some(Reject(400, FieldsRequired))
    ensures r.Some? ==> r.value.code in {400, 404}
  {
    if !HasListedFields(p) then Some(Reject(400, FieldsRequired))
    else CompanyRejection(companies, Get(p, "company"), true)
  }

  /** The checks `createAddress` runs before writing, in their order. */
  method CheckCreate(db: Db, payload: Doc) returns (rejection: Option<Response>)
    requires db.Valid()
    ensures rejection == CreateRejection(db.Of(Companies), payload)
  {
    if !HasListedFields(payload) {
      return Some(Reject(400, FieldsRequired));
    }
    var company := EnsureActiveCompany(db, Get(payload, "company"));
    if company.Rejected? {
      return Some(company.response);
    }
    return None;
  }

  /**
   * `createAddress` as written: the checks, then a write that the schema
   * always refuses, so every request that passes the checks ends in 500 and
   * nothing is ever stored.
   */
  method CreateAddress(db: Db, body: Value) returns (res: Response)
    requires db.Valid()
    modifies db
    ensures db.Valid()
    ensures var gate := CreateRejection(old(db.Of(Companies)), NormalizePayloadAsWritten(body));
      && (gate.Some? ==> res == gate.value)
      && (gate.None? ==> res == InternalError)
    ensures unchanged(db)
  {
    var payload := NormalizePayloadAsWritten(body);
    var rejection := CheckCreate(db, payload);
    CreateAsWrittenNeverValid(body, NatToString(db.nextId));
    assert !ValidFor(Addresses, Prepared(Addresses, NatToString(db.nextId), payload));
    res := CreateChecked(db, Addresses, payload, rejection);
  }

  /** `createAddress` with the corrected normaliser: a complete body is stored. */
  method CreateAddressCorrected(db: Db, body: Value) returns (res: Response)
    requires db.Valid()
    modifies db
    ensures db.Valid()
    ensures var p := NormalizePayload(body);
      var gate := CreateRejection(old(db.Of(Companies)), p);
      var id := NatToString(old(db.nextId));
      var d := Prepared(Addresses, id, p);
      && (gate.Some? ==> res == gate.value)
      && (gate.None? ==> (res.code == 201 <==> RecordModels.AddressValid(d)))
      && (gate.None? && res.code != 201 ==> res == InternalError)
      && (res.code == 201 ==>
            gate.None? && res.body == Document(RenameId(d))
            && db.Of(Addresses) == Inserted(old(db.Of(Addresses)), id, d)
            && (forall j | j != Addresses :: db.Of(j) == old(db.Of(j))))
    ensures res.code != 201 ==> unchanged(db)
  {
    var payload := NormalizePayload(body);
    var rejection := CheckCreate(db, payload);
    res := CreateChecked(db, Addresses, payload, rejection);
  }

  /** The filter `listAddresses` builds from the query string. */
  function ListQuery(query: Doc): Query
  {
    var companyId := Get(query, "companyId");
    var q0 := Query(map[], []);
    var q1 := if Truthy(companyId) then SetField(q0, "company", companyId) else q0;
    AddClause(q1, BuildStatusClause(Get(query, "status")))
  }

  /** An address is listed exactly when it has the company asked for and the status parameter admits it. */
  lemma ListQueryMeaning(query: Doc, d: Doc)
    ensures var companyId := Get(query, "companyId");
      Matches(ListQuery(query), d) <==>
        && (Truthy(companyId) ==> Get(d, "company") == companyId)
        && StatusSelects(ResolveStatusFilter(Get(query, "status")), d)
  {
    var companyId := Get(query, "companyId");
    var q0 := Query(map[], []);
    var q1 := if Truthy(companyId) then SetField(q0, "company", companyId) else q0;
    assert Matches(q0, d);
    assert Lookup(d, ["company"]) == Get(d, "company");
    if Truthy(companyId) { SetFieldConjoins(q0, "company", companyId, d); }
    StatusFilterConjoins(q1, Get(query, "status"), d);
  }

  /** `listAddresses`: the addresses the filter selects, in store order. */
  method ListAddresses(db: Db, query: Doc) returns (res: Response)
    ensures res == Response(200, Documents(ToJsonAll(Addresses, Select(db.Of(Addresses), ListQuery(query)))))
  {
    var companyId := Get(query, "companyId");
    var filter := new Filters.QueryFilter();
    if Truthy(companyId) {
      filter.Set("company", companyId);
    }
    filter.ApplyStatusFilter(Get(query, "status"));
    var addresses := db.Find(Addresses, filter.Current());
    res := Response(200, Documents(ToJsonAll(Addresses, addresses)));
  }

  /** `getAddressById`: any stored address, whatever its status. */
  method GetAddressById(db: Db, id: Value) returns (res: Response)
    requires db.Valid()
    ensures res.code == 200 <==> StoredIn(db.Of(Addresses), id)
    ensures res.code == 200 ==> res.body == Document(RenameId(db.Of(Addresses).docs[id.s]))
    ensures res.code != 200 ==> res == Reject(404, AddressNotFound)
  {
    var address := db.FindById(Addresses, id);
    if address.None? {
      return Reject(404, AddressNotFound);
    }
    return Response(200, Document(RenameId(address.value)));
  }

  /** The response `updateAddress` stops at before writing: only a company given is checked. */
  function UpdateRejection(companies: Table, p: Doc): (r: Option<Response>)
    ensures r.None? <==> !Truthy(Get(p, "company")) || ActiveIn(companies, Get(p, "company"))
    ensures r.Some? ==> r == Some(Reject(404, Referential.CompanyNotFound))
  {
    if Truthy(Get(p, "company")) then CompanyRejection(companies, Get(p, "company"), true) else None
  }

  /** `updateAddress` as written: the company check, then the update; the store's error is a 500. */
  method UpdateAddress(db: Db, id: Value, body: Value) returns (res: Response)
    requires db.Valid()
    modifies db
    ensures db.Valid()
    ensures var p := NormalizePayloadAsWritten(body);
      var t := old(db.Of(Addresses));
      var gate := UpdateRejection(old(db.Of(Companies)), p);
      var c := Changes(Addresses, p);
      && (gate.Some? ==> res == gate.value)
      && (gate.None? ==> res == UpdateReply(UpdateOutcome(Addresses, t, id, p), AddressNotFound))
      && (res.code == 200 ==>
            gate.None? && StoredIn(t, id) && db.Of(Addresses) == Replaced(t, id.s, t.docs[id.s] + c)
            && (forall j | j != Addresses :: db.Of(j) == old(db.Of(j))))
    ensures res.code != 200 ==> unchanged(db)
  {
    var payload := NormalizePayloadAsWritten(body);
    res := UpdateWith(db, id, payload);
  }

  /** `updateAddress` with the corrected normaliser, which also sets a `cep` the body gives. */
  method UpdateAddressCorrected(db: Db, id: Value, body: Value) returns (res: Response)
    requires db.Valid()
    modifies db
    ensures db.Valid()
    ensures var p := NormalizePayload(body);
      var t := old(db.Of(Addresses));
      var gate := UpdateRejection(old(db.Of(Companies)), p);
      var c := Changes(Addresses, p);
      && (gate.Some? ==> res == gate.value)
      && (gate.None? ==> res == UpdateReply(UpdateOutcome(Addresses, t, id, p), AddressNotFound))
      && (res.code == 200 ==>
            gate.None? && StoredIn(t, id) && db.Of(Addresses) == Replaced(t, id.s, t.docs[id.s] + c)
            && (forall j | j != Addresses :: db.Of(j) == old(db.Of(j))))
    ensures res.code != 200 ==> unchanged(db)
  {
    var payload := NormalizePayload(body);
    res := UpdateWith(db, id, payload);
  }

  /** The steps of `updateAddress` once the payload is built. */
  method UpdateWith(db: Db, id: Value, payload: Doc) returns (res: Response)
    requires db.Valid()
    modifies db
    ensures db.Valid()
    ensures var t := old(db.Of(Addresses));
      var gate := UpdateRejection(old(db.Of(Companies)), payload);
      var c := Changes(Addresses, payload);
      && (gate.Some? ==> res == gate.value)
      && (gate.None? ==> res == UpdateReply(UpdateOutcome(Addresses, t, id, payload), AddressNotFound))
      && (res.code == 200 ==>
            gate.None? && StoredIn(t, id) && db.Of(Addresses) == Replaced(t, id.s, t.docs[id.s] + c)
            && (forall j | j != Addresses :: db.Of(j) == old(db.Of(j))))
    ensures res.code != 200 ==> unchanged(db)
  {
    if Truthy(Get(payload, "company")) {
      var company := EnsureActiveCompany(db, Get(payload, "company"));
      if company.Rejected? {
        return company.response;
      }
    }
    var updated := db.UpdateById(Addresses, id, payload);
    res := UpdateReply(updated, AddressNotFound);
  }

  /** As written, an update never changes the `cep` of the record, whatever the body says. */
  lemma UpdateKeepsCep(body: Value, current: Doc)
    ensures Get(current + Changes(Addresses, NormalizePayloadAsWritten(body)), "cep") == Get(current, "cep")
  {
    ChangesKeeps(Addresses, NormalizePayloadAsWritten(body), "cep");
  }

  /** An update that names no status keeps it, and one whose status is not a number is refused. */
  lemma UpdateStatus(body: Value, current: Doc)
    ensures Nullish(Prop(body, "status")) ==>
      Get(current + Changes(Addresses, NormalizePayloadAsWritten(body)), "status") == Get(current, "status")
    ensures !Nullish(Prop(body, "status")) && ToNumber(Prop(body, "status")).None? ==>
      !RecordModels.AddressUpdateValid(Changes(Addresses, NormalizePayloadAsWritten(body)))
  {
    ChangedStatus(NormalizePayloadAsWritten(body), current);
  }

  /** The status an update sets is the payload's, if it has one. */
  lemma ChangedStatus(p: Doc, current: Doc)
    ensures Get(p, "status") == Undefined ==> Get(current + Changes(Addresses, p), "status") == Get(current, "status")
    ensures Get(p, "status") == NaN ==> !RecordModels.AddressUpdateValid(Changes(Addresses, p))
  {
    ChangesKeeps(Addresses, p, "status");
  }
}
