/**
 * The sector handlers: create and update behind the company check (a
 * stored company, active or not), list all or by company, get by id.
 */
module SectorController {
  import opened JsValues
  import opened Query
  import opened Store
  import opened Http
  import opened Referential
  import RecordModels
  import Filters

  const NameRequired := "Nome do setor é obrigatório."
  const SectorNotFound := "Setor não encontrado."

  /** The descriptive string fields a sector payload copies as they are. */
  const CopiedFields: set<string> :=
    {"name", "technicalManager", "responsible", "phone", "email", "address", "sectorType", "manager", "description"}

  /** `normalizeSectorPayload`: `companyId` wins over `company`; undefined entries are dropped. */
  function NormalizeSectorPayload(body: Value): (p: Doc)
    ensures p.Keys <= CopiedFields + {"company"}
    ensures forall k | k in p :: p[k] != Undefined
    ensures Get(p, "company") == Or(Prop(body, "companyId"), Prop(body, "company"))
    ensures forall k | k in CopiedFields :: Get(p, k) == Prop(body, k)
  {
    NoStatusKey();
    DropUndefined(Copy(body, CopiedFields) + map["company" := Or(Prop(body, "companyId"), Prop(body, "company"))])
  }

  /** The payload has no status, so no key outside the copied fields and the company. */
  lemma NoStatusKey()
    ensures "status" !in CopiedFields + {"company"} && "_id" !in CopiedFields + {"company"}
    ensures "company" !in CopiedFields
  {
  }

  /**
   * A sector record carries no status, neither when created nor after an
   * update, so the active-or-unset check the notice handlers apply to
   * sectors admits every stored sector.
   */
  lemma SectorsAlwaysActive(body: Value, id: string, current: Doc)
    requires !("status" in current)
    ensures IsActive(Prepared(Sectors, id, NormalizeSectorPayload(body)))
    ensures IsActive(current + Changes(Sectors, NormalizeSectorPayload(body)))
  {
    var p := NormalizeSectorPayload(body);
    NoStatusKey();
    assert "status" !in p;
    var m := RecordModels.SectorDefaults() + DropUndefined(p);
    assert "status" !in m;
    assert "status" !in Prepared(Sectors, id, p);
    assert "status" !in Changes(Sectors, p);
  }

  /**
   * The response `createSector` stops at before writing, if any: the company
   * is checked before the name.
   */
  function CreateRejection(companies: Table, p: Doc): (r: Option<Response>)
    ensures r.None? <==> Truthy(Get(p, "company")) && StoredIn(companies, Get(p, "company")) && Truthy(Get(p, "name"))
    ensures !Truthy(Get(p, "company")) ==> r == Some(Reject(400, Referential.CompanyIdRequired))
    ensures Truthy(Get(p, "company")) && StoredIn(companies, Get(p, "company")) && !Truthy(Get(p, "name")) ==>
      r == Some(Reject(400, NameRequired))
    ensures r.Some? ==> r.value.code in {400, 404}
  {
    OrElse(CompanyRejection(companies, Get(p, "company"), false),
           if !Truthy(Get(p, "name")) then Some(Reject(400, NameRequired)) else None)
  }

  /** The checks `createSector` runs before writing, in their order. */
  method CheckCreate(db: Db, payload: Doc) returns (rejection: Option<Response>)
    requires db.Valid()
    ensures rejection == CreateRejection(db.Of(Companies), payload)
  {
    var company := EnsureStoredCompany(db, Get(payload, "company"));
    if company.Rejected? {
      return Some(company.response);
    }
    if !Truthy(Get(payload, "name")) {
      return Some(Reject(400, NameRequired));
    }
    return None;
  }

  /** `createSector`: the checks, then the write; a store error is a 500. */
  method CreateSector(db: Db, body: Value) returns (res: Response)
    requires db.Valid()
    modifies db
    ensures db.Valid()
    ensures var p := NormalizeSectorPayload(body);
      var gate := CreateRejection(old(db.Of(Companies)), p);
      var id := NatToString(old(db.nextId));
      var d := Prepared(Sectors, id, p);
      && (gate.Some? ==> res == gate.value)
      && (gate.None? ==> (res.code == 201 <==> RecordModels.SectorValid(d)))
      && (gate.None? && res.code != 201 ==> res == InternalError)
      && (res.code == 201 ==>
            gate.None? && res.body == Document(RenameId(d))
            && db.Of(Sectors) == Inserted(old(db.Of(Sectors)), id, d)
            && (forall j | j != Sectors :: db.Of(j) == old(db.Of(j))))
    ensures res.code != 201 ==> unchanged(db)
  {
    var payload := NormalizeSectorPayload(body);
    var rejection := CheckCreate(db, payload);
    res := CreateChecked(db, Sectors, payload, rejection);
  }

  /** The filter `listSectors` builds from the query string: no status filter at all. */
  function ListQuery(query: Doc): Query
  {
    var companyId := Get(query, "companyId");
    if Truthy(companyId) then SetField(Query(map[], []), "company", companyId) else Query(map[], [])
  }

  /** A sector is listed exactly when it belongs to the company asked for, if any. */
  lemma ListQueryMeaning(query: Doc, d: Doc)
    ensures var companyId := Get(query, "companyId");
      Matches(ListQuery(query), d) <==> (Truthy(companyId) ==> Get(d, "company") == companyId)
  {
    var companyId := Get(query, "companyId");
    assert Matches(Query(map[], []), d);
    assert Lookup(d, ["company"]) == Get(d, "company");
    if Truthy(companyId) { SetFieldConjoins(Query(map[], []), "company", companyId, d); }
  }

  /** `listSectors`: the sectors the filter selects, in store order. */
  method ListSectors(db: Db, query: Doc) returns (res: Response)
    ensures res == Response(200, Documents(ToJsonAll(Sectors, Select(db.Of(Sectors), ListQuery(query)))))
  {
    var companyId := Get(query, "companyId");
    var filter := new Filters.QueryFilter();
    if Truthy(companyId) {
      filter.Set("company", companyId);
    }
    var sectors := db.Find(Sectors, filter.Current());
    res := Response(200, Documents(ToJsonAll(Sectors, sectors)));
  }

  /**
   * `listSectorsByCompany`: the company check, then every sector of that
   * company in store order.
   */
  method ListSectorsByCompany(db: Db, companyId: Value) returns (res: Response)
    requires db.Valid()
    ensures var gate := CompanyRejection(db.Of(Companies), companyId, false);
      && (gate.Some? ==> res == gate.value)
      && (gate.None? ==>
            res == Response(200, Documents(ToJsonAll(Sectors, Select(db.Of(Sectors), Query(map["company" := companyId], []))))))
  {
    var company := EnsureStoredCompany(db, companyId);
    if company.Rejected? {
      return company.response;
    }
    var sectors := db.Find(Sectors, Query(map["company" := companyId], []));
    res := Response(200, Documents(ToJsonAll(Sectors, sectors)));
  }

  /** For a company that passes the check, exactly the sectors that reference it are listed. */
  lemma ByCompanyMeaning(companyId: Value, d: Doc)
    requires Truthy(companyId)
    ensures Matches(Query(map["company" := companyId], []), d) <==> Get(d, "company") == companyId
  {
    assert Lookup(d, ["company"]) == Get(d, "company");
    var q := Query(map["company" := companyId], []);
    assert q.fields.Keys == {"company"};
  }

  /** `getSectorById`: any stored sector. */
  method GetSectorById(db: Db, id: Value) returns (res: Response)
    requires db.Valid()
    ensures res.code == 200 <==> StoredIn(db.Of(Sectors), id)
    ensures res.code == 200 ==> res.body == Document(RenameId(db.Of(Sectors).docs[id.s]))
    ensures res.code != 200 ==> res == Reject(404, SectorNotFound)
  {
    var sector := db.FindById(Sectors, id);
    if sector.None? {
      return Reject(404, SectorNotFound);
    }
    return Response(200, Document(RenameId(sector.value)));
  }

  /** The response `updateSector` stops at before writing: only a company given is checked. */
  function UpdateRejection(companies: Table, p: Doc): (r: Option<Response>)
    ensures r.None? <==> !Truthy(Get(p, "company")) || StoredIn(companies, Get(p, "company"))
    ensures r.Some? ==> r == Some(Reject(404, Referential.CompanyNotFound))
  {
    if Truthy(Get(p, "company")) then CompanyRejection(companies, Get(p, "company"), false) else None
  }

  /** `updateSector`: the company check, then the update; the store's error is a 500. */
  method UpdateSector(db: Db, id: Value, body: Value) returns (res: Response)
    requires db.Valid()
    modifies db
    ensures db.Valid()
    ensures var p := NormalizeSectorPayload(body);
      var t := old(db.Of(Sectors));
      var gate := UpdateRejection(old(db.Of(Companies)), p);
      var c := Changes(Sectors, p);
      && (gate.Some? ==> res == gate.value)
      && (gate.None? ==> res == UpdateReply(UpdateOutcome(Sectors, t, id, p), SectorNotFound))
      && (res.code == 200 ==>
            gate.None? && StoredIn(t, id) && db.Of(Sectors) == Replaced(t, id.s, t.docs[id.s] + c)
            && (forall j | j != Sectors :: db.Of(j) == old(db.Of(j))))
    ensures res.code != 200 ==> unchanged(db)
  {
    var payload := NormalizeSectorPayload(body);
    if Truthy(Get(payload, "company")) {
      var company := EnsureStoredCompany(db, Get(payload, "company"));
      if company.Rejected? {
        return company.response;
      }
    }
    var updated := db.UpdateById(Sectors, id, payload);
    res := UpdateReply(updated, SectorNotFound);
  }
}
