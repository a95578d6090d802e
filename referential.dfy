/**
 * The referential checks the notice, address and sector controllers run
 * before any write: the owning company must exist (and, except for sectors,
 * be active), and a given sector must exist and belong to that company.
 */
module Referential {
  import opened JsValues
  import opened Store
  import opened Http

  /** What a check hands back: the record it found, nothing to check, or the response to send. */
  datatype Check = Found(doc: Doc) | Skipped | Rejected(response: Response)

  const CompanyIdRequired := "O ID da empresa é obrigatório."
  const CompanyNotFound := "Empresa informada não encontrada."
  const SectorNotFound := "Setor informado não encontrado."
  const SectorOfOtherCompany := "O setor informado não pertence à empresa especificada."

  /** `id` names a record of `t`. */
  predicate StoredIn(t: Table, id: Value)
  {
    id.Str? && id.s in t.docs
  }

  /** `id` names an active-or-unset record of `t`. */
  predicate ActiveIn(t: Table, id: Value)
  {
    StoredIn(t, id) && IsActive(t.docs[id.s])
  }

  /**
   * The response the company check answers with, if any: 400 without an id,
   * 404 unless a company has it (an active one, when `activeOnly`).
   */
  function CompanyRejection(companies: Table, companyId: Value, activeOnly: bool): (r: Option<Response>)
    ensures r.None? <==> Truthy(companyId) && (if activeOnly then ActiveIn(companies, companyId) else StoredIn(companies, companyId))
    ensures r.Some? ==> r.value.code in {400, 404}
  {
    if !Truthy(companyId) then Some(Reject(400, CompanyIdRequired))
    else if activeOnly && !ActiveIn(companies, companyId) then Some(Reject(404, CompanyNotFound))
    else if !StoredIn(companies, companyId) then Some(Reject(404, CompanyNotFound))
    else None
  }

  /** The response the sector check answers with, if any. */
  function SectorRejection(sectors: Table, sectorId: Value, companyId: Value): (r: Option<Response>)
    ensures r.None? <==>
      !Truthy(sectorId) || (ActiveIn(sectors, sectorId) && !OfOtherCompany(sectors.docs[sectorId.s], companyId))
    ensures r.Some? ==> r.value.code in {400, 404}
  {
    if !Truthy(sectorId) then None
    else if !ActiveIn(sectors, sectorId) then Some(Reject(404, SectorNotFound))
    else if OfOtherCompany(sectors.docs[sectorId.s], companyId) then Some(Reject(400, SectorOfOtherCompany))
    else None
  }

  /**
   * The reply of an update handler to the store's answer: 500 for an error,
   * 404 for no record, 200 with the changed record otherwise.
   */
  function UpdateReply(o: Result<Option<Doc>>, notFound: string): (res: Response)
    ensures res == InternalError <==> o.Err?
    ensures res == Reject(404, notFound) <==> o == Ok(None)
    ensures res.code == 200 <==> o.Ok? && o.value.Some?
    ensures res.code == 200 ==> res.body == Document(RenameId(o.value.value))
  {
    match o
    case Err(_) => InternalError
    case Ok(None) => Reject(404, notFound)
    case Ok(Some(d)) => Response(200, Document(RenameId(d)))
  }

  /**
   * The tail the create handlers share: a check that answered is sent as it
   * is; otherwise `Model.create(payload)` either stores the record, answered
   * with 201 and its `toJSON`, or fails, which the error handler answers
   * with 500.
   */
  method CreateChecked(db: Db, k: Kind, payload: Doc, rejection: Option<Response>) returns (res: Response)
    requires db.Valid()
    requires rejection.Some? ==> rejection.value.code != 201
    modifies db
    ensures db.Valid()
    ensures var id := NatToString(old(db.nextId));
      var d := Prepared(k, id, payload);
      && (rejection.Some? ==> res == rejection.value)
      && (rejection.None? ==> (res.code == 201 <==> ValidFor(k, d) && !Clashes(k, old(db.Of(k)), d, id)))
      && (rejection.None? && res.code != 201 ==> res == InternalError)
      && (res.code == 201 ==>
            rejection.None? && res.body == Document(RenameId(d))
            && db.Of(k) == Inserted(old(db.Of(k)), id, d)
            && (forall j | j != k :: db.Of(j) == old(db.Of(j))))
    ensures res.code != 201 ==> unchanged(db)
  {
    if rejection.Some? {
      return rejection.value;
    }
    var created := db.Insert(k, payload);
    match created
    case Ok(d) => res := Response(201, Document(RenameId(d)));
    case Err(_) => res := InternalError;
  }

  /** The first of two checks that answers, if any. */
  function OrElse(first: Option<Response>, second: Option<Response>): Option<Response>
  {
    if first.Some? then first else second
  }

  /**
   * `ensureCompanyExists` of the notice and address controllers: 400 without
   * an id, 404 unless an active company has it.
   */
  method EnsureActiveCompany(db: Db, companyId: Value) returns (r: Check)
    requires db.Valid()
    ensures r == Rejected(Reject(400, CompanyIdRequired)) <==> !Truthy(companyId)
    ensures r == Rejected(Reject(404, CompanyNotFound)) <==>
      Truthy(companyId) && !ActiveIn(db.Of(Companies), companyId)
    ensures r.Found? <==> Truthy(companyId) && ActiveIn(db.Of(Companies), companyId)
    ensures r.Found? ==> r.doc == db.Of(Companies).docs[companyId.s]
    ensures !r.Skipped?
    ensures r.Rejected? ==> CompanyRejection(db.Of(Companies), companyId, true) == Some(r.response)
  {
    if !Truthy(companyId) {
      return Rejected(Reject(400, CompanyIdRequired));
    }
    var company := db.FindActiveById(Companies, companyId);
    if company.None? {
      return Rejected(Reject(404, CompanyNotFound));
    }
    return Found(company.value);
  }

  /**
   * `ensureCompanyExists` of the sector controller: the same, except that an
   * inactive company is accepted.
   */
  method EnsureStoredCompany(db: Db, companyId: Value) returns (r: Check)
    requires db.Valid()
    ensures r == Rejected(Reject(400, CompanyIdRequired)) <==> !Truthy(companyId)
    ensures r == Rejected(Reject(404, CompanyNotFound)) <==>
      Truthy(companyId) && !StoredIn(db.Of(Companies), companyId)
    ensures r.Found? <==> Truthy(companyId) && StoredIn(db.Of(Companies), companyId)
    ensures r.Found? ==> r.doc == db.Of(Companies).docs[companyId.s]
    ensures !r.Skipped?
    ensures r.Rejected? ==> CompanyRejection(db.Of(Companies), companyId, false) == Some(r.response)
  {
    if !Truthy(companyId) {
      return Rejected(Reject(400, CompanyIdRequired));
    }
    var company := db.FindById(Companies, companyId);
    if company.None? {
      return Rejected(Reject(404, CompanyNotFound));
    }
    return Found(company.value);
  }

  /** The sector's company is not the given one, compared as strings. */
  predicate OfOtherCompany(sector: Doc, companyId: Value)
  {
    Truthy(companyId) && ToString(Get(sector, "company")) != ToString(companyId)
  }

  /**
   * `ensureSectorIsValid`: nothing to check without a sector; 404 unless an
   * active sector has the id; 400 when it belongs to another company than
   * the one given.
   */
  method EnsureSectorIsValid(db: Db, sectorId: Value, companyId: Value) returns (r: Check)
    requires db.Valid()
    ensures r == Skipped <==> !Truthy(sectorId)
    ensures r == Rejected(Reject(404, SectorNotFound)) <==>
      Truthy(sectorId) && !ActiveIn(db.Of(Sectors), sectorId)
    ensures r == Rejected(Reject(400, SectorOfOtherCompany)) <==>
      Truthy(sectorId) && ActiveIn(db.Of(Sectors), sectorId) && OfOtherCompany(db.Of(Sectors).docs[sectorId.s], companyId)
    ensures r.Found? <==>
      Truthy(sectorId) && ActiveIn(db.Of(Sectors), sectorId) && !OfOtherCompany(db.Of(Sectors).docs[sectorId.s], companyId)
    ensures r.Found? ==> r.doc == db.Of(Sectors).docs[sectorId.s]
    ensures r.Rejected? ==> SectorRejection(db.Of(Sectors), sectorId, companyId) == Some(r.response)
  {
    if !Truthy(sectorId) {
      return Skipped;
    }
    var sector := db.FindActiveById(Sectors, sectorId);
    if sector.None? {
      return Rejected(Reject(404, SectorNotFound));
    }
    if Truthy(companyId) && ToString(Get(sector.value, "company")) != ToString(companyId) {
      return Rejected(Reject(400, SectorOfOtherCompany));
    }
    return Found(sector.value);
  }
}
