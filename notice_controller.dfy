/**
 * The notice handlers: create and update behind the company and sector
 * checks, list with the company, sector, viewed and status filters, get by
 * id.
 */
module NoticeController {
  import opened JsValues
  import opened Query
  import opened Store
  import opened Http
  import opened Referential
  import RecordModels
  import Filters

  const MessageRequired := "O texto do aviso é obrigatório."
  const NoticeNotFound := "Aviso não encontrado."
  const CompanyForSectorRequired := "Informe o ID da empresa ao atualizar o setor do aviso."

  /** The fields a notice payload copies as they are. */
  const CopiedFields: set<string> := {"message", "expiresAt", "viewed", "importance"}

  /** The keys `normalizeNoticePayload` can produce. */
  const NoticeKeys: set<string> := CopiedFields + {"company", "sector", "status"}

  /** The keys the normaliser sets itself are not among the copied ones. */
  lemma SetKeysNotCopied()
    ensures "company" !in CopiedFields && "sector" !in CopiedFields && "status" !in CopiedFields
  {
  }

  /**
   * `normalizeNoticePayload`: `companyId` wins over `company`, `sectorId`
   * over `sector` and the sector falls back to `null`; the status is
   * sanitised; undefined entries are dropped.
   */
  function NormalizeNoticePayload(body: Value): (p: Doc)
    ensures p.Keys <= NoticeKeys
    ensures forall k | k in p :: p[k] != Undefined
    ensures "sector" in p && p["sector"] == Or(Or(Prop(body, "sectorId"), Prop(body, "sector")), Null)
    ensures Get(p, "company") == Or(Prop(body, "companyId"), Prop(body, "company"))
    ensures Get(p, "status") == SanitizeStatusValue(Prop(body, "status"))
    ensures forall k | k in CopiedFields :: Get(p, k) == Prop(body, k)
  {
    SetKeysNotCopied();
    DropUndefined(Copy(body, CopiedFields) + map[
      "company" := Or(Prop(body, "companyId"), Prop(body, "company")),
      "sector" := Or(Or(Prop(body, "sectorId"), Prop(body, "sector")), Null),
      "status" := SanitizeStatusValue(Prop(body, "status"))])
  }

  /**
   * The response `createNotice` stops at before writing, if any: the message
   * check, then the active company, then the sector when one is given.
   */
  function CreateRejection(companies: Table, sectors: Table, p: Doc): (r: Option<Response>)
    ensures !Truthy(Get(p, "message")) ==> r == Some(Reject(400, MessageRequired))
    ensures r.Some? ==> r.value.code in {400, 404}
  {
    if !Truthy(Get(p, "message")) then Some(Reject(400, MessageRequired))
    else OrElse(CompanyRejection(companies, Get(p, "company"), true),
                SectorRejection(sectors, Get(p, "sector"), Get(p, "company")))
  }

  /**
   * A notice passes the checks of `createNotice` exactly when it has a
   * message, its company is active and its sector, if any, is an active
   * sector of that company.
   */
  lemma CreateRejectionMeaning(companies: Table, sectors: Table, p: Doc)
    ensures CreateRejection(companies, sectors, p).None? <==>
      && Truthy(Get(p, "message"))
      && Truthy(Get(p, "company")) && ActiveIn(companies, Get(p, "company"))
      && (Truthy(Get(p, "sector")) ==>
            ActiveIn(sectors, Get(p, "sector"))
            && ToString(Get(sectors.docs[Get(p, "sector").s], "company")) == ToString(Get(p, "company")))
    ensures CreateRejection(companies, sectors, p).Some? ==> CreateRejection(companies, sectors, p).value.code in {400, 404}
  {
  }

  /** The checks `createNotice` runs before writing, in their order. */
  method CheckCreate(db: Db, payload: Doc) returns (rejection: Option<Response>)
    requires db.Valid()
    ensures rejection == CreateRejection(db.Of(Companies), db.Of(Sectors), payload)
  {
    if !Truthy(Get(payload, "message")) {
      return Some(Reject(400, MessageRequired));
    }
    var company := EnsureActiveCompany(db, Get(payload, "company"));
    if company.Rejected? {
      return Some(company.response);
    }
    if Truthy(Get(payload, "sector")) {
      var sector := EnsureSectorIsValid(db, Get(payload, "sector"), Get(payload, "company"));
      if sector.Rejected? {
        return Some(sector.response);
      }
    }
    return None;
  }

  /** `createNotice`: the checks, then the write; a store error is a 500. */
  method CreateNotice(db: Db, body: Value) returns (res: Response)
    requires db.Valid()
    modifies db
    ensures db.Valid()
    ensures var p := NormalizeNoticePayload(body);
      var gate := CreateRejection(old(db.Of(Companies)), old(db.Of(Sectors)), p);
      var id := NatToString(old(db.nextId));
      var d := Prepared(Notices, id, p);
      && (gate.Some? ==> res == gate.value)
      && (gate.None? ==> (res.code == 201 <==> RecordModels.NoticeValid(d)))
      && (gate.None? && res.code != 201 ==> res == InternalError)
      && (res.code == 201 ==>
            gate.None? && res.body == Document(RenameId(d))
            && db.Of(Notices) == Inserted(old(db.Of(Notices)), id, d)
            && (forall j | j != Notices :: db.Of(j) == old(db.Of(j))))
    ensures res.code != 201 ==> unchanged(db)
  {
    var payload := NormalizeNoticePayload(body);
    var rejection := CheckCreate(db, payload);
    res := CreateChecked(db, Notices, payload, rejection);
  }

  /** The filter `listNotices` builds from the query string. */
  function ListQuery(query: Doc): Query
  {
    var companyId, sectorId, viewed := Get(query, "companyId"), Get(query, "sectorId"), Get(query, "viewed");
    var q0 := Query(map[], []);
    var q1 := if Truthy(companyId) then SetField(q0, "company", companyId) else q0;
    var q2 := if Truthy(sectorId) then SetField(q1, "sector", sectorId) else q1;
    var q3 := if viewed != Undefined then SetField(q2, "viewed", Bool(viewed == Str("true"))) else q2;
    AddClause(q3, BuildStatusClause(Get(query, "status")))
  }

  /**
   * A notice is listed exactly when it has the company and the sector asked
   * for, its `viewed` flag is the one asked for (only the text `'true'`
   * asks for viewed notices) and the status parameter admits it.
   */
  lemma ListQueryMeaning(query: Doc, d: Doc)
    ensures var companyId, sectorId, viewed := Get(query, "companyId"), Get(query, "sectorId"), Get(query, "viewed");
      Matches(ListQuery(query), d) <==>
        && (Truthy(companyId) ==> Get(d, "company") == companyId)
        && (Truthy(sectorId) ==> Get(d, "sector") == sectorId)
        && (viewed != Undefined ==> Get(d, "viewed") == Bool(viewed == Str("true")))
        && StatusSelects(ResolveStatusFilter(Get(query, "status")), d)
  {
    var companyId, sectorId, viewed := Get(query, "companyId"), Get(query, "sectorId"), Get(query, "viewed");
    var q0 := Query(map[], []);
    var q1 := if Truthy(companyId) then SetField(q0, "company", companyId) else q0;
    var q2 := if Truthy(sectorId) then SetField(q1, "sector", sectorId) else q1;
    var q3 := if viewed != Undefined then SetField(q2, "viewed", Bool(viewed == Str("true"))) else q2;
    assert Matches(q0, d);
    if Truthy(companyId) { SetFieldMeaning(q0, "company", companyId, d); }
    if Truthy(sectorId) { SetFieldMeaning(q1, "sector", sectorId, d); }
    if viewed != Undefined { SetFieldMeaning(q2, "viewed", Bool(viewed == Str("true")), d); }
    StatusFilterConjoins(q3, Get(query, "status"), d);
  }

  /** `listNotices`: the notices the filter selects, in store order. */
  method ListNotices(db: Db, query: Doc) returns (res: Response)
    ensures res == Response(200, Documents(ToJsonAll(Notices, Select(db.Of(Notices), ListQuery(query)))))
  {
    var companyId, sectorId, viewed := Get(query, "companyId"), Get(query, "sectorId"), Get(query, "viewed");
    var filter := new Filters.QueryFilter();
    if Truthy(companyId) {
      filter.Set("company", companyId);
    }
    if Truthy(sectorId) {
      filter.Set("sector", sectorId);
    }
    if viewed != Undefined {
      filter.Set("viewed", Bool(viewed == Str("true")));
    }
    filter.ApplyStatusFilter(Get(query, "status"));
    var notices := db.Find(Notices, filter.Current());
    res := Response(200, Documents(ToJsonAll(Notices, notices)));
  }

  /** `getNoticeById`: any stored notice, whatever its status. */
  method GetNoticeById(db: Db, id: Value) returns (res: Response)
    requires db.Valid()
    ensures res.code == 200 <==> StoredIn(db.Of(Notices), id)
    ensures res.code == 200 ==> res.body == Document(RenameId(db.Of(Notices).docs[id.s]))
    ensures res.code != 200 ==> res == Reject(404, NoticeNotFound)
  {
    var notice := db.FindById(Notices, id);
    if notice.None? {
      return Reject(404, NoticeNotFound);
    }
    return Response(200, Document(RenameId(notice.value)));
  }

  /**
   * The company a sector given to `updateNotice` is checked against: the
   * payload's, or else that of the stored notice, if there is one.
   */
  function SectorOwner(notices: Table, id: Value, p: Doc): Value
  {
    if Truthy(Get(p, "company")) then Get(p, "company")
    else if StoredIn(notices, id) then Get(notices.docs[id.s], "company")
    else Undefined
  }

  /**
   * The response `updateNotice` stops at before writing, if any: a company
   * given must be active; a sector given needs a company to check it against
   * and must be an active sector of it.
   */
  function UpdateRejection(companies: Table, sectors: Table, notices: Table, id: Value, p: Doc): (r: Option<Response>)
    ensures r.None? <==>
      && (Truthy(Get(p, "company")) ==> ActiveIn(companies, Get(p, "company")))
      && (Truthy(Get(p, "sector")) ==>
            Truthy(SectorOwner(notices, id, p))
            && SectorRejection(sectors, Get(p, "sector"), SectorOwner(notices, id, p)).None?)
    ensures r.Some? ==> r.value.code in {400, 404}
  {
    var companyCheck := if Truthy(Get(p, "company")) then CompanyRejection(companies, Get(p, "company"), true) else None;
    var sectorCheck :=
      if !Truthy(Get(p, "sector")) then None
      else if !Truthy(SectorOwner(notices, id, p)) then Some(Reject(400, CompanyForSectorRequired))
      else SectorRejection(sectors, Get(p, "sector"), SectorOwner(notices, id, p));
    OrElse(companyCheck, sectorCheck)
  }

  /**
   * Without a company in the payload a sector is checked against the stored
   * notice's company; with no notice under the id, or none with a company,
   * the answer is 400 before the missing record could give 404.
   */
  lemma UpdateSectorOwner(companies: Table, sectors: Table, notices: Table, id: Value, p: Doc)
    requires !Truthy(Get(p, "company")) && Truthy(Get(p, "sector"))
    ensures StoredIn(notices, id) && Truthy(Get(notices.docs[id.s], "company")) ==>
      UpdateRejection(companies, sectors, notices, id, p)
        == SectorRejection(sectors, Get(p, "sector"), Get(notices.docs[id.s], "company"))
    ensures !StoredIn(notices, id) || !Truthy(Get(notices.docs[id.s], "company")) ==>
      UpdateRejection(companies, sectors, notices, id, p) == Some(Reject(400, CompanyForSectorRequired))
  {
  }

  /**
   * An update that names no sector clears the notice's sector, since the
   * payload falls back to `null`; one that names no status keeps it.
   */
  lemma UpdateWithoutSectorClearsIt(body: Value, current: Doc)
    requires !Truthy(Prop(body, "sectorId")) && !Truthy(Prop(body, "sector"))
    ensures var n := current + Changes(Notices, NormalizeNoticePayload(body));
      && Get(n, "sector") == Null
      && (Nullish(Prop(body, "status")) ==> Get(n, "status") == Get(current, "status"))
  {
    SectorAndStatusChanges(NormalizeNoticePayload(body), current);
  }

  /** The sector and the status an update sets are the payload's, when it has them. */
  lemma SectorAndStatusChanges(p: Doc, current: Doc)
    requires forall k | k in p :: p[k] != Undefined
    ensures var n := current + Changes(Notices, p);
      && ("sector" in p ==> Get(n, "sector") == p["sector"])
      && (Get(p, "status") == Undefined ==> Get(n, "status") == Get(current, "status"))
  {
    var c := Changes(Notices, p);
    if "sector" in p {
      assert "sector" !in SetterPaths(Notices);
      assert "sector" in c;
    }
    assert Get(p, "status") == Undefined ==> "status" !in c;
  }

  /** The checks `updateNotice` runs before writing, in their order. */
  method CheckUpdate(db: Db, id: Value, payload: Doc) returns (rejection: Option<Response>)
    requires db.Valid()
    ensures rejection == UpdateRejection(db.Of(Companies), db.Of(Sectors), db.Of(Notices), id, payload)
  {
    if Truthy(Get(payload, "company")) {
      var company := EnsureActiveCompany(db, Get(payload, "company"));
      if company.Rejected? {
        return Some(company.response);
      }
    }
    if Truthy(Get(payload, "sector")) {
      var companyId := Get(payload, "company");
      if !Truthy(companyId) {
        var existing := db.FindById(Notices, id);
        companyId := if existing.Some? then Get(existing.value, "company") else Undefined;
      }
      if !Truthy(companyId) {
        return Some(Reject(400, CompanyForSectorRequired));
      }
      var sector := EnsureSectorIsValid(db, Get(payload, "sector"), companyId);
      if sector.Rejected? {
        return Some(sector.response);
      }
    }
    return None;
  }

  /** `updateNotice`: the checks, then the update; the store's error is a 500. */
  method UpdateNotice(db: Db, id: Value, body: Value) returns (res: Response)
    requires db.Valid()
    modifies db
    ensures db.Valid()
    ensures var p := NormalizeNoticePayload(body);
      var t := old(db.Of(Notices));
      var gate := UpdateRejection(old(db.Of(Companies)), old(db.Of(Sectors)), t, id, p);
      var c := Changes(Notices, p);
      && (gate.Some? ==> res == gate.value)
      && (gate.None? ==> res == UpdateReply(UpdateOutcome(Notices, t, id, p), NoticeNotFound))
      && (res.code == 200 ==>
            gate.None? && StoredIn(t, id) && db.Of(Notices) == Replaced(t, id.s, t.docs[id.s] + c)
            && (forall j | j != Notices :: db.Of(j) == old(db.Of(j))))
    ensures res.code != 200 ==> unchanged(db)
  {
    var payload := NormalizeNoticePayload(body);
    var rejection := CheckUpdate(db, id, payload);
    if rejection.Some? {
      return rejection.value;
    }
    var updated := db.UpdateById(Notices, id, payload);
    res := UpdateReply(updated, NoticeNotFound);
  }
}
