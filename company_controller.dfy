/**
 * The company handlers: create, list with the status, search and matrix
 * filters, get the active record by id, update.
 */
module CompanyController {
  import opened JsValues
  import opened Query
  import opened Store
  import opened Http
  import opened CompanyRules
  import CompanyModel
  import Referential
  import Filters

  const CompanyNotFound := "Empresa não encontrada"

  /** The filter `listCompanies` builds from the query string. */
  function ListQuery(query: Doc): Query
  {
    var q0 := Query(map[], []);
    var q1 := AddClause(q0, BuildStatusClause(Get(query, "status")));
    var q2 := AddClause(q1, BuildSearchClause(Or(Get(query, "search"), Get(query, "q"))));
    AddClause(q2, BuildMatrixClause(Coalesce(Get(query, "isMatrix"), Get(query, "matrixOnly"))))
  }

  /** Reference meaning of the search parameter. */
  predicate SearchSelects(search: Value, d: Doc)
  {
    BuildSearchClause(search).None? ||
      var t := Trim(search.s);
      FieldContains(d, "name", t) || FieldContains(d, "legalName", t) || FieldContains(d, "cnpj", t)
  }

  /** Reference meaning of the matrix parameter: yes keeps matrices, no keeps branches. */
  predicate MatrixSelects(v: Value, d: Doc)
  {
    match ParseBooleanLike(v)
    case None => true
    case Some(b) => b == Nullish(Lookup(d, ["matrixCompany", "id"]))
  }

  /** A company is listed exactly when the status, the search and the matrix parameters all admit it. */
  lemma ListQueryMeaning(query: Doc, d: Doc)
    ensures var status := Get(query, "status");
      var search := Or(Get(query, "search"), Get(query, "q"));
      var matrix := Coalesce(Get(query, "isMatrix"), Get(query, "matrixOnly"));
      Matches(ListQuery(query), d) <==>
        StatusSelects(ResolveStatusFilter(status), d) && SearchSelects(search, d) && MatrixSelects(matrix, d)
  {
    var status := Get(query, "status");
    var search := Or(Get(query, "search"), Get(query, "q"));
    var matrix := Coalesce(Get(query, "isMatrix"), Get(query, "matrixOnly"));
    var q0 := Query(map[], []);
    var q1 := AddClause(q0, BuildStatusClause(status));
    var q2 := AddClause(q1, BuildSearchClause(search));
    assert Matches(q0, d);
    StatusFilterConjoins(q0, status, d);
    if BuildSearchClause(search).Some? {
      AddClauseConjoins(q1, BuildSearchClause(search).value, d);
      SearchClauseMeaning(search, d);
    }
    match ParseBooleanLike(matrix)
    case None =>
    case Some(b) =>
      AddClauseConjoins(q2, BuildMatrixClause(matrix).value, d);
      if b { MatrixOnlyMeaning(d); } else { BranchesOnlyMeaning(d); }
  }

  function MapCompanyResponses(docs: seq<Doc>): seq<Doc>
  {
    seq(|docs|, i requires 0 <= i < |docs| => MapCompanyResponse(docs[i]))
  }

  /** `createCompany`: 201 with the stored record, or the store's error as 500. */
  method CreateCompany(db: Db, body: Value) returns (res: Response)
    requires db.Valid()
    modifies db
    ensures db.Valid()
    ensures var id := NatToString(old(db.nextId));
      var d := Prepared(Companies, id, NormalizeCompanyPayload(body));
      && (res.code == 201 <==> ValidFor(Companies, d) && !Clashes(Companies, old(db.Of(Companies)), d, id))
      && (res.code == 201 ==>
            res.body == Document(CompanyModel.ToJson(d)) && db.Of(Companies) == Inserted(old(db.Of(Companies)), id, d)
            && (forall j | j != Companies :: db.Of(j) == old(db.Of(j))))
    ensures res.code != 201 ==> res == InternalError && unchanged(db)
  {
    var created := db.Insert(Companies, NormalizeCompanyPayload(body));
    match created
    case Ok(d) => res := Response(201, Document(CompanyModel.ToJson(d)));
    case Err(_) => res := InternalError;
  }

  /** `listCompanies`: the companies the filter selects, in store order, as `mapCompanyResponse` shows them. */
  method ListCompanies(db: Db, query: Doc) returns (res: Response)
    ensures res == Response(200, Documents(MapCompanyResponses(Select(db.Of(Companies), ListQuery(query)))))
  {
    var filter := new Filters.QueryFilter();
    filter.ApplyStatusFilter(Get(query, "status"));
    filter.ApplySearchFilter(Or(Get(query, "search"), Get(query, "q")));
    filter.ApplyMatrixFilter(Coalesce(Get(query, "isMatrix"), Get(query, "matrixOnly")));
    var companies := db.Find(Companies, filter.Current());
    res := Response(200, Documents(MapCompanyResponses(companies)));
  }

  /** `getCompanyById`: only an active company is found. */
  method GetCompanyById(db: Db, id: Value) returns (res: Response)
    requires db.Valid()
    ensures res.code == 200 <==> Referential.ActiveIn(db.Of(Companies), id)
    ensures res.code == 200 ==> res.body == Document(MapCompanyResponse(db.Of(Companies).docs[id.s]))
    ensures res.code != 200 ==> res == Reject(404, CompanyNotFound)
  {
    var company := db.FindActiveById(Companies, id);
    if company.None? {
      return Reject(404, CompanyNotFound);
    }
    return Response(200, Document(MapCompanyResponse(company.value)));
  }

  /**
   * `updateCompany`: the normalised payload is validated, then applied to the
   * record with the id, active or not.
   */
  method UpdateCompany(db: Db, id: Value, body: Value) returns (res: Response)
    requires db.Valid()
    modifies db
    ensures db.Valid()
    ensures var c := Changes(Companies, NormalizeCompanyPayload(body));
      var t := old(db.Of(Companies));
      && (res == Reject(404, CompanyNotFound) <==> CompanyModel.UpdateValid(c) && !Referential.StoredIn(t, id))
      && (res == InternalError <==>
            !CompanyModel.UpdateValid(c) || (Referential.StoredIn(t, id) && Clashes(Companies, t, t.docs[id.s] + c, id.s)))
      && (res.code == 200 <==>
            CompanyModel.UpdateValid(c) && Referential.StoredIn(t, id) && !Clashes(Companies, t, t.docs[id.s] + c, id.s))
      && (res.code == 200 ==>
            Referential.StoredIn(t, id)
            && res.body == Document(MapCompanyResponse(t.docs[id.s] + c))
            && db.Of(Companies) == Replaced(t, id.s, t.docs[id.s] + c)
            && (forall j | j != Companies :: db.Of(j) == old(db.Of(j))))
    ensures res.code != 200 ==> unchanged(db)
  {
    var updated := db.UpdateById(Companies, id, NormalizeCompanyPayload(body));
    match updated
    case Err(_) => res := InternalError;
    case Ok(None) => res := Reject(404, CompanyNotFound);
    case Ok(Some(d)) => res := Response(200, Document(MapCompanyResponse(d)));
  }

  /** A new company is active and a matrix unless the payload says otherwise; its lists hold no falsy entry. */
  lemma CreatedCompanyShape(body: Value, id: string)
    ensures var d := Prepared(Companies, id, NormalizeCompanyPayload(body));
      && (Nullish(Prop(body, "status")) ==> Get(d, "status") == Num(1))
      && (!Truthy(Prop(body, "matrixCompany")) ==> Get(d, "matrixCompany") == Null && CompanyModel.IsMatrix(d))
      && Get(d, "phones").Arr? && (forall x | x in Get(d, "phones").items :: Truthy(x))
  {
    var p := NormalizeCompanyPayload(body);
    assert p["phones"].Arr?;
    PreparedKeeps(Companies, id, p, "phones");
    if Nullish(Prop(body, "status")) {
      assert p["status"] == Undefined;
      PreparedDefault(Companies, id, p, "status");
    }
    if !Truthy(Prop(body, "matrixCompany")) {
      PreparedKeeps(Companies, id, p, "matrixCompany");
    }
  }

  /**
   * An update that leaves out the lists and the parent reference empties the
   * lists and clears the parent reference; one that leaves out the status
   * keeps it.
   */
  lemma UpdateResetsOmittedFields(body: Value, current: Doc)
    requires Nullish(Prop(body, "phones")) && Nullish(Prop(body, "emails")) && Nullish(Prop(body, "matrixCompany"))
    ensures var n := current + Changes(Companies, NormalizeCompanyPayload(body));
      && Get(n, "phones") == Arr([]) && Get(n, "emails") == Arr([]) && Get(n, "matrixCompany") == Null
      && (Nullish(Prop(body, "status")) ==> Get(n, "status") == Get(current, "status"))
  {
    var p := NormalizeCompanyPayload(body);
    assert p["phones"] == Arr([]) && p["emails"] == Arr([]) && p["matrixCompany"] == Null;
    ResetsMerged(current, p);
  }

  /** The update of `current` by a payload holding empty lists, no parent and possibly no status. */
  lemma ResetsMerged(current: Doc, p: Doc)
    requires "phones" in p && p["phones"] == Arr([]) && "emails" in p && p["emails"] == Arr([])
    requires "matrixCompany" in p && p["matrixCompany"] == Null
    ensures var n := current + Changes(Companies, p);
      && Get(n, "phones") == Arr([]) && Get(n, "emails") == Arr([]) && Get(n, "matrixCompany") == Null
      && (Get(p, "status") == Undefined ==> Get(n, "status") == Get(current, "status"))
  {
    ChangesKeeps(Companies, p, "phones");
    ChangesKeeps(Companies, p, "emails");
    ChangesKeeps(Companies, p, "matrixCompany");
    ChangesKeeps(Companies, p, "status");
  }
}
