/**
 * The credential handlers: registration, listing and the login decision
 * procedure, with the branch normaliser they share and a stand-in for the
 * password hash.
 */
module AuthController {
  import opened JsValues
  import opened Query
  import opened Store
  import opened Http
  import CredentialModel
  import Referential
  import Filters

  const RegisterFieldsRequired := "Nome, email, senha e o ID da empresa são obrigatórios."
  const CompanyNotFound := "Empresa informada não encontrada."
  const BranchNotFound := "Filial informada não encontrada."
  const DuplicateLogin := "Já existe um login cadastrado para esse email/empresa/filial."
  const RouteCompanyRequired := "O ID da empresa é obrigatório na rota."
  const CredentialsRequired := "Email e senha são obrigatórios."
  const InvalidCombination := "Combinação de empresa/filial e credenciais inválida."
  const WrongPassword := "Verifique os dados informado!"
  const LoginSucceeded := "Login efetuado com sucesso."

  /** `normalizeBranch`: no branch, or the company itself, is the matrix (`null`). */
  function NormalizeBranch(companyId: Value, branchId: Value): (r: Value)
    ensures r == Null <==> !Truthy(branchId) || StrictEquals(branchId, companyId)
    ensures r != Null ==> r == branchId && Truthy(r)
  {
    if !Truthy(branchId) || StrictEquals(branchId, companyId) then Null else branchId
  }

  /** Normalising a normalised branch changes nothing. */
  lemma NormalizeBranchIdempotent(companyId: Value, branchId: Value)
    ensures NormalizeBranch(companyId, NormalizeBranch(companyId, branchId)) == NormalizeBranch(companyId, branchId)
  {
  }

  // ----------------------------------------------------------- password hash

  /** The salt and cost prefix of a bcrypt hash with ten rounds. */
  const HashPrefix := "$2b$10$"

  /** bcrypt reads at most the first 72 bytes of a password; here one character stands for one byte. */
  const BcryptInputLimit := 72

  /** The part of a password bcrypt looks at. */
  function Significant(password: string): (s: string)
    ensures |s| <= BcryptInputLimit && s <= password
    ensures |password| <= BcryptInputLimit ==> s == password
    ensures |password| > BcryptInputLimit ==> s == password[..BcryptInputLimit]
  {
    if |password| <= BcryptInputLimit then password else password[..BcryptInputLimit]
  }

  /** Stand-in for `bcrypt.hash(password, 10)`: the cost prefix, then what is hashed. */
  function Hash(password: string): (h: string)
    ensures |HashPrefix| <= |h| && h[..|HashPrefix|] == HashPrefix
  {
    HashPrefix + Significant(password)
  }

  /** Stand-in for `bcrypt.compare(password, hash)`. */
  predicate Verify(password: string, hash: string)
  {
    hash == Hash(password)
  }

  /**
   * A hash verifies the password it was made from, and any password that
   * agrees with it on the first 72 characters.
   */
  lemma VerifyHash(p: string, q: string)
    ensures Verify(p, Hash(p))
    ensures Significant(q) == Significant(p) ==> Verify(q, Hash(p))
  {
  }

  /** Two passwords that differ only after the 72nd character verify against each other's hash. */
  lemma LongPasswordsCollide(s: string, a: char, b: char)
    requires |s| == BcryptInputLimit && a != b
    ensures s + [a] != s + [b]
    ensures Verify(s + [b], Hash(s + [a]))
  {
    assert (s + [a])[|s|] == a && (s + [b])[|s|] == b;
    assert (s + [a])[..BcryptInputLimit] == s == (s + [b])[..BcryptInputLimit];
  }

  // ------------------------------------------------------------ registration

  /** A required registration field is missing. */
  predicate RegisterFieldMissing(body: Value)
  {
    !Truthy(Prop(body, "name")) || !Truthy(Prop(body, "email")) || !Truthy(Prop(body, "password"))
    || !Truthy(Prop(body, "companyId"))
  }

  /** What `registerCredential` passes to `LoginCredential.create`. */
  function CredentialPayload(body: Value, hash: string): Doc
  {
    var companyId := Prop(body, "companyId");
    map[
      "name" := Prop(body, "name"),
      "email" := Prop(body, "email"),
      "passwordHash" := Str(hash),
      "company" := companyId,
      "branch" := NormalizeBranch(companyId, Prop(body, "branchId")),
      "status" := Num(ActiveStatus)
    ]
  }

  /**
   * A registered credential is active, belongs to the normalised branch,
   * keeps the hash and not the password, and stores the e-mail normalised.
   */
  lemma RegisteredCredentialShape(body: Value, password: string, id: string)
    requires !RegisterFieldMissing(body)
    ensures var d := Prepared(Credentials, id, CredentialPayload(body, Hash(password)));
      && Get(d, "status") == Num(1)
      && Get(d, "branch") == NormalizeBranch(Prop(body, "companyId"), Prop(body, "branchId"))
      && Get(d, "passwordHash") == Str(Hash(password)) && "password" !in d
      && Get(d, "company") == Prop(body, "companyId")
      && Get(d, "email") == CredentialModel.NormalizeEmail(Prop(body, "email"))
  {
    var p := CredentialPayload(body, Hash(password));
    assert p["status"] == Num(1) && p["passwordHash"] == Str(Hash(password));
    assert p["company"] == Prop(body, "companyId") && p["email"] == Prop(body, "email");
    assert p["branch"] == NormalizeBranch(Prop(body, "companyId"), Prop(body, "branchId"));
    StoredFields(p, id);
    PlainPasswordNotStored(body, Hash(password), id);
  }

  /** The plain password is not a field of the record registration stores. */
  lemma PlainPasswordNotStored(body: Value, hash: string, id: string)
    ensures "password" !in Prepared(Credentials, id, CredentialPayload(body, hash))
  {
    var p := CredentialPayload(body, hash);
    assert p.Keys == {"name", "email", "passwordHash", "company", "branch", "status"};
    PreparedLacks(Credentials, id, p, "password");
  }

  /** What of a credential payload reaches the stored record: the setters touch the e-mail only. */
  lemma StoredFields(p: Doc, id: string)
    requires forall f | f in p :: p[f] != Undefined
    requires "status" in p && "branch" in p && "passwordHash" in p && "company" in p && "email" in p
    ensures var d := Prepared(Credentials, id, p);
      && Get(d, "status") == p["status"] && Get(d, "branch") == p["branch"]
      && Get(d, "passwordHash") == p["passwordHash"] && Get(d, "company") == p["company"]
      && Get(d, "email") == CredentialModel.NormalizeEmail(p["email"])
  {
    PreparedKeeps(Credentials, id, p, "status");
    PreparedKeeps(Credentials, id, p, "branch");
    PreparedKeeps(Credentials, id, p, "passwordHash");
    PreparedKeeps(Credentials, id, p, "company");
    StoredEmail(p, id);
  }

  /** The e-mail of a credential payload is stored through its setters. */
  lemma StoredEmail(p: Doc, id: string)
    requires "email" in p && p["email"] != Undefined
    ensures Get(Prepared(Credentials, id, p), "email") == CredentialModel.NormalizeEmail(p["email"])
  {
    var m := CredentialModel.Defaults() + DropUndefined(p);
    assert m["email"] == p["email"];
  }

  /**
   * `registerCredential`: required fields (400), then an active company
   * (404), then an active distinct branch (404), then the write, whose
   * unique-index failure is 409.
   */
  method RegisterCredential(db: Db, body: Value) returns (res: Response)
    requires db.Valid()
    modifies db
    ensures db.Valid()
    ensures var companyId := Prop(body, "companyId");
      var branch := NormalizeBranch(companyId, Prop(body, "branchId"));
      var companies := old(db.Of(Companies));
      var password := Prop(body, "password");
      var id := NatToString(old(db.nextId));
      var reached := !RegisterFieldMissing(body) && Referential.ActiveIn(companies, companyId)
        && (Truthy(branch) ==> Referential.ActiveIn(companies, branch));
      && (res == Reject(400, RegisterFieldsRequired) <==> RegisterFieldMissing(body))
      && (res == Reject(404, CompanyNotFound) <==>
            !RegisterFieldMissing(body) && !Referential.ActiveIn(companies, companyId))
      && (res == Reject(404, BranchNotFound) <==>
            !RegisterFieldMissing(body) && Referential.ActiveIn(companies, companyId)
            && Truthy(branch) && !Referential.ActiveIn(companies, branch))
      && (res.code == 201 || res.code == 409 ==> reached && password.Str?)
      && (reached && password.Str? ==>
            var d := Prepared(Credentials, id, CredentialPayload(body, Hash(password.s)));
            && (res == Reject(409, DuplicateLogin) <==>
                  CredentialModel.Valid(d) && Clashes(Credentials, old(db.Of(Credentials)), d, id))
            && (res.code == 201 <==> CredentialModel.Valid(d) && !Clashes(Credentials, old(db.Of(Credentials)), d, id))
            && (res == InternalError <==> !CredentialModel.Valid(d))
            && (res.code == 201 ==>
                  res.body == Document(CredentialModel.ToJson(d))
                  && db.Of(Credentials) == Inserted(old(db.Of(Credentials)), id, d)
                  && (forall j | j != Credentials :: db.Of(j) == old(db.Of(j)))))
      && (reached && !password.Str? ==> res == InternalError)
    ensures res.code != 201 ==> unchanged(db)
  {
    var name, email, password := Prop(body, "name"), Prop(body, "email"), Prop(body, "password");
    var companyId, branchId := Prop(body, "companyId"), Prop(body, "branchId");
    if !Truthy(name) || !Truthy(email) || !Truthy(password) || !Truthy(companyId) {
      return Reject(400, RegisterFieldsRequired);
    }
    var branchToUse := NormalizeBranch(companyId, branchId);
    var company := db.FindActiveById(Companies, companyId);
    var branch: Option<Doc> := None;
    if Truthy(branchToUse) {
      branch := db.FindActiveById(Companies, branchToUse);
    }
    if company.None? {
      return Reject(404, CompanyNotFound);
    }
    if Truthy(branchToUse) && branch.None? {
      return Reject(404, BranchNotFound);
    }
    if !password.Str? {
      // bcrypt rejects anything but a string
      return InternalError;
    }
    var created := db.Insert(Credentials, CredentialPayload(body, Hash(password.s)));
    match created
    case Ok(d) => res := Response(201, Document(CredentialModel.ToJson(d)));
    case Err(DuplicateKey) => res := Reject(409, DuplicateLogin);
    case Err(ValidationError) => res := InternalError;
  }

  // ----------------------------------------------------------------- listing

  /** The filter `listCredentials` builds from the query string. */
  function ListQuery(query: Doc): Query
  {
    var companyId, branchId := Get(query, "companyId"), Get(query, "branchId");
    var q0 := Query(map[], []);
    var q1 := if Truthy(companyId) then SetField(q0, "company", companyId) else q0;
    var q2 := if Truthy(branchId) then SetField(q1, "branch", NormalizeBranch(companyId, branchId)) else q1;
    AddClause(q2, BuildStatusClause(Get(query, "status")))
  }

  /**
   * A credential is listed exactly when it belongs to the company asked for,
   * to the normalised branch asked for (the matrix when that is `null`), and
   * its status is admitted.
   */
  lemma ListQueryMeaning(query: Doc, d: Doc)
    ensures var companyId, branchId := Get(query, "companyId"), Get(query, "branchId");
      var branch := NormalizeBranch(companyId, branchId);
      Matches(ListQuery(query), d) <==>
        && (Truthy(companyId) ==> Get(d, "company") == companyId)
        && (Truthy(branchId) ==> if branch == Null then Nullish(Get(d, "branch")) else Get(d, "branch") == branch)
        && StatusSelects(ResolveStatusFilter(Get(query, "status")), d)
  {
    var companyId, branchId := Get(query, "companyId"), Get(query, "branchId");
    var q0 := Query(map[], []);
    var q1 := if Truthy(companyId) then SetField(q0, "company", companyId) else q0;
    var q2 := if Truthy(branchId) then SetField(q1, "branch", NormalizeBranch(companyId, branchId)) else q1;
    assert Matches(q0, d);
    assert Lookup(d, ["company"]) == Get(d, "company");
    assert Lookup(d, ["branch"]) == Get(d, "branch");
    if Truthy(companyId) { SetFieldConjoins(q0, "company", companyId, d); }
    if Truthy(branchId) { SetFieldConjoins(q1, "branch", NormalizeBranch(companyId, branchId), d); }
    StatusFilterConjoins(q2, Get(query, "status"), d);
  }

  /** Asking for the company's own id as branch lists the matrix credentials only. */
  lemma BranchEqualToCompanyListsMatrix(query: Doc, d: Doc)
    requires Truthy(Get(query, "companyId")) && Get(query, "branchId") == Get(query, "companyId")
    requires Get(query, "companyId").Str?
    requires Matches(ListQuery(query), d)
    ensures Nullish(Get(d, "branch")) && Get(d, "company") == Get(query, "companyId")
  {
    ListQueryMeaning(query, d);
  }

  /** `const { passwordHash, __v, ...rest } = login` */
  function Sanitize(login: Doc): (r: Doc)
    ensures "passwordHash" !in r && "__v" !in r
    ensures forall k | k in login && k != "passwordHash" && k != "__v" :: k in r && r[k] == login[k]
    ensures forall k | k in r :: k in login
  {
    login - {"passwordHash", "__v"}
  }

  function SanitizeAll(logins: seq<Doc>): seq<Doc>
  {
    seq(|logins|, i requires 0 <= i < |logins| => Sanitize(logins[i]))
  }

  /** `listCredentials`: the selected credentials, in store order, without hash or version key. */
  method ListCredentials(db: Db, query: Doc) returns (res: Response)
    ensures res == Response(200, Documents(SanitizeAll(Select(db.Of(Credentials), ListQuery(query)))))
    ensures forall i | 0 <= i < |res.body.docs| :: "passwordHash" !in res.body.docs[i] && "__v" !in res.body.docs[i]
  {
    var companyId, branchId := Get(query, "companyId"), Get(query, "branchId");
    var filter := new Filters.QueryFilter();
    if Truthy(companyId) {
      filter.Set("company", companyId);
    }
    if Truthy(branchId) {
      filter.Set("branch", NormalizeBranch(companyId, branchId));
    }
    filter.ApplyStatusFilter(Get(query, "status"));
    var logins := db.Find(Credentials, filter.Current());
    res := Response(200, Documents(SanitizeAll(logins)));
  }

  // ------------------------------------------------------------------- login

  /** The credential lookup of `login`: e-mail (as the setters store it), company, branch, active. */
  function LoginQuery(email: Value, companyId: Value, branch: Value): Query
  {
    Query(map["email" := CredentialModel.NormalizeEmail(email), "company" := companyId, "branch" := branch],
          [ActiveOrUnset()])
  }

  /**
   * `login`: route company (400), e-mail and password (400), an active
   * matching credential (401), an active company and branch (401, the same
   * message), the password (401, its own message); on success the resolved
   * branch, defaulting to the company, and whether that is the matrix.
   */
  method Login(db: Db, companyId: Value, body: Value) returns (res: Response)
    requires db.Valid()
    ensures res == Reject(400, RouteCompanyRequired) <==> !Truthy(companyId)
    ensures res == Reject(400, CredentialsRequired) <==>
      Truthy(companyId) && (!Truthy(Prop(body, "email")) || !Truthy(Prop(body, "password")))
    ensures var email, password := Prop(body, "email"), Prop(body, "password");
      var branch := NormalizeBranch(companyId, Prop(body, "branchId"));
      var found := Select(db.Of(Credentials), LoginQuery(email, companyId, branch));
      var ready := Truthy(companyId) && Truthy(email) && Truthy(password);
      var linked := Referential.ActiveIn(db.Of(Companies), companyId)
        && (Truthy(branch) ==> Referential.ActiveIn(db.Of(Companies), branch));
      && (res == Reject(401, InvalidCombination) <==> ready && (found == [] || !linked))
      && (ready && found != [] && linked ==>
            var hash := Get(found[0], "passwordHash");
            && (res == InternalError <==> !password.Str? || !hash.Str?)
            && (res == Reject(401, WrongPassword) <==> password.Str? && hash.Str? && !Verify(password.s, hash.s))
            && (res.code == 200 <==> password.Str? && hash.Str? && Verify(password.s, hash.s)))
      && (res.code == 200 ==>
            ready && found != [] && linked
            && res.body == LoginConfirmation(LoginSucceeded, companyId, Or(branch, companyId), branch == Null))
  {
    if !Truthy(companyId) {
      return Reject(400, RouteCompanyRequired);
    }
    var email, password, branchId := Prop(body, "email"), Prop(body, "password"), Prop(body, "branchId");
    if !Truthy(email) || !Truthy(password) {
      return Reject(400, CredentialsRequired);
    }
    var branchToUse := NormalizeBranch(companyId, branchId);
    var credential := db.FindOne(Credentials, LoginQuery(email, companyId, branchToUse));
    if credential.None? {
      return Reject(401, InvalidCombination);
    }
    var company := db.FindActiveById(Companies, companyId);
    var branch: Option<Doc> := None;
    if Truthy(branchToUse) {
      branch := db.FindActiveById(Companies, branchToUse);
    }
    if company.None? || (Truthy(branchToUse) && branch.None?) {
      return Reject(401, InvalidCombination);
    }
    var hash := Get(credential.value, "passwordHash");
    if !password.Str? || !hash.Str? {
      // bcrypt rejects anything but strings
      return InternalError;
    }
    if !Verify(password.s, hash.s) {
      return Reject(401, WrongPassword);
    }
    var isMatrix := !Truthy(branchToUse);
    return Response(200, LoginConfirmation(LoginSucceeded, companyId, Or(branchToUse, companyId), isMatrix));
  }

  /**
   * The password given at registration, or one that agrees with it on the
   * first 72 characters, passes the password check of `login` against the
   * stored record.
   */
  lemma RegisteredPasswordVerifies(body: Value, password: string, attempt: string, id: string)
    requires !RegisterFieldMissing(body)
    requires Significant(attempt) == Significant(password)
    ensures var d := Prepared(Credentials, id, CredentialPayload(body, Hash(password)));
      Get(d, "passwordHash").Str? && Verify(attempt, Get(d, "passwordHash").s)
  {
    RegisteredCredentialShape(body, password, id);
    VerifyHash(password, attempt);
  }
}
