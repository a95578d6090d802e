/**
 * The schema of a company record: the `isMatrix` virtual, defaults, required
 * fields, the status enumeration, the unique tax id and the `toJSON`
 * transform.
 */
module CompanyModel {
  import opened JsValues

  /** The `isMatrix` virtual: no parent reference, or a parent reference without an id. */
  predicate IsMatrix(d: Doc)
  {
    !Truthy(Get(d, "matrixCompany")) || !Truthy(Prop(Get(d, "matrixCompany"), "id"))
  }

  /** Schema defaults: empty phone and e-mail lists, no parent reference, active. */
  function Defaults(): (d: Doc)
    ensures Get(d, "status") == Num(1) && Get(d, "matrixCompany") == Null
  {
    map["phones" := Arr([]), "emails" := Arr([]), "matrixCompany" := Null, "status" := Num(1)]
  }

  /** A required `String` path rejects `undefined`, `null` and the empty string. */
  predicate Present(v: Value)
  {
    !Nullish(v) && v != Str("")
  }

  /** The `enum: [0, 1]` validator; it does not look at an unset status. */
  predicate StatusAllowed(v: Value)
  {
    Nullish(v) || v == Num(0) || v == Num(1)
  }

  /** Document validation on create: name and cnpj present, status 0 or 1. */
  predicate Valid(d: Doc)
  {
    Present(Get(d, "name")) && Present(Get(d, "cnpj")) && StatusAllowed(Get(d, "status"))
  }

  /** Update validation (`runValidators`): only the paths being set are checked. */
  predicate UpdateValid(changes: Doc)
  {
    && ("name" in changes ==> Present(changes["name"]))
    && ("cnpj" in changes ==> Present(changes["cnpj"]))
    && ("status" in changes ==> StatusAllowed(changes["status"]))
  }

  /** The string paths that carry the `trim: true` setter. */
  const TrimmedPaths: set<string> :=
    {"name", "legalName", "cnpj", "stateRegistration", "municipalRegistration", "activity"}

  /** Casting on write: the `trim` setters applied to the string paths that carry them. */
  function Cast(d: Doc): (r: Doc)
    ensures r.Keys == d.Keys
    ensures forall k | k in d && (k !in TrimmedPaths || !d[k].Str?) :: r[k] == d[k]
  {
    map k | k in d :: if k in TrimmedPaths && d[k].Str? then Str(Trim(d[k].s)) else d[k]
  }

  /** The value under the unique index on `cnpj`. */
  function UniqueKey(d: Doc): Value
  {
    Get(d, "cnpj")
  }

  /** `toJSON` with virtuals: `_id` renamed to `id`, `isMatrix` added. */
  function ToJson(d: Doc): (j: Doc)
    ensures "_id" !in j && Get(j, "id") == Get(d, "_id")
    ensures Get(j, "isMatrix") == Bool(IsMatrix(d))
  {
    RenameId(d)["isMatrix" := Bool(IsMatrix(d))]
  }

  /** A record validated on create has status 0 or 1, and status 1 unless one was given. */
  lemma CreatedStatus(payload: Doc)
    requires forall k | k in payload :: payload[k] != Undefined
    requires Valid(Defaults() + payload)
    ensures Get(Defaults() + payload, "status") in {Num(0), Num(1), Null}
    ensures "status" !in payload ==> Get(Defaults() + payload, "status") == Num(1)
  {
  }

  /** Without a parent reference a new company is a matrix. */
  lemma DefaultIsMatrix(payload: Doc)
    requires "matrixCompany" !in payload
    ensures IsMatrix(Defaults() + payload)
  {
    assert Get(Defaults() + payload, "matrixCompany") == Null;
  }
}

/**
 * The schema of a login credential: defaults, the e-mail setters, required
 * fields, the unique (email, company, branch, status) index and the `toJSON`
 * transform that never shows the password hash.
 */
module CredentialModel {
  import opened JsValues

  /** Schema defaults: no branch (the matrix itself), active. */
  function Defaults(): (d: Doc)
    ensures Get(d, "branch") == Null && Get(d, "status") == Num(1)
  {
    map["branch" := Null, "status" := Num(1)]
  }

  /** The `lowercase: true, trim: true` setters of `email`. */
  function NormalizeEmail(v: Value): (r: Value)
    ensures v.Str? ==> r.Str? && r.s == Lower(Trim(v.s))
    ensures !v.Str? ==> r == v
  {
    if v.Str? then Str(Lower(Trim(v.s))) else v
  }

  /** Casting on write: the setters applied to the fields that carry them. */
  function Cast(d: Doc): (r: Doc)
    ensures r.Keys == d.Keys
    ensures "email" in d ==> r["email"] == NormalizeEmail(d["email"])
    ensures "name" in d && d["name"].Str? ==> r["name"] == Str(Trim(d["name"].s))
    ensures forall k | k in d && k != "email" && k != "name" :: r[k] == d[k]
    ensures forall k | k in d && !d[k].Str? :: r[k] == d[k]
  {
    var withEmail := if "email" in d then d["email" := NormalizeEmail(d["email"])] else d;
    if "name" in d && d["name"].Str? then withEmail["name" := Str(Trim(d["name"].s))] else withEmail
  }

  predicate Present(v: Value)
  {
    !Nullish(v) && v != Str("")
  }

  predicate StatusAllowed(v: Value)
  {
    Nullish(v) || v == Num(0) || v == Num(1)
  }

  /** Required name, email, passwordHash and company; status 0 or 1. */
  predicate Valid(d: Doc)
  {
    && Present(Get(d, "name")) && Present(Get(d, "email"))
    && Present(Get(d, "passwordHash")) && Present(Get(d, "company"))
    && StatusAllowed(Get(d, "status"))
  }

  predicate UpdateValid(changes: Doc)
  {
    && (forall k | k in changes && k in {"name", "email", "passwordHash", "company"} :: Present(changes[k]))
    && ("status" in changes ==> StatusAllowed(changes["status"]))
  }

  /** An unset indexed field is indexed as `null`. */
  function IndexPart(v: Value): Value
  {
    if v.Undefined? then Null else v
  }

  /** The value under the compound unique index (email, company, branch, status). */
  function UniqueKey(d: Doc): (key: Value)
    ensures key.Arr? && |key.items| == 4
  {
    Arr([IndexPart(Get(d, "email")), IndexPart(Get(d, "company")),
         IndexPart(Get(d, "branch")), IndexPart(Get(d, "status"))])
  }

  /** Two credentials collide on the index exactly when all four indexed fields agree. */
  lemma UniqueKeyParts(d1: Doc, d2: Doc)
    ensures UniqueKey(d1) == UniqueKey(d2) <==>
      && IndexPart(Get(d1, "email")) == IndexPart(Get(d2, "email"))
      && IndexPart(Get(d1, "company")) == IndexPart(Get(d2, "company"))
      && IndexPart(Get(d1, "branch")) == IndexPart(Get(d2, "branch"))
      && IndexPart(Get(d1, "status")) == IndexPart(Get(d2, "status"))
  {
    var k1, k2 := UniqueKey(d1), UniqueKey(d2);
    if k1 == k2 {
      assert k1.items[0] == k2.items[0] && k1.items[1] == k2.items[1];
      assert k1.items[2] == k2.items[2] && k1.items[3] == k2.items[3];
    }
  }

  /** `toJSON`: `_id` renamed to `id`, `passwordHash` deleted. */
  function ToJson(d: Doc): (j: Doc)
    ensures "_id" !in j && "passwordHash" !in j
    ensures Get(j, "id") == Get(d, "_id")
    ensures forall k | k in d && k !in {"_id", "id", "passwordHash"} :: k in j && j[k] == d[k]
  {
    RenameId(d) - {"passwordHash"}
  }

  /** A stored e-mail is lower-cased and trimmed: casting it again changes nothing. */
  lemma EmailStoredNormalized(d: Doc)
    requires "email" in d && d["email"].Str?
    ensures Cast(d)["email"] == Str(Lower(Trim(d["email"].s)))
    ensures NormalizeEmail(Cast(d)["email"]) == Cast(d)["email"]
  {
    TrimLowerIdempotent(d["email"].s);
  }
}

/**
 * The sector, notice and address schemas: defaults, the `trim` and
 * `lowercase` setters, required paths and the status enumeration.
 */
module RecordModels {
  import opened JsValues

  /** A required path rejects `undefined`, `null` and the empty string. */
  predicate Present(v: Value)
  {
    !Nullish(v) && v != Str("")
  }

  /** The `enum: [0, 1]` validator; it does not look at an unset status. */
  predicate StatusAllowed(v: Value)
  {
    Nullish(v) || v == Num(0) || v == Num(1)
  }

  /** Every path in `paths` is present. */
  predicate HasRequired(d: Doc, paths: set<string>)
  {
    forall p | p in paths :: Present(Get(d, p))
  }

  /** Update validation of required paths: only those being set are checked. */
  predicate SetsRequired(changes: Doc, paths: set<string>)
  {
    forall p | p in paths && p in changes :: Present(changes[p])
  }

  /** The `trim` setter on the string values of `paths`, and `lowercase` on those of `lowered`. */
  function TrimPaths(d: Doc, paths: set<string>, lowered: set<string>): (r: Doc)
    ensures r.Keys == d.Keys
    ensures forall k | k in d && (k !in paths || !d[k].Str?) :: r[k] == d[k]
  {
    map k | k in d ::
      if k in paths && d[k].Str? then Str(if k in lowered then Lower(Trim(d[k].s)) else Trim(d[k].s)) else d[k]
  }

  // ------------------------------------------------------------------ sector

  const SectorRequired: set<string> := {"name", "company"}
  const SectorTrimmed: set<string> :=
    {"name", "technicalManager", "responsible", "phone", "email", "address", "sectorType", "manager", "description"}

  /** A sector has no defaults and, notably, no status field at all. */
  function SectorDefaults(): Doc
  {
    map[]
  }

  function SectorCast(d: Doc): (r: Doc)
    ensures r.Keys == d.Keys
    ensures forall k | k in d && (k !in SectorTrimmed || !d[k].Str?) :: r[k] == d[k]
  {
    TrimPaths(d, SectorTrimmed, {"email"})
  }

  predicate SectorValid(d: Doc)
  {
    HasRequired(d, SectorRequired)
  }

  predicate SectorUpdateValid(changes: Doc)
  {
    SetsRequired(changes, SectorRequired)
  }

  // ------------------------------------------------------------------ notice

  const NoticeRequired: set<string> := {"message", "company"}
  const NoticeTrimmed: set<string> := {"message", "importance"}

  /** A notice defaults to no sector, no expiry, not viewed, active. */
  function NoticeDefaults(): (d: Doc)
    ensures Get(d, "sector") == Null && Get(d, "viewed") == Bool(false) && Get(d, "status") == Num(1)
  {
    map["sector" := Null, "expiresAt" := Null, "viewed" := Bool(false), "status" := Num(1)]
  }

  function NoticeCast(d: Doc): (r: Doc)
    ensures r.Keys == d.Keys
    ensures forall k | k in d && (k !in NoticeTrimmed || !d[k].Str?) :: r[k] == d[k]
  {
    TrimPaths(d, NoticeTrimmed, {})
  }

  predicate NoticeValid(d: Doc)
  {
    HasRequired(d, NoticeRequired) && StatusAllowed(Get(d, "status"))
  }

  predicate NoticeUpdateValid(changes: Doc)
  {
    SetsRequired(changes, NoticeRequired) && ("status" in changes ==> StatusAllowed(changes["status"]))
  }

  // ----------------------------------------------------------------- address

  /** The required string paths of an address; the owning company is required as well. */
  const AddressRequiredStrings: set<string> := {"street", "number", "cep", "city", "state", "district"}
  const AddressRequired: set<string> := AddressRequiredStrings + {"company"}

  /** An address defaults to no complement, active. */
  function AddressDefaults(): (d: Doc)
    ensures Get(d, "complement") == Null && Get(d, "status") == Num(1)
  {
    map["complement" := Null, "status" := Num(1)]
  }

  const AddressTrimmed: set<string> := {"street", "number", "cep", "complement", "city", "state", "district"}

  function AddressCast(d: Doc): (r: Doc)
    ensures r.Keys == d.Keys
    ensures forall k | k in d && (k !in AddressTrimmed || !d[k].Str?) :: r[k] == d[k]
  {
    TrimPaths(d, AddressTrimmed, {})
  }

  predicate AddressValid(d: Doc)
  {
    HasRequired(d, AddressRequired) && StatusAllowed(Get(d, "status"))
  }

  predicate AddressUpdateValid(changes: Doc)
  {
    SetsRequired(changes, AddressRequired) && ("status" in changes ==> StatusAllowed(changes["status"]))
  }
}
