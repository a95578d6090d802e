/**
 * The pure helpers of the company controller: the search and matrix
 * filters, the boolean-like parser, the payload normaliser and the response
 * mapper.
 */
module CompanyRules {
  import opened JsValues
  import opened Query
  import CompanyModel

  // ---------------------------------------------------------------- search

  /** `escapeRegex`: a backslash before every regular-expression metacharacter. */
  function EscapeRegex(s: string): string
  {
    if s == [] then []
    else (if IsRegexSpecial(s[0]) then ['\\', s[0]] else [s[0]]) + EscapeRegex(s[1..])
  }

  /** Escaping works character by character. */
  lemma {:induction false} EscapeRegexConcat(a: string, b: string)
    ensures EscapeRegex(a + b) == EscapeRegex(a) + EscapeRegex(b)
  {
    if a == [] {
      assert a + b == b;
    } else {
      assert (a + b)[0] == a[0] && (a + b)[1..] == a[1..] + b;
      EscapeRegexConcat(a[1..], b);
    }
  }

  /** Each metacharacter is prefixed with a backslash; every other character is kept. */
  lemma EscapeRegexAt(a: string, c: char, b: string)
    ensures EscapeRegex(a + [c] + b)
         == EscapeRegex(a) + (if IsRegexSpecial(c) then ['\\', c] else [c]) + EscapeRegex(b)
  {
    var e := if IsRegexSpecial(c) then ['\\', c] else [c];
    assert [c][1..] == [] && [c][0] == c;
    assert EscapeRegex([c]) == e + EscapeRegex([]) == e;
    EscapeRegexConcat(a + [c], b);
    EscapeRegexConcat(a, [c]);
  }

  /** The escaped pattern stands for exactly the text it was made from. */
  lemma {:induction false} UnescapeEscapeRegex(s: string)
    ensures Unescape(EscapeRegex(s)) == s
  {
    if s != [] {
      UnescapeEscapeRegex(s[1..]);
      var p := EscapeRegex(s);
      if IsRegexSpecial(s[0]) {
        assert p == ['\\', s[0]] + EscapeRegex(s[1..]);
        assert p[2..] == EscapeRegex(s[1..]);
      } else {
        assert p == [s[0]] + EscapeRegex(s[1..]);
        assert p[0] != '\\';
        assert p[1..] == EscapeRegex(s[1..]);
      }
    }
  }

  /**
   * `buildSearchClause`: nothing for a non-string or blank search; otherwise a
   * case-insensitive match of the trimmed, escaped text on name, legalName
   * or cnpj.
   */
  function BuildSearchClause(search: Value): (r: Option<Clause>)
    ensures r.None? <==> !search.Str? || Trim(search.s) == ""
  {
    if !Truthy(search) || !search.Str? then None
    else
      var trimmed := Trim(search.s);
      if trimmed == "" then None
      else
        var pattern := EscapeRegex(trimmed);
        Some(AnyOf([FieldMatches(["name"], pattern), FieldMatches(["legalName"], pattern),
                    FieldMatches(["cnpj"], pattern)]))
  }

  /** The string field `field` of `d` contains `text`, ignoring case. */
  predicate FieldContains(d: Doc, field: string, text: string)
  {
    Get(d, field).Str? && ContainsIgnoringCase(Get(d, field).s, text)
  }

  /** One field of the search: the escaped pattern matches exactly where the field contains the text. */
  lemma FieldPatternMeaning(field: string, t: string, d: Doc)
    ensures Eval(FieldMatches([field], EscapeRegex(t)), d) <==> FieldContains(d, field, t)
  {
    UnescapeEscapeRegex(t);
    assert [field][1..] == [];
    assert Lookup(d, [field]) == LookupIn(Prop(Obj(d), field), []) == Get(d, field);
  }

  /** A search selects the records whose name, legal name or cnpj contains the trimmed text. */
  lemma SearchClauseMeaning(search: Value, d: Doc)
    requires BuildSearchClause(search).Some?
    ensures var t := Trim(search.s);
      Eval(BuildSearchClause(search).value, d) <==>
        FieldContains(d, "name", t) || FieldContains(d, "legalName", t) || FieldContains(d, "cnpj", t)
  {
    var t := Trim(search.s);
    var pattern := EscapeRegex(t);
    var cs := [FieldMatches(["name"], pattern), FieldMatches(["legalName"], pattern), FieldMatches(["cnpj"], pattern)];
    assert BuildSearchClause(search).value == AnyOf(cs);
    FieldPatternMeaning("name", t, d);
    FieldPatternMeaning("legalName", t, d);
    FieldPatternMeaning("cnpj", t, d);
    AnyOfThree(cs[0], cs[1], cs[2], d);
  }

  lemma AnyOfThree(c0: Clause, c1: Clause, c2: Clause, d: Doc)
    ensures Eval(AnyOf([c0, c1, c2]), d) <==> Eval(c0, d) || Eval(c1, d) || Eval(c2, d)
  {
    var cs := [c0, c1, c2];
    assert cs[0] == c0 && cs[1] == c1 && cs[2] == c2;
  }

  // ------------------------------------------------------------ matrix filter

  const TrueWords: seq<string> := ["true", "1", "yes", "y"]
  const FalseWords: seq<string> := ["false", "0", "no", "n"]

  /** `parseBooleanLike`: a case-insensitive yes or no, or nothing. */
  function ParseBooleanLike(v: Value): (r: Option<bool>)
    ensures Nullish(v) || v == Str("") ==> r.None?
    ensures !Nullish(v) && v != Str("") ==>
      && (r == Some(true) <==> Lower(ToString(v)) in TrueWords)
      && (r == Some(false) <==> Lower(ToString(v)) in FalseWords)
  {
    if v == Undefined || v == Null || v == Str("") then None
    else
      var normalized := Lower(ToString(v));
      if normalized in TrueWords then Some(true)
      else if normalized in FalseWords then Some(false)
      else None
  }

  /** Case does not matter to `parseBooleanLike`. */
  lemma ParseBooleanLikeIgnoresCase(s: string)
    ensures ParseBooleanLike(Str(s)) == ParseBooleanLike(Str(Lower(s)))
  {
    LowerIdempotent(s);
  }

  /** The clause for `isMatrix=true`: no parent reference or no parent id. */
  function MatrixOnlyClause(): Clause
  {
    AnyOf([FieldEquals(["matrixCompany"], Null), FieldExists(["matrixCompany"], false),
           FieldExists(["matrixCompany", "id"], false), FieldEquals(["matrixCompany", "id"], Null)])
  }

  /** The clause for `isMatrix=false`: a parent reference with a parent id. */
  function BranchesOnlyClause(): Clause
  {
    AllOf([FieldExists(["matrixCompany"], true), FieldNotNull(["matrixCompany"]),
           FieldExists(["matrixCompany", "id"], true), FieldNotNull(["matrixCompany", "id"])])
  }

  /** `buildMatrixClause` */
  function BuildMatrixClause(v: Value): (r: Option<Clause>)
    ensures r.None? <==> ParseBooleanLike(v).None?
    ensures ParseBooleanLike(v) == Some(true) ==> r == Some(MatrixOnlyClause())
    ensures ParseBooleanLike(v) == Some(false) ==> r == Some(BranchesOnlyClause())
  {
    match ParseBooleanLike(v)
    case None => None
    case Some(b) => if b then Some(MatrixOnlyClause()) else Some(BranchesOnlyClause())
  }

  /** The matrix clause holds exactly when the parent id is null or missing. */
  lemma MatrixOnlyMeaning(d: Doc)
    ensures Eval(MatrixOnlyClause(), d) <==> Nullish(Lookup(d, ["matrixCompany", "id"]))
  {
    var mc := Lookup(d, ["matrixCompany"]);
    var id := Lookup(d, ["matrixCompany", "id"]);
    assert mc == Get(d, "matrixCompany");
    assert id == Prop(mc, "id");
    var cs := MatrixOnlyClause().clauses;
    if Nullish(id) {
      assert Eval(cs[3], d);
    }
  }

  /** The branch clause holds exactly when the parent id is set and not null. */
  lemma BranchesOnlyMeaning(d: Doc)
    ensures Eval(BranchesOnlyClause(), d) <==> !Nullish(Lookup(d, ["matrixCompany", "id"]))
  {
    var mc := Lookup(d, ["matrixCompany"]);
    var id := Lookup(d, ["matrixCompany", "id"]);
    assert mc == Get(d, "matrixCompany");
    assert id == Prop(mc, "id");
    var cs := BranchesOnlyClause().clauses;
    if !Nullish(id) {
      assert mc.Obj?;
      assert forall i | 0 <= i < 4 :: Eval(cs[i], d);
    } else {
      assert !Eval(cs[3], d);
    }
  }

  /** `isMatrix=true` and `isMatrix=false` split every collection in two. */
  lemma MatrixClausesComplementary(d: Doc)
    ensures Eval(MatrixOnlyClause(), d) <==> !Eval(BranchesOnlyClause(), d)
  {
    MatrixOnlyMeaning(d);
    BranchesOnlyMeaning(d);
  }

  /**
   * The `isMatrix=true` filter agrees with the `isMatrix` virtual on every
   * record whose parent id, when present, is truthy.
   */
  lemma MatrixClauseAgreesWithVirtual(d: Doc)
    requires Nullish(Lookup(d, ["matrixCompany", "id"])) || Truthy(Lookup(d, ["matrixCompany", "id"]))
    ensures Eval(MatrixOnlyClause(), d) <==> CompanyModel.IsMatrix(d)
  {
    MatrixOnlyMeaning(d);
    assert Lookup(d, ["matrixCompany", "id"]) == Prop(Get(d, "matrixCompany"), "id");
  }

  // ------------------------------------------------------------- normalising

  /** The `{ id, name }` shape of a parent reference. */
  function MatrixRef(id: Value, name: Value): (r: Value)
    ensures r.Obj? && r.fields.Keys == {"id", "name"} && r.fields["id"] == id && r.fields["name"] == name
  {
    Obj(map["id" := id, "name" := name])
  }

  /**
   * `normalizeMatrixCompany`: a trimmed id string, or an object's id (falling
   * back to `_id` and then to the object itself) and name (falling back to
   * `legalName`); null for anything else.
   */
  function NormalizeMatrixCompany(mc: Value): (r: Value)
    ensures r == Null || (r.Obj? && r.fields.Keys == {"id", "name"})
    ensures !Truthy(mc) || mc.Bool? || mc.Num? ==> r == Null
    ensures mc.Str? ==> r == (if Trim(mc.s) == "" then Null else MatrixRef(Str(Trim(mc.s)), Null))
    ensures mc.Obj? || mc.Arr? ==> r.Obj? && r.fields["id"].Str?
    ensures (mc.Obj? || mc.Arr?) && Truthy(Prop(mc, "id")) ==> r.fields["id"] == Str(ToString(Prop(mc, "id")))
    ensures (mc.Obj? || mc.Arr?) && !Truthy(Prop(mc, "id")) && Truthy(Prop(mc, "_id")) ==>
      r.fields["id"] == Str(ToString(Prop(mc, "_id")))
    ensures (mc.Obj? || mc.Arr?) && !Truthy(Prop(mc, "id")) && !Truthy(Prop(mc, "_id")) ==>
      r.fields["id"] == Str(ToString(mc))
    ensures mc.Obj? || mc.Arr? ==>
      r.fields["name"] == if Truthy(Prop(mc, "name")) then Prop(mc, "name")
                          else if Truthy(Prop(mc, "legalName")) then Prop(mc, "legalName")
                          else Null
  {
    if !Truthy(mc) then Null
    else if mc.Str? then
      var trimmed := Trim(mc.s);
      if trimmed != "" then MatrixRef(Str(trimmed), Null) else Null
    else if mc.Obj? || mc.Arr? then
      var id := Or(Or(Prop(mc, "id"), Prop(mc, "_id")), mc);
      var name := Or(Or(Prop(mc, "name"), Prop(mc, "legalName")), Null);
      if !Truthy(id) && !Truthy(name) then Null
      else MatrixRef(if Truthy(id) then Str(ToString(id)) else Null, Or(name, Null))
    else Null
  }

  /** An object without `id` or `_id` becomes its own id, spelled `[object Object]`. */
  lemma ObjectMatrixIdFallback(fields: map<string, Value>)
    requires !Truthy(Get(fields, "id")) && !Truthy(Get(fields, "_id"))
    ensures NormalizeMatrixCompany(Obj(fields)).fields["id"] == Str("[object Object]")
  {
  }

  /** `list.filter(Boolean)` */
  function FilterTruthy(items: seq<Value>): (r: seq<Value>)
    ensures forall i | 0 <= i < |r| :: Truthy(r[i])
    ensures forall x :: x in r <==> x in items && Truthy(x)
    ensures |r| <= |items|
  {
    if items == [] then []
    else (if Truthy(items[0]) then [items[0]] else []) + FilterTruthy(items[1..])
  }

  /** Every truthy element is kept as many times as it occurs. */
  lemma {:induction false} FilterTruthyCounts(items: seq<Value>, x: Value)
    requires Truthy(x)
    ensures multiset(FilterTruthy(items))[x] == multiset(items)[x]
  {
    if items != [] {
      var head := if Truthy(items[0]) then [items[0]] else [];
      assert items == [items[0]] + items[1..];
      assert FilterTruthy(items) == head + FilterTruthy(items[1..]);
      FilterTruthyCounts(items[1..], x);
    }
  }

  /** Filtering keeps the order of the list: it works element by element. */
  lemma {:induction false} FilterTruthyConcat(a: seq<Value>, b: seq<Value>)
    ensures FilterTruthy(a + b) == FilterTruthy(a) + FilterTruthy(b)
  {
    if a == [] {
      assert a + b == b;
    } else {
      assert (a + b)[0] == a[0] && (a + b)[1..] == a[1..] + b;
      FilterTruthyConcat(a[1..], b);
    }
  }

  /** `Array.isArray(v) ? v.filter(Boolean) : []` */
  function TruthyList(v: Value): (r: Value)
    ensures r.Arr? && forall x | x in r.items :: Truthy(x)
    ensures v.Arr? ==> forall x | x in v.items && Truthy(x) :: x in r.items
    ensures !v.Arr? ==> r == Arr([])
  {
    if v.Arr? then Arr(FilterTruthy(v.items)) else Arr([])
  }

  const PassThroughKeys: set<string> :=
    {"name", "legalName", "cnpj", "stateRegistration", "municipalRegistration", "activity"}

  /**
   * `normalizeCompanyPayload`: the descriptive fields as given, the phone and
   * e-mail lists without falsy entries, the normalised parent reference and
   * the sanitised status.  Keys whose value is undefined stay in the payload;
   * the store ignores them.
   */
  function NormalizeCompanyPayload(body: Value): (p: Doc)
    ensures p.Keys == PassThroughKeys + {"phones", "emails", "matrixCompany", "status"}
    ensures forall k | k in PassThroughKeys :: p[k] == Prop(body, k)
    ensures p["phones"] == TruthyList(Prop(body, "phones"))
    ensures p["emails"] == TruthyList(Prop(body, "emails"))
    ensures p["matrixCompany"] == NormalizeMatrixCompany(Prop(body, "matrixCompany"))
    ensures p["status"] == SanitizeStatusValue(Prop(body, "status"))
  {
    var mc := Prop(body, "matrixCompany");
    var given := if mc.Undefined? then Null else mc;
    assert NormalizeMatrixCompany(given) == NormalizeMatrixCompany(mc) by {
      if mc.Undefined? { assert NormalizeMatrixCompany(given) == Null == NormalizeMatrixCompany(mc); }
    }
    var extra := map["phones" := TruthyList(Prop(body, "phones")),
                     "emails" := TruthyList(Prop(body, "emails")),
                     "matrixCompany" := NormalizeMatrixCompany(given),
                     "status" := SanitizeStatusValue(Prop(body, "status"))];
    ExtraKeysApart();
    CopyMerged(body, PassThroughKeys, extra);
    Copy(body, PassThroughKeys) + extra
  }

  /** Copied fields and added fields under disjoint keys, side by side. */
  lemma CopyMerged(v: Value, keys: set<string>, extra: Doc)
    requires keys !! extra.Keys
    ensures var m := Copy(v, keys) + extra;
      && m.Keys == keys + extra.Keys
      && (forall k | k in keys :: m[k] == Prop(v, k))
      && (forall k | k in extra :: m[k] == extra[k])
  {
  }

  /** The normalised keys are not among the descriptive fields. */
  lemma ExtraKeysApart()
    ensures PassThroughKeys !! {"phones", "emails", "matrixCompany", "status"}
  {
  }

  /** The parent reference as `mapCompanyResponse` shows it. */
  function ResponseMatrix(mc: Value): (r: Value)
    ensures r == Null || (r.Obj? && r.fields.Keys == {"id", "name"})
    ensures !Truthy(mc) <==> r == Null
  {
    if Truthy(mc) && (mc.Obj? || mc.Arr?) then
      var id := Prop(mc, "id");
      MatrixRef(if Truthy(id) then Str(ToString(id)) else Null, Or(Prop(mc, "name"), Null))
    else if Truthy(mc) then MatrixRef(Str(ToString(mc)), Null)
    else Null
  }

  /**
   * Mapping a mapped reference again changes nothing, unless the parent id
   * is an array (whose spelling may be empty, hence falsy the second time).
   */
  lemma ResponseMatrixIdempotent(mc: Value)
    requires !Prop(mc, "id").Arr?
    ensures ResponseMatrix(ResponseMatrix(mc)) == ResponseMatrix(mc)
  {
    var r := ResponseMatrix(mc);
    if r.Obj? {
      var id := Prop(r, "id");
      assert id == Null || (id.Str? && id.s != "") || id == Str("");
      assert Or(Prop(r, "name"), Null) == Prop(r, "name");
    }
  }

  /** A reference with a non-blank id and a truthy or null name is shown as it is. */
  lemma ResponseMatrixPreserves(s: string, n: Value)
    requires s != "" && (n == Null || Truthy(n))
    ensures ResponseMatrix(MatrixRef(Str(s), n)) == MatrixRef(Str(s), n)
  {
    var mc := MatrixRef(Str(s), n);
    assert Prop(mc, "id") == Str(s) && Prop(mc, "name") == n;
  }

  /**
   * A stored parent reference, as the normaliser writes it, is shown as
   * stored, unless its id is spelled as the empty string.
   */
  lemma NormalizedMatrixShown(mc: Value)
    requires var r := NormalizeMatrixCompany(mc); r == Null || r.fields["id"] != Str("")
    ensures ResponseMatrix(NormalizeMatrixCompany(mc)) == NormalizeMatrixCompany(mc)
  {
    var r := NormalizeMatrixCompany(mc);
    if r != Null {
      assert r.fields["id"].Str? by {
        if mc.Str? { assert r == MatrixRef(Str(Trim(mc.s)), Null); }
      }
      assert r.fields["name"] == Null || Truthy(r.fields["name"]);
      assert r == MatrixRef(r.fields["id"], r.fields["name"]);
      ResponseMatrixPreserves(r.fields["id"].s, r.fields["name"]);
    }
  }

  /** A parent reference given as an id string reads back as `{ id, name: null }`. */
  lemma ResponseMatrixOfIdString(s: string)
    requires Trim(s) != ""
    ensures ResponseMatrix(NormalizeMatrixCompany(Str(s))) == MatrixRef(Str(Trim(s)), Null)
  {
  }

  /**
   * `mapCompanyResponse`: `_id` becomes `id`, `__v` is dropped, the parent
   * reference is reshaped and every other field is kept.
   */
  function MapCompanyResponse(company: Doc): (r: Doc)
    ensures "_id" !in r && "__v" !in r
    ensures Get(r, "id") == Get(company, "_id")
    ensures Get(r, "matrixCompany") == ResponseMatrix(Get(company, "matrixCompany"))
    ensures forall k | k in company && k !in {"_id", "__v", "matrixCompany", "id"} :: k in r && r[k] == company[k]
    ensures forall k | k in r :: k in company || k == "id" || k == "matrixCompany"
  {
    var rest := company - {"_id", "__v", "matrixCompany"};
    rest["id" := Get(company, "_id")]["matrixCompany" := ResponseMatrix(Get(company, "matrixCompany"))]
  }
}
