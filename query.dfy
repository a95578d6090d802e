/**
 * The fragment of the document-store query language the controllers build:
 * field equality, `$exists`, `$ne: null`, case-insensitive regular expressions
 * made from escaped literals, `$or` and `$and`; and the status filter that
 * every controller derives from the `status` query parameter.
 */
module Query {
  import opened JsValues

  /** A dotted field path such as `matrixCompany.id`, split at the dots. */
  type Path = seq<string>

  function LookupIn(v: Value, path: Path): Value
    decreases |path|
  {
    if path == [] then v else LookupIn(Prop(v, path[0]), path[1..])
  }

  /** The value at `path` in `d`, `undefined` when some step is missing. */
  function Lookup(d: Doc, path: Path): Value
  {
    LookupIn(Obj(d), path)
  }

  datatype Clause =
    | FieldEquals(path: Path, value: Value)       // { path: value }
    | FieldExists(path: Path, present: bool)      // { path: { $exists: present } }
    | FieldNotNull(path: Path)                    // { path: { $ne: null } }
    | FieldMatches(path: Path, pattern: string)   // { path: new RegExp(pattern, 'i') }
    | AnyOf(clauses: seq<Clause>)                 // { $or: clauses }
    | AllOf(clauses: seq<Clause>)                 // { $and: clauses }

  /**
   * Whether document `d` satisfies clause `c`.  Equality with `null` also
   * holds of a missing field, as in the store; a regular expression only
   * matches string fields.
   */
  predicate Eval(c: Clause, d: Doc)
  {
    match c
    case FieldEquals(p, v) =>
      if Nullish(v) then Nullish(Lookup(d, p)) else Lookup(d, p) == v
    case FieldExists(p, present) => !Lookup(d, p).Undefined? == present
    case FieldNotNull(p) => !Nullish(Lookup(d, p))
    case FieldMatches(p, pattern) =>
      Lookup(d, p).Str? && ContainsIgnoringCase(Lookup(d, p).s, Unescape(pattern))
    case AnyOf(cs) => exists i | 0 <= i < |cs| :: Eval(cs[i], d)
    case AllOf(cs) => forall i | 0 <= i < |cs| :: Eval(cs[i], d)
  }

  // ------------------------------------------------ literal regular expressions

  /** The characters with a meaning of their own in a JavaScript regular expression. */
  predicate IsRegexSpecial(c: char)
  {
    c in ".*+?^${}()|[]\\"
  }

  /**
   * The text an escaped-literal pattern stands for: `\c` is the character
   * `c`, every other character is itself.  This is all of the regular
   * expression engine the model needs, since every pattern the controllers
   * build is a literal passed through `escapeRegex`.
   */
  function Unescape(p: string): string
  {
    if p == [] then []
    else if p[0] == '\\' && |p| >= 2 then [p[1]] + Unescape(p[2..])
    else [p[0]] + Unescape(p[1..])
  }

  /** `part` occurs somewhere in `text`. */
  predicate ContainsSeq(text: string, part: string)
  {
    part <= text || (text != [] && ContainsSeq(text[1..], part))
  }

  predicate ContainsIgnoringCase(text: string, part: string)
  {
    ContainsSeq(Lower(text), Lower(part))
  }

  // ------------------------------------------------------------- query objects

  /**
   * A filter object: top-level field equalities (`filter.company = …`) and
   * the conjunctive list under `filter.$and`, empty when that key is absent.
   */
  datatype Query = Query(fields: map<string, Value>, clauses: seq<Clause>)

  predicate Matches(q: Query, d: Doc)
  {
    && (forall k | k in q.fields :: Eval(FieldEquals([k], q.fields[k]), d))
    && (forall i | 0 <= i < |q.clauses| :: Eval(q.clauses[i], d))
  }

  /** Every document `q2` selects, `q1` selects too. */
  ghost predicate Narrower(q2: Query, q1: Query)
  {
    forall d :: Matches(q2, d) ==> Matches(q1, d)
  }

  /** Push a clause, if there is one, onto `$and`. */
  function AddClause(q: Query, c: Option<Clause>): Query
  {
    match c
    case None => q
    case Some(x) => q.(clauses := q.clauses + [x])
  }

  /** `filter[key] = v` */
  function SetField(q: Query, key: string, v: Value): Query
  {
    q.(fields := q.fields[key := v])
  }

  /** Pushing onto `$and` is conjunction: the new query holds exactly where both hold. */
  lemma AddClauseConjoins(q: Query, c: Clause, d: Doc)
    ensures Matches(AddClause(q, Some(c)), d) <==> Matches(q, d) && Eval(c, d)
  {
    var q' := AddClause(q, Some(c));
    assert forall i | 0 <= i < |q.clauses| :: q'.clauses[i] == q.clauses[i];
    assert q'.clauses[|q.clauses|] == c;
  }

  /** Adding a clause never adds results. */
  lemma AddClauseNarrows(q: Query, c: Option<Clause>)
    ensures Narrower(AddClause(q, c), q)
  {
    forall d | Matches(AddClause(q, c), d) ensures Matches(q, d) {
      if c.Some? { AddClauseConjoins(q, c.value, d); }
    }
  }

  /** Setting a field that was not yet constrained conjoins its equality. */
  lemma SetFieldConjoins(q: Query, key: string, v: Value, d: Doc)
    requires key !in q.fields
    ensures Matches(SetField(q, key, v), d) <==> Matches(q, d) && Eval(FieldEquals([key], v), d)
  {
    var q' := SetField(q, key, v);
    if Matches(q, d) && Eval(FieldEquals([key], v), d) {
      forall k | k in q'.fields ensures Eval(FieldEquals([k], q'.fields[k]), d) {
        if k != key { assert q'.fields[k] == q.fields[k]; }
      }
    }
    if Matches(q', d) {
      assert q'.fields[key] == v;
      forall k | k in q.fields ensures Eval(FieldEquals([k], q.fields[k]), d) {
        assert q'.fields[k] == q.fields[k];
      }
    }
  }

  /** Setting an unconstrained key to a non-null value keeps the documents holding that value. */
  lemma SetFieldMeaning(q: Query, key: string, v: Value, d: Doc)
    requires key !in q.fields && !Nullish(v)
    ensures Matches(SetField(q, key, v), d) <==> Matches(q, d) && Get(d, key) == v
  {
    SetFieldConjoins(q, key, v, d);
    assert [key][1..] == [];
    assert Lookup(d, [key]) == LookupIn(Prop(Obj(d), key), []) == Get(d, key);
  }

  // -------------------------------------------------------------- status filter

  const ActiveStatus := 1

  /** `{ $or: [{ status: 1 }, { status: { $exists: false } }] }` */
  function ActiveOrUnset(): Clause
  {
    AnyOf([FieldEquals(["status"], Num(ActiveStatus)), FieldExists(["status"], false)])
  }

  /** The active-or-unset clause keeps records whose status is 1 or was never set. */
  lemma ActiveOrUnsetMeaning(d: Doc)
    ensures Eval(ActiveOrUnset(), d) <==> Get(d, "status") == Num(1) || Get(d, "status") == Undefined
  {
    var cs := ActiveOrUnset().clauses;
    assert Lookup(d, ["status"]) == Get(d, "status");
    if Get(d, "status") == Num(1) { assert Eval(cs[0], d); }
    if Get(d, "status") == Undefined { assert Eval(cs[1], d); }
  }

  /** What a `status` query parameter resolves to: all statuses, or one status. */
  datatype StatusFilter = AnyStatus | StatusIs(n: int)

  /**
   * `resolveStatusFilter`: absent, `null` or `''` mean the active status,
   * `'all'` means no filter, anything else is `Number(value)`, falling back
   * to the active status when that is NaN.
   */
  function ResolveStatusFilter(v: Value): (r: StatusFilter)
    ensures r == AnyStatus <==> v == Str("all")
    ensures Nullish(v) || v == Str("") ==> r == StatusIs(ActiveStatus)
    ensures r.StatusIs? && r.n != ActiveStatus ==> ToNumber(v) == Some(r.n)
    ensures !Nullish(v) && v != Str("") && v != Str("all") && ToNumber(v).Some? ==> r == StatusIs(ToNumber(v).value)
    ensures !Nullish(v) && v != Str("") && v != Str("all") && ToNumber(v).None? ==> r == StatusIs(ActiveStatus)
  {
    if v == Undefined || v == Null || v == Str("") then StatusIs(ActiveStatus)
    else if v == Str("all") then AnyStatus
    else match ToNumber(v)
      case None => StatusIs(ActiveStatus)
      case Some(n) => StatusIs(n)
  }

  /**
   * `buildStatusClause`: no clause for all statuses; the active-or-unset
   * clause for the active status; an equality clause for any other number.
   */
  function BuildStatusClause(v: Value): (r: Option<Clause>)
    ensures r.None? <==> v == Str("all")
  {
    match ResolveStatusFilter(v)
    case AnyStatus => None
    case StatusIs(n) =>
      if n == ActiveStatus then Some(ActiveOrUnset()) else Some(FieldEquals(["status"], Num(n)))
  }

  /** `sanitizeStatusValue`: a number or nothing. */
  function SanitizeStatusValue(v: Value): (r: Value)
    ensures r == Undefined || (r.Num? && ToNumber(v) == Some(r.n))
    ensures Nullish(v) || v == Str("") || ToNumber(v).None? ==> r == Undefined
    ensures !Nullish(v) && v != Str("") && ToNumber(v).Some? ==> r == Num(ToNumber(v).value)
  {
    if v == Undefined || v == Null || v == Str("") then Undefined
    else match ToNumber(v)
      case None => Undefined
      case Some(n) => Num(n)
  }

  /** Reference meaning of a resolved status filter on a stored record. */
  predicate StatusSelects(f: StatusFilter, d: Doc)
  {
    match f
    case AnyStatus => true
    case StatusIs(n) =>
      Get(d, "status") == Num(n) || (n == ActiveStatus && Get(d, "status") == Undefined)
  }

  /** The clause `buildStatusClause` builds selects exactly what the resolved filter means. */
  lemma StatusClauseMeaning(v: Value, d: Doc)
    ensures BuildStatusClause(v).Some? ==>
      (Eval(BuildStatusClause(v).value, d) <==> StatusSelects(ResolveStatusFilter(v), d))
  {
    match ResolveStatusFilter(v)
    case AnyStatus =>
    case StatusIs(n) =>
      if n == ActiveStatus {
        ActiveOrUnsetMeaning(d);
      } else {
        assert Lookup(d, ["status"]) == Get(d, "status");
      }
  }

  /** A query with the status parameter applied selects exactly the documents of the
      original query whose status the parameter admits. */
  lemma StatusFilterConjoins(q: Query, v: Value, d: Doc)
    ensures Matches(AddClause(q, BuildStatusClause(v)), d)
        <==> Matches(q, d) && StatusSelects(ResolveStatusFilter(v), d)
  {
    if BuildStatusClause(v).Some? {
      AddClauseConjoins(q, BuildStatusClause(v).value, d);
      StatusClauseMeaning(v, d);
    }
  }

  /**
   * The documented behaviour of the status parameter: `''`, absent and `'1'`
   * keep active-or-unset records and an unparseable value behaves like `'1'`.
   */
  lemma StatusFilterDefaults()
    ensures ResolveStatusFilter(Str("")) == StatusIs(1)
    ensures ResolveStatusFilter(Undefined) == StatusIs(1)
    ensures ResolveStatusFilter(Str("1")) == StatusIs(1)
    ensures ResolveStatusFilter(Str("xyz")) == StatusIs(1)
    ensures BuildStatusClause(Str("xyz")) == BuildStatusClause(Str("1")) == Some(ActiveOrUnset())
  {
    ParseNumericOfDigits("1");
    assert ToNumber(Str("1")) == Some(1);
    ParseNumericNotDigits("xyz");
    assert ToNumber(Str("xyz")) == None;
  }

  /** `'0'` keeps exactly the records with status 0; `'all'` keeps every record. */
  lemma StatusFilterExact(d: Doc)
    ensures ResolveStatusFilter(Str("0")) == StatusIs(0)
    ensures BuildStatusClause(Str("0")).Some?
    ensures Eval(BuildStatusClause(Str("0")).value, d) <==> Get(d, "status") == Num(0)
    ensures BuildStatusClause(Str("all")) == None
  {
    ParseNumericOfDigits("0");
    assert ParseDigits("0") == Some(0);
    assert ToNumber(Str("0")) == Some(0);
    StatusClauseMeaning(Str("0"), d);
  }
}
