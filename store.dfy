/**
 * An in-memory stand-in for the document store behind the five models.  A
 * collection is a map from id to record plus the insertion order that
 * `find` returns results in; writes apply schema defaults, setters,
 * validators and unique indexes the way the schemas declare them.
 */
module Store {
  import opened JsValues
  import opened Query
  import CompanyModel
  import CredentialModel
  import RecordModels

  datatype Kind = Companies | Sectors | Credentials | Addresses | Notices

  datatype Table = Table(docs: map<string, Doc>, order: seq<string>)

  /** Every stored id appears once in the order, and each record carries its own id. */
  ghost predicate TableValid(t: Table)
  {
    && (forall id :: id in t.docs <==> id in t.order)
    && (forall i, j | 0 <= i < j < |t.order| :: t.order[i] != t.order[j])
    && (forall id | id in t.docs :: Get(t.docs[id], "_id") == Str(id))
  }

  datatype StoreError = ValidationError | DuplicateKey

  datatype Result<T> = Ok(value: T) | Err(error: StoreError)

  // ------------------------------------------------------------ schema rules

  function Defaults(k: Kind): Doc
  {
    match k
    case Companies => CompanyModel.Defaults()
    case Credentials => CredentialModel.Defaults()
    case Sectors => RecordModels.SectorDefaults()
    case Notices => RecordModels.NoticeDefaults()
    case Addresses => RecordModels.AddressDefaults()
  }

  /** The paths whose string values the setters of kind `k` change. */
  function SetterPaths(k: Kind): set<string>
  {
    match k
    case Companies => CompanyModel.TrimmedPaths
    case Credentials => {"email", "name"}
    case Sectors => RecordModels.SectorTrimmed
    case Notices => RecordModels.NoticeTrimmed
    case Addresses => RecordModels.AddressTrimmed
  }

  /** The setters: only string values of the setter paths change. */
  function Cast(k: Kind, d: Doc): (r: Doc)
    ensures r.Keys == d.Keys
    ensures forall f | f in d && (f !in SetterPaths(k) || !d[f].Str?) :: r[f] == d[f]
  {
    match k
    case Companies => CompanyModel.Cast(d)
    case Credentials => CredentialModel.Cast(d)
    case Sectors => RecordModels.SectorCast(d)
    case Notices => RecordModels.NoticeCast(d)
    case Addresses => RecordModels.AddressCast(d)
  }

  /** Document validation on create: required paths and the status enumeration. */
  predicate ValidFor(k: Kind, d: Doc)
  {
    match k
    case Companies => CompanyModel.Valid(d)
    case Credentials => CredentialModel.Valid(d)
    case Sectors => RecordModels.SectorValid(d)
    case Notices => RecordModels.NoticeValid(d)
    case Addresses => RecordModels.AddressValid(d)
  }

  /** Update validation on the paths being set. */
  predicate UpdateValidFor(k: Kind, changes: Doc)
  {
    match k
    case Companies => CompanyModel.UpdateValid(changes)
    case Credentials => CredentialModel.UpdateValid(changes)
    case Sectors => RecordModels.SectorUpdateValid(changes)
    case Notices => RecordModels.NoticeUpdateValid(changes)
    case Addresses => RecordModels.AddressUpdateValid(changes)
  }

  /** The value indexed by the collection's unique index, if it has one. */
  function UniqueKey(k: Kind, d: Doc): Option<Value>
  {
    match k
    case Companies => Some(CompanyModel.UniqueKey(d))
    case Credentials => Some(CredentialModel.UniqueKey(d))
    case _ => None
  }

  /** No two records of the collection share a value of its unique index. */
  predicate KeysUnique(k: Kind, t: Table)
  {
    forall a, b | a in t.docs && b in t.docs && a != b ::
      UniqueKey(k, t.docs[a]).None? || UniqueKey(k, t.docs[a]) != UniqueKey(k, t.docs[b])
  }

  /** Record `d`, stored under `self`, would break the unique index of `t`. */
  predicate Clashes(k: Kind, t: Table, d: Doc, self: string)
  {
    UniqueKey(k, d).Some? && exists id | id in t.docs && id != self :: UniqueKey(k, t.docs[id]) == UniqueKey(k, d)
  }

  /** `Model.create(payload)`: defaults for the unset paths, setters, the new id. */
  function Prepared(k: Kind, id: string, payload: Doc): (d: Doc)
    ensures Get(d, "_id") == Str(id)
    ensures forall f | f in payload && payload[f] != Undefined && f != "_id" :: f in d
    ensures forall f | f in payload && payload[f] != Undefined && f != "_id" && (f !in SetterPaths(k) || !payload[f].Str?) ::
      d[f] == payload[f]
  {
    Cast(k, Defaults(k) + DropUndefined(payload))["_id" := Str(id)]
  }

  /** A defined payload field outside the setter paths reaches the new record as it is. */
  lemma PreparedKeeps(k: Kind, id: string, payload: Doc, f: string)
    requires f in payload && payload[f] != Undefined && f != "_id"
    requires f !in SetterPaths(k) || !payload[f].Str?
    ensures Get(Prepared(k, id, payload), f) == payload[f]
  {
  }

  /** A path the payload leaves unset takes the schema default, when no setter changes it. */
  lemma PreparedDefault(k: Kind, id: string, payload: Doc, f: string)
    requires f in Defaults(k) && f != "_id" && (f !in payload || payload[f] == Undefined)
    requires f !in SetterPaths(k) || !Defaults(k)[f].Str?
    ensures Get(Prepared(k, id, payload), f) == Defaults(k)[f]
  {
    var m := Defaults(k) + DropUndefined(payload);
    assert f !in DropUndefined(payload);
    assert m[f] == Defaults(k)[f];
  }

  /** A path neither the payload nor the defaults name is not in the new record. */
  lemma PreparedLacks(k: Kind, id: string, payload: Doc, f: string)
    requires f !in payload && f !in Defaults(k) && f != "_id"
    ensures f !in Prepared(k, id, payload)
  {
    var m := Defaults(k) + DropUndefined(payload);
    assert f !in m;
  }

  /** The `$set` of an update: undefined keys and `_id` dropped, setters applied. */
  function Changes(k: Kind, changes: Doc): (c: Doc)
    ensures "_id" !in c
    ensures forall f :: f in c <==> f in changes && changes[f] != Undefined && f != "_id"
    ensures forall f | f in c && (f !in SetterPaths(k) || !changes[f].Str?) :: c[f] == changes[f]
  {
    Cast(k, DropUndefined(changes) - {"_id"})
  }

  /** A defined change outside the setter paths is set as it is; an undefined one is not set. */
  lemma ChangesKeeps(k: Kind, changes: Doc, f: string)
    requires f != "_id"
    ensures f in changes && changes[f] != Undefined && (f !in SetterPaths(k) || !changes[f].Str?) ==>
      f in Changes(k, changes) && Changes(k, changes)[f] == changes[f]
    ensures f !in changes || changes[f] == Undefined ==> f !in Changes(k, changes)
  {
  }

  function Inserted(t: Table, id: string, d: Doc): Table
  {
    Table(t.docs[id := d], t.order + [id])
  }

  function Replaced(t: Table, id: string, d: Doc): Table
  {
    Table(t.docs[id := d], t.order)
  }

  // ------------------------------------------------------------------- reads

  /** The records among `ids` that match `q`, in the order of `ids`. */
  function SelectFrom(docs: map<string, Doc>, ids: seq<string>, q: Query): (r: seq<Doc>)
    ensures |r| <= |ids|
    ensures forall x | x in r :: Matches(q, x) && exists id | id in ids && id in docs :: docs[id] == x
    ensures forall id | id in ids && id in docs && Matches(q, docs[id]) :: docs[id] in r
    decreases |ids|
  {
    if ids == [] then []
    else
      var rest := SelectFrom(docs, ids[..|ids| - 1], q);
      var id := ids[|ids| - 1];
      assert forall j | j in ids[..|ids| - 1] :: j in ids;
      assert forall j | j in ids :: j in ids[..|ids| - 1] || j == id;
      if id in docs && Matches(q, docs[id]) then rest + [docs[id]] else rest
  }

  /** `Model.find(q)`: the matching records in insertion order. */
  function Select(t: Table, q: Query): seq<Doc>
  {
    SelectFrom(t.docs, t.order, q)
  }

  /** A narrower query selects a subset. */
  lemma SelectNarrows(t: Table, q1: Query, q2: Query)
    requires Narrower(q2, q1)
    ensures forall x | x in Select(t, q2) :: x in Select(t, q1)
  {
  }

  /** A record is selected exactly when it is stored and matches. */
  lemma SelectMeaning(t: Table, q: Query, x: Doc)
    requires TableValid(t)
    ensures x in Select(t, q) <==> Matches(q, x) && exists id | id in t.docs :: t.docs[id] == x
  {
    if Matches(q, x) && exists id | id in t.docs :: t.docs[id] == x {
      var id :| id in t.docs && t.docs[id] == x;
      assert id in t.order;
    }
  }

  /** A stored record matches a query on `_id` exactly when it is stored under that id and meets the other clauses. */
  lemma ByIdMatch(t: Table, id: Value, cs: seq<Clause>, j: string)
    requires TableValid(t) && j in t.docs
    ensures Matches(Query(map["_id" := id], cs), t.docs[j]) <==>
      id == Str(j) && forall i | 0 <= i < |cs| :: Eval(cs[i], t.docs[j])
  {
    var x := t.docs[j];
    var q := Query(map["_id" := id], cs);
    assert ["_id"][1..] == [];
    assert Lookup(x, ["_id"]) == LookupIn(Prop(Obj(x), "_id"), []) == Get(x, "_id") == Str(j);
    assert q.fields.Keys == {"_id"} && q.fields["_id"] == id;
    assert Matches(q, x) <==> Eval(FieldEquals(["_id"], id), x) && forall i | 0 <= i < |cs| :: Eval(cs[i], x);
  }

  /** A query on `_id` selects the record stored under that id, if it satisfies the other clauses. */
  lemma SelectById(t: Table, id: Value, cs: seq<Clause>)
    requires TableValid(t)
    ensures var r := Select(t, Query(map["_id" := id], cs));
      && (r != [] <==> id.Str? && id.s in t.docs && forall i | 0 <= i < |cs| :: Eval(cs[i], t.docs[id.s]))
      && (r != [] ==> r[0] == t.docs[id.s])
  {
    var q := Query(map["_id" := id], cs);
    var r := Select(t, q);
    if r != [] {
      assert r[0] in r;
      var j :| j in t.order && j in t.docs && t.docs[j] == r[0];
      ByIdMatch(t, id, cs, j);
    }
    if id.Str? && id.s in t.docs && forall i | 0 <= i < |cs| :: Eval(cs[i], t.docs[id.s]) {
      ByIdMatch(t, id, cs, id.s);
      assert id.s in t.order;
      assert t.docs[id.s] in r;
    }
  }

  /** The active-or-unset clause. */
  predicate IsActive(d: Doc)
  {
    Get(d, "status") == Num(1) || Get(d, "status") == Undefined
  }

  function ByIdQuery(id: Value): Query
  {
    Query(map["_id" := id], [])
  }

  function ActiveByIdQuery(id: Value): Query
  {
    Query(map["_id" := id], [ActiveOrUnset()])
  }

  // --------------------------------------------------------------- the store

  /** Appending a fresh, correctly tagged record that clashes with nothing keeps a table well formed. */
  lemma InsertedValid(k: Kind, t: Table, id: string, d: Doc)
    requires TableValid(t) && KeysUnique(k, t)
    requires id !in t.docs && Get(d, "_id") == Str(id) && !Clashes(k, t, d, id)
    ensures TableValid(Inserted(t, id, d)) && KeysUnique(k, Inserted(t, id, d))
  {
    var t' := Inserted(t, id, d);
    assert forall x :: x in t'.order <==> x in t.order || x == id;
    forall i, j | 0 <= i < j < |t'.order| ensures t'.order[i] != t'.order[j] {
      if j == |t.order| { assert t'.order[i] == t.order[i] && t.order[i] in t.docs; }
    }
    forall x | x in t'.docs ensures Get(t'.docs[x], "_id") == Str(x) {
      if x != id { assert t'.docs[x] == t.docs[x]; }
    }
    forall a, b | a in t'.docs && b in t'.docs && a != b
      ensures UniqueKey(k, t'.docs[a]).None? || UniqueKey(k, t'.docs[a]) != UniqueKey(k, t'.docs[b])
    {
      if a == id {
        assert t'.docs[b] == t.docs[b];
      } else if b == id {
        assert t'.docs[a] == t.docs[a];
      } else {
        assert t'.docs[a] == t.docs[a] && t'.docs[b] == t.docs[b];
      }
    }
  }

  /** Overwriting a record with one under the same id that clashes with nothing keeps a table well formed. */
  lemma ReplacedValid(k: Kind, t: Table, id: string, d: Doc)
    requires TableValid(t) && KeysUnique(k, t)
    requires id in t.docs && Get(d, "_id") == Str(id) && !Clashes(k, t, d, id)
    ensures TableValid(Replaced(t, id, d)) && KeysUnique(k, Replaced(t, id, d))
  {
    var t' := Replaced(t, id, d);
    assert forall x :: x in t'.docs <==> x in t.docs;
    forall x | x in t'.docs ensures Get(t'.docs[x], "_id") == Str(x) {
      if x != id { assert t'.docs[x] == t.docs[x]; }
    }
    forall a, b | a in t'.docs && b in t'.docs && a != b
      ensures UniqueKey(k, t'.docs[a]).None? || UniqueKey(k, t'.docs[a]) != UniqueKey(k, t'.docs[b])
    {
      if a == id {
        assert t'.docs[b] == t.docs[b];
      } else if b == id {
        assert t'.docs[a] == t.docs[a];
      } else {
        assert t'.docs[a] == t.docs[a] && t'.docs[b] == t.docs[b];
      }
    }
  }

  /** The collection of kind `k`, empty until something is written to it. */
  function TableOf(tables: map<Kind, Table>, k: Kind): Table
  {
    if k in tables then tables[k] else Table(map[], [])
  }

  /** Writing one collection leaves the others as they were. */
  lemma TableOfUpdate(tables: map<Kind, Table>, k: Kind, t: Table)
    ensures TableOf(tables[k := t], k) == t
    ensures forall j | j != k :: TableOf(tables[k := t], j) == TableOf(tables, j)
  {
  }

  /** Each collection is well formed and keeps its unique index; ids from `next` on are unused. */
  ghost predicate StoreValid(tables: map<Kind, Table>, next: nat)
  {
    && (forall k :: TableValid(TableOf(tables, k)) && KeysUnique(k, TableOf(tables, k)))
    && (forall k, n: nat | n >= next :: NatToString(n) !in TableOf(tables, k).docs)
  }

  lemma InsertKeepsStore(tables: map<Kind, Table>, next: nat, k: Kind, d: Doc)
    requires StoreValid(tables, next)
    requires Get(d, "_id") == Str(NatToString(next))
    requires !Clashes(k, TableOf(tables, k), d, NatToString(next))
    ensures NatToString(next) !in TableOf(tables, k).docs
    ensures StoreValid(tables[k := Inserted(TableOf(tables, k), NatToString(next), d)], next + 1)
  {
    var id := NatToString(next);
    var tables' := tables[k := Inserted(TableOf(tables, k), id, d)];
    InsertedValid(k, TableOf(tables, k), id, d);
    forall j ensures TableValid(TableOf(tables', j)) && KeysUnique(j, TableOf(tables', j)) {
      if j != k { assert TableOf(tables', j) == TableOf(tables, j); }
    }
    forall j, n: nat | n >= next + 1 ensures NatToString(n) !in TableOf(tables', j).docs {
      assert NatToString(n) !in TableOf(tables, j).docs;
      if NatToString(n) == id { NatToStringInjective(n, next); }
    }
  }

  lemma ReplaceKeepsStore(tables: map<Kind, Table>, next: nat, k: Kind, id: string, d: Doc)
    requires StoreValid(tables, next)
    requires id in TableOf(tables, k).docs && Get(d, "_id") == Str(id)
    requires !Clashes(k, TableOf(tables, k), d, id)
    ensures StoreValid(tables[k := Replaced(TableOf(tables, k), id, d)], next)
  {
    var tables' := tables[k := Replaced(TableOf(tables, k), id, d)];
    ReplacedValid(k, TableOf(tables, k), id, d);
    forall j ensures TableValid(TableOf(tables', j)) && KeysUnique(j, TableOf(tables', j)) {
      if j != k { assert TableOf(tables', j) == TableOf(tables, j); }
    }
    forall j, n: nat | n >= next ensures NatToString(n) !in TableOf(tables', j).docs {
      assert NatToString(n) !in TableOf(tables, j).docs;
    }
  }

  class Db {
    var tables: map<Kind, Table>
    var nextId: nat

    /** The collection of kind `k`. */
    function Of(k: Kind): Table
      reads this`tables
    {
      TableOf(tables, k)
    }

    ghost predicate Valid()
      reads this
    {
      StoreValid(tables, nextId)
    }

    constructor ()
      ensures Valid()
      ensures forall k :: Of(k) == Table(map[], [])
    {
      tables := map[];
      nextId := 0;
    }

    /** `Model.find(q)`, a scan of the collection in insertion order. */
    method Find(k: Kind, q: Query) returns (r: seq<Doc>)
      ensures r == Select(Of(k), q)
    {
      var t := Of(k);
      r := [];
      var i := 0;
      while i < |t.order|
        invariant 0 <= i <= |t.order|
        invariant r == SelectFrom(t.docs, t.order[..i], q)
      {
        var id := t.order[i];
        assert t.order[..i + 1][..i] == t.order[..i];
        if id in t.docs && Matches(q, t.docs[id]) {
          r := r + [t.docs[id]];
        }
        i := i + 1;
      }
      assert t.order[..i] == t.order;
    }

    /** `Model.findOne(q)`: the first match in insertion order. */
    method FindOne(k: Kind, q: Query) returns (r: Option<Doc>)
      ensures r.None? <==> Select(Of(k), q) == []
      ensures r.Some? ==> r.value == Select(Of(k), q)[0] && r.value in Of(k).docs.Values && Matches(q, r.value)
    {
      var all := Find(k, q);
      if all == [] {
        r := None;
      } else {
        assert all[0] in all;
        r := Some(all[0]);
      }
    }

    /** `Model.findById(id)` */
    method FindById(k: Kind, id: Value) returns (r: Option<Doc>)
      requires Valid()
      ensures r.Some? <==> id.Str? && id.s in Of(k).docs
      ensures r.Some? ==> r.value == Of(k).docs[id.s]
    {
      SelectById(Of(k), id, []);
      r := FindOne(k, ByIdQuery(id));
    }

    /** `Model.findOne({ _id: id, ...ACTIVE_STATUS_CLAUSE })` */
    method FindActiveById(k: Kind, id: Value) returns (r: Option<Doc>)
      requires Valid()
      ensures r.Some? <==> id.Str? && id.s in Of(k).docs && IsActive(Of(k).docs[id.s])
      ensures r.Some? ==> r.value == Of(k).docs[id.s]
    {
      SelectById(Of(k), id, [ActiveOrUnset()]);
      if id.Str? && id.s in Of(k).docs {
        ActiveOrUnsetMeaning(Of(k).docs[id.s]);
        assert [ActiveOrUnset()][0] == ActiveOrUnset();
      }
      r := FindOne(k, ActiveByIdQuery(id));
    }

    /**
     * `Model.create(payload)`: validation first, then the unique index, then
     * the write under a fresh id.
     */
    method Insert(k: Kind, payload: Doc) returns (r: Result<Doc>)
      requires Valid()
      modifies this
      ensures Valid()
      ensures var id := NatToString(old(nextId));
        var d := Prepared(k, id, payload);
        && (r == Err(ValidationError) <==> !ValidFor(k, d))
        && (r == Err(DuplicateKey) <==> ValidFor(k, d) && Clashes(k, old(Of(k)), d, id))
        && (r.Ok? <==> ValidFor(k, d) && !Clashes(k, old(Of(k)), d, id))
        && (r.Ok? ==> r.value == d && Of(k) == Inserted(old(Of(k)), id, d))
      ensures r.Ok? ==> NatToString(old(nextId)) !in old(Of(k)).docs && forall j | j != k :: Of(j) == old(Of(j))
      ensures r.Err? ==> unchanged(this)
    {
      var id := NatToString(nextId);
      var d := Prepared(k, id, payload);
      if !ValidFor(k, d) {
        return Err(ValidationError);
      }
      if Clashes(k, Of(k), d, id) {
        return Err(DuplicateKey);
      }
      InsertKeepsStore(tables, nextId, k, d);
      TableOfUpdate(tables, k, Inserted(Of(k), id, d));
      tables := tables[k := Inserted(Of(k), id, d)];
      nextId := nextId + 1;
      r := Ok(d);
    }

    /**
     * `Model.findByIdAndUpdate(id, changes, { new: true, runValidators: true })`:
     * the update validators run before the record is looked up; an unknown id
     * is no error, only no record.
     */
    method UpdateById(k: Kind, id: Value, changes: Doc) returns (r: Result<Option<Doc>>)
      requires Valid()
      modifies this
      ensures Valid()
      ensures r == UpdateOutcome(k, old(Of(k)), id, changes)
      ensures r.Ok? && r.value.Some? ==>
        Of(k) == Replaced(old(Of(k)), id.s, r.value.value) && forall j | j != k :: Of(j) == old(Of(j))
      ensures !(r.Ok? && r.value.Some?) ==> unchanged(this)
    {
      r := UpdateOutcome(k, Of(k), id, changes);
      if r.Ok? && r.value.Some? {
        var d := r.value.value;
        var c := Changes(k, changes);
        assert "_id" !in c && d == Of(k).docs[id.s] + c;
        assert Get(d, "_id") == Get(Of(k).docs[id.s], "_id") == Str(id.s);
        ReplaceKeepsStore(tables, nextId, k, id.s, d);
        TableOfUpdate(tables, k, Replaced(Of(k), id.s, d));
        tables := tables[k := Replaced(Of(k), id.s, d)];
      }
    }
  }

  /**
   * What an update by id answers: a validation error for changes the update
   * validators refuse, no record for an unknown id, a duplicate key when the
   * changed record would clash, and otherwise the changed record.
   */
  function UpdateOutcome(k: Kind, t: Table, id: Value, changes: Doc): (r: Result<Option<Doc>>)
    ensures var c := Changes(k, changes);
      && (r == Err(ValidationError) <==> !UpdateValidFor(k, c))
      && (r == Ok(None) <==> UpdateValidFor(k, c) && !(id.Str? && id.s in t.docs))
      && (r == Err(DuplicateKey) <==>
            UpdateValidFor(k, c) && id.Str? && id.s in t.docs && Clashes(k, t, t.docs[id.s] + c, id.s))
      && (r.Err? <==> !UpdateValidFor(k, c) || (id.Str? && id.s in t.docs && Clashes(k, t, t.docs[id.s] + c, id.s)))
      && (r.Ok? && r.value.Some? ==> id.Str? && id.s in t.docs && r.value.value == t.docs[id.s] + c)
  {
    var c := Changes(k, changes);
    if !UpdateValidFor(k, c) then Err(ValidationError)
    else if !(id.Str? && id.s in t.docs) then Ok(None)
    else if Clashes(k, t, t.docs[id.s] + c, id.s) then Err(DuplicateKey)
    else Ok(Some(t.docs[id.s] + c))
  }

  /** `res.json(records)`: each record through its `toJSON`. */
  function ToJsonAll(k: Kind, docs: seq<Doc>): seq<Doc>
  {
    seq(|docs|, i requires 0 <= i < |docs| => ToJson(k, docs[i]))
  }

  /** The `toJSON` of each model. */
  function ToJson(k: Kind, d: Doc): (j: Doc)
    ensures "_id" !in j && Get(j, "id") == Get(d, "_id")
    ensures k == Credentials ==> "passwordHash" !in j
  {
    match k
    case Companies => CompanyModel.ToJson(d)
    case Credentials => CredentialModel.ToJson(d)
    case _ => RenameId(d)
  }
}
