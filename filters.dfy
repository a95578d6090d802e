/**
 * The `filter` object a list handler builds step by step: top-level field
 * equalities assigned one by one and the `$and` list the `apply*Filter`
 * helpers push onto.
 */
module Filters {
  import opened JsValues
  import opened Query
  import CompanyRules

  class QueryFilter {
    var fields: map<string, Value>
    /** `filter.$and`; an absent `$and` is the empty list. */
    var conjuncts: seq<Clause>

    /** `const filter = {}` */
    constructor ()
      ensures fields == map[] && conjuncts == []
    {
      fields := map[];
      conjuncts := [];
    }

    /** The query the filter denotes. */
    function Current(): Query
      reads this
    {
      Query(fields, conjuncts)
    }

    /** `filter[key] = v` */
    method Set(key: string, v: Value)
      modifies this
      ensures Current() == SetField(old(Current()), key, v)
    {
      fields := fields[key := v];
    }

    /** Push the clause, if there is one; existing clauses and keys stay as they were. */
    method Push(c: Option<Clause>)
      modifies this
      ensures Current() == AddClause(old(Current()), c)
      ensures fields == old(fields) && old(conjuncts) <= conjuncts
    {
      if c.Some? {
        conjuncts := conjuncts + [c.value];
      }
    }

    /** `applyStatusFilter(filter, value)` */
    method ApplyStatusFilter(value: Value)
      modifies this
      ensures Current() == AddClause(old(Current()), BuildStatusClause(value))
      ensures Narrower(Current(), old(Current()))
    {
      var clause := BuildStatusClause(value);
      AddClauseNarrows(Current(), clause);
      Push(clause);
    }

    /** `applySearchFilter(filter, value)` */
    method ApplySearchFilter(value: Value)
      modifies this
      ensures Current() == AddClause(old(Current()), CompanyRules.BuildSearchClause(value))
      ensures Narrower(Current(), old(Current()))
    {
      var clause := CompanyRules.BuildSearchClause(value);
      AddClauseNarrows(Current(), clause);
      Push(clause);
    }

    /** `applyMatrixFilter(filter, value)` */
    method ApplyMatrixFilter(value: Value)
      modifies this
      ensures Current() == AddClause(old(Current()), CompanyRules.BuildMatrixClause(value))
      ensures Narrower(Current(), old(Current()))
    {
      var clause := CompanyRules.BuildMatrixClause(value);
      AddClauseNarrows(Current(), clause);
      Push(clause);
    }
  }
}
