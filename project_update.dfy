/** The request bodies of the project handlers, and the partial update of
    `updateProject`: the builder that pushes one `SET` clause and one bound
    value per supplied field, the meaning of the resulting `UPDATE` statement
    on a row, and the partial update the handler promises. */
module ProjectUpdate {
  import opened JsValues
  import opened Schema

  /** The fields `createProject` and `updateProject` destructure from the body. */
  datatype ProjectBody = ProjectBody(
    name: Value,
    description: Value,
    startDate: Value,
    endDate: Value,
    budget: Value,
    status: Value)

  /** The fields `createProjectWorkItem` destructures from the body. */
  datatype WorkItemBody = WorkItemBody(
    name: Value,
    description: Value,
    unit: Value,
    designQuantity: Value,
    unitPrice: Value,
    startDate: Value,
    endDate: Value)

  /** `budget ? parseFloat(budget) : null`, as SQLite stores it. */
  function BudgetCell(budget: Value): (v: Value)
    ensures !Truthy(budget) ==> v == Null
    ensures v.Null? || v.Num?
    ensures budget.Num? && budget.n != 0.0 ==> v == budget
    ensures Truthy(budget) && ParseFloat(budget).Finite? ==> v == Num(ParseFloat(budget).r)
    ensures ParseFloat(budget).NaN? ==> v == Null
  {
    if Truthy(budget) then SqlNumber(ParseFloat(budget)) else Null
  }

  /** The columns `updateProject` can assign. */
  datatype Column = Name | Description | StartDate | EndDate | Budget | Status | UpdatedAt

  /** The text the builder pushes for a column. */
  function SetClause(c: Column): string {
    match c
    case Name => "name = ?"
    case Description => "description = ?"
    case StartDate => "start_date = ?"
    case EndDate => "end_date = ?"
    case Budget => "budget = ?"
    case Status => "status = ?"
    case UpdatedAt => "updated_at = ?"
  }

  /** The column a `SET` clause assigns, as the database reads it. */
  function ClauseColumn(clause: string): (c: Option<Column>)
    ensures c.Some? ==> SetClause(c.value) == clause
  {
    if clause == "name = ?" then Some(Name)
    else if clause == "description = ?" then Some(Description)
    else if clause == "start_date = ?" then Some(StartDate)
    else if clause == "end_date = ?" then Some(EndDate)
    else if clause == "budget = ?" then Some(Budget)
    else if clause == "status = ?" then Some(Status)
    else if clause == "updated_at = ?" then Some(UpdatedAt)
    else None
  }

  lemma ClauseColumnInverse(c: Column)
    ensures ClauseColumn(SetClause(c)) == Some(c)
  {
  }

  /** A bound parameter: a body value, or `new Date().toISOString()` read at time `t`. */
  datatype Param = Bound(v: Value) | Stamp(t: nat)

  /** The body field behind a column; `updated_at` has none. */
  function Field(body: ProjectBody, c: Column): Value {
    match c
    case Name => body.name
    case Description => body.description
    case StartDate => body.startDate
    case EndDate => body.endDate
    case Budget => body.budget
    case Status => body.status
    case UpdatedAt => Undefined
  }

  /** `<field> !== undefined`: the body supplies the column. */
  predicate Supplied(body: ProjectBody, c: Column) {
    Field(body, c) != Undefined
  }

  /** The value the builder binds for a supplied column. */
  function Assigned(body: ProjectBody, c: Column): Value {
    if c == Budget then BudgetCell(body.budget) else Field(body, c)
  }

  function Optional(body: ProjectBody, c: Column): seq<Column> {
    if Supplied(body, c) then [c] else []
  }

  /** The columns assigned by an update with this body, in the handler's order:
      the supplied fields, then always `updated_at`. */
  function UpdateColumns(body: ProjectBody): seq<Column> {
    Optional(body, Name) + Optional(body, Description) + Optional(body, StartDate)
    + Optional(body, EndDate) + Optional(body, Budget) + Optional(body, Status) + [UpdatedAt]
  }

  function Clauses(cols: seq<Column>): (r: seq<string>)
    ensures |r| == |cols|
  {
    if cols == [] then [] else [SetClause(cols[0])] + Clauses(cols[1..])
  }

  function Params(cols: seq<Column>, body: ProjectBody, now: nat): (r: seq<Param>)
    ensures |r| == |cols|
  {
    if cols == [] then []
    else [if cols[0] == UpdatedAt then Stamp(now) else Bound(Assigned(body, cols[0]))]
         + Params(cols[1..], body, now)
  }

  /** The statement is built from the supplied fields alone: the column of
      each supplied field appears exactly once, so does `updated_at`, which
      comes last, and no other column appears. */
  lemma UpdateColumnsShape(body: ProjectBody)
    ensures var cols := UpdateColumns(body);
      && |cols| >= 1 && cols[|cols| - 1] == UpdatedAt
      && (forall c :: multiset(cols)[c] == if c == UpdatedAt || Supplied(body, c) then 1 else 0)
  {
    var cols := UpdateColumns(body);
    UpdateColumnsMultiset(body);
    forall c ensures multiset(cols)[c] == if c == UpdatedAt || Supplied(body, c) then 1 else 0 {
      OptionalCount(body, Name, c);
      OptionalCount(body, Description, c);
      OptionalCount(body, StartDate, c);
      OptionalCount(body, EndDate, c);
      OptionalCount(body, Budget, c);
      OptionalCount(body, Status, c);
    }
  }

  lemma UpdateColumnsMultiset(body: ProjectBody)
    ensures multiset(UpdateColumns(body))
            == multiset(Optional(body, Name)) + multiset(Optional(body, Description))
               + multiset(Optional(body, StartDate)) + multiset(Optional(body, EndDate))
               + multiset(Optional(body, Budget)) + multiset(Optional(body, Status)) + multiset{UpdatedAt}
  {
  }

  lemma OptionalCount(body: ProjectBody, c: Column, x: Column)
    ensures multiset(Optional(body, c))[x] == if x == c && Supplied(body, c) then 1 else 0
  {
  }

  /** The update builder (`updates`/`values` in `updateProject`): one clause
      and one value per supplied field in a fixed order, then `updated_at` and
      its timestamp, then the id for the `WHERE`. */
  method BuildUpdate(id: string, body: ProjectBody, now: nat) returns (updates: seq<string>, values: seq<Param>)
    ensures updates == Clauses(UpdateColumns(body))
    ensures values == Params(UpdateColumns(body), body, now) + [Bound(Str(id))]
    ensures |values| == |updates| + 1 && updates[|updates| - 1] == SetClause(UpdatedAt)
    ensures values[|updates| - 1] == Stamp(now) && values[|updates|] == Bound(Str(id))
    ensures forall c :: c != UpdatedAt ==> (SetClause(c) in updates <==> Supplied(body, c))
  {
    updates, values := [], [];
    updates, values := PushIfSupplied(updates, values, body, Name, [], now);
    ghost var cols := Optional(body, Name);
    updates, values := PushIfSupplied(updates, values, body, Description, cols, now);
    cols := cols + Optional(body, Description);
    updates, values := PushIfSupplied(updates, values, body, StartDate, cols, now);
    cols := cols + Optional(body, StartDate);
    updates, values := PushIfSupplied(updates, values, body, EndDate, cols, now);
    cols := cols + Optional(body, EndDate);
    updates, values := PushIfSupplied(updates, values, body, Budget, cols, now);
    cols := cols + Optional(body, Budget);
    updates, values := PushIfSupplied(updates, values, body, Status, cols, now);
    cols := cols + Optional(body, Status);
    UpdatedAtLast(cols, body, now);
    updates := updates + [SetClause(UpdatedAt)];
    values := values + [Stamp(now)];
    values := values + [Bound(Str(id))];
    UpdateClausesMembership(body);
  }

  /** Closing the statement with `updated_at` appends its clause and its timestamp. */
  lemma UpdatedAtLast(cols: seq<Column>, body: ProjectBody, now: nat)
    ensures Clauses(cols + [UpdatedAt]) == Clauses(cols) + [SetClause(UpdatedAt)]
    ensures Params(cols + [UpdatedAt], body, now) == Params(cols, body, now) + [Stamp(now)]
  {
    ClausesParamsAppend(cols, [UpdatedAt], body, now);
    assert [UpdatedAt][1..] == [];
  }

  /** One step of the builder: `if (<field> !== undefined) { updates.push('<column> = ?');
      values.push(<value>); }`. */
  method PushIfSupplied(updates: seq<string>, values: seq<Param>, body: ProjectBody, c: Column,
                        ghost cols: seq<Column>, now: nat)
    returns (updates': seq<string>, values': seq<Param>)
    requires c != UpdatedAt
    requires updates == Clauses(cols) && values == Params(cols, body, now)
    ensures updates' == Clauses(cols + Optional(body, c))
    ensures values' == Params(cols + Optional(body, c), body, now)
  {
    ClausesParamsAppend(cols, Optional(body, c), body, now);
    if Field(body, c) != Undefined {
      updates' := updates + [SetClause(c)];
      values' := values + [Bound(Assigned(body, c))];
    } else {
      updates', values' := updates, values;
    }
  }

  /** A supplied field's clause is in the statement, an absent one's is not. */
  lemma UpdateClausesMembership(body: ProjectBody)
    ensures forall c :: c != UpdatedAt ==> (SetClause(c) in Clauses(UpdateColumns(body)) <==> Supplied(body, c))
  {
    var cols := UpdateColumns(body);
    ClausesMembership(cols);
    UpdateColumnsShape(body);
    forall c ensures c in cols <==> multiset(cols)[c] > 0 {
    }
  }

  lemma {:induction false} ClausesParamsAppend(a: seq<Column>, b: seq<Column>, body: ProjectBody, now: nat)
    ensures Clauses(a + b) == Clauses(a) + Clauses(b)
    ensures Params(a + b, body, now) == Params(a, body, now) + Params(b, body, now)
  {
    if a != [] {
      assert (a + b)[0] == a[0];
      assert (a + b)[1..] == a[1..] + b;
      ClausesParamsAppend(a[1..], b, body, now);
      assert Clauses(a + b) == [SetClause(a[0])] + (Clauses(a[1..]) + Clauses(b));
      assert Clauses(a) == [SetClause(a[0])] + Clauses(a[1..]);
    } else {
      assert a + b == b;
    }
  }

  lemma {:induction false} ClausesMembership(cols: seq<Column>)
    ensures forall c :: SetClause(c) in Clauses(cols) <==> c in cols
  {
    if cols != [] {
      ClausesMembership(cols[1..]);
      forall c ensures SetClause(c) in Clauses(cols) <==> c in cols {
        ClauseColumnInverse(c);
        ClauseColumnInverse(cols[0]);
        assert cols == [cols[0]] + cols[1..];
      }
    }
  }

  /** One `SET column = ?` with its bound parameter applied to a row; None
      when the clause names no column or the parameter does not fit it. */
  function Assign(row: Project, clause: string, p: Param): Option<Project> {
    match (ClauseColumn(clause), p)
    case (Some(UpdatedAt), Stamp(t)) => Some(row.(updatedAt := t))
    case (Some(Name), Bound(v)) => Some(row.(name := v))
    case (Some(Description), Bound(v)) => Some(row.(description := v))
    case (Some(StartDate), Bound(v)) => Some(row.(startDate := v))
    case (Some(EndDate), Bound(v)) => Some(row.(endDate := v))
    case (Some(Budget), Bound(v)) => Some(row.(budget := v))
    case (Some(Status), Bound(v)) => Some(row.(status := v))
    case _ => None
  }

  /** All assignments of a `SET` list, pairing the i-th clause with the i-th value. */
  function AssignAll(row: Project, updates: seq<string>, values: seq<Param>): (r: Option<Project>)
    requires |values| == |updates|
    ensures updates == [] ==> r == Some(row)
    ensures r.Some? ==> r.value.id == row.id && r.value.createdAt == row.createdAt
    decreases |updates|
  {
    if updates == [] then Some(row)
    else
      match Assign(row, updates[0], values[0])
      case None => None
      case Some(next) => AssignAll(next, updates[1..], values[1..])
  }

  /** `UPDATE projects SET <updates> WHERE id = ?` on the matching row: the new
      row, or None when the statement fails because the row would break a
      column constraint. */
  function RunUpdate(row: Project, updates: seq<string>, values: seq<Param>): (r: Option<Project>)
    requires |values| == |updates|
    ensures r.Some? ==> ProjectConstraints(r.value) && r.value.id == row.id
  {
    match AssignAll(row, updates, values)
    case None => None
    case Some(next) => if ProjectConstraints(next) && next.id == row.id then Some(next) else None
  }

  /** The value a row holds in an assignable column. */
  function Cell(p: Project, c: Column): Value {
    match c
    case Name => p.name
    case Description => p.description
    case StartDate => p.startDate
    case EndDate => p.endDate
    case Budget => p.budget
    case Status => p.status
    case UpdatedAt => Num(p.updatedAt as real)
  }

  /** The partial update `updateProject` promises: each supplied field replaced
      (an explicit `null` included, a falsy budget stored as NULL), every other
      field kept, `updated_at` refreshed to `now`. */
  function Patch(row: Project, body: ProjectBody, now: nat): (r: Project)
    ensures r.id == row.id && r.createdAt == row.createdAt && r.updatedAt == now
    ensures Cell(r, Name) == if Supplied(body, Name) then Assigned(body, Name) else Cell(row, Name)
    ensures Cell(r, Description) == if Supplied(body, Description) then Assigned(body, Description) else Cell(row, Description)
    ensures Cell(r, StartDate) == if Supplied(body, StartDate) then Assigned(body, StartDate) else Cell(row, StartDate)
    ensures Cell(r, EndDate) == if Supplied(body, EndDate) then Assigned(body, EndDate) else Cell(row, EndDate)
    ensures Cell(r, Budget) == if Supplied(body, Budget) then Assigned(body, Budget) else Cell(row, Budget)
    ensures Cell(r, Status) == if Supplied(body, Status) then Assigned(body, Status) else Cell(row, Status)
  {
    row.(
      name := if Supplied(body, Name) then body.name else row.name,
      description := if Supplied(body, Description) then body.description else row.description,
      startDate := if Supplied(body, StartDate) then body.startDate else row.startDate,
      endDate := if Supplied(body, EndDate) then body.endDate else row.endDate,
      budget := if Supplied(body, Budget) then BudgetCell(body.budget) else row.budget,
      status := if Supplied(body, Status) then body.status else row.status,
      updatedAt := now)
  }

  /** A patched row keeps the table's constraints exactly when the body does
      not set the `NOT NULL` name to `null`. */
  lemma PatchConstraints(row: Project, body: ProjectBody, now: nat)
    requires ProjectConstraints(row)
    ensures ProjectConstraints(Patch(row, body, now)) <==> body.name != Null
  {
  }

  /** The effect of one column's assignment. */
  function ApplyColumn(row: Project, c: Column, body: ProjectBody, now: nat): Project {
    match c
    case Name => row.(name := body.name)
    case Description => row.(description := body.description)
    case StartDate => row.(startDate := body.startDate)
    case EndDate => row.(endDate := body.endDate)
    case Budget => row.(budget := BudgetCell(body.budget))
    case Status => row.(status := body.status)
    case UpdatedAt => row.(updatedAt := now)
  }

  /** The assignments for a list of columns, in turn. */
  function ApplyColumns(row: Project, cols: seq<Column>, body: ProjectBody, now: nat): Project
    decreases |cols|
  {
    if cols == [] then row else ApplyColumns(ApplyColumn(row, cols[0], body, now), cols[1..], body, now)
  }

  lemma {:induction false} AssignAllColumns(row: Project, cols: seq<Column>, body: ProjectBody, now: nat)
    ensures AssignAll(row, Clauses(cols), Params(cols, body, now)) == Some(ApplyColumns(row, cols, body, now))
    decreases |cols|
  {
    if cols != [] {
      ClauseColumnInverse(cols[0]);
      var next := Assign(row, SetClause(cols[0]), Params(cols, body, now)[0]).value;
      AssignAllColumns(next, cols[1..], body, now);
    }
  }

  lemma {:induction false} ApplyColumnsAppend(row: Project, a: seq<Column>, b: seq<Column>, body: ProjectBody, now: nat)
    ensures ApplyColumns(row, a + b, body, now) == ApplyColumns(ApplyColumns(row, a, body, now), b, body, now)
    decreases |a|
  {
    if a != [] {
      assert (a + b)[0] == a[0];
      assert (a + b)[1..] == a[1..] + b;
      ApplyColumnsAppend(ApplyColumn(row, a[0], body, now), a[1..], b, body, now);
    } else {
      assert a + b == b;
    }
  }

  /** The statement the builder produces performs exactly the promised partial
      update, and fails exactly when the body sets the name to `null`. */
  lemma UpdateStatementIsPatch(row: Project, body: ProjectBody, now: nat)
    requires ProjectConstraints(row)
    ensures var cols := UpdateColumns(body);
      RunUpdate(row, Clauses(cols), Params(cols, body, now))
      == if body.name == Null then None else Some(Patch(row, body, now))
  {
    var cols := UpdateColumns(body);
    AssignAllColumns(row, cols, body, now);
    ApplyUpdateColumns(row, body, now);
    PatchConstraints(row, body, now);
  }

  lemma ApplyOptional(row: Project, body: ProjectBody, c: Column, now: nat)
    ensures ApplyColumns(row, Optional(body, c), body, now)
            == if Supplied(body, c) then ApplyColumn(row, c, body, now) else row
  {
    if Supplied(body, c) {
      assert [c][1..] == [];
    }
  }

  lemma ApplyUpdateColumns(row: Project, body: ProjectBody, now: nat)
    ensures ApplyColumns(row, UpdateColumns(body), body, now) == Patch(row, body, now)
  {
    var p1 := Optional(body, Name);
    var p2 := p1 + Optional(body, Description);
    var p3 := p2 + Optional(body, StartDate);
    var p4 := p3 + Optional(body, EndDate);
    var p5 := p4 + Optional(body, Budget);
    var p6 := p5 + Optional(body, Status);
    var r1 := ApplyColumns(row, p1, body, now);
    ApplyOptional(row, body, Name, now);
    assert r1 == row.(name := if Supplied(body, Name) then body.name else row.name);
    ApplyColumnsAppend(row, p1, Optional(body, Description), body, now);
    var r2 := ApplyColumns(row, p2, body, now);
    ApplyOptional(r1, body, Description, now);
    assert r2 == r1.(description := if Supplied(body, Description) then body.description else r1.description);
    ApplyColumnsAppend(row, p2, Optional(body, StartDate), body, now);
    var r3 := ApplyColumns(row, p3, body, now);
    ApplyOptional(r2, body, StartDate, now);
    assert r3 == r2.(startDate := if Supplied(body, StartDate) then body.startDate else r2.startDate);
    ApplyColumnsAppend(row, p3, Optional(body, EndDate), body, now);
    var r4 := ApplyColumns(row, p4, body, now);
    ApplyOptional(r3, body, EndDate, now);
    assert r4 == r3.(endDate := if Supplied(body, EndDate) then body.endDate else r3.endDate);
    ApplyColumnsAppend(row, p4, Optional(body, Budget), body, now);
    var r5 := ApplyColumns(row, p5, body, now);
    ApplyOptional(r4, body, Budget, now);
    assert r5 == r4.(budget := if Supplied(body, Budget) then BudgetCell(body.budget) else r4.budget);
    ApplyColumnsAppend(row, p5, Optional(body, Status), body, now);
    var r6 := ApplyColumns(row, p6, body, now);
    ApplyOptional(r5, body, Status, now);
    assert r6 == r5.(status := if Supplied(body, Status) then body.status else r5.status);
    ApplyColumnsAppend(row, p6, [UpdatedAt], body, now);
    assert [UpdatedAt][1..] == [];
    assert ApplyColumns(row, UpdateColumns(body), body, now) == r6.(updatedAt := now);
  }
}
