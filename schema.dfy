/** The two tables the project store works on, `projects` and `work_items`,
    with their column constraints and defaults. Cells hold JavaScript values as
    SQLite stores them; timestamps are the clock readings behind the ISO strings. */
module Schema {
  import opened JsValues

  /** `projects.status DEFAULT 'PLANNING'` */
  const DefaultProjectStatus: string := "PLANNING"
  /** `work_items.status DEFAULT 'NOT_STARTED'` */
  const DefaultWorkItemStatus: string := "NOT_STARTED"
  /** `work_items.completed_quantity DEFAULT 0` */
  const DefaultCompletedQuantity: real := 0.0

  /** A row of `projects`; `id` is the primary key. */
  datatype Project = Project(
    id: string,
    name: Value,
    description: Value,
    startDate: Value,
    endDate: Value,
    budget: Value,
    status: Value,
    createdAt: nat,
    updatedAt: nat)

  /** A row of `work_items`; `id` is the primary key and `projectId` refers to
      `projects.id` without any cascading action. */
  datatype WorkItem = WorkItem(
    id: string,
    projectId: string,
    name: Value,
    description: Value,
    unit: Value,
    designQuantity: real,
    completedQuantity: real,
    unitPrice: real,
    startDate: Value,
    endDate: Value,
    status: Value,
    createdAt: nat,
    updatedAt: nat)

  /** A value SQLite can hold in a cell (a bound `undefined` never reaches a row). */
  predicate IsCell(v: Value) {
    !v.Undefined?
  }

  /** A cell of a `NOT NULL` column. */
  predicate NotNull(v: Value) {
    IsCell(v) && !v.Null?
  }

  /** The constraints of the `projects` table: `name` is `NOT NULL`. */
  predicate ProjectConstraints(p: Project)
    ensures ProjectConstraints(p) ==> p.name != Null && p.name != Undefined
  {
    NotNull(p.name) && IsCell(p.description) && IsCell(p.startDate) && IsCell(p.endDate)
    && IsCell(p.budget) && IsCell(p.status)
  }

  /** The constraints of the `work_items` table: `project_id`, `name`, `unit`,
      `design_quantity` and `unit_price` are `NOT NULL` (the numeric ones and
      `project_id` by their type here). */
  predicate WorkItemConstraints(w: WorkItem)
    ensures WorkItemConstraints(w) ==> w.name != Null && w.name != Undefined && w.unit != Null && w.unit != Undefined
  {
    NotNull(w.name) && NotNull(w.unit) && IsCell(w.description) && IsCell(w.startDate)
    && IsCell(w.endDate) && IsCell(w.status)
  }

  /** The columns `createProjectWorkItem` lists in its `INSERT`; the numeric
      ones are the `parseFloat` results it binds. `completed_quantity` and
      `status` are not listed. */
  datatype WorkItemInsert = WorkItemInsert(
    id: string,
    projectId: string,
    name: Value,
    description: Value,
    unit: Value,
    designQuantity: Number,
    unitPrice: Number,
    startDate: Value,
    endDate: Value,
    createdAt: nat,
    updatedAt: nat)

  /** The `INSERT` on `work_items`: a NaN binds as NULL, so a NaN quantity or
      price (or a NULL name or unit) fails its `NOT NULL` constraint and no row
      is produced; otherwise the unlisted columns take their defaults. */
  function InsertWorkItem(ins: WorkItemInsert): (r: Option<WorkItem>)
    ensures r.Some? <==> NotNull(ins.name) && NotNull(ins.unit) && ins.designQuantity.Finite?
                         && ins.unitPrice.Finite? && IsCell(ins.description)
                         && IsCell(ins.startDate) && IsCell(ins.endDate)
    ensures r.Some? ==> WorkItemConstraints(r.value)
    ensures r.Some? ==> r.value.completedQuantity == DefaultCompletedQuantity
                        && r.value.status == Str(DefaultWorkItemStatus)
    ensures r.Some? ==> r.value.id == ins.id && r.value.projectId == ins.projectId
                        && r.value.designQuantity == ins.designQuantity.r
                        && r.value.unitPrice == ins.unitPrice.r
                        && r.value.createdAt == ins.createdAt && r.value.updatedAt == ins.updatedAt
    ensures r.Some? ==> r.value.name == ins.name && r.value.unit == ins.unit
                        && r.value.description == ins.description
                        && r.value.startDate == ins.startDate && r.value.endDate == ins.endDate
  {
    match (SqlNumber(ins.designQuantity), SqlNumber(ins.unitPrice))
    case (Num(design), Num(price)) =>
      var row := WorkItem(
        ins.id, ins.projectId, ins.name, ins.description, ins.unit,
        design, DefaultCompletedQuantity, price,
        ins.startDate, ins.endDate, Str(DefaultWorkItemStatus), ins.createdAt, ins.updatedAt);
      if WorkItemConstraints(row) then Some(row) else None
    case _ => None
  }
}
