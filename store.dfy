/** The project handlers as operations on an in-memory store holding the two
    tables. A handler's HTTP outcome is a `Response`; the fresh uuid and the
    clock reading a handler takes are parameters. The store remembers the
    latest clock reading it has written (`clock`), and each handler that writes
    requires the new reading not to be earlier, as a wall clock promises. */
module ProjectStore {
  import opened JsValues
  import opened Schema
  import opened Progress
  import opened ProjectUpdate

  /** The outcome of a handler: 200, 201, 204, 400, 404 or 500 with its body. */
  datatype Response<T> =
    | Ok(value: T)
    | Created(value: T)
    | NoContent
    | BadRequest(error: string)
    | NotFound(error: string)
    | ServerError(error: string)

  /** A row of the `LEFT JOIN ... GROUP BY p.id` in `getAllProjects`. */
  datatype GroupRow = GroupRow(
    project: Project,
    workItemCount: nat,
    totalDesignQuantity: real,
    totalCompletedQuantity: real)

  /** A row of the list response: the joined row with its completion figure. */
  datatype ProjectSummary = ProjectSummary(row: GroupRow, completionPercentage: real)

  /** The detail response: the project, its work items and its completion figure. */
  datatype ProjectDetail = ProjectDetail(project: Project, workItems: seq<WorkItem>, completionPercentage: real)

  predicate Distinct(s: seq<string>) {
    forall i, j :: 0 <= i < j < |s| ==> s[i] != s[j]
  }

  predicate SortedByCreation(s: seq<WorkItem>) {
    forall i, j :: 0 <= i < j < |s| ==> s[i].createdAt <= s[j].createdAt
  }

  /** The `projects` table: keyed by its primary key, every row within the
      table's constraints, and `order` (the insertion order of the rows)
      listing each key once, oldest first. */
  predicate ProjectsValid(projects: map<string, Project>, order: seq<string>, clock: nat)
    ensures ProjectsValid(projects, order, clock) && |order| > 0 ==>
              && order[0] in projects && order[|order| - 1] in projects
              && projects[order[0]].createdAt <= projects[order[|order| - 1]].createdAt
  {
    && (forall id :: id in projects ==>
          projects[id].id == id && ProjectConstraints(projects[id])
          && projects[id].createdAt <= projects[id].updatedAt <= clock)
    && Distinct(order)
    && (forall id :: id in order ==> id in projects)
    && (forall id :: id in projects ==> id in order)
    && (forall i, j :: 0 <= i < j < |order| ==> projects[order[i]].createdAt <= projects[order[j]].createdAt)
  }

  /** The `work_items` table, in insertion order: unique primary keys, rows
      within the table's constraints, creation times not decreasing. */
  predicate ItemsValid(items: seq<WorkItem>, clock: nat)
    ensures ItemsValid(items, clock) ==>
              forall i, j :: 0 <= i < |items| && 0 <= j < |items| && items[i].id == items[j].id ==> i == j
    ensures ItemsValid(items, clock) ==>
              forall i :: 0 <= i < |items| ==> NotNull(items[i].name) && NotNull(items[i].unit)
  {
    && (forall i, j :: 0 <= i < j < |items| ==> items[i].id != items[j].id)
    && SortedByCreation(items)
    && (forall i :: 0 <= i < |items| ==>
          WorkItemConstraints(items[i]) && items[i].createdAt <= items[i].updatedAt <= clock)
  }

  /** Whether a work item with this primary key is stored. */
  predicate ItemIdTaken(items: seq<WorkItem>, id: string) {
    exists i :: 0 <= i < |items| && items[i].id == id
  }

  /** `s` without the occurrences of `x`, the others in their order. */
  function Erase(s: seq<string>, x: string): (r: seq<string>)
    ensures forall y :: y in r <==> y in s && y != x
    ensures |r| <= |s|
  {
    if s == [] then []
    else if s[0] == x then Erase(s[1..], x)
    else [s[0]] + Erase(s[1..], x)
  }

  /** The row `createProject` inserts: falsy optional fields become NULL, a
      missing status takes the table's default, both timestamps are `now`. */
  function NewProject(id: string, body: ProjectBody, now: nat): (p: Project)
    requires Truthy(body.name)
    ensures ProjectConstraints(p) && p.id == id && p.name == body.name
    ensures p.createdAt == now && p.updatedAt == now
    ensures p.status == if Truthy(body.status) then body.status else Str(DefaultProjectStatus)
    ensures !Truthy(body.description) ==> p.description == Null
    ensures !Truthy(body.startDate) ==> p.startDate == Null
    ensures !Truthy(body.endDate) ==> p.endDate == Null
    ensures !Truthy(body.budget) ==> p.budget == Null
    ensures Truthy(body.description) ==> p.description == body.description
    ensures Truthy(body.startDate) ==> p.startDate == body.startDate
    ensures Truthy(body.endDate) ==> p.endDate == body.endDate
    ensures p.budget == BudgetCell(body.budget)
  {
    Project(id, body.name, Or(body.description, Null), Or(body.startDate, Null), Or(body.endDate, Null),
            BudgetCell(body.budget), Or(body.status, Str(DefaultProjectStatus)), now, now)
  }

  /** The parameters `createProjectWorkItem` binds to its `INSERT`. */
  function WorkItemRow(pid: string, body: WorkItemBody, id: string, now: nat): (r: WorkItemInsert)
    ensures r.id == id && r.projectId == pid && r.name == body.name && r.unit == body.unit
    ensures Truthy(body.description) ==> r.description == body.description
    ensures !Truthy(body.description) ==> r.description == Null
    ensures Truthy(body.startDate) ==> r.startDate == body.startDate
    ensures !Truthy(body.startDate) ==> r.startDate == Null
    ensures Truthy(body.endDate) ==> r.endDate == body.endDate
    ensures !Truthy(body.endDate) ==> r.endDate == Null
    ensures body.designQuantity.Num? ==> r.designQuantity == Finite(body.designQuantity.n)
    ensures body.unitPrice.Num? ==> r.unitPrice == Finite(body.unitPrice.n)
    ensures r.designQuantity == ParseFloat(body.designQuantity) && r.unitPrice == ParseFloat(body.unitPrice)
    ensures r.createdAt == now && r.updatedAt == now
  {
    WorkItemInsert(id, pid, body.name, Or(body.description, Null), body.unit,
                   ParseFloat(body.designQuantity), ParseFloat(body.unitPrice),
                   Or(body.startDate, Null), Or(body.endDate, Null), now, now)
  }

  /** The joined row of one project: `COUNT(wi.id)` and the `COALESCE(SUM(...), 0)` totals. */
  function Group(p: Project, table: seq<WorkItem>): (r: GroupRow)
    ensures r.project == p
    ensures r.workItemCount == 0 <==> forall w :: w in table ==> w.projectId != p.id
    ensures r.workItemCount == 0 ==> r.totalDesignQuantity == 0.0 && r.totalCompletedQuantity == 0.0
  {
    GroupRow(p, SqlCount(table, p.id),
             Coalesce(SqlSum(table, p.id, Design), 0.0), Coalesce(SqlSum(table, p.id, Completed), 0.0))
  }

  /** The rows of the grouped query, newest first: `ORDER BY p.created_at DESC`
      over the rows in insertion order. */
  function GroupBy(projects: map<string, Project>, order: seq<string>, table: seq<WorkItem>): (rows: seq<GroupRow>)
    requires forall id :: id in order ==> id in projects
    ensures |rows| == |order|
    ensures forall i :: 0 <= i < |order| ==> rows[i] == Group(projects[order[|order| - 1 - i]], table)
  {
    if order == [] then []
    else [Group(projects[order[|order| - 1]], table)] + GroupBy(projects, order[..|order| - 1], table)
  }

  /** The `projects.map(...)` step: the completion figure of a joined row. */
  function WithProgress(row: GroupRow): (s: ProjectSummary)
    ensures s.row == row
    ensures row.totalDesignQuantity <= 0.0 ==> s.completionPercentage == 0.0
    ensures row.totalDesignQuantity > 0.0 ==>
              var share := row.totalCompletedQuantity / row.totalDesignQuantity * 100.0;
              share - 0.005 < s.completionPercentage <= share + 0.005
    ensures (s.completionPercentage * 100.0).Floor as real == s.completionPercentage * 100.0
  {
    ProjectSummary(row, Completion(row.totalDesignQuantity, row.totalCompletedQuantity))
  }

  /** The figures of a joined row are those of the project's work items:
      their number, their reduced totals (0 with none) and the detail
      handler's completion percentage. */
  lemma GroupAgrees(p: Project, table: seq<WorkItem>)
    ensures var s := WithProgress(Group(p, table));
      var mine := ItemsOf(table, p.id);
      && s.row.workItemCount == |mine|
      && s.row.totalDesignQuantity == Reduce(mine, Design, 0.0)
      && s.row.totalCompletedQuantity == Reduce(mine, Completed, 0.0)
      && s.completionPercentage == DetailCompletion(mine)
      && (mine == [] ==> s.row.workItemCount == 0 && s.row.totalDesignQuantity == 0.0
                         && s.row.totalCompletedQuantity == 0.0 && s.completionPercentage == 0.0)
  {
    SqlCountIsLength(table, p.id);
    SqlSumIsReduce(table, p.id, Design);
    SqlSumIsReduce(table, p.id, Completed);
    ListAgreesWithDetail(table, p.id);
  }

  /** A lower bound on the creation times of a table bounds those of its filtered items. */
  lemma {:induction false} ItemsOfAbove(table: seq<WorkItem>, pid: string, b: nat)
    requires forall i :: 0 <= i < |table| ==> b <= table[i].createdAt
    ensures forall i :: 0 <= i < |ItemsOf(table, pid)| ==> b <= ItemsOf(table, pid)[i].createdAt
  {
    if table != [] {
      ItemsOfAbove(table[1..], pid, b);
      var rest := ItemsOf(table[1..], pid);
      if table[0].projectId == pid {
        forall i | 0 <= i < |rest| + 1 ensures b <= ([table[0]] + rest)[i].createdAt {
          if i > 0 {
            assert ([table[0]] + rest)[i] == rest[i - 1];
          }
        }
      }
    }
  }

  /** The WHERE-filtered items of a table in creation order are in creation order. */
  lemma {:induction false} ItemsOfSorted(table: seq<WorkItem>, pid: string)
    requires SortedByCreation(table)
    ensures SortedByCreation(ItemsOf(table, pid))
  {
    if table != [] {
      var tail := table[1..];
      SortedTail(table);
      ItemsOfSorted(tail, pid);
      if table[0].projectId == pid {
        ItemsOfAbove(tail, pid, table[0].createdAt);
        SortedCons(table[0], ItemsOf(tail, pid));
      }
    }
  }

  lemma SortedTail(table: seq<WorkItem>)
    requires table != [] && SortedByCreation(table)
    ensures SortedByCreation(table[1..])
    ensures forall i :: 0 <= i < |table[1..]| ==> table[0].createdAt <= table[1..][i].createdAt
  {
    var tail := table[1..];
    forall i, j | 0 <= i < j < |tail| ensures tail[i].createdAt <= tail[j].createdAt {
      assert tail[i] == table[i + 1] && tail[j] == table[j + 1];
    }
    forall i | 0 <= i < |tail| ensures table[0].createdAt <= tail[i].createdAt {
      assert tail[i] == table[i + 1];
    }
  }

  lemma SortedCons(w: WorkItem, rest: seq<WorkItem>)
    requires SortedByCreation(rest)
    requires forall i :: 0 <= i < |rest| ==> w.createdAt <= rest[i].createdAt
    ensures SortedByCreation([w] + rest)
  {
    var all := [w] + rest;
    forall i, j | 0 <= i < j < |all| ensures all[i].createdAt <= all[j].createdAt {
      assert all[j] == rest[j - 1];
      if i > 0 {
        assert all[i] == rest[i - 1];
      }
    }
  }

  lemma {:induction false} EraseAbsent(s: seq<string>, x: string)
    requires x !in s
    ensures Erase(s, x) == s
  {
    if s != [] {
      EraseAbsent(s[1..], x);
      assert s == [s[0]] + s[1..];
    }
  }

  /** Erasing a key that occurs once, at `k`, cuts out position `k`. */
  lemma {:induction false} EraseAt(s: seq<string>, x: string, k: nat)
    requires Distinct(s) && k < |s| && s[k] == x
    ensures Erase(s, x) == s[..k] + s[k + 1..]
  {
    if k == 0 {
      assert x !in s[1..] by {
        forall j | 0 <= j < |s[1..]| ensures s[1..][j] != x {
          assert s[1..][j] == s[j + 1];
        }
      }
      EraseAbsent(s[1..], x);
    } else {
      assert s[0] != s[k];
      EraseAt(s[1..], x, k - 1);
      assert s[1..][..k - 1] == s[1..k];
      assert s[1..][k..] == s[k + 1..];
      assert [s[0]] + s[1..k] == s[..k];
    }
  }

  /** Inserting a new project row keeps the table valid. */
  lemma ProjectsInsert(projects: map<string, Project>, order: seq<string>, clock: nat, p: Project, now: nat)
    requires ProjectsValid(projects, order, clock) && clock <= now
    requires p.id !in projects && ProjectConstraints(p) && p.createdAt == now && p.updatedAt == now
    ensures ProjectsValid(projects[p.id := p], order + [p.id], now)
  {
    var ps := projects[p.id := p];
    var o := order + [p.id];
    forall i, j | 0 <= i < j < |o| ensures o[i] != o[j] && ps[o[i]].createdAt <= ps[o[j]].createdAt {
      assert o[i] == order[i] && order[i] in projects;
      if j < |order| {
        assert o[j] == order[j];
      }
    }
  }

  /** Replacing a project row by one with the same key and creation time, a
      refreshed modification time and within the constraints keeps the table valid. */
  lemma ProjectsReplace(projects: map<string, Project>, order: seq<string>, clock: nat, p: Project, now: nat)
    requires ProjectsValid(projects, order, clock) && clock <= now
    requires p.id in projects && ProjectConstraints(p)
    requires p.createdAt == projects[p.id].createdAt && p.updatedAt == now
    ensures ProjectsValid(projects[p.id := p], order, now)
  {
    var ps := projects[p.id := p];
    forall i, j | 0 <= i < j < |order| ensures ps[order[i]].createdAt <= ps[order[j]].createdAt {
      assert projects[order[i]].createdAt <= projects[order[j]].createdAt;
    }
  }

  /** Position `i` of a sequence with position `k` cut out. */
  lemma CutAt(s: seq<string>, k: nat, i: nat)
    requires k < |s| && i < |s| - 1
    ensures (s[..k] + s[k + 1..])[i] == s[if i < k then i else i + 1]
  {
  }

  /** Cutting one position out of a sequence of distinct keys leaves them distinct. */
  lemma CutDistinct(order: seq<string>, k: nat)
    requires Distinct(order) && k < |order|
    ensures Distinct(order[..k] + order[k + 1..])
  {
    var o := order[..k] + order[k + 1..];
    forall i, j | 0 <= i < j < |o| ensures o[i] != o[j] {
      CutAt(order, k, i);
      CutAt(order, k, j);
    }
  }

  /** Cutting the row of key `order[k]` out keeps the others in creation order. */
  lemma CutSorted(projects: map<string, Project>, order: seq<string>, k: nat)
    requires k < |order| && Distinct(order)
    requires forall id :: id in order ==> id in projects
    requires forall i, j :: 0 <= i < j < |order| ==> projects[order[i]].createdAt <= projects[order[j]].createdAt
    ensures var ps, o := projects - {order[k]}, order[..k] + order[k + 1..];
      forall i, j :: 0 <= i < j < |o| ==> o[i] in ps && o[j] in ps && ps[o[i]].createdAt <= ps[o[j]].createdAt
  {
    var ps, o := projects - {order[k]}, order[..k] + order[k + 1..];
    forall i, j | 0 <= i < j < |o| ensures o[i] in ps && o[j] in ps && ps[o[i]].createdAt <= ps[o[j]].createdAt {
      CutAt(order, k, i);
      CutAt(order, k, j);
      var i', j' := if i < k then i else i + 1, if j < k then j else j + 1;
      assert order[i'] != order[k] && order[j'] != order[k];
      assert projects[order[i']].createdAt <= projects[order[j']].createdAt;
    }
  }

  /** Deleting a project row keeps the table valid. */
  lemma ProjectsErase(projects: map<string, Project>, order: seq<string>, clock: nat, id: string)
    requires ProjectsValid(projects, order, clock) && id in projects
    ensures ProjectsValid(projects - {id}, Erase(order, id), clock)
  {
    var k :| 0 <= k < |order| && order[k] == id;
    EraseAt(order, id, k);
    CutDistinct(order, k);
    CutSorted(projects, order, k);
  }

  /** On a stored row of a valid table, the statement the update builder
      produces fails exactly when the body sets `name` to `null`; otherwise it
      stores the patched row and the table stays valid under the new reading. */
  lemma UpdateOutcome(projects: map<string, Project>, order: seq<string>, clock: nat,
                      id: string, body: ProjectBody, now: nat)
    requires ProjectsValid(projects, order, clock) && clock <= now && id in projects
    ensures var cols := UpdateColumns(body);
      var result := ExecUpdate(projects, Clauses(cols), Params(cols, body, now) + [Bound(Str(id))]);
      && (result.None? <==> body.name == Null)
      && (result.Some? ==>
            && result.value == projects[id := Patch(projects[id], body, now)]
            && ProjectsValid(result.value, order, now))
  {
    ExecBuiltUpdate(projects, id, body, now);
    if body.name != Null {
      PatchConstraints(projects[id], body, now);
      ProjectsReplace(projects, order, clock, Patch(projects[id], body, now), now);
    }
  }

  /** A later clock reading keeps the work-item table valid. */
  lemma ItemsAdvance(items: seq<WorkItem>, clock: nat, now: nat)
    requires ItemsValid(items, clock) && clock <= now
    ensures ItemsValid(items, now)
  {
  }

  /** Appending a new work item row keeps the table valid. */
  lemma ItemsAppend(items: seq<WorkItem>, clock: nat, w: WorkItem, now: nat)
    requires ItemsValid(items, clock) && clock <= now
    requires !ItemIdTaken(items, w.id) && WorkItemConstraints(w) && w.createdAt == now && w.updatedAt == now
    ensures ItemsValid(items + [w], now)
  {
    var t := items + [w];
    forall i, j | 0 <= i < j < |t| ensures t[i].id != t[j].id && t[i].createdAt <= t[j].createdAt {
      assert t[i] == items[i];
      if j < |items| {
        assert t[j] == items[j];
      }
    }
  }

  class Store {
    /** The `projects` table, by primary key. */
    var projects: map<string, Project>
    /** The keys of `projects` in the order their rows were inserted. */
    var order: seq<string>
    /** The `work_items` table, in the order its rows were inserted. */
    var items: seq<WorkItem>
    /** The latest clock reading written to either table. */
    var clock: nat

    ghost predicate Valid()
      reads this
    {
      ProjectsValid(projects, order, clock) && ItemsValid(items, clock)
    }

    /** Both tables empty, as `CREATE TABLE IF NOT EXISTS` leaves a new database file. */
    constructor (start: nat)
      ensures Valid()
      ensures projects == map[] && order == [] && items == [] && clock == start
    {
      projects, order, items, clock := map[], [], [], start;
    }

    /** `getAllProjects`: every project once, newest first, each with the
        number and totals of its work items and the same completion figure
        `getProjectById` reports. */
    method GetAllProjects() returns (r: Response<seq<ProjectSummary>>)
      requires Valid()
      ensures r.Ok? && |r.value| == |projects|
      ensures forall i :: 0 <= i < |r.value| ==>
                r.value[i].row.project.id in projects && r.value[i].row.project == projects[r.value[i].row.project.id]
      ensures forall id :: id in projects ==> exists i :: 0 <= i < |r.value| && r.value[i].row.project.id == id
      ensures forall i, j :: 0 <= i < j < |r.value| ==> r.value[i].row.project.id != r.value[j].row.project.id
      ensures forall i, j :: 0 <= i < j < |r.value| ==>
                r.value[i].row.project.createdAt >= r.value[j].row.project.createdAt
      ensures forall i :: 0 <= i < |r.value| ==> HasItemFigures(r.value[i], items)
    {
      var rows := GroupBy(projects, order, items);
      r := Ok(seq(|rows|, i requires 0 <= i < |rows| => WithProgress(rows[i])));
      assert r.value == ListProjects(projects, order, items);
      ListedRows(projects, order, clock, items);
      ListedFigures(projects, order, items);
    }

    /** `createProject`: a falsy name is refused and nothing is written; a
        key already in use fails the insert; otherwise the new row, with its
        defaults, is stored and returned. */
    method CreateProject(body: ProjectBody, newId: string, now: nat) returns (r: Response<Project>)
      requires Valid() && clock <= now
      modifies this
      ensures Valid()
      ensures !Truthy(body.name) ==> r == BadRequest("Project name is required") && unchanged(this)
      ensures Truthy(body.name) && newId in old(projects) ==>
                r == ServerError("Failed to create project") && unchanged(this)
      ensures Truthy(body.name) && newId !in old(projects) ==>
                && r == Created(NewProject(newId, body, now))
                && projects == old(projects)[newId := r.value]
                && order == old(order) + [newId]
                && items == old(items) && clock == now
    {
      if !Truthy(body.name) {
        r := BadRequest("Project name is required");
        return;
      }
      if newId in projects {
        r := ServerError("Failed to create project");
        return;
      }
      var p := NewProject(newId, body, now);
      ProjectsInsert(projects, order, clock, p, now);
      ItemsAdvance(items, clock, now);
      projects := projects[newId := p];
      order := order + [newId];
      clock := now;
      r := Created(p);
    }

    /** `getProjectById`: the project with its work items and their completion
        figure, or not found. */
    method GetProjectById(id: string) returns (r: Response<ProjectDetail>)
      requires Valid()
      ensures id !in projects ==> r == NotFound("Project not found")
      ensures id in projects ==> r.Ok? && r.value.project == projects[id]
      ensures r.Ok? ==> forall w :: w in r.value.workItems <==> w in items && w.projectId == id
      ensures r.Ok? ==> r.value.workItems == ItemsOf(items, id)
                        && r.value.completionPercentage == DetailCompletion(r.value.workItems)
    {
      if id !in projects {
        r := NotFound("Project not found");
        return;
      }
      var workItems := ItemsOf(items, id);
      r := Ok(ProjectDetail(projects[id], workItems, DetailCompletion(workItems)));
    }

    /** `updateProject`: not found, or the statement the builder produces run
        on the row; it fails, writing nothing, exactly when the body sets the
        name to `null`, and otherwise performs the promised partial update. */
    method UpdateProject(id: string, body: ProjectBody, now: nat) returns (r: Response<Project>)
      requires Valid() && clock <= now
      modifies this
      ensures Valid()
      ensures id !in old(projects) ==> r == NotFound("Project not found") && unchanged(this)
      ensures id in old(projects) && body.name == Null ==>
                r == ServerError("Failed to update project") && unchanged(this)
      ensures id in old(projects) && body.name != Null ==>
                && r == Ok(Patch(old(projects)[id], body, now))
                && projects == old(projects)[id := r.value]
                && order == old(order) && items == old(items) && clock == now
    {
      if id !in projects {
        r := NotFound("Project not found");
        return;
      }
      var updates, values := BuildUpdate(id, body, now);
      UpdateOutcome(projects, order, clock, id, body, now);
      var result := ExecUpdate(projects, updates, values);
      match result
      case None =>
        r := ServerError("Failed to update project");
      case Some(table) =>
        ItemsAdvance(items, clock, now);
        Commit(table, order, now);
        r := Ok(table[id]);
    }

    /** Stores a new `projects` table, with its insertion order, as of reading `now`. */
    method Commit(table: map<string, Project>, tableOrder: seq<string>, now: nat)
      requires ProjectsValid(table, tableOrder, now) && ItemsValid(items, now)
      modifies this
      ensures Valid()
      ensures projects == table && order == tableOrder && clock == now && items == old(items)
    {
      projects := table;
      order := tableOrder;
      clock := now;
    }

    /** `deleteProject`: not found when no row is removed; otherwise only the
        project row goes, and its work items stay. */
    method DeleteProject(id: string) returns (r: Response<()>)
      requires Valid()
      modifies this
      ensures Valid()
      ensures id !in old(projects) ==> r == NotFound("Project not found") && unchanged(this)
      ensures id in old(projects) ==>
                && r == NoContent
                && projects == old(projects) - {id}
                && order == Erase(old(order), id)
                && items == old(items) && clock == old(clock)
    {
      if id !in projects {
        r := NotFound("Project not found");
        return;
      }
      ProjectsErase(projects, order, clock, id);
      Commit(projects - {id}, Erase(order, id), clock);
      r := NoContent;
    }

    /** `getProjectWorkItems`: the items filed under the id, oldest first,
        whether or not such a project exists. */
    method GetProjectWorkItems(pid: string) returns (r: Response<seq<WorkItem>>)
      requires Valid()
      ensures r == Ok(ItemsOf(items, pid))
      ensures forall w :: w in r.value <==> w in items && w.projectId == pid
      ensures SortedByCreation(r.value)
    {
      ItemsOfSorted(items, pid);
      r := Ok(ItemsOf(items, pid));
    }

    /** `createProjectWorkItem`: a falsy name or unit, or a missing quantity
        or price, is refused; a key in use or a quantity or price that is not
        a number fails the insert; otherwise the row, with its defaults, is
        appended under the route's project id, which is not looked up. */
    method CreateProjectWorkItem(pid: string, body: WorkItemBody, newId: string, now: nat)
      returns (r: Response<WorkItem>)
      requires Valid() && clock <= now
      modifies this
      ensures Valid()
      ensures r.BadRequest? <==> !Truthy(body.name) || !Truthy(body.unit) || body.designQuantity == Undefined
                                 || body.unitPrice == Undefined
      ensures r.BadRequest? ==> r.error == "Name, unit, design quantity, and unit price are required"
      ensures r.ServerError? <==> Truthy(body.name) && Truthy(body.unit) && body.designQuantity != Undefined
                                  && body.unitPrice != Undefined
                                  && (ItemIdTaken(old(items), newId)
                                      || InsertWorkItem(WorkItemRow(pid, body, newId, now)).None?)
      ensures r.ServerError? ==> r.error == "Failed to create work item"
      ensures !r.Created? ==> unchanged(this)
      ensures r.Created? <==> Truthy(body.name) && Truthy(body.unit) && body.designQuantity != Undefined
                              && body.unitPrice != Undefined && !ItemIdTaken(old(items), newId)
                              && InsertWorkItem(WorkItemRow(pid, body, newId, now)).Some?
      ensures r.Created? ==>
                && r.value == InsertWorkItem(WorkItemRow(pid, body, newId, now)).value
                && r.value.projectId == pid && r.value.id == newId
                && items == old(items) + [r.value]
                && projects == old(projects) && order == old(order) && clock == now
      ensures r.BadRequest? || r.ServerError? || r.Created?
    {
      if !Truthy(body.name) || !Truthy(body.unit) || body.designQuantity == Undefined || body.unitPrice == Undefined {
        r := BadRequest("Name, unit, design quantity, and unit price are required");
        return;
      }
      var row := InsertWorkItem(WorkItemRow(pid, body, newId, now));
      if ItemIdTaken(items, newId) || row.None? {
        r := ServerError("Failed to create work item");
        return;
      }
      ItemsAppend(items, clock, row.value, now);
      items := items + [row.value];
      clock := now;
      r := Created(row.value);
    }
  }

  /** The list response: the grouped rows with their completion figures. */
  function ListProjects(projects: map<string, Project>, order: seq<string>, table: seq<WorkItem>)
    : (r: seq<ProjectSummary>)
    requires forall id :: id in order ==> id in projects
    ensures |r| == |order|
    ensures forall i :: 0 <= i < |r| ==>
              r[i].row.project == projects[order[|order| - 1 - i]]
              && r[i].row == Group(projects[order[|order| - 1 - i]], table)
  {
    var rows := GroupBy(projects, order, table);
    seq(|rows|, i requires 0 <= i < |rows| => WithProgress(rows[i]))
  }

  /** A listed project's figures are those of its own work items. */
  predicate HasItemFigures(s: ProjectSummary, table: seq<WorkItem>) {
    var mine := ItemsOf(table, s.row.project.id);
    && s.row.workItemCount == |mine|
    && s.row.totalDesignQuantity == Reduce(mine, Design, 0.0)
    && s.row.totalCompletedQuantity == Reduce(mine, Completed, 0.0)
    && s.completionPercentage == DetailCompletion(mine)
  }

  /** The i-th listed row is the i-th newest stored project. */
  lemma ListedAt(projects: map<string, Project>, order: seq<string>, table: seq<WorkItem>)
    requires forall id :: id in order ==> id in projects
    ensures var r := ListProjects(projects, order, table);
      && |r| == |order|
      && forall i :: 0 <= i < |r| ==> r[i].row.project == projects[order[|order| - 1 - i]]
  {
  }

  /** The list holds every stored project exactly once, newest first. */
  lemma ListedRows(projects: map<string, Project>, order: seq<string>, clock: nat, table: seq<WorkItem>)
    requires ProjectsValid(projects, order, clock)
    ensures var r := ListProjects(projects, order, table);
      && |r| == |projects|
      && (forall i :: 0 <= i < |r| ==> r[i].row.project.id in projects && r[i].row.project == projects[r[i].row.project.id])
      && (forall id :: id in projects ==> exists i :: 0 <= i < |r| && r[i].row.project.id == id)
      && (forall i, j :: 0 <= i < j < |r| ==> r[i].row.project.id != r[j].row.project.id)
      && (forall i, j :: 0 <= i < j < |r| ==> r[i].row.project.createdAt >= r[j].row.project.createdAt)
  {
    OrderCardinality(projects, order, clock);
    ListedComplete(projects, order, clock, table);
    ListedOrder(projects, order, clock, table);
  }

  lemma ListedComplete(projects: map<string, Project>, order: seq<string>, clock: nat, table: seq<WorkItem>)
    requires ProjectsValid(projects, order, clock)
    ensures var r := ListProjects(projects, order, table);
      && (forall i :: 0 <= i < |r| ==> r[i].row.project.id in projects && r[i].row.project == projects[r[i].row.project.id])
      && (forall id :: id in projects ==> exists i :: 0 <= i < |r| && r[i].row.project.id == id)
  {
    var r := ListProjects(projects, order, table);
    var n := |order|;
    ListedAt(projects, order, table);
    forall i | 0 <= i < n ensures r[i].row.project.id in projects && r[i].row.project == projects[r[i].row.project.id] {
      assert order[n - 1 - i] in projects;
    }
    forall id | id in projects ensures exists i :: 0 <= i < n && r[i].row.project.id == id {
      var k :| 0 <= k < n && order[k] == id;
      assert r[n - 1 - k].row.project.id == id;
    }
  }

  lemma ListedOrder(projects: map<string, Project>, order: seq<string>, clock: nat, table: seq<WorkItem>)
    requires ProjectsValid(projects, order, clock)
    ensures var r := ListProjects(projects, order, table);
      && (forall i, j :: 0 <= i < j < |r| ==> r[i].row.project.id != r[j].row.project.id)
      && (forall i, j :: 0 <= i < j < |r| ==> r[i].row.project.createdAt >= r[j].row.project.createdAt)
  {
    var r := ListProjects(projects, order, table);
    var n := |order|;
    ListedAt(projects, order, table);
    forall i, j | 0 <= i < j < n
      ensures r[i].row.project.id != r[j].row.project.id
      ensures r[i].row.project.createdAt >= r[j].row.project.createdAt
    {
      var a, b := order[n - 1 - j], order[n - 1 - i];
      assert a != b;
      assert projects[a].id == a && projects[b].id == b;
      assert projects[a].createdAt <= projects[b].createdAt;
    }
  }

  /** Every listed project carries the figures of its own work items. */
  lemma ListedFigures(projects: map<string, Project>, order: seq<string>, table: seq<WorkItem>)
    requires forall id :: id in order ==> id in projects
    ensures var r := ListProjects(projects, order, table);
      forall i :: 0 <= i < |r| ==> HasItemFigures(r[i], table)
  {
    var r := ListProjects(projects, order, table);
    forall i | 0 <= i < |r| ensures HasItemFigures(r[i], table) {
      GroupAgrees(r[i].row.project, table);
    }
  }

  /** Each stored project is listed once: the number of projects is the
      length of the insertion order. */
  lemma OrderCardinality(projects: map<string, Project>, order: seq<string>, clock: nat)
    requires ProjectsValid(projects, order, clock)
    ensures |projects| == |order|
  {
    DistinctCardinality(order);
    assert projects.Keys == set id | id in order;
  }

  lemma {:induction false} DistinctCardinality(s: seq<string>)
    requires Distinct(s)
    ensures |set x | x in s| == |s|
  {
    if s != [] {
      DistinctCardinality(s[1..]);
      assert (set x | x in s) == (set x | x in s[1..]) + {s[0]};
      assert s[0] !in s[1..] by {
        forall j | 0 <= j < |s[1..]| ensures s[1..][j] != s[0] {
          assert s[1..][j] == s[j + 1];
        }
      }
    }
  }

  /** `UPDATE projects SET <updates> WHERE id = ?`, the key being the last
      bound value: the matching row is replaced by the assignments' result,
      or the statement fails as a whole; with no matching row nothing changes. */
  function ExecUpdate(table: map<string, Project>, updates: seq<string>, values: seq<Param>)
    : (r: Option<map<string, Project>>)
    requires |values| == |updates| + 1
    ensures r.Some? ==> r.value.Keys == table.Keys
    ensures r.Some? ==> forall k :: k in table && values[|updates|] != Bound(Str(k)) ==> r.value[k] == table[k]
  {
    match values[|updates|]
    case Bound(Str(k)) =>
      if k in table then
        match RunUpdate(table[k], updates, values[..|updates|])
        case None => None
        case Some(row) => Some(table[k := row])
      else Some(table)
    case _ => Some(table)
  }

  /** The statement `updateProject` builds, run on the table: it fails
      exactly when the body sets the name to `null`, and otherwise replaces
      the project's row by the promised partial update and no other row. */
  lemma ExecBuiltUpdate(table: map<string, Project>, id: string, body: ProjectBody, now: nat)
    requires id in table && table[id].id == id && ProjectConstraints(table[id])
    ensures var cols := UpdateColumns(body);
      ExecUpdate(table, Clauses(cols), Params(cols, body, now) + [Bound(Str(id))])
      == if body.name == Null then None else Some(table[id := Patch(table[id], body, now)])
  {
    var cols := UpdateColumns(body);
    var updates, values := Clauses(cols), Params(cols, body, now) + [Bound(Str(id))];
    assert values[|updates|] == Bound(Str(id));
    assert values[..|updates|] == Params(cols, body, now);
    UpdateStatementIsPatch(table[id], body, now);
  }

  /** Deleting a project and then listing its work items: the items are still
      there, as no cascade is declared on `work_items.project_id`. */
  method DeleteThenListItems(s: Store, id: string) returns (deleted: Response<()>, listed: Response<seq<WorkItem>>)
    requires s.Valid()
    modifies s
    ensures s.Valid()
    ensures deleted == if id in old(s.projects) then NoContent else NotFound("Project not found")
    ensures listed == Ok(ItemsOf(old(s.items), id))
  {
    deleted := s.DeleteProject(id);
    listed := s.GetProjectWorkItems(id);
  }

  /** Once the required fields are present, the insert fails on the
      `NOT NULL` numeric columns exactly when the quantity or the price does
      not parse as a number. */
  lemma WorkItemInsertFails(pid: string, body: WorkItemBody, id: string, now: nat)
    requires Truthy(body.name) && Truthy(body.unit)
    ensures InsertWorkItem(WorkItemRow(pid, body, id, now)).None?
            <==> ParseFloat(body.designQuantity).NaN? || ParseFloat(body.unitPrice).NaN?
  {
  }

  /** A zero quantity passes the check (`=== undefined`, not truthiness) and is stored. */
  lemma ZeroQuantityAccepted(pid: string, body: WorkItemBody, id: string, now: nat)
    requires Truthy(body.name) && Truthy(body.unit)
    requires body.designQuantity == Num(0.0) && body.unitPrice.Num?
    ensures var row := InsertWorkItem(WorkItemRow(pid, body, id, now));
      row.Some? && row.value.designQuantity == 0.0 && row.value.completedQuantity == 0.0
      && row.value.unitPrice == body.unitPrice.n && row.value.status == Str(DefaultWorkItemStatus)
  {
  }
}
