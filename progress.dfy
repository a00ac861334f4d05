/** The progress figures of a project: the totals of its work items'
    quantities and the completion percentage derived from them. The list
    handler gets the totals from an SQL `LEFT JOIN ... GROUP BY` with `SUM`,
    `COALESCE` and `COUNT`; the detail handler sums the fetched items with a
    JavaScript `reduce`. Both feed the same rounding. Arithmetic is over the
    reals. */
module Progress {
  import opened JsValues
  import opened Schema

  /** Which of a work item's two quantities is summed. */
  datatype Quantity = Design | Completed

  function Amount(w: WorkItem, q: Quantity): real {
    match q
    case Design => w.designQuantity
    case Completed => w.completedQuantity
  }

  /** `SELECT * FROM work_items WHERE project_id = ?`, in table order. */
  function ItemsOf(table: seq<WorkItem>, pid: string): (r: seq<WorkItem>)
    ensures |r| <= |table|
    ensures forall w :: w in r <==> w in table && w.projectId == pid
  {
    if table == [] then []
    else if table[0].projectId == pid then [table[0]] + ItemsOf(table[1..], pid)
    else ItemsOf(table[1..], pid)
  }

  /** `items.reduce((sum, item) => sum + item.<q>, acc)` */
  function Reduce(items: seq<WorkItem>, q: Quantity, acc: real): (r: real)
    ensures (forall w :: w in items ==> 0.0 <= Amount(w, q)) ==> acc <= r
  {
    if items == [] then acc else Reduce(items[1..], q, acc + Amount(items[0], q))
  }

  /** `SUM(wi.<q>)` over the rows of the join that belong to `pid`: NULL (None)
      when the group has no work item. */
  function SqlSum(table: seq<WorkItem>, pid: string, q: Quantity): (r: Option<real>)
    ensures r.None? <==> forall w :: w in table ==> w.projectId != pid
  {
    if table == [] then None
    else
      var rest := SqlSum(table[1..], pid, q);
      if table[0].projectId != pid then rest
      else Some(Amount(table[0], q) + Coalesce(rest, 0.0))
  }

  /** `COUNT(wi.id)` over the group of `pid`; work-item ids are never NULL. */
  function SqlCount(table: seq<WorkItem>, pid: string): (r: nat)
    ensures r <= |table|
    ensures r == 0 <==> forall w :: w in table ==> w.projectId != pid
  {
    if table == [] then 0
    else (if table[0].projectId == pid then 1 else 0) + SqlCount(table[1..], pid)
  }

  /** `COALESCE(x, d)` */
  function Coalesce(x: Option<real>, d: real): real {
    match x
    case Some(v) => v
    case None => d
  }

  /** `Math.round(x * 100) / 100` over the reals: halves round up. */
  function Round2(x: real): (r: real)
    ensures x - 0.005 < r <= x + 0.005
    ensures (r * 100.0).Floor as real == r * 100.0
  {
    var k := (x * 100.0 + 0.5).Floor;
    assert k as real <= x * 100.0 + 0.5 < k as real + 1.0;
    k as real / 100.0
  }

  /** The completion percentage from the two totals, as both handlers compute it. */
  function Completion(totalDesign: real, totalCompleted: real): (r: real)
    ensures totalDesign <= 0.0 ==> r == 0.0
    ensures totalDesign > 0.0 ==>
              var share := totalCompleted / totalDesign * 100.0;
              share - 0.005 < r <= share + 0.005
    ensures (r * 100.0).Floor as real == r * 100.0
  {
    Round2(if totalDesign > 0.0 then totalCompleted / totalDesign * 100.0 else 0.0)
  }

  /** The figure `getProjectById` attaches, from the project's fetched items. */
  function DetailCompletion(items: seq<WorkItem>): (r: real)
    ensures items == [] ==> r == 0.0
    ensures Reduce(items, Design, 0.0) <= 0.0 ==> r == 0.0
    ensures Reduce(items, Design, 0.0) > 0.0 ==>
              var share := Reduce(items, Completed, 0.0) / Reduce(items, Design, 0.0) * 100.0;
              share - 0.005 < r <= share + 0.005
    ensures (r * 100.0).Floor as real == r * 100.0
  {
    Completion(Reduce(items, Design, 0.0), Reduce(items, Completed, 0.0))
  }

  /** The figure `getAllProjects` attaches, from the joined totals. */
  function ListCompletion(table: seq<WorkItem>, pid: string): (r: real)
    ensures (forall w :: w in table ==> w.projectId != pid) ==> r == 0.0
    ensures Coalesce(SqlSum(table, pid, Design), 0.0) <= 0.0 ==> r == 0.0
    ensures Coalesce(SqlSum(table, pid, Design), 0.0) > 0.0 ==>
              var share := Coalesce(SqlSum(table, pid, Completed), 0.0)
                           / Coalesce(SqlSum(table, pid, Design), 0.0) * 100.0;
              share - 0.005 < r <= share + 0.005
    ensures (r * 100.0).Floor as real == r * 100.0
  {
    Completion(Coalesce(SqlSum(table, pid, Design), 0.0), Coalesce(SqlSum(table, pid, Completed), 0.0))
  }

  /** A reduce with a starting value is the starting value plus the reduce from 0. */
  lemma {:induction false} ReduceFrom(items: seq<WorkItem>, q: Quantity, acc: real)
    ensures Reduce(items, q, acc) == acc + Reduce(items, q, 0.0)
  {
    if items != [] {
      ReduceFrom(items[1..], q, acc + Amount(items[0], q));
      ReduceFrom(items[1..], q, Amount(items[0], q));
    }
  }

  /** The SQL group sum (with COALESCE) and the JavaScript reduce over the
      project's fetched items are the same number, and the SQL sum is NULL
      exactly when the project has no work item. */
  lemma {:induction false} SqlSumIsReduce(table: seq<WorkItem>, pid: string, q: Quantity)
    ensures Coalesce(SqlSum(table, pid, q), 0.0) == Reduce(ItemsOf(table, pid), q, 0.0)
    ensures SqlSum(table, pid, q).None? <==> ItemsOf(table, pid) == []
  {
    if table != [] {
      SqlSumIsReduce(table[1..], pid, q);
      if table[0].projectId == pid {
        var rest := ItemsOf(table[1..], pid);
        assert ([table[0]] + rest)[1..] == rest;
        ReduceFrom(rest, q, 0.0 + Amount(table[0], q));
      }
    }
  }

  /** `COUNT(wi.id)` is the number of items the detail query fetches. */
  lemma {:induction false} SqlCountIsLength(table: seq<WorkItem>, pid: string)
    ensures SqlCount(table, pid) == |ItemsOf(table, pid)|
  {
    if table != [] {
      SqlCountIsLength(table[1..], pid);
    }
  }

  /** The list and the detail handler report the same completion percentage
      for a project. */
  lemma ListAgreesWithDetail(table: seq<WorkItem>, pid: string)
    ensures ListCompletion(table, pid) == DetailCompletion(ItemsOf(table, pid))
  {
    SqlSumIsReduce(table, pid, Design);
    SqlSumIsReduce(table, pid, Completed);
  }

  /** Rounding keeps a value within [0, 100]. */
  lemma Round2Bounds(x: real)
    requires 0.0 <= x <= 100.0
    ensures 0.0 <= Round2(x) <= 100.0
  {
    var k := (x * 100.0 + 0.5).Floor;
    assert k <= 10000;
  }

  /** A value already on a hundredth is not moved by rounding. */
  lemma Round2Exact(k: int)
    ensures Round2(k as real / 100.0) == k as real / 100.0
  {
    var x := k as real / 100.0;
    assert x * 100.0 == k as real;
    assert (k as real + 0.5).Floor == k;
  }

  /** The completed total stays below the design total when every item does. */
  lemma {:induction false} ReduceMonotone(items: seq<WorkItem>, acc: real)
    requires forall w :: w in items ==> 0.0 <= w.completedQuantity <= w.designQuantity
    ensures Reduce(items, Completed, acc) <= Reduce(items, Design, acc)
    ensures 0.0 <= Reduce(items, Completed, 0.0)
  {
    if items != [] {
      ReduceMonotone(items[1..], acc);
      ReduceFrom(items[1..], Completed, acc + items[0].completedQuantity);
      ReduceFrom(items[1..], Design, acc + items[0].designQuantity);
      ReduceFrom(items[1..], Completed, acc);
      ReduceFrom(items[1..], Design, acc);
      ReduceFrom(items[1..], Completed, items[0].completedQuantity);
    }
  }

  /** When no item is over-completed and no quantity is negative, the
      percentage lies between 0 and 100. */
  lemma CompletionBounds(items: seq<WorkItem>)
    requires forall w :: w in items ==> 0.0 <= w.completedQuantity <= w.designQuantity
    ensures 0.0 <= DetailCompletion(items) <= 100.0
  {
    var d := Reduce(items, Design, 0.0);
    var c := Reduce(items, Completed, 0.0);
    ReduceMonotone(items, 0.0);
    if d > 0.0 {
      assert c / d <= 1.0 by {
        assert c <= d;
      }
      Round2Bounds(c / d * 100.0);
    } else {
      Round2Bounds(0.0);
    }
  }
}
