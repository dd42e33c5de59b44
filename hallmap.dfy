/** The hall map page: a status filter, the six hall rows, the rows grouped
    under their price category, and what a click on a workstation does. */
module HallMap {
  import opened Wrappers
  import opened Model
  import opened Seqs
  import opened Hall
  import Registry

  datatype StatusFilter = AllStatuses | WithStatus(status: PCStatus)

  /** `filteredPCs`: everything for `all`, otherwise exactly the workstations
      with the chosen status, in list order. */
  function FilteredPCs(pcs: seq<PC>, filter: StatusFilter): (r: seq<PC>)
    ensures filter.AllStatuses? ==> r == pcs
    ensures filter.WithStatus? ==> forall pc :: pc in r <==> pc in pcs && pc.status == filter.status
  {
    var keep := (pc: PC) => filter.AllStatuses? || pc.status == filter.status;
    if filter.AllStatuses? then FilterKeepsAll(keep, pcs); Filter(keep, pcs)
    else Filter(keep, pcs)
  }

  const RowCount := 6

  /** `pcsByRow[r - 1]`: the filtered workstations of row `r`, unsorted. */
  function HallRows(filtered: seq<PC>): (rows: seq<seq<PC>>)
    ensures |rows| == RowCount
    ensures forall i, pc :: 0 <= i < RowCount ==> (pc in rows[i] <==> pc in filtered && pc.row == i + 1)
  {
    seq(RowCount, i requires 0 <= i < RowCount => InRow(filtered, i + 1))
  }

  /** How many workstations the six rows show together. */
  function ShownCount(rows: seq<seq<PC>>): nat
    requires |rows| == RowCount
  {
    |rows[0]| + |rows[1]| + |rows[2]| + |rows[3]| + |rows[4]| + |rows[5]|
  }

  function RowSize(pcs: seq<PC>, row: int): nat
  {
    |InRow(pcs, row)|
  }

  lemma RowSizeSnoc(pcs: seq<PC>, pc: PC, row: int)
    ensures RowSize(pcs + [pc], row) == RowSize(pcs, row) + (if pc.row == row then 1 else 0)
  {
    FilterSnoc((p: PC) => p.row == row, pcs, pc);
  }

  lemma {:induction false} RowSizesAddUp(pcs: seq<PC>)
    requires forall pc :: pc in pcs ==> 1 <= pc.row <= RowCount
    ensures RowSize(pcs, 1) + RowSize(pcs, 2) + RowSize(pcs, 3)
            + RowSize(pcs, 4) + RowSize(pcs, 5) + RowSize(pcs, 6) == |pcs|
    decreases |pcs|
  {
    if pcs != [] {
      var init := pcs[..|pcs| - 1];
      var last := pcs[|pcs| - 1];
      assert pcs == init + [last];
      assert forall pc :: pc in init ==> pc in pcs;
      RowSizesAddUp(init);
      RowSizeSnoc(init, last, 1);
      RowSizeSnoc(init, last, 2);
      RowSizeSnoc(init, last, 3);
      RowSizeSnoc(init, last, 4);
      RowSizeSnoc(init, last, 5);
      RowSizeSnoc(init, last, 6);
    }
  }

  /** When every workstation sits in rows 1 to 6, the six rows show each of
      them exactly once: their lengths add up to the whole list. */
  lemma HallRowsCoverAll(filtered: seq<PC>)
    requires forall pc :: pc in filtered ==> 1 <= pc.row <= RowCount
    ensures ShownCount(HallRows(filtered)) == |filtered|
  {
    RowSizesAddUp(filtered);
  }

  /** The price categories of `rowCategories`, and `Other` for the fallback. */
  datatype Category = Vip | Standard | Economy | Other

  function CategoryName(c: Category): string
  {
    match c
    case Vip => "VIP"
    case Standard => "Стандарт"
    case Economy => "Эконом"
    case Other => "Другое"
  }

  /** With the "all" filter the map shows each of the 30 initial
      workstations exactly once. */
  lemma InitialHallShownOnce()
    ensures ShownCount(HallRows(FilteredPCs(Registry.InitialPCs(), AllStatuses))) == Registry.HallSize
  {
    var pcs := Registry.InitialPCs();
    Registry.InitialPCsFillGrid();
    forall pc | pc in pcs ensures 1 <= pc.row <= RowCount {
      var i :| 0 <= i < |pcs| && pcs[i] == pc;
    }
    HallRowsCoverAll(pcs);
  }

  /** `rowCategories[row]?.name || 'Другое'`, as the category it names. */
  function RowCategory(row: int): Category
  {
    if row == 1 || row == 2 then Vip
    else if row == 3 || row == 4 then Standard
    else if row == 5 || row == 6 then Economy
    else Other
  }

  /** Group keys are the category names, and different categories have
      different names, so grouping by name is grouping by category. */
  lemma CategoryNamesDistinct(c: Category, d: Category)
    requires c != d
    ensures CategoryName(c) != CategoryName(d)
  {
    assert CategoryName(c)[0] != CategoryName(d)[0];
  }

  datatype RowGroup = RowGroup(category: Category, rows: seq<int>)

  function InCategory(c: Category): int -> bool
  {
    (row: int) => RowCategory(row) == c
  }

  function Categories(groups: seq<RowGroup>): set<Category>
  {
    set g | g in groups :: g.category
  }

  function HasCategory(c: Category): RowGroup -> bool
  {
    (g: RowGroup) => g.category == c
  }

  /** What `groupedRows` holds after the rows `seen`: distinct categories,
      each group holding exactly its rows in order, no empty group, and a
      group for every row seen. */
  ghost predicate Grouped(groups: seq<RowGroup>, seen: seq<int>)
  {
    && DistinctCategories(groups)
    && GroupsHoldTheirRows(groups, seen)
    && (forall i :: 0 <= i < |groups| ==> groups[i].rows != [])
    && CoversRows(groups, seen)
  }

  ghost predicate DistinctCategories(groups: seq<RowGroup>)
  {
    forall i, j :: 0 <= i < j < |groups| ==> groups[i].category != groups[j].category
  }

  ghost predicate GroupsHoldTheirRows(groups: seq<RowGroup>, seen: seq<int>)
  {
    forall i :: 0 <= i < |groups| ==> groups[i].rows == Filter(InCategory(groups[i].category), seen)
  }

  ghost predicate CoversRows(groups: seq<RowGroup>, seen: seq<int>)
  {
    forall m :: 0 <= m < |seen| ==> RowCategory(seen[m]) in Categories(groups)
  }

  /** A category without a group has no row among those seen. */
  lemma AbsentCategoryHasNoRows(groups: seq<RowGroup>, seen: seq<int>, c: Category)
    requires CoversRows(groups, seen)
    requires c !in Categories(groups)
    ensures Filter(InCategory(c), seen) == []
  {
    forall x | x in seen ensures !InCategory(c)(x) {
      var m :| 0 <= m < |seen| && seen[m] == x;
    }
    FilterKeepsNone(InCategory(c), seen);
  }

  /** How `groupedRows` changes in one step: a new group at the end when the
      row's category has none (`k` is `None`), else the row appended to the
      group `k`. */
  predicate GroupStepped(before: seq<RowGroup>, after: seq<RowGroup>, row: int, k: Option<nat>)
  {
    && (k.None? ==> after == before + [RowGroup(RowCategory(row), [row])])
    && (k.Some? ==> k.value < |before| && before[k.value].category == RowCategory(row)
                    && after == before[k.value := before[k.value].(rows := before[k.value].rows + [row])])
  }

  lemma GroupsHoldStep(before: seq<RowGroup>, after: seq<RowGroup>, seen: seq<int>, row: int, k: Option<nat>)
    requires GroupsHoldTheirRows(before, seen) && DistinctCategories(before)
    requires GroupStepped(before, after, row, k)
    requires k.None? ==> forall i :: 0 <= i < |before| ==> before[i].category != RowCategory(row)
    requires k.None? ==> Filter(InCategory(RowCategory(row)), seen) == []
    ensures GroupsHoldTheirRows(after, seen + [row])
  {
    forall i | 0 <= i < |after|
      ensures after[i].rows == Filter(InCategory(after[i].category), seen + [row])
    {
      FilterSnoc(InCategory(after[i].category), seen, row);
      if i < |before| {
        assert after[i].category == before[i].category;
        if k.Some? && i != k.value {
          assert before[i].category != RowCategory(row) by {
            if i < k.value {
              assert before[i].category != before[k.value].category;
            } else {
              assert before[k.value].category != before[i].category;
            }
          }
        }
      }
    }
  }

  lemma DistinctStep(before: seq<RowGroup>, after: seq<RowGroup>, row: int, k: Option<nat>)
    requires DistinctCategories(before)
    requires GroupStepped(before, after, row, k)
    requires k.None? ==> forall i :: 0 <= i < |before| ==> before[i].category != RowCategory(row)
    ensures DistinctCategories(after)
  {
    forall i, j | 0 <= i < j < |after| ensures after[i].category != after[j].category {
      if j < |before| {
        assert after[i].category == before[i].category && after[j].category == before[j].category;
      }
    }
  }

  lemma CategoriesStep(before: seq<RowGroup>, after: seq<RowGroup>, row: int, k: Option<nat>)
    requires GroupStepped(before, after, row, k)
    ensures Categories(after) == Categories(before) + {RowCategory(row)}
  {
    if k.None? {
      assert forall g :: g in after <==> g in before || g == after[|before|];
    } else {
      forall x | x in Categories(after) ensures x in Categories(before) {
        var g :| g in after && g.category == x;
        var i :| 0 <= i < |after| && after[i] == g;
        assert before[i] in before;
      }
      forall x | x in Categories(before) ensures x in Categories(after) {
        var g :| g in before && g.category == x;
        var i :| 0 <= i < |before| && before[i] == g;
        assert after[i] in after;
      }
    }
  }

  lemma CoversStep(before: seq<RowGroup>, after: seq<RowGroup>, seen: seq<int>, row: int)
    requires CoversRows(before, seen)
    requires Categories(after) == Categories(before) + {RowCategory(row)}
    ensures CoversRows(after, seen + [row])
  {
    var all := seen + [row];
    forall m | 0 <= m < |all| ensures RowCategory(all[m]) in Categories(after) {
      if m < |seen| {
        assert all[m] == seen[m];
      }
    }
  }

  /** No group has the category `FindIndex` did not find. */
  lemma NotFoundCategory(groups: seq<RowGroup>, c: Category)
    requires FindIndex(HasCategory(c), groups).None?
    ensures forall i :: 0 <= i < |groups| ==> groups[i].category != c
    ensures c !in Categories(groups)
  {
    assert forall i :: 0 <= i < |groups| ==> !HasCategory(c)(groups[i]);
  }

  /** One `forEach` step: `row` joins the group of its category, which is
      created at the end if missing. */
  lemma GroupedStep(before: seq<RowGroup>, after: seq<RowGroup>, seen: seq<int>, row: int, k: Option<nat>)
    requires Grouped(before, seen)
    requires k == FindIndex(HasCategory(RowCategory(row)), before)
    requires k.None? ==> after == before + [RowGroup(RowCategory(row), [row])]
    requires k.Some? ==> after == before[k.value := before[k.value].(rows := before[k.value].rows + [row])]
    ensures Grouped(after, seen + [row])
  {
    var c := RowCategory(row);
    assert GroupStepped(before, after, row, k);
    if k.None? {
      NotFoundCategory(before, c);
      AbsentCategoryHasNoRows(before, seen, c);
    }
    GroupsHoldStep(before, after, seen, row, k);
    DistinctStep(before, after, row, k);
    CategoriesStep(before, after, row, k);
    CoversStep(before, after, seen, row);
  }

  /** One `forEach` step on the groups: `row` joins the group at `k`, or
      opens a new group at the end when `k` is missing. */
  function AddRow(groups: seq<RowGroup>, row: int, k: Option<nat>): (r: seq<RowGroup>)
    requires k.Some? ==> k.value < |groups|
    ensures k.None? ==> r == groups + [RowGroup(RowCategory(row), [row])]
    ensures k.Some? ==> r == groups[k.value := groups[k.value].(rows := groups[k.value].rows + [row])]
  {
    if k.None? then groups + [RowGroup(RowCategory(row), [row])]
    else groups[k.value := groups[k.value].(rows := groups[k.value].rows + [row])]
  }

  lemma PrefixStep(rows: seq<int>, n: nat)
    requires n < |rows|
    ensures rows[..n + 1] == rows[..n] + [rows[n]]
  {
  }

  /** `groupedRows`: one group per category met, each holding exactly its
      rows, in input order. */
  method GroupRows(rows: seq<int>) returns (groups: seq<RowGroup>)
    ensures Grouped(groups, rows)
  {
    groups := [];
    ghost var seen: seq<int> := [];
    var n := 0;
    while n < |rows|
      invariant 0 <= n <= |rows|
      invariant seen == rows[..n]
      invariant Grouped(groups, seen)
    {
      var row := rows[n];
      var k := FindIndex(HasCategory(RowCategory(row)), groups);
      ghost var before := groups;
      groups := AddRow(groups, row, k);
      GroupedStep(before, groups, seen, row, k);
      PrefixStep(rows, n);
      seen := seen + [row];
      n := n + 1;
    }
    assert seen == rows;
  }

  /** The hall's six rows fall into three categories of two neighbouring rows each. */
  lemma HallCategories()
    ensures forall row :: 1 <= row <= RowCount ==> RowCategory(row) != Other
    ensures forall row :: row in {1, 3, 5} ==> RowCategory(row) == RowCategory(row + 1)
    ensures RowCategory(1) != RowCategory(3) && RowCategory(3) != RowCategory(5) && RowCategory(1) != RowCategory(5)
  {
  }

  datatype Click = GoToBooking(pcId: int) | ShowDetails(pc: PC)

  /** `handlePCClick`: an `available` workstation opens its booking page; any
      other only opens its details. */
  function HandlePCClick(pc: PC): (r: Click)
    ensures r.GoToBooking? <==> pc.status == Available
    ensures r.GoToBooking? ==> r.pcId == pc.id
    ensures r.ShowDetails? ==> r.pc == pc
  {
    if pc.status == Available then GoToBooking(pc.id) else ShowDetails(pc)
  }
}
