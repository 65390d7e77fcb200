/** The figures the console and file renderers compute from a parse result:
    the rows of `format_boq_table` and `format_bbs_table` (the grid drawing
    itself is left to `tabulate`), the running steel total of the latter, and
    the totals of `print_summary`. */
module Reports {
  import opened Wrappers
  import opened JsonValue
  import ResponseParser

  /** A table cell: a value shown as it is, or a number shown with `:.2f`. */
  datatype Cell = Shown(v: Json) | Fixed2(x: real)

  /** A column: the key it reads from an entry and how it shows the value. */
  datatype Column = Plain(key: string) | TwoDecimals(key: string)

  /** What a table function returns: the fixed message for an empty list, or a
      grid with its headers, one row per entry and, for the bar bending
      schedule, the total steel weight printed under it. */
  datatype Table =
    | Message(text: string)
    | Grid(headers: seq<string>, rows: seq<seq<Cell>>, totalSteel: Option<real>)

  const NoBoqMessage: string := "No BOQ items found."
  const NoBbsMessage: string := "No BBS items found."

  const BoqHeaders: seq<string> :=
    ["Component", "Type", "L(m)", "B(m)", "D(m)", "Qty", "Unit", "Conf.", "Source"]
  const BoqColumns: seq<Column> :=
    [Plain("component"), Plain("type"), TwoDecimals("length"), TwoDecimals("breadth"),
     TwoDecimals("depth"), TwoDecimals("quantity"), Plain("unit"), Plain("confidence"), Plain("source")]

  const BbsHeaders: seq<string> :=
    ["Mark", "Member", "Dia(mm)", "Count", "Length(m)", "Total(m)", "Weight(kg)", "Notes"]
  const BbsColumns: seq<Column> :=
    [Plain("mark"), Plain("member"), Plain("dia_mm"), Plain("count"), TwoDecimals("length"),
     TwoDecimals("total_length"), TwoDecimals("weight_kg"), Plain("notes")]

  /** One cell of an entry; `None` when the key is missing, the entry is not
      a dict, or a two-decimal column holds something that is not a number. */
  function CellOf(item: Json, c: Column): (r: Option<Cell>)
    ensures c.TwoDecimals? ==> (r.Some? <==> NumberField(item, c.key).Some?)
    ensures c.Plain? ==> (r.Some? <==> Get(item, c.key).Some?)
  {
    match c
    case Plain(k) =>
      (match Get(item, k) case Some(v) => Some(Shown(v)) case None => None)
    case TwoDecimals(k) =>
      (match NumberField(item, k) case Some(x) => Some(Fixed2(x)) case None => None)
  }

  /** A cell fails exactly when the entry is not a dict or lacks the key, or
      when a two-decimal column finds something other than a number or a
      boolean; a plain cell shows the value stored under the key. */
  lemma CellOfMeaning(item: Json, c: Column)
    ensures CellOf(item, c).Some? <==>
      item.Object? && c.key in Keys(item.members) && (c.TwoDecimals? ==> IsNumeric(Lookup(item.members, c.key)))
    ensures CellOf(item, c).Some? && c.Plain? ==>
      CellOf(item, c).value.Shown? && (c.key, CellOf(item, c).value.v) in item.members
    ensures CellOf(item, c).Some? && c.TwoDecimals? ==>
      CellOf(item, c).value.Fixed2? && NumberField(item, c.key) == Some(CellOf(item, c).value.x)
  {
    GetKeys(item, c.key);
    NumberFieldIff(item, c.key);
  }

  /** The row of an entry: its cells in column order, or `None` if one of
      them raises. */
  function Row(item: Json, cols: seq<Column>): Option<seq<Cell>>
  {
    if cols == [] then Some([])
    else
      match (CellOf(item, cols[0]), Row(item, cols[1..]))
      case (Some(c), Some(cs)) => Some([c] + cs)
      case _ => None
  }

  /** A row exists exactly when every cell does, and holds them in column
      order. */
  lemma {:induction false} RowCells(item: Json, cols: seq<Column>)
    ensures Row(item, cols).Some? <==> forall j :: 0 <= j < |cols| ==> CellOf(item, cols[j]).Some?
    ensures Row(item, cols).Some? ==> |Row(item, cols).value| == |cols|
    ensures Row(item, cols).Some? ==> forall j :: 0 <= j < |cols| ==> Some(Row(item, cols).value[j]) == CellOf(item, cols[j])
  {
    if cols != [] {
      RowCells(item, cols[1..]);
      assert forall j :: 1 <= j < |cols| ==> cols[j] == cols[1..][j - 1];
    }
  }

  /** The rows of a list of entries, built front to back as the loop and the
      comprehension build them. */
  function Rows(xs: seq<Json>, cols: seq<Column>): (r: Option<seq<seq<Cell>>>)
    ensures r.Some? <==> forall i :: 0 <= i < |xs| ==> Row(xs[i], cols).Some?
    ensures r.Some? ==> |r.value| == |xs|
    ensures r.Some? ==> forall i :: 0 <= i < |xs| ==> Some(r.value[i]) == Row(xs[i], cols)
  {
    if xs == [] then Some([])
    else
      var init := xs[..|xs| - 1];
      assert forall i :: 0 <= i < |init| ==> init[i] == xs[i];
      match (Rows(init, cols), Row(xs[|xs| - 1], cols))
      case (Some(rs), Some(row)) => Some(rs + [row])
      case _ => None
  }

  /** `sum(item[k] for item in xs)`, added up front to back; `None` when an
      entry lacks `k` or holds something that is not a number there. */
  function SumField(xs: seq<Json>, k: string): (r: Option<real>)
    ensures r.Some? <==> forall i :: 0 <= i < |xs| ==> NumberField(xs[i], k).Some?
  {
    if xs == [] then Some(0.0)
    else
      var init := xs[..|xs| - 1];
      assert forall i :: 0 <= i < |init| ==> init[i] == xs[i];
      match (SumField(init, k), NumberField(xs[|xs| - 1], k))
      case (Some(s), Some(x)) => Some(s + x)
      case _ => None
  }

  /** `format_boq_table`: the fixed message exactly when the list is empty
      (or otherwise false); else one row per entry, in order, with the
      entry's fields in header order; `None` when an entry raises. */
  function BoqTable(boqItems: Json): (r: Option<Table>)
    ensures (r.Some? && r.value.Message?) <==> Falsy(boqItems)
    ensures r.Some? && r.value.Message? ==> r.value.text == NoBoqMessage
    ensures r.Some? && r.value.Grid? ==>
      && Iterate(boqItems).Some?
      && r.value.headers == BoqHeaders
      && |r.value.rows| == |Iterate(boqItems).value|
      && forall i :: 0 <= i < |r.value.rows| ==> Some(r.value.rows[i]) == Row(Iterate(boqItems).value[i], BoqColumns)
    ensures r.None? <==> (!Falsy(boqItems) &&
      (Iterate(boqItems).None? || exists i :: 0 <= i < |Iterate(boqItems).value| && Row(Iterate(boqItems).value[i], BoqColumns).None?))
  {
    if Falsy(boqItems) then Some(Message(NoBoqMessage))
    else
      match Iterate(boqItems)
      case None => None
      case Some(xs) =>
        match Rows(xs, BoqColumns)
        case Some(rows) => Some(Grid(BoqHeaders, rows, None))
        case None => None
  }

  /** A two-decimal column of every row is a number of every entry, so a
      rendered table always has its sum. */
  lemma RowsHaveSum(xs: seq<Json>, cols: seq<Column>, j: nat)
    requires Rows(xs, cols).Some? && j < |cols| && cols[j].TwoDecimals?
    ensures SumField(xs, cols[j].key).Some?
  {
    forall i | 0 <= i < |xs| ensures NumberField(xs[i], cols[j].key).Some? {
      assert Row(xs[i], cols).Some?;
      RowCells(xs[i], cols);
      assert CellOf(xs[i], cols[j]).Some?;
    }
  }

  /** `format_bbs_table` as a value: as `BoqTable`, and a grid carries the sum
      of the entries' `weight_kg` (see `BbsTableShape`). */
  function BbsTable(bbsItems: Json): Option<Table>
  {
    if Falsy(bbsItems) then Some(Message(NoBbsMessage))
    else
      match Iterate(bbsItems)
      case None => None
      case Some(xs) =>
        match Rows(xs, BbsColumns)
        case Some(rows) => Some(Grid(BbsHeaders, rows, SumField(xs, "weight_kg")))
        case None => None
  }

  /** The schedule table shows the fixed message exactly when the list is
      empty (or otherwise false); else one row per entry, in order, and a
      total under it that is the entries' summed `weight_kg`; it raises
      exactly when some entry lacks a column. */
  lemma BbsTableShape(bbsItems: Json)
    ensures var r := BbsTable(bbsItems);
      && ((r.Some? && r.value.Message?) <==> Falsy(bbsItems))
      && (r.Some? && r.value.Message? ==> r.value.text == NoBbsMessage)
      && (r.Some? && r.value.Grid? ==>
        && Iterate(bbsItems).Some?
        && r.value.headers == BbsHeaders
        && |r.value.rows| == |Iterate(bbsItems).value|
        && (forall i :: 0 <= i < |r.value.rows| ==> Some(r.value.rows[i]) == Row(Iterate(bbsItems).value[i], BbsColumns))
        && r.value.totalSteel.Some?
        && r.value.totalSteel == SumField(Iterate(bbsItems).value, "weight_kg"))
      && (r.None? <==> (!Falsy(bbsItems) &&
        (Iterate(bbsItems).None? || exists i :: 0 <= i < |Iterate(bbsItems).value| && Row(Iterate(bbsItems).value[i], BbsColumns).None?)))
  {
    if !Falsy(bbsItems) && Iterate(bbsItems).Some? && Rows(Iterate(bbsItems).value, BbsColumns).Some? {
      RowsHaveSum(Iterate(bbsItems).value, BbsColumns, 6);
    }
  }

  /** A schedule entry whose row renders has a numeric `weight_kg`. */
  lemma RowWeight(item: Json)
    requires Row(item, BbsColumns).Some?
    ensures NumberField(item, "weight_kg").Some?
  {
    RowCells(item, BbsColumns);
    assert CellOf(item, BbsColumns[6]).Some?;
  }

  /** `format_bbs_table`: appends one row per entry and adds its `weight_kg`
      to a running total that starts at 0. */
  method FormatBbsTable(bbsItems: Json) returns (r: Option<Table>)
    ensures r == BbsTable(bbsItems)
  {
    if Falsy(bbsItems) {
      return Some(Message(NoBbsMessage));
    }
    var items := Iterate(bbsItems);
    if items.None? {
      return None;                          // not iterable
    }
    var xs := items.value;
    var data: seq<seq<Cell>> := [];
    var totalWeight: real := 0.0;
    var i := 0;
    while i < |xs|
      invariant 0 <= i <= |xs|
      invariant Rows(xs[..i], BbsColumns) == Some(data)
      invariant SumField(xs[..i], "weight_kg") == Some(totalWeight)
    {
      var row := Row(xs[i], BbsColumns);
      if row.None? {
        RowFailsTable(bbsItems, i);
        return None;                        // a KeyError or a format error
      }
      var weight := NumberField(xs[i], "weight_kg");
      BbsLoopStep(xs, i, data, totalWeight);
      data := data + [row.value];
      totalWeight := totalWeight + weight.value;
      i := i + 1;
    }
    assert xs[..i] == xs;
    BbsTableOfLoop(bbsItems, data, totalWeight);
    r := Some(Grid(BbsHeaders, data, Some(totalWeight)));
  }

  /** The table the loop has built once it has passed every entry. */
  lemma BbsTableOfLoop(bbsItems: Json, data: seq<seq<Cell>>, total: real)
    requires !Falsy(bbsItems) && Iterate(bbsItems).Some?
    requires Rows(Iterate(bbsItems).value, BbsColumns) == Some(data)
    requires SumField(Iterate(bbsItems).value, "weight_kg") == Some(total)
    ensures BbsTable(bbsItems) == Some(Grid(BbsHeaders, data, Some(total)))
  {
  }

  /** An entry whose row fails makes the whole table fail. */
  lemma RowFailsTable(bbsItems: Json, i: nat)
    requires !Falsy(bbsItems) && Iterate(bbsItems).Some?
    requires i < |Iterate(bbsItems).value| && Row(Iterate(bbsItems).value[i], BbsColumns).None?
    ensures BbsTable(bbsItems).None?
  {
  }

  /** One turn of `format_bbs_table`'s loop: the row is appended and the
      entry's weight added to the running total. */
  lemma BbsLoopStep(xs: seq<Json>, i: nat, data: seq<seq<Cell>>, total: real)
    requires i < |xs| && Row(xs[i], BbsColumns).Some?
    requires Rows(xs[..i], BbsColumns) == Some(data)
    requires SumField(xs[..i], "weight_kg") == Some(total)
    ensures NumberField(xs[i], "weight_kg").Some?
    ensures Rows(xs[..i + 1], BbsColumns) == Some(data + [Row(xs[i], BbsColumns).value])
    ensures SumField(xs[..i + 1], "weight_kg") == Some(total + NumberField(xs[i], "weight_kg").value)
  {
    RowWeight(xs[i]);
    assert xs[..i + 1] == xs[..i] + [xs[i]];
    RowsSnoc(xs[..i], xs[i], BbsColumns);
    SumFieldSnoc(xs[..i], xs[i], "weight_kg");
  }

  // ---------------------------------------------------------------------
  // print_summary

  datatype BoqStats = NoBoqStats | BoqStats(totalConcrete: real, totalArea: real, boqCount: nat)
  datatype BbsStats = NoBbsStats | BbsStats(totalSteel: real, totalSteelLength: real, bbsCount: nat)
  datatype Summary = Summary(boq: BoqStats, bbs: BbsStats)

  /** `sum(item['quantity'] for item in xs if item['unit'] == unit)`: every
      entry needs a `unit`, and only the entries of that unit need a numeric
      `quantity`. */
  function UnitSum(xs: seq<Json>, unit: string): (r: Option<real>)
    ensures r.Some? ==> forall i :: 0 <= i < |xs| ==> Get(xs[i], "unit").Some?
  {
    if xs == [] then Some(0.0)
    else
      var init := xs[..|xs| - 1];
      var x := xs[|xs| - 1];
      assert forall i :: 0 <= i < |init| ==> init[i] == xs[i];
      match (UnitSum(init, unit), Get(x, "unit"))
      case (Some(s), Some(u)) =>
        if u == Str(unit) then
          (match NumberField(x, "quantity") case Some(q) => Some(s + q) case None => None)
        else Some(s)
      case _ => None
  }

  /** The BOQ half of `print_summary`: nothing for an empty list, else the
      concrete volume (unit "m3"), the floor area (unit "m2") and the number
      of entries. */
  function BoqSummary(boqItems: Json): (r: Option<BoqStats>)
    ensures (r.Some? && r.value.NoBoqStats?) <==> Falsy(boqItems)
    ensures r.Some? && r.value.BoqStats? ==>
      && Iterate(boqItems).Some?
      && Some(r.value.totalConcrete) == UnitSum(Iterate(boqItems).value, "m3")
      && Some(r.value.totalArea) == UnitSum(Iterate(boqItems).value, "m2")
      && r.value.boqCount == |Iterate(boqItems).value|
    ensures r.None? <==>
      && !Falsy(boqItems)
      && (Iterate(boqItems).None? || UnitSum(Iterate(boqItems).value, "m3").None?
          || UnitSum(Iterate(boqItems).value, "m2").None?)
  {
    if Falsy(boqItems) then Some(NoBoqStats)
    else
      match Iterate(boqItems)
      case None => None
      case Some(xs) =>
        match (UnitSum(xs, "m3"), UnitSum(xs, "m2"))
        case (Some(concrete), Some(area)) => Some(BoqStats(concrete, area, |xs|))
        case _ => None
  }

  /** The BBS half of `print_summary`: nothing for an empty list, else the
      total weight, the total bar length and the number of entries. */
  function BbsSummary(bbsItems: Json): (r: Option<BbsStats>)
    ensures (r.Some? && r.value.NoBbsStats?) <==> Falsy(bbsItems)
    ensures r.Some? && r.value.BbsStats? ==>
      && Iterate(bbsItems).Some?
      && Some(r.value.totalSteel) == SumField(Iterate(bbsItems).value, "weight_kg")
      && Some(r.value.totalSteelLength) == SumField(Iterate(bbsItems).value, "total_length")
      && r.value.bbsCount == |Iterate(bbsItems).value|
    ensures r.None? <==>
      && !Falsy(bbsItems)
      && (Iterate(bbsItems).None? || SumField(Iterate(bbsItems).value, "weight_kg").None?
          || SumField(Iterate(bbsItems).value, "total_length").None?)
  {
    if Falsy(bbsItems) then Some(NoBbsStats)
    else
      match Iterate(bbsItems)
      case None => None
      case Some(xs) =>
        match (SumField(xs, "weight_kg"), SumField(xs, "total_length"))
        case (Some(steel), Some(length)) => Some(BbsStats(steel, length, |xs|))
        case _ => None
  }

  /** `print_summary` on a parse result; `None` when one of its sums raises. */
  function PrintSummary(result: Json): (r: Option<Summary>)
    ensures r.Some? ==> result.Object?
    ensures r.Some? <==> result.Object? && BoqSummary(GetOrEmpty(result, "boq")).Some?
                                        && BbsSummary(GetOrEmpty(result, "bbs")).Some?
  {
    if !result.Object? then None
    else
      match (BoqSummary(GetOrEmpty(result, "boq")), BbsSummary(GetOrEmpty(result, "bbs")))
      case (Some(boq), Some(bbs)) => Some(Summary(boq, bbs))
      case _ => None
  }

  // ---------------------------------------------------------------------
  // How the renderers agree

  /** Whenever the schedule table renders, the summary of the same list
      renders too, with the same total steel weight as the table's footer and
      as many entries as the table has rows. */
  lemma TotalsAgree(bbsItems: Json)
    requires BbsTable(bbsItems).Some? && BbsTable(bbsItems).value.Grid?
    ensures BbsSummary(bbsItems).Some? && BbsSummary(bbsItems).value.BbsStats?
    ensures Some(BbsSummary(bbsItems).value.totalSteel) == BbsTable(bbsItems).value.totalSteel
    ensures BbsSummary(bbsItems).value.bbsCount == |BbsTable(bbsItems).value.rows|
  {
    var xs := Iterate(bbsItems).value;
    BbsTableShape(bbsItems);
    RowsHaveSum(xs, BbsColumns, 5);
    RowsHaveSum(xs, BbsColumns, 6);
  }

  /** The table prints "No BBS items found." exactly when the summary leaves
      out its steel lines, and "No BOQ items found." exactly when it leaves
      out its concrete and area lines. */
  lemma EmptyListsAgree(boqItems: Json, bbsItems: Json)
    ensures BbsTable(bbsItems) == Some(Message(NoBbsMessage)) <==> BbsSummary(bbsItems) == Some(NoBbsStats)
    ensures BoqTable(boqItems) == Some(Message(NoBoqMessage)) <==> BoqSummary(boqItems) == Some(NoBoqStats)
  {
  }

  /** Entries whose unit is `unit`, in order: the `if` of the comprehension. */
  function OfUnit(xs: seq<Json>, unit: string): (ys: seq<Json>)
    ensures |ys| <= |xs|
    ensures forall i :: 0 <= i < |ys| ==> Get(ys[i], "unit") == Some(Str(unit))
  {
    if xs == [] then []
    else
      var x := xs[|xs| - 1];
      OfUnit(xs[..|xs| - 1], unit) + (if Get(x, "unit") == Some(Str(unit)) then [x] else [])
  }

  /** The filter drops no entry of the unit. */
  lemma {:induction false} OfUnitKeepsAll(xs: seq<Json>, unit: string)
    ensures forall i :: 0 <= i < |xs| && Get(xs[i], "unit") == Some(Str(unit)) ==> xs[i] in OfUnit(xs, unit)
  {
    if xs != [] {
      var init := xs[..|xs| - 1];
      assert forall i :: 0 <= i < |init| ==> init[i] == xs[i];
      OfUnitKeepsAll(init, unit);
      var x := xs[|xs| - 1];
      var f := OfUnit(init, unit);
      assert OfUnit(xs, unit) == f + (if Get(x, "unit") == Some(Str(unit)) then [x] else []);
      forall i | 0 <= i < |xs| && Get(xs[i], "unit") == Some(Str(unit))
        ensures xs[i] in OfUnit(xs, unit)
      {
        if i < |init| {
          assert xs[i] in f;
        }
      }
    }
  }

  /** The filter keeps each entry of the unit as often as it occurs, and no
      other entry. */
  lemma {:induction false} OfUnitCounts(xs: seq<Json>, unit: string)
    ensures forall x :: multiset(OfUnit(xs, unit))[x] == (if Get(x, "unit") == Some(Str(unit)) then multiset(xs)[x] else 0)
  {
    if xs != [] {
      var init := xs[..|xs| - 1];
      var x := xs[|xs| - 1];
      OfUnitCounts(init, unit);
      assert xs == init + [x];
      assert multiset(xs) == multiset(init) + multiset{x};
      assert OfUnit(xs, unit) == OfUnit(init, unit) + (if Get(x, "unit") == Some(Str(unit)) then [x] else []);
    }
  }

  /** Adding one entry at the end of a list of rows. */
  lemma RowsSnoc(xs: seq<Json>, x: Json, cols: seq<Column>)
    ensures Rows(xs + [x], cols) ==
      match (Rows(xs, cols), Row(x, cols))
      case (Some(rs), Some(row)) => Some(rs + [row])
      case _ => None
  {
    var g := xs + [x];
    assert g[..|g| - 1] == xs && g[|g| - 1] == x;
  }

  /** Adding one entry at the end of a sum. */
  lemma SumFieldSnoc(xs: seq<Json>, x: Json, k: string)
    ensures SumField(xs + [x], k) ==
      match (SumField(xs, k), NumberField(x, k))
      case (Some(a), Some(b)) => Some(a + b)
      case _ => None
  {
    var g := xs + [x];
    assert g[..|g| - 1] == xs && g[|g| - 1] == x;
  }

  /** A unit total is the plain sum of `quantity` over the entries of that
      unit, once every entry has a unit. */
  lemma {:induction false} UnitSumIsFilteredSum(xs: seq<Json>, unit: string)
    requires forall i :: 0 <= i < |xs| ==> Get(xs[i], "unit").Some?
    ensures UnitSum(xs, unit) == SumField(OfUnit(xs, unit), "quantity")
  {
    if xs != [] {
      var init := xs[..|xs| - 1];
      var x := xs[|xs| - 1];
      assert forall i :: 0 <= i < |init| ==> init[i] == xs[i];
      UnitSumIsFilteredSum(init, unit);
      var f := OfUnit(init, unit);
      assert Get(x, "unit").Some?;
      if Get(x, "unit") == Some(Str(unit)) {
        assert UnitSum(xs, unit) ==
          match (UnitSum(init, unit), NumberField(x, "quantity"))
          case (Some(a), Some(b)) => Some(a + b)
          case _ => None;
        assert OfUnit(xs, unit) == f + [x];
        SumFieldSnoc(f, x, "quantity");
      } else {
        assert UnitSum(xs, unit) == UnitSum(init, unit);
        assert OfUnit(xs, unit) == f;
      }
    }
  }

  /** With every entry in "m3" or "m2", the concrete and area totals together
      are the sum of all quantities, and each exists exactly when that sum
      does. */
  lemma {:induction false} ConcreteAndAreaPartition(xs: seq<Json>)
    requires forall i :: 0 <= i < |xs| ==> Get(xs[i], "unit") == Some(Str("m3")) || Get(xs[i], "unit") == Some(Str("m2"))
    ensures (UnitSum(xs, "m3").Some? && UnitSum(xs, "m2").Some?) <==> SumField(xs, "quantity").Some?
    ensures SumField(xs, "quantity").Some? ==>
      UnitSum(xs, "m3").value + UnitSum(xs, "m2").value == SumField(xs, "quantity").value
  {
    if xs != [] {
      var init := xs[..|xs| - 1];
      assert forall i :: 0 <= i < |init| ==> init[i] == xs[i];
      ConcreteAndAreaPartition(init);
    }
  }

  /** The summary of the placeholder record shows neither half: both of its
      lists are empty. */
  lemma PlaceholderSummary()
    ensures PrintSummary(ResponseParser.Placeholder) == Some(Summary(NoBoqStats, NoBbsStats))
  {
    var ms := ResponseParser.Placeholder.members;
    assert ms[0].0 != "boq" by { assert |ms[0].0| != |"boq"|; }
    assert ms[1..][0].0 == "boq";
    assert ms[0].0 != "bbs" by { assert |ms[0].0| != |"bbs"|; }
    assert ms[1..][0].0 != "bbs" by { assert ms[1..][0].0[1] != "bbs"[1]; }
    assert ms[1..][1..][0].0 == "bbs";
    assert GetOrEmpty(ResponseParser.Placeholder, "boq") == Array([]);
    assert GetOrEmpty(ResponseParser.Placeholder, "bbs") == Array([]);
  }
}
