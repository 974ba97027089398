/**
 * The budget page (pages/Budget.tsx): material, labour and general totals,
 * per-line totals, and the row array exported to the spreadsheet.
 */
module Budget {
  import opened Types
  import opened JsText
  import ArtifactDefaults

  function MaterialTotal(item: ServiceItem): real { item.materialPrice * item.area }
  function LaborTotal(item: ServiceItem): real { item.laborPrice * item.area }
  function LineTotal(item: ServiceItem): real { MaterialTotal(item) + LaborTotal(item) }

  /** `services.reduce((acc, item) => acc + item.materialPrice * item.area, 0)`. */
  function TotalMaterial(services: seq<ServiceItem>): real
  {
    if |services| == 0 then 0.0
    else TotalMaterial(services[..|services| - 1]) + MaterialTotal(services[|services| - 1])
  }

  /** `services.reduce((acc, item) => acc + item.laborPrice * item.area, 0)`. */
  function TotalLabor(services: seq<ServiceItem>): real
  {
    if |services| == 0 then 0.0
    else TotalLabor(services[..|services| - 1]) + LaborTotal(services[|services| - 1])
  }

  function TotalGeneral(services: seq<ServiceItem>): real
  {
    TotalMaterial(services) + TotalLabor(services)
  }

  /** The sum of the per-line totals, line by line. */
  function SumLineTotals(services: seq<ServiceItem>): real
  {
    if |services| == 0 then 0.0
    else SumLineTotals(services[..|services| - 1]) + LineTotal(services[|services| - 1])
  }

  /** All three totals of an empty budget are zero. */
  lemma EmptyBudget()
    ensures TotalMaterial([]) == 0.0 && TotalLabor([]) == 0.0 && TotalGeneral([]) == 0.0
  {
  }

  /** The line totals add up to the general total. */
  lemma {:induction false} LineTotalsSumToGeneral(services: seq<ServiceItem>)
    ensures SumLineTotals(services) == TotalGeneral(services)
  {
    if |services| > 0 {
      LineTotalsSumToGeneral(services[..|services| - 1]);
    }
  }

  /** The DFD estimate is the budget's general total. */
  lemma {:induction false} DFDEstimateIsBudgetTotal(project: ProjectDetails, services: seq<ServiceItem>)
    ensures ArtifactDefaults.GenerateDFDDefaults(project, services).estimatedValue == TotalGeneral(services)
  {
    TotalValueIsGeneral(services);
  }

  lemma {:induction false} TotalValueIsGeneral(services: seq<ServiceItem>)
    ensures ArtifactDefaults.TotalValue(services) == TotalGeneral(services)
  {
    if |services| > 0 {
      var last := services[|services| - 1];
      TotalValueIsGeneral(services[..|services| - 1]);
      assert ArtifactDefaults.LineValue(last) == MaterialTotal(last) + LaborTotal(last);
    }
  }

  // ---------------------------------------------------------------- spreadsheet rows

  /** One cell of the exported sheet: text or a number. */
  datatype Cell = Text(text: string) | Num(num: real)

  type Row = seq<Cell>

  const ColumnTitles: Row := [Text("ITEM"), Text("FONTE"), Text("DESCRIÇÃO"), Text("UNID"), Text("QTD"),
    Text("UNIT MAT"), Text("TOTAL MAT"), Text("UNIT MDO"), Text("TOTAL MDO"), Text("TOTAL")]

  /** The ten rows before the data: agency lines, subject block, column titles. */
  function HeaderRows(project: Option<ProjectDetails>): seq<Row>
  {
    [ [Text("SECRETARIA DA SEGURANÇA PÚBLICA")],
      [Text("POLÍCIA MILITAR DO ESTADO DE SÃO PAULO")],
      [Text("DIRETORIA DE FINANÇAS - CENTRO INTEGRADO DE APOIO PATRIMONIAL")],
      [Text("ORÇAMENTO ESTIMATIVO")],
      [],
      [Text("ASSUNTO:"), Text(if project.Some? then project.value.obj else "")],
      [Text("UNIDADE:"), Text(if project.Some? then project.value.unit else "")],
      [Text("LOCAL:"), Text(if project.Some? then project.value.location else "")],
      [],
      ColumnTitles ]
  }

  /** The row pushed for the service at `index`. */
  function DataRow(index: nat, item: ServiceItem): Row
  {
    var totalMat := item.materialPrice * item.area;
    var totalMdo := item.laborPrice * item.area;
    [ Text("1." + NatToString(index + 1)),
      Text(item.source + " " + item.code),
      Text(item.name),
      Text(item.unit),
      Num(item.area),
      Num(item.materialPrice),
      Num(totalMat),
      Num(item.laborPrice),
      Num(totalMdo),
      Num(totalMat + totalMdo) ]
  }

  /**
   * What the data row for the service at `index` shows: its item number,
   * source and code, description, quantity, and the three computed totals.
   */
  predicate ShowsService(row: Row, index: nat, item: ServiceItem)
  {
    && |row| == 10
    && row[0] == Text("1." + NatToString(index + 1))
    && row[1] == Text(item.source + " " + item.code)
    && row[2] == Text(item.name)
    && row[3] == Text(item.unit)
    && row[4] == Num(item.area)
    && row[5] == Num(item.materialPrice)
    && row[6] == Num(MaterialTotal(item))
    && row[7] == Num(item.laborPrice)
    && row[8] == Num(LaborTotal(item))
    && row[9] == Num(LineTotal(item))
  }

  function SubTotalRow(services: seq<ServiceItem>): Row
  {
    [ Text("SUB TOTAL"), Text(""), Text(""), Text(""), Text(""), Text(""),
      Num(TotalMaterial(services)), Text(""), Num(TotalLabor(services)), Num(TotalGeneral(services)) ]
  }

  function TotalRow(services: seq<ServiceItem>): Row
  {
    [ Text("TOTAL GERAL"), Text(""), Text(""), Text(""), Text(""), Text(""), Text(""), Text(""), Text(""),
      Num(TotalGeneral(services)) ]
  }

  /** The subject block shows the project's object, unit and location, or blanks when there is no project. */
  lemma HeaderShowsProject(project: Option<ProjectDetails>)
    ensures var header := HeaderRows(project);
      && |header| == 10 && header[9] == ColumnTitles
      && header[5] == [Text("ASSUNTO:"), Text(if project.Some? then project.value.obj else "")]
      && header[6] == [Text("UNIDADE:"), Text(if project.Some? then project.value.unit else "")]
      && header[7] == [Text("LOCAL:"), Text(if project.Some? then project.value.location else "")]
  {
  }

  /** The `services.forEach` of `handleExportExcel`: one data row pushed per service, in order. */
  method PushDataRows(prefix: seq<Row>, services: seq<ServiceItem>) returns (rows: seq<Row>)
    ensures |rows| == |prefix| + |services|
    ensures rows[..|prefix|] == prefix
    ensures forall i | 0 <= i < |services| :: ShowsService(rows[|prefix| + i], i, services[i])
  {
    rows := prefix;
    var i := 0;
    while i < |services|
      invariant 0 <= i <= |services|
      invariant |rows| == |prefix| + i
      invariant rows[..|prefix|] == prefix
      invariant forall k | 0 <= k < i :: rows[|prefix| + k] == DataRow(k, services[k])
    {
      rows := rows + [DataRow(i, services[i])];
      i := i + 1;
    }
  }

  /** `handleExportExcel`: the `wsData` array handed to the sheet writer. */
  method ExportRows(services: seq<ServiceItem>, project: Option<ProjectDetails>) returns (rows: seq<Row>)
    ensures |rows| == |services| + 13
    ensures rows[..10] == HeaderRows(project)
    ensures forall i | 0 <= i < |services| :: ShowsService(rows[10 + i], i, services[i])
    ensures rows[10 + |services|] == []
    ensures |rows[11 + |services|]| == 10 && |rows[12 + |services|]| == 10
    ensures rows[11 + |services|][0] == Text("SUB TOTAL")
    ensures rows[11 + |services|][6] == Num(TotalMaterial(services))
    ensures rows[11 + |services|][8] == Num(TotalLabor(services))
    ensures rows[11 + |services|][9] == Num(TotalGeneral(services))
    ensures rows[12 + |services|][0] == Text("TOTAL GERAL")
    ensures rows[12 + |services|][9] == Num(TotalGeneral(services))
  {
    var header := HeaderRows(project);
    rows := PushDataRows(header, services);
    ghost var data := rows;
    rows := rows + [[]];
    rows := rows + [SubTotalRow(services)];
    rows := rows + [TotalRow(services)];
    assert rows == data + [[], SubTotalRow(services), TotalRow(services)];
    assert rows[11 + |services|] == SubTotalRow(services);
    assert rows[12 + |services|] == TotalRow(services);
    forall k | 0 <= k < |services| ensures ShowsService(rows[10 + k], k, services[k]) {
      assert rows[10 + k] == data[10 + k];
    }
  }

  /** The TOTAL column of the data rows adds up to the TOTAL GERAL cell. */
  lemma SheetTotalsAgree(services: seq<ServiceItem>, rows: seq<Row>)
    requires |rows| == |services| + 13
    requires forall i | 0 <= i < |services| :: ShowsService(rows[10 + i], i, services[i])
    requires |rows[12 + |services|]| == 10 && rows[12 + |services|][9] == Num(TotalGeneral(services))
    ensures SumColumn(rows[10..10 + |services|], 9) == rows[12 + |services|][9].num
  {
    var data := rows[10..10 + |services|];
    forall i | 0 <= i < |services| ensures |data[i]| == 10 && data[i][9] == Num(LineTotal(services[i])) {
      assert data[i] == rows[10 + i];
      assert ShowsService(rows[10 + i], i, services[i]);
    }
    SumColumnIsLineTotals(services, data);
    LineTotalsSumToGeneral(services);
  }

  /** Sum of the numbers in column `c` of the given rows (text cells count 0). */
  function SumColumn(rows: seq<Row>, c: nat): real
  {
    if |rows| == 0 then 0.0
    else
      var last := rows[|rows| - 1];
      SumColumn(rows[..|rows| - 1], c) + (if c < |last| && last[c].Num? then last[c].num else 0.0)
  }

  lemma {:induction false} SumColumnIsLineTotals(services: seq<ServiceItem>, data: seq<Row>)
    requires |data| == |services|
    requires forall i | 0 <= i < |services| :: |data[i]| == 10 && data[i][9] == Num(LineTotal(services[i]))
    ensures SumColumn(data, 9) == SumLineTotals(services)
  {
    if |services| > 0 {
      var n := |services|;
      SumColumnIsLineTotals(services[..n - 1], data[..n - 1]);
    }
  }
}
