/**
 * The ETP editor (components/artifacts/ETPEditor.tsx): the record it edits,
 * regenerated from the project, the services and the approved DFD, and the
 * list of its twelve text areas.
 */
module EtpEditor {
  import opened Types
  import opened JsText
  import ArtifactDefaults
  import PdfGenerator

  /** The twelve sections of an ETP, in document order. */
  datatype Field =
    | NeedDescription | Requirements | MarketResearch | SolutionDescription
    | QuantityEstimate | ValueEstimate | PartitioningJustification | ExpectedResults
    | PriorMeasures | RelatedHires | EnvironmentalImpacts | Viability

  /** `data[key]`. */
  function Get(d: ETPData, f: Field): string
  {
    match f
    case NeedDescription => d.needDescription
    case Requirements => d.requirements
    case MarketResearch => d.marketResearch
    case SolutionDescription => d.solutionDescription
    case QuantityEstimate => d.quantityEstimate
    case ValueEstimate => d.valueEstimate
    case PartitioningJustification => d.partitioningJustification
    case ExpectedResults => d.expectedResults
    case PriorMeasures => d.priorMeasures
    case RelatedHires => d.relatedHires
    case EnvironmentalImpacts => d.environmentalImpacts
    case Viability => d.viability
  }

  /** `{ ...data, [field]: value }`. */
  function SetField(d: ETPData, f: Field, value: string): (r: ETPData)
    ensures Get(r, f) == value
    ensures forall g: Field | g != f :: Get(r, g) == Get(d, g)
  {
    match f
    case NeedDescription => d.(needDescription := value)
    case Requirements => d.(requirements := value)
    case MarketResearch => d.(marketResearch := value)
    case SolutionDescription => d.(solutionDescription := value)
    case QuantityEstimate => d.(quantityEstimate := value)
    case ValueEstimate => d.(valueEstimate := value)
    case PartitioningJustification => d.(partitioningJustification := value)
    case ExpectedResults => d.(expectedResults := value)
    case PriorMeasures => d.(priorMeasures := value)
    case RelatedHires => d.(relatedHires := value)
    case EnvironmentalImpacts => d.(environmentalImpacts := value)
    case Viability => d.(viability := value)
  }

  /** The text areas of the editor: each key with its numbered label. */
  const Controls: seq<(Field, string)> := [
    (NeedDescription, "1. Descrição da Necessidade"),
    (Requirements, "2. Requisitos da Contratação"),
    (MarketResearch, "3. Levantamento de Mercado"),
    (SolutionDescription, "4. Descrição da Solução"),
    (QuantityEstimate, "5. Estimativa de Quantidades"),
    (ValueEstimate, "6. Estimativa do Valor"),
    (PartitioningJustification, "7. Justificativa para Parcelamento"),
    (ExpectedResults, "8. Resultados Pretendidos"),
    (PriorMeasures, "9. Providências Prévias"),
    (RelatedHires, "10. Contratações Correlatas"),
    (EnvironmentalImpacts, "11. Impactos Ambientais"),
    (Viability, "12. Viabilidade")]

  /** The keys of the text areas, in the order the editor lists them. */
  const FieldOrder: seq<Field> := [
    NeedDescription, Requirements, MarketResearch, SolutionDescription,
    QuantityEstimate, ValueEstimate, PartitioningJustification, ExpectedResults,
    PriorMeasures, RelatedHires, EnvironmentalImpacts, Viability]

  /** Position of a section in the document, counting from 1. */
  function Number(f: Field): (n: nat)
    ensures 1 <= n <= 12
  {
    match f
    case NeedDescription => 1
    case Requirements => 2
    case MarketResearch => 3
    case SolutionDescription => 4
    case QuantityEstimate => 5
    case ValueEstimate => 6
    case PartitioningJustification => 7
    case ExpectedResults => 8
    case PriorMeasures => 9
    case RelatedHires => 10
    case EnvironmentalImpacts => 11
    case Viability => 12
  }

  /**
   * The editor lists every section once, in document order, and each label
   * opens with the section's number and a dot.
   */
  lemma ControlsCoverFields()
    ensures |Controls| == 12
    ensures forall i | 0 <= i < 12 :: Controls[i].0 == FieldOrder[i]
    ensures forall i | 0 <= i < 12 :: Number(Controls[i].0) == i + 1
    ensures forall i, j | 0 <= i < j < 12 :: Controls[i].0 != Controls[j].0
    ensures forall f: Field :: Controls[Number(f) - 1].0 == f
    ensures forall i | 0 <= i < 12 :: LabelNumbered(Controls[i].1, i + 1)
  {
    forall i | 0 <= i < 12 ensures LabelNumbered(Controls[i].1, i + 1) {
      LabelsNumbered(i);
    }
  }

  /** `label` starts with the decimal `n` followed by ". ". */
  predicate LabelNumbered(text: string, n: nat)
  {
    var digits := NatToString(n);
    |text| >= |digits| + 2 && text[..|digits|] == digits && text[|digits|..|digits| + 2] == ". "
  }

  lemma LabelsNumbered(i: nat)
    requires i < 12
    ensures LabelNumbered(Controls[i].1, i + 1)
  {
    if i < 9 {
      OneDigitLabels(i);
    } else {
      TwoDigitLabels(i);
    }
  }

  /** Labels 1 to 9 open with their single digit. */
  lemma OneDigitLabels(i: nat)
    requires i < 9
    ensures LabelNumbered(Controls[i].1, i + 1)
  {
    assert NatToString(i + 1) == [DigitChar(i + 1)];
    var text := Controls[i].1;
    assert text[0] == DigitChar(i + 1) && text[1] == '.' && text[2] == ' ';
    assert text[..1] == NatToString(i + 1);
  }

  /** Labels 10 to 12 open with a 1 and their second digit. */
  lemma TwoDigitLabels(i: nat)
    requires 9 <= i < 12
    ensures LabelNumbered(Controls[i].1, i + 1)
  {
    assert NatToString((i + 1) / 10) == "1";
    assert NatToString(i + 1) == "1" + [DigitChar(i - 9)];
    var text := Controls[i].1;
    assert text[0] == '1' && text[1] == DigitChar(i - 9) && text[2] == '.' && text[3] == ' ';
    assert text[..2] == NatToString(i + 1);
  }

  /** Editing the same record field by field with the list's controls reaches any record. */
  lemma EditsReachAnyRecord(d: ETPData, target: ETPData)
    ensures Rewrite(d, target, 12) == target
  {
    var r := Rewrite(d, target, 12);
    forall f: Field ensures Get(r, f) == Get(target, f) {
      RewriteSets(d, target, 12, f);
    }
    FieldsDetermine(r, target);
  }

  /** `d` after typing `target`'s text into the first `k` controls (the control keys are `FieldOrder`). */
  function Rewrite(d: ETPData, target: ETPData, k: nat): ETPData
    requires k <= 12
  {
    if k == 0 then d
    else
      var f := FieldOrder[k - 1];
      SetField(Rewrite(d, target, k - 1), f, Get(target, f))
  }

  lemma {:induction false} RewriteSets(d: ETPData, target: ETPData, k: nat, f: Field)
    requires k <= 12
    ensures Get(Rewrite(d, target, k), f) == if Number(f) <= k then Get(target, f) else Get(d, f)
  {
    if k > 0 {
      RewriteSets(d, target, k - 1, f);
      OrderNumbered(k - 1);
    }
  }

  /** The `i`-th key of the list is section `i + 1`. */
  lemma OrderNumbered(i: nat)
    requires i < 12
    ensures Number(FieldOrder[i]) == i + 1
  {
  }

  lemma FieldsDetermine(d: ETPData, e: ETPData)
    requires forall f: Field :: Get(d, f) == Get(e, f)
    ensures d == e
  {
    assert Get(d, NeedDescription) == Get(e, NeedDescription);
    assert Get(d, Requirements) == Get(e, Requirements);
    assert Get(d, MarketResearch) == Get(e, MarketResearch);
    assert Get(d, SolutionDescription) == Get(e, SolutionDescription);
    assert Get(d, QuantityEstimate) == Get(e, QuantityEstimate);
    assert Get(d, ValueEstimate) == Get(e, ValueEstimate);
    assert Get(d, PartitioningJustification) == Get(e, PartitioningJustification);
    assert Get(d, ExpectedResults) == Get(e, ExpectedResults);
    assert Get(d, PriorMeasures) == Get(e, PriorMeasures);
    assert Get(d, RelatedHires) == Get(e, RelatedHires);
    assert Get(d, EnvironmentalImpacts) == Get(e, EnvironmentalImpacts);
    assert Get(d, Viability) == Get(e, Viability);
  }

  class Editor {
    /** `null` until the effect has run. */
    var data: Option<ETPData>

    constructor()
      ensures data.None?
    {
      data := None;
    }

    /**
     * The effect on `[projectDetails, services, dfdData]`: a fresh record from
     * the defaults when both the project and the DFD are present; otherwise
     * the record stays as it was. `locale` is the number formatting.
     */
    method Regenerate(project: Option<ProjectDetails>, services: seq<ServiceItem>, dfd: Option<DFDData>,
                      locale: ArtifactDefaults.Locale)
      modifies this
      ensures project.Some? && dfd.Some? ==>
        data == Some(ArtifactDefaults.ETPDefaults(services, dfd.value, locale))
        && data.value.needDescription == dfd.value.justification
      ensures !(project.Some? && dfd.Some?) ==> data == old(data)
    {
      if project.Some? && dfd.Some? {
        var etp := ArtifactDefaults.GenerateETPDefaults(project.value, services, dfd.value, locale);
        data := Some(etp);
      }
    }

    /** `handleChange`: nothing while there is no record. */
    method HandleChange(f: Field, value: string)
      modifies this
      ensures old(data).None? ==> data.None?
      ensures old(data).Some? ==> data == Some(SetField(old(data).value, f, value))
    {
      if data.Some? {
        data := Some(SetField(data.value, f, value));
      }
    }

    /**
     * The download button, shown only once there is a record: the PDF is
     * drawn from the record, edits included. `wrap` and `date` are the line
     * cutting and today's date the PDF writer uses.
     */
    method Download(wrap: string -> nat, date: string) returns (pdf: Option<PdfGenerator.Document>)
      ensures pdf.Some? <==> data.Some?
      ensures data.Some? ==>
        && fresh(pdf.value)
        && PdfGenerator.CarriesSections(pdf.value.items, PdfGenerator.EtpSectionTitles, PdfGenerator.EtpContents(data.value))
    {
      if data.None? {
        return None;
      }
      var record := data.value;
      var doc, dateY := PdfGenerator.GenerateETPPDF(record, wrap, date);
      var contents := PdfGenerator.EtpContents(record);
      PdfGenerator.DocumentCarries(doc.items, 27, PdfGenerator.EtpTitle, PdfGenerator.EtpSectionTitles, contents,
        PdfGenerator.LinesOf(contents, wrap), true);
      pdf := Some(doc);
    }
  }
}
