/**
 * The DFD editor (components/artifacts/DFDEditor.tsx): the record it edits,
 * regenerated from the project whenever the project or the services change,
 * the five text inputs, and the approve-and-download button.
 */
module DfdEditor {
  import opened Types
  import ArtifactDefaults
  import PdfGenerator

  /** The fields a form control edits; the estimate is shown in a disabled input. */
  datatype Field = Sector | ObjectDescription | Justification | StrategicAlignment | ExpectedTimeline

  /** `{ ...data, [field]: value }`. */
  function SetField(d: DFDData, f: Field, value: string): (r: DFDData)
    ensures Get(r, f) == value
    ensures forall g: Field | g != f :: Get(r, g) == Get(d, g)
    ensures r.estimatedValue == d.estimatedValue
  {
    match f
    case Sector => d.(sector := value)
    case ObjectDescription => d.(objectDescription := value)
    case Justification => d.(justification := value)
    case StrategicAlignment => d.(strategicAlignment := value)
    case ExpectedTimeline => d.(expectedTimeline := value)
  }

  /** `data[field]`. */
  function Get(d: DFDData, f: Field): string
  {
    match f
    case Sector => d.sector
    case ObjectDescription => d.objectDescription
    case Justification => d.justification
    case StrategicAlignment => d.strategicAlignment
    case ExpectedTimeline => d.expectedTimeline
  }

  /** A record is its five text fields and its estimate: two records that agree on those are equal. */
  lemma FieldsDetermine(d: DFDData, e: DFDData)
    requires forall f: Field :: Get(d, f) == Get(e, f)
    requires d.estimatedValue == e.estimatedValue
    ensures d == e
  {
    assert Get(d, Sector) == Get(e, Sector);
    assert Get(d, ObjectDescription) == Get(e, ObjectDescription);
    assert Get(d, Justification) == Get(e, Justification);
    assert Get(d, StrategicAlignment) == Get(e, StrategicAlignment);
    assert Get(d, ExpectedTimeline) == Get(e, ExpectedTimeline);
  }

  /** Writing a field back with the value it holds changes nothing; two writes to one field keep the last. */
  lemma SetFieldLaws(d: DFDData, f: Field, v: string, w: string)
    ensures SetField(d, f, Get(d, f)) == d
    ensures SetField(SetField(d, f, v), f, w) == SetField(d, f, w)
  {
    FieldsDetermine(SetField(d, f, Get(d, f)), d);
    FieldsDetermine(SetField(SetField(d, f, v), f, w), SetField(d, f, w));
  }

  /**
   * After any sequence of edits, the estimate is still the generated one:
   * no control writes it.
   */
  lemma {:induction false} EditsKeepEstimate(d: DFDData, edits: seq<(Field, string)>)
    ensures ApplyEdits(d, edits).estimatedValue == d.estimatedValue
  {
    if |edits| > 0 {
      EditsKeepEstimate(d, edits[..|edits| - 1]);
    }
  }

  function ApplyEdits(d: DFDData, edits: seq<(Field, string)>): DFDData
  {
    if |edits| == 0 then d
    else
      var last := edits[|edits| - 1];
      SetField(ApplyEdits(d, edits[..|edits| - 1]), last.0, last.1)
  }

  class Editor {
    /** `null` until the effect has run. */
    var data: Option<DFDData>

    constructor()
      ensures data.None?
    {
      data := None;
    }

    /** The effect on `[projectDetails, services]`: any edit is discarded. */
    method Regenerate(project: ProjectDetails, services: seq<ServiceItem>)
      modifies this
      ensures data == Some(ArtifactDefaults.GenerateDFDDefaults(project, services))
      ensures data.value.objectDescription == project.obj
      ensures data.value.estimatedValue == ArtifactDefaults.TotalValue(services)
    {
      var defaults := ArtifactDefaults.GenerateDFDDefaults(project, services);
      data := Some(defaults);
    }

    /** `handleChange`: nothing while there is no record. */
    method HandleChange(f: Field, value: string)
      modifies this
      ensures old(data).None? ==> data.None?
      ensures old(data).Some? ==> data == Some(SetField(old(data).value, f, value))
    {
      if data.Some? {
        data := Some(SetField(data.value, f, value));
      }
    }

    /**
     * `handleDownload`: with a record, the PDF is drawn from it, edits
     * included, and the same record is handed to `onComplete`; nothing
     * without one. `wrap`, `money` and `date` are the line cutting, the
     * currency formatting and today's date the PDF writer uses.
     */
    method HandleDownload(wrap: string -> nat, money: real -> string, date: string)
      returns (completed: Option<DFDData>, pdf: Option<PdfGenerator.Document>)
      ensures completed == data
      ensures pdf.Some? <==> data.Some?
      ensures data.Some? ==>
        && fresh(pdf.value)
        && PdfGenerator.CarriesSections(pdf.value.items, PdfGenerator.DfdSectionTitles, PdfGenerator.DfdContents(data.value, money))
    {
      if data.None? {
        return None, None;
      }
      var record := data.value;
      var doc, dateY := PdfGenerator.GenerateDFDPDF(record, wrap, money, date);
      var contents := PdfGenerator.DfdContents(record, money);
      PdfGenerator.DocumentCarries(doc.items, 15, PdfGenerator.DfdTitle, PdfGenerator.DfdSectionTitles, contents,
        PdfGenerator.LinesOf(contents, wrap), false);
      completed, pdf := data, Some(doc);
    }
  }
}
