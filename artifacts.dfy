/**
 * The artifacts page (pages/Artifacts.tsx): two steps, the DFD and then the
 * ETP, with the ETP step open only once a DFD has been approved.
 */
module Artifacts {
  import opened Types
  import DfdEditor
  import PdfGenerator

  datatype Step = DfdStep | EtpStep

  /** What the page shows. */
  datatype View =
    | NoProject              // "Nenhum projeto selecionado."
    | DfdPanel               // the DFD editor
    | EtpPanel(dfd: DFDData) // the ETP editor, given the approved DFD
    | MissingDfd             // "Erro: Dados do DFD ausentes."

  /** The page's rendering, from the project and its own state. */
  function Render(project: Option<ProjectDetails>, step: Step, dfdData: Option<DFDData>): (v: View)
    ensures project.None? <==> v == NoProject
    ensures v.EtpPanel? ==> dfdData == Some(v.dfd)
    ensures v == MissingDfd <==> project.Some? && step == EtpStep && dfdData.None?
  {
    if project.None? then NoProject
    else if step.DfdStep? then DfdPanel
    else if dfdData.Some? then EtpPanel(dfdData.value)
    else MissingDfd
  }

  class Page {
    var step: Step
    var dfdData: Option<DFDData>

    /** The ETP step is only ever reached with a DFD in hand. */
    predicate Valid()
      reads this
    {
      step == EtpStep ==> dfdData.Some?
    }

    constructor()
      ensures step == DfdStep && dfdData.None? && Valid()
      ensures (step, dfdData) == RunActions([])
    {
      step, dfdData := DfdStep, None;
    }

    /** `handleDFDComplete`, called by the DFD editor's download. */
    method HandleDFDComplete(data: DFDData)
      modifies this
      requires Valid()
      ensures dfdData == Some(data) && step == old(step) && Valid()
      ensures (step, dfdData) == Step1(old((step, dfdData)), Complete(data))
    {
      dfdData := Some(data);
    }

    /**
     * The DFD editor's approve-and-download button, wired to
     * `handleDFDComplete` as its `onComplete`: with a record, its PDF is drawn
     * and the same record becomes the page's DFD; without one nothing happens.
     */
    method ApproveDfd(editor: DfdEditor.Editor, wrap: string -> nat, money: real -> string, date: string)
      returns (pdf: Option<PdfGenerator.Document>)
      modifies this
      requires Valid()
      ensures editor.data.Some? ==>
        && dfdData == editor.data
        && pdf.Some? && fresh(pdf.value)
        && PdfGenerator.CarriesSections(pdf.value.items, PdfGenerator.DfdSectionTitles,
             PdfGenerator.DfdContents(editor.data.value, money))
      ensures editor.data.None? ==> dfdData == old(dfdData) && pdf.None?
      ensures (step, dfdData) == if editor.data.Some? then Step1(old((step, dfdData)), Complete(editor.data.value))
        else old((step, dfdData))
      ensures Valid()
    {
      var completed;
      completed, pdf := editor.HandleDownload(wrap, money, date);
      if completed.Some? {
        HandleDFDComplete(completed.value);
      }
    }

    /** The "1. DFD" tab and the "Voltar para DFD" button: always allowed. */
    method BackToDfd()
      modifies this
      requires Valid()
      ensures step == DfdStep && dfdData == old(dfdData) && Valid()
      ensures (step, dfdData) == Step1(old((step, dfdData)), Back)
    {
      step := DfdStep;
    }

    /**
     * The "2. ETP" tab and the "Próximo" button: both disabled, and the tab
     * also checks, while there is no DFD.
     */
    method GoToEtp()
      modifies this
      requires Valid()
      ensures old(dfdData).Some? ==> step == EtpStep
      ensures old(dfdData).None? ==> step == old(step)
      ensures dfdData == old(dfdData) && Valid()
      ensures (step, dfdData) == Step1(old((step, dfdData)), Forward)
    {
      if dfdData.Some? {
        step := EtpStep;
      }
    }
  }

  /** Page actions, one per handler. */
  datatype Action = Complete(data: DFDData) | Back | Forward

  /** The page state after one action, as the handlers above change it. */
  function Step1(s: (Step, Option<DFDData>), a: Action): (Step, Option<DFDData>)
  {
    match a
    case Complete(d) => (s.0, Some(d))
    case Back => (DfdStep, s.1)
    case Forward => if s.1.Some? then (EtpStep, s.1) else s
  }

  function RunActions(actions: seq<Action>): (Step, Option<DFDData>)
  {
    if |actions| == 0 then (DfdStep, None)
    else Step1(RunActions(actions[..|actions| - 1]), actions[|actions| - 1])
  }

  /**
   * From the initial state, whatever the user does, the ETP step comes with a
   * DFD, the DFD is the one most recently approved, and so the page never
   * shows the missing-DFD error.
   */
  lemma {:induction false} NeverMissingDfd(project: Option<ProjectDetails>, actions: seq<Action>)
    ensures var s := RunActions(actions);
      && (s.0 == EtpStep ==> s.1.Some?)
      && (s.1.Some? <==> exists k | 0 <= k < |actions| :: actions[k].Complete?)
      && Render(project, s.0, s.1) != MissingDfd
  {
    if |actions| > 0 {
      var n := |actions| - 1;
      NeverMissingDfd(project, actions[..n]);
      var s0 := RunActions(actions[..n]);
      if actions[n].Complete? {
      } else {
        assert (exists k | 0 <= k < |actions| :: actions[k].Complete?) <==> exists k | 0 <= k < n :: actions[..n][k].Complete?;
      }
    }
  }

  /** Once a DFD has been approved, no action takes it away again. */
  lemma DfdNeverCleared(s: (Step, Option<DFDData>), a: Action)
    requires s.1.Some?
    ensures Step1(s, a).1.Some?
    ensures a.Complete? ==> Step1(s, a).1 == Some(a.data)
    ensures !a.Complete? ==> Step1(s, a).1 == s.1
  {
  }
}
