/**
 * The PDF layout of the DFD and the ETP (utils/pdfGenerator.ts): the vertical
 * cursor `y`, in millimetres from the top of the page, as the sections, the
 * page breaks, the date and the signature lines move it.
 *
 * A document is the list of what is drawn, each item with its page and its
 * `y`; fonts, horizontal positions and alignment are not kept. How many
 * lines `splitTextToSize(content, 170)` gives is the parameter `wrap`.
 */
module PdfGenerator {
  import opened Types

  /** Something drawn: a line of text, a wrapped block of `lines` lines, or a rule. */
  datatype Item =
    | Text(page: nat, y: int, text: string)
    | Block(page: nat, y: int, content: string, lines: nat)
    | Rule(page: nat, y: int)

  /** A jsPDF document: the current (last) page and everything drawn so far. */
  class Document {
    var page: nat
    var items: seq<Item>

    constructor()
      ensures page == 1 && items == []
    {
      page, items := 1, [];
    }

    method AddPage()
      modifies this
      ensures page == old(page) + 1 && items == old(items)
    {
      page := page + 1;
    }

    method Draw(item: Item)
      modifies this
      ensures page == old(page) && items == old(items) + [item]
    {
      items := items + [item];
    }
  }

  const HeaderState := "ESTADO DE SÃO PAULO"
  const DfdTitle := "DOCUMENTO DE FORMALIZAÇÃO DE DEMANDA - DFD"
  const EtpTitle := "ESTUDO TÉCNICO PRELIMINAR - ETP"

  /** `generateHeader`: the state's name at 20, the title at 30, a rule at 35. */
  method GenerateHeader(doc: Document, title: string)
    modifies doc
    ensures doc.page == old(doc.page)
    ensures doc.items == old(doc.items) + [Text(doc.page, 20, HeaderState), Text(doc.page, 30, title), Rule(doc.page, 35)]
  {
    doc.Draw(Text(doc.page, 20, HeaderState));
    doc.Draw(Text(doc.page, 30, title));
    doc.Draw(Rule(doc.page, 35));
  }

  /** Height of a section: 7 for the title, 6 per line of text, 10 after it. */
  function SectionHeight(lines: nat): nat
  {
    17 + 6 * lines
  }

  /** The two items of one section drawn at `y`: its title, and its text in `lines` lines 7 below. */
  function SectionItems(page: nat, y: int, title: string, content: string, lines: nat): seq<Item>
  {
    [Text(page, y, title), Block(page, y + 7, content, lines)]
  }

  /**
   * `addSection`: the title at `yPos`, the wrapped text 7 below it, and the
   * new cursor below the text. `lines` is the number of lines
   * `splitTextToSize(content, 170)` cuts the text into.
   */
  method AddSection(doc: Document, title: string, content: string, lines: nat, yPos: int) returns (y: int)
    modifies doc
    ensures y == yPos + SectionHeight(lines)
    ensures doc.page == old(doc.page)
    ensures doc.items == old(doc.items) + SectionItems(doc.page, yPos, title, content, lines)
  {
    doc.Draw(Text(doc.page, yPos, title));
    var textY := yPos + 7;
    doc.Draw(Block(doc.page, textY, content, lines));
    y := textY + lines * 6 + 10;
  }

  /** Where `checkPageBreak` puts the cursor. */
  function AfterBreak(currentY: int): int
  {
    if currentY > 260 then 30 else currentY
  }

  /** `checkPageBreak`: a new page, with the cursor at 30, once the cursor is past 260. */
  method CheckPageBreak(doc: Document, currentY: int) returns (y: int)
    modifies doc
    ensures y == AfterBreak(currentY)
    ensures y <= 260
    ensures doc.page == old(doc.page) + (if currentY > 260 then 1 else 0)
    ensures doc.items == old(doc.items)
  {
    if currentY > 260 {
      doc.AddPage();
      return 30;
    }
    return currentY;
  }

  /** Where the date goes: 20 below the cursor, or at 40 on a new page when that is past 250. */
  function DateY(y: int): int
  {
    if y + 20 > 250 then 40 else y + 20
  }

  /** The date line both documents end with: at `DateY(y)`, on a new page when needed. */
  method DateLine(doc: Document, y: int, date: string) returns (dateY: int)
    modifies doc
    ensures dateY == DateY(y) && dateY <= 250
    ensures doc.page == old(doc.page) + (if y + 20 > 250 then 1 else 0)
    ensures doc.items == old(doc.items) + [Text(doc.page, dateY, "Data: " + date)]
  {
    dateY := y + 20;
    if dateY > 250 {
      doc.AddPage();
      dateY := 40;
    }
    doc.Draw(Text(doc.page, dateY, "Data: " + date));
  }

  // ---------------------------------------------------------------- the layout of the sections

  /** What `generateHeader` draws on the first page. */
  function Header(title: string): seq<Item>
  {
    [Text(1, 20, HeaderState), Text(1, 30, title), Rule(1, 35)]
  }

  /**
   * Where the cursor goes after a section of `lines` lines drawn at `pos`:
   * down by the section's height and, when the document `checks` for page
   * breaks and that is past 260, onto the next page at 30.
   */
  function Advance(pos: (nat, int), lines: nat, checks: bool): (nat, int)
  {
    var below := pos.1 + SectionHeight(lines);
    if checks && below > 260 then (pos.0 + 1, 30) else (pos.0, below)
  }

  /**
   * The page and the cursor below sections of `lines` lines each, where the
   * next section goes: 45 on page 1 before any. The DFD does not check for
   * page breaks, the ETP does.
   */
  function Cursor(lines: seq<nat>, checks: bool): (nat, int)
  {
    if lines == [] then (1, 45)
    else Advance(Cursor(lines[..|lines| - 1], checks), lines[|lines| - 1], checks)
  }

  /** What the sections draw, in order, each at the cursor the ones before it leave. */
  function Sections(titles: seq<string>, contents: seq<string>, lines: seq<nat>, checks: bool): (items: seq<Item>)
    requires |titles| == |contents| == |lines|
    ensures |items| == 2 * |lines|
  {
    if lines == [] then []
    else
      var k := |lines| - 1;
      var pos := Cursor(lines[..k], checks);
      Sections(titles[..k], contents[..k], lines[..k], checks) + SectionItems(pos.0, pos.1, titles[k], contents[k], lines[k])
  }

  /** How many lines each text is cut into. */
  function LinesOf(contents: seq<string>, wrap: string -> nat): (lines: seq<nat>)
    ensures |lines| == |contents|
  {
    seq(|contents|, i requires 0 <= i < |contents| => wrap(contents[i]))
  }

  /**
   * The sections of a document, one `addSection` each in table order, each
   * followed by `checkPageBreak` when the document `checks`; `lines[i]` is
   * how many lines `splitTextToSize` cuts `contents[i]` into.
   */
  method DrawSections(doc: Document, heading: string, titles: seq<string>, contents: seq<string>, lines: seq<nat>,
                      checks: bool, y0: int)
    returns (y: int)
    modifies doc
    requires |titles| == |contents| == |lines|
    requires doc.page == 1 && y0 == 45 && doc.items == Header(heading)
    ensures doc.items == Header(heading) + Sections(titles, contents, lines, checks)
    ensures (doc.page, y) == Cursor(lines, checks)
  {
    y := y0;
    var i := 0;
    while i < |titles|
      invariant i <= |titles|
      invariant (doc.page, y) == Cursor(lines[..i], checks)
      invariant doc.items == Header(heading) + Sections(titles[..i], contents[..i], lines[..i], checks)
    {
      y := AddSection(doc, titles[i], contents[i], lines[i], y);
      if checks {
        y := CheckPageBreak(doc, y);
      }
      assert titles[..i + 1][..i] == titles[..i];
      assert contents[..i + 1][..i] == contents[..i];
      assert lines[..i + 1][..i] == lines[..i];
      i := i + 1;
    }
    assert titles[..i] == titles && contents[..i] == contents && lines[..i] == lines;
  }

  /**
   * The items carry the sections' titles and texts in order, right after
   * the three header items: the title of section `j` at `3 + 2 * j`, its
   * text in the block that follows.
   */
  predicate CarriesSections(items: seq<Item>, titles: seq<string>, contents: seq<string>)
    requires |titles| == |contents|
  {
    && 3 + 2 * |contents| <= |items|
    && forall j | 0 <= j < |contents| ::
      && items[3 + 2 * j].Text? && items[3 + 2 * j].text == titles[j]
      && items[4 + 2 * j].Block? && items[4 + 2 * j].content == contents[j]
  }

  /** The header followed by the sections carries every title and every text, in order. */
  lemma SectionsCarry(heading: string, titles: seq<string>, contents: seq<string>, lines: seq<nat>, checks: bool)
    requires |titles| == |contents| == |lines|
    ensures CarriesSections(Header(heading) + Sections(titles, contents, lines, checks), titles, contents)
  {
    var body := Sections(titles, contents, lines, checks);
    var items := Header(heading) + body;
    forall j | 0 <= j < |contents|
      ensures items[3 + 2 * j].Text? && items[3 + 2 * j].text == titles[j]
      ensures items[4 + 2 * j].Block? && items[4 + 2 * j].content == contents[j]
    {
      SectionAt(titles, contents, lines, checks, j);
      assert items[3 + 2 * j] == body[2 * j] == body[2 * j .. 2 * j + 2][0];
      assert items[4 + 2 * j] == body[2 * j + 1] == body[2 * j .. 2 * j + 2][1];
    }
  }

  /** Items that open with the header and the sections carry every title and every text, whatever follows. */
  lemma DocumentCarries(items: seq<Item>, n: nat, heading: string, titles: seq<string>, contents: seq<string>,
                        lines: seq<nat>, checks: bool)
    requires |titles| == |contents| == |lines| && n <= |items|
    requires items[..n] == Header(heading) + Sections(titles, contents, lines, checks)
    ensures CarriesSections(items, titles, contents)
  {
    SectionsCarry(heading, titles, contents, lines, checks);
    forall j | 0 <= j < |contents|
      ensures items[3 + 2 * j] == items[..n][3 + 2 * j] && items[4 + 2 * j] == items[..n][4 + 2 * j]
    {
    }
  }

  // ---------------------------------------------------------------- the DFD

  const DfdSectionTitles := [
    "1. SETOR REQUISITANTE:", "2. DESCRIÇÃO DO OBJETO:", "3. JUSTIFICATIVA DA NECESSIDADE:",
    "4. ALINHAMENTO ESTRATÉGICO:", "5. ESTIMATIVA DE VALOR:", "6. CRONOGRAMA DESEJADO:"]

  /** The DFD's six section texts; `money` formats the estimate the pt-BR way. */
  function DfdContents(data: DFDData, money: real -> string): seq<string>
  {
    [data.sector, data.objectDescription, data.justification, data.strategicAlignment,
     "R$ " + money(data.estimatedValue), data.expectedTimeline]
  }

  const DfdSigners := ["Responsável pela Requisição", "Autoridade Competente"]

  /**
   * `generateDFDPDF`, up to saving the file: the header, the six sections in
   * order from 45 down, with no page check between them, then the date and,
   * 30 below it, the two signature rules with their captions. `wrap` counts
   * the lines `splitTextToSize` cuts a text into.
   */
  method GenerateDFDPDF(data: DFDData, wrap: string -> nat, money: real -> string, date: string)
    returns (doc: Document, dateY: int)
    ensures fresh(doc)
    ensures |doc.items| == 20
    ensures var contents := DfdContents(data, money);
      doc.items[..15] == Header(DfdTitle) + Sections(DfdSectionTitles, contents, LinesOf(contents, wrap), false)
    ensures var end := Cursor(LinesOf(DfdContents(data, money), wrap), false);
      && dateY == DateY(end.1)
      && doc.page == end.0 + (if end.1 + 20 > 250 then 1 else 0)
    ensures doc.items[15..] == [Text(doc.page, dateY, "Data: " + date),
      Rule(doc.page, dateY + 30), Rule(doc.page, dateY + 30),
      Text(doc.page, dateY + 35, DfdSigners[0]), Text(doc.page, dateY + 35, DfdSigners[1])]
  {
    var contents := DfdContents(data, money);
    var lines := LinesOf(contents, wrap);
    doc := new Document();
    var y := 45;
    GenerateHeader(doc, DfdTitle);
    y := DrawSections(doc, DfdTitle, DfdSectionTitles, contents, lines, false, y);
    ghost var drawn := doc.items;
    dateY := DateLine(doc, y, date);
    y := dateY + 30;
    doc.Draw(Rule(doc.page, y));
    doc.Draw(Rule(doc.page, y));
    doc.Draw(Text(doc.page, y + 5, DfdSigners[0]));
    doc.Draw(Text(doc.page, y + 5, DfdSigners[1]));
    assert doc.items[..15] == drawn;
  }

  // ---------------------------------------------------------------- the ETP

  const EtpSectionTitles := [
    "1. DESCRIÇÃO DA NECESSIDADE:", "2. REQUISITOS DA CONTRATAÇÃO:", "3. LEVANTAMENTO DE MERCADO:",
    "4. DESCRIÇÃO DA SOLUÇÃO:", "5. ESTIMATIVA DE QUANTIDADES:", "6. ESTIMATIVA DO VALOR:",
    "7. JUSTIFICATIVA PARA O PARCELAMENTO:", "8. RESULTADOS PRETENDIDOS:", "9. PROVIDÊNCIAS PRÉVIAS:",
    "10. CONTRATAÇÕES CORRELATAS:", "11. IMPACTOS AMBIENTAIS:", "12. VIABILIDADE:"]

  /** The ETP's twelve section texts, in document order. */
  function EtpContents(data: ETPData): seq<string>
  {
    [data.needDescription, data.requirements, data.marketResearch, data.solutionDescription,
     data.quantityEstimate, data.valueEstimate, data.partitioningJustification, data.expectedResults,
     data.priorMeasures, data.relatedHires, data.environmentalImpacts, data.viability]
  }

  const EtpSigner := "Responsável pela Elaboração do ETP"

  /**
   * `generateETPPDF`, up to saving the file: the header, then each of the
   * twelve sections followed by a page check, then the date and, 30 below it,
   * one signature rule with its caption.
   */
  method GenerateETPPDF(data: ETPData, wrap: string -> nat, date: string) returns (doc: Document, dateY: int)
    ensures fresh(doc)
    ensures |doc.items| == 30
    ensures var contents := EtpContents(data);
      doc.items[..27] == Header(EtpTitle) + Sections(EtpSectionTitles, contents, LinesOf(contents, wrap), true)
    ensures var end := Cursor(LinesOf(EtpContents(data), wrap), true);
      && dateY == DateY(end.1)
      && doc.page == end.0 + (if end.1 + 20 > 250 then 1 else 0)
    ensures doc.items[27..] == [Text(doc.page, dateY, "Data: " + date),
      Rule(doc.page, dateY + 30), Text(doc.page, dateY + 35, EtpSigner)]
  {
    var contents := EtpContents(data);
    var lines := LinesOf(contents, wrap);
    doc := new Document();
    var y := 45;
    GenerateHeader(doc, EtpTitle);
    y := DrawSections(doc, EtpTitle, EtpSectionTitles, contents, lines, true, y);
    ghost var drawn := doc.items;
    dateY := DateLine(doc, y, date);
    y := dateY + 30;
    doc.Draw(Rule(doc.page, y));
    doc.Draw(Text(doc.page, y + 5, EtpSigner));
    assert doc.items[..27] == drawn;
  }

  // ---------------------------------------------------------------- what the documents carry

  /** An ETP document gives its record back: two records whose sections a document carries are the same record. */
  lemma EtpDocumentDeterminesRecord(items: seq<Item>, d: ETPData, e: ETPData)
    requires CarriesSections(items, EtpSectionTitles, EtpContents(d))
    requires CarriesSections(items, EtpSectionTitles, EtpContents(e))
    ensures d == e
  {
    var cd, ce := EtpContents(d), EtpContents(e);
    forall j | 0 <= j < 12 ensures cd[j] == ce[j] {
      assert items[4 + 2 * j].content == cd[j] && items[4 + 2 * j].content == ce[j];
    }
    assert cd == ce;
  }

  /**
   * A DFD document gives back the five text fields of its record and the
   * formatted estimate; with a formatting that tells amounts apart, the
   * whole record.
   */
  lemma DfdDocumentDeterminesRecord(items: seq<Item>, d: DFDData, e: DFDData, money: real -> string)
    requires CarriesSections(items, DfdSectionTitles, DfdContents(d, money))
    requires CarriesSections(items, DfdSectionTitles, DfdContents(e, money))
    ensures d.sector == e.sector && d.objectDescription == e.objectDescription && d.justification == e.justification
    ensures d.strategicAlignment == e.strategicAlignment && d.expectedTimeline == e.expectedTimeline
    ensures money(d.estimatedValue) == money(e.estimatedValue)
    ensures (forall x, y :: money(x) == money(y) ==> x == y) ==> d == e
  {
    var cd, ce := DfdContents(d, money), DfdContents(e, money);
    forall j | 0 <= j < 6 ensures cd[j] == ce[j] {
      assert items[4 + 2 * j].content == cd[j] && items[4 + 2 * j].content == ce[j];
    }
    assert cd[0] == ce[0] && cd[1] == ce[1] && cd[2] == ce[2] && cd[3] == ce[3] && cd[5] == ce[5];
    assert cd[4] == ce[4];
    assert cd[4][3..] == money(d.estimatedValue) && ce[4][3..] == money(e.estimatedValue);
  }

  // ---------------------------------------------------------------- layout properties

  /** Section `j` is its title and its text at the cursor the sections before it leave. */
  lemma {:induction false} SectionAt(titles: seq<string>, contents: seq<string>, lines: seq<nat>, checks: bool, j: nat)
    requires |titles| == |contents| == |lines| && j < |lines|
    ensures var pos := Cursor(lines[..j], checks);
      Sections(titles, contents, lines, checks)[2 * j .. 2 * j + 2] == SectionItems(pos.0, pos.1, titles[j], contents[j], lines[j])
  {
    var k := |lines| - 1;
    var prefix := Sections(titles[..k], contents[..k], lines[..k], checks);
    var pos := Cursor(lines[..k], checks);
    assert Sections(titles, contents, lines, checks) == prefix + SectionItems(pos.0, pos.1, titles[k], contents[k], lines[k]);
    if j < k {
      SectionAt(titles[..k], contents[..k], lines[..k], checks, j);
      assert lines[..k][..j] == lines[..j];
      assert Sections(titles, contents, lines, checks)[2 * j .. 2 * j + 2] == prefix[2 * j .. 2 * j + 2];
    }
  }

  /** The total height of sections of `lines` lines each. */
  function SumHeights(lines: seq<nat>): nat
  {
    if lines == [] then 0 else SumHeights(lines[..|lines| - 1]) + SectionHeight(lines[|lines| - 1])
  }

  /** Without page checks everything stays on page 1, each section right below the previous one. */
  lemma {:induction false} UncheckedStacks(lines: seq<nat>)
    ensures Cursor(lines, false) == (1, 45 + SumHeights(lines))
  {
    if lines != [] {
      UncheckedStacks(lines[..|lines| - 1]);
    }
  }

  /**
   * With page checks the next section always starts between 30 and 260 on
   * its page, and after `k` sections the document has at most `k + 1` pages.
   */
  lemma {:induction false} CheckedTopsInPage(lines: seq<nat>)
    ensures 30 <= Cursor(lines, true).1 <= 260
    ensures 1 <= Cursor(lines, true).0 <= |lines| + 1
  {
    if lines != [] {
      CheckedTopsInPage(lines[..|lines| - 1]);
    }
  }

  /** Pages never go back, and the next section is on a new page exactly when the last one ran past 260. */
  lemma PageStep(lines: seq<nat>, n: nat)
    ensures var (page, y) := Cursor(lines, true);
      var below := y + SectionHeight(n);
      Cursor(lines + [n], true) == if below > 260 then (page + 1, 30) else (page, below)
  {
    assert (lines + [n])[..|lines|] == lines;
  }

  /**
   * Page checks change nothing while the sections fit: when the sections
   * stacked from 45 end at or above 260, the checked layout is the unchecked one.
   */
  lemma {:induction false} ChecksIdleWhenShort(lines: seq<nat>)
    requires 45 + SumHeights(lines) <= 260
    ensures Cursor(lines, true) == Cursor(lines, false)
  {
    if lines != [] {
      ChecksIdleWhenShort(lines[..|lines| - 1]);
      UncheckedStacks(lines[..|lines| - 1]);
    }
  }

  /** With page checks, the title of section `j` is drawn between 30 and 260 on one of the first `j + 1` pages. */
  lemma CheckedTitleInPage(titles: seq<string>, contents: seq<string>, lines: seq<nat>, j: nat)
    requires |titles| == |contents| == |lines| && j < |lines|
    ensures var title := Sections(titles, contents, lines, true)[2 * j];
      && title == Text(title.page, title.y, titles[j])
      && 30 <= title.y <= 260 && 1 <= title.page <= j + 1
  {
    var items := Sections(titles, contents, lines, true);
    var pos := Cursor(lines[..j], true);
    SectionAt(titles, contents, lines, true, j);
    assert items[2 * j] == items[2 * j .. 2 * j + 2][0];
    assert items[2 * j] == Text(pos.0, pos.1, titles[j]);
    CheckedTopsInPage(lines[..j]);
  }

  /**
   * In the ETP every section title is drawn between 30 and 260 on its page,
   * the `j`-th on one of the first `j + 1` pages.
   */
  lemma EtpTitleInPage(data: ETPData, wrap: string -> nat, j: nat)
    requires j < 12
    ensures var contents := EtpContents(data);
      var title := Sections(EtpSectionTitles, contents, LinesOf(contents, wrap), true)[2 * j];
      && title == Text(title.page, title.y, EtpSectionTitles[j])
      && 30 <= title.y <= 260 && 1 <= title.page <= j + 1
  {
    var contents := EtpContents(data);
    CheckedTitleInPage(EtpSectionTitles, contents, LinesOf(contents, wrap), j);
  }

  /**
   * The DFD draws every section on page 1, each right below the previous one,
   * however long the texts: when the first text takes 40 lines or more, the
   * second title already lies below the bottom of an A4 page (297 mm).
   */
  lemma DfdStaysOnFirstPage(data: DFDData, wrap: string -> nat, money: real -> string, j: nat)
    requires j < 6
    ensures var contents := DfdContents(data, money);
      var lines := LinesOf(contents, wrap);
      var title := Sections(DfdSectionTitles, contents, lines, false)[2 * j];
      && title == Text(1, 45 + SumHeights(lines[..j]), DfdSectionTitles[j])
      && (j == 1 && wrap(data.sector) >= 40 ==> title.y > 297)
  {
    var contents := DfdContents(data, money);
    var lines := LinesOf(contents, wrap);
    SectionAt(DfdSectionTitles, contents, lines, false, j);
    UncheckedStacks(lines[..j]);
    if j == 1 {
      assert lines[..1] == [lines[0]] && lines[..1][..0] == [];
    }
  }
}
