# memori-facil in Dafny

memori-facil helps a public-sector engineering office put together a
renovation project from a catalog of standard construction services. From
the project's service list it derives a *Memorial Descritivo* (the technical
description of every service), a priced budget that can be exported as a
spreadsheet, and the two procurement documents Brazilian public contracting
asks for: the DFD (*Documento de Formalização de Demanda*) and the ETP
(*Estudo Técnico Preliminar*), both also written out as PDF. Uploading a
CDHU price bulletin (a PDF) replaces the catalog's reference prices.

This project models that derivation logic and the state machines around it,
one Dafny module per source file:

| module | file | what it holds |
|---|---|---|
| `Types` | `types.dfy` | the records of types.ts |
| `JsText`, `JsSet` | `js_text.dfy`, `js_set.dfy` | the JavaScript string operations (`split`, `trim`, `join`, case mapping) and the insertion-ordered `Set` the code relies on |
| `ArtifactDefaults` | `artifact_defaults.dfy` | the DFD and ETP default fields (utils/artifactDefaults.ts); the loop that fills the standards and methodology sets is a method proved against its specification |
| `Catalog` | `catalog.dfy` | the static CDHU catalog, the price-override merge and the version label (data/cdhuCatalog.ts) |
| `CdhuUpdate` | `cdhu_update.dfy` | the bulletin upload page (pages/CDHUUpdate.tsx): hand-written matchers for its three regular expressions, the price conversion, the version search, the progress bar, and the page-by-page loop as a class with its handlers |
| `Budget` | `budget.dfy` | the budget totals and the rows of the exported sheet (pages/Budget.tsx), the row-building loop as a method |
| `Memorial` | `memorial.dfy` | the three kinds of memorial block and the document header (pages/Memorial.tsx) |
| `ServiceModal` | `service_modal.dfy` | the category list, the catalog filter, and the service form as a class whose methods are the form's handlers and effects (components/ServiceModal.tsx) |
| `App` | `app.dfy` | the session state and its handlers as a class, the same handlers as a transition function over runs, and the route gates (App.tsx) |
| `Artifacts` | `artifacts.dfy` | the DFD → ETP step gate (pages/Artifacts.tsx) |
| `DfdEditor`, `EtpEditor` | `dfd_editor.dfy`, `etp_editor.dfy` | the generate-then-edit records of the two editors |
| `PdfGenerator` | `pdf_generator.dfy` | the vertical layout of the two PDFs: the cursor, the page breaks, the date and the signatures (utils/pdfGenerator.ts) |
| `DataMapper` | `data_mapper.dfy` | the mapping between records and database rows and its round trips (services/dataMapper.ts) |
| `EnvLoader` | `env_loader.dfy` | the `.env` line parser of test-connection.js |

Money and quantities are `real`s, so sums and products are exact.
`Number(x.toFixed(2))` is rounding to the nearest cent, with a half rounding
up. The browser's local storage is a `StoredState` value: nothing stored,
unparsable, or a parsed record. A PDF handed to the upload page is the
strings of its pages' text items, with a page that cannot be read marked as
such. Locale formatting and the PDF library's line wrapping are function
parameters.

Where the specification and the code disagree, the model follows the code:

- Closing the service form keeps the source and the unit the user chose,
  because `handleClose` does not reset them (components/ServiceModal.tsx:110-128).
- A catalog override of 0 leaves the item unchanged, because the merge
  tests the override for truthiness (data/cdhuCatalog.ts:660).
- The ETP defaults take a DFD as an argument and have no precondition of
  their own. The ordering of DFD before ETP is the page's step gate
  (pages/Artifacts.tsx), which is what `Artifacts.NeverMissingDfd` proves.

## Model

| member | source | states |
|---|---|---|
| ArtifactDefaults.GenerateDFDDefaults | utils/artifactDefaults.ts:3-14 | the DFD's object description is the project's object; its estimated value is the sum over the services of quantity × (material + labour price), and 0 for no services |
| ArtifactDefaults.TotalValueAppend | utils/artifactDefaults.ts:4 | the estimate of two lists joined is the sum of their estimates, so each service contributes its own line value once |
| ArtifactDefaults.CollectSets | utils/artifactDefaults.ts:18-30 | the `forEach` leaves in `standards` exactly `Standards(services)` and in `methodologies` every methodology step once, in order of first appearance |
| ArtifactDefaults.AddSteps | utils/artifactDefaults.ts:22-24 | the inner loop adds a service's methodology steps to the set one by one, which is adding the whole list |
| ArtifactDefaults.AddStandards | utils/artifactDefaults.ts:26-29 | the four category tests of one service add to the set exactly the standards that service triggers, in test order |
| ArtifactDefaults.TriggeredByMembers | utils/artifactDefaults.ts:26-29 | one service yields standard k iff its category passes test k, and yields nothing else |
| ArtifactDefaults.TriggerSequenceMembers | utils/artifactDefaults.ts:21-30 | NBR 5410/5626/13245/13753 are collected iff some service's category is `Elétrica`/`Hidráulica`/`Pintura`/contains `Pisos`; nothing else is collected |
| ArtifactDefaults.StandardsSpec | utils/artifactDefaults.ts:19-32 | the listed standards are those some service triggers, hold no duplicates and appear in the order each was first triggered |
| ArtifactDefaults.RequirementsShape | utils/artifactDefaults.ts:32-34 | the "Normas Técnicas Obrigatórias" block is empty iff no service triggers a standard, and otherwise is the heading followed by the bullets |
| ArtifactDefaults.SolutionText | utils/artifactDefaults.ts:37-42 | the solution description is the fixed introduction, the joined lines and the fixed closing; when no line breaks, the text between them cut at line breaks gives back one `-> name: …` line per service, in list order (the template of line 67) |
| ArtifactDefaults.SolutionLineSingle | utils/artifactDefaults.ts:38-39 | the line of a service with a structured object holds no line break when its name and object hold none |
| ArtifactDefaults.HasDemolitionSpec | utils/artifactDefaults.ts:45 | the `some` scan holds iff some service's category is exactly `Demolições` |
| ArtifactDefaults.MeasuredSpec | utils/artifactDefaults.ts:51-52 | the filter keeps exactly the services with a non-empty measurement criterion, and is empty iff none has one |
| ArtifactDefaults.MeasuredAppend | utils/artifactDefaults.ts:51-52 | filtering a concatenation filters each part, so the listing keeps list order |
| ArtifactDefaults.MeasurementLinesCons | utils/artifactDefaults.ts:51-57 | the listing of a list is the first service's line, when it has a criterion, followed by the listing of the rest |
| ArtifactDefaults.QuantityEstimateShape | utils/artifactDefaults.ts:51-61 | the quantity text is the bare introduction iff no service has a measurement criterion; one line per measured service otherwise |
| ArtifactDefaults.GenerateETPDefaults | utils/artifactDefaults.ts:16-77 | the ETP assembled after the loop equals the field-by-field definition; its need description is the DFD's justification; its environmental text is the Classe A/PGRCC clause iff some service's category is `Demolições` |
| ArtifactDefaults.MethodologyIrrelevant | utils/artifactDefaults.ts:18-23 | two service lists that differ only in their methodology steps give the same ETP: the collected methodologies are never used |
| ArtifactDefaults.SameButMethodologyParts | utils/artifactDefaults.ts:21-57 | such lists trigger the same standards, the same demolition test and the same measurement lines |
| ArtifactDefaults.MeasuredSame | utils/artifactDefaults.ts:51-57 | such lists give the same measurement lines |
| Catalog.StaticCatalogWellFormed | data/cdhuCatalog.ts:20-626 | the built-in catalog has 26 entries; every code has the form `DD.DD.DDD`, every price is positive, every entry has a memorial definition, and no two entries share a code |
| Catalog.StaticCodesAgree | data/cdhuCatalog.ts:20-626 | the list of codes is the catalog's codes, in catalog order |
| Catalog.StaticCodesWellFormed | data/cdhuCatalog.ts:20-626 | each code is `DD.DD.DDD` and the codes are pairwise distinct |
| Catalog.GetCatalogVersion | data/cdhuCatalog.ts:630-641 | the stored version when it is non-empty; `Personalizado` for a record without one; `CDHU 197 (Base)` when nothing is stored or parsing fails; never empty |
| Catalog.NoPricesNoChange | data/cdhuCatalog.ts:645-657 | a missing, unparsable or `prices`-less record yields the static catalog unchanged |
| Catalog.OverriddenItems | data/cdhuCatalog.ts:644-669 | an item changes iff its code has a non-zero override; code, unit, category, specification and memorial definition never change; a changed item has the override price and exactly one marker |
| Catalog.MarkerShowsOverride | data/cdhuCatalog.ts:664 | a merged description ends with ` *` iff the item was overridden |
| Catalog.StaticDescriptionsUnmarked | data/cdhuCatalog.ts:20-626 | no static description ends with `*` |
| ServiceModal.CategoriesSpec | components/ServiceModal.tsx:29 | the category list holds exactly the catalog's categories, each once, in order of first appearance |
| ServiceModal.CategoryCountUnaffected | components/ServiceModal.tsx:242-253 | the per-tile count, taken from the static catalog, equals the count in the merged catalog the tiles come from, because overrides keep categories |
| ServiceModal.FilteredIsSubsequence | components/ServiceModal.tsx:31-36 | the filtered list is the subsequence of the catalog at strictly increasing positions, and those positions are exactly the entries whose lower-cased description contains the lower-cased query or whose code contains the query, and whose category is the selected one when one is selected |
| ServiceModal.KeptIndicesRise | components/ServiceModal.tsx:31 | the kept positions lie in the catalog and rise strictly |
| ServiceModal.KeptIndicesMatch | components/ServiceModal.tsx:31-36 | a position is kept iff its entry passes the filter |
| ServiceModal.FilteredAtKept | components/ServiceModal.tsx:31-36 | the filtered list holds, in order, the entries at the kept positions |
| ServiceModal.EmptyFilterKeepsAll | components/ServiceModal.tsx:31-36 | with no search text and no selected category every entry is listed |
| ServiceModal.Round2Close | components/ServiceModal.tsx:82-100 | `Number(x.toFixed(2))` moves a value by at most half a cent |
| ServiceModal.ShareSplit | components/ServiceModal.tsx:99-100 | the 60 % material and 40 % labour shares of a catalog price add back to the price to within one cent |
| ServiceModal.SubmittedNameSpec | components/ServiceModal.tsx:138-141 | the submitted name is the bare description iff neither brand nor model is given, and otherwise is the description followed by ` (Ref: brand model)` |
| ServiceModal.SubmittedItemShape | components/ServiceModal.tsx:132-147 | a submitted item has a positive quantity and a non-empty category, and its category is `Outros` iff the form's category was empty or `Outros` |
| ServiceModal.Form.constructor | components/ServiceModal.tsx:20-57 | the form starts on the catalog tab with every input empty, source `CDHU`, unit `m²`, prices and subtotal 0 |
| ServiceModal.Form.AreaEffect | components/ServiceModal.tsx:78-84 | the area becomes width × length rounded to two decimals when both parse to positive numbers, and is left unchanged otherwise |
| ServiceModal.Form.SubtotalEffect | components/ServiceModal.tsx:86-89 | the subtotal becomes (material + labour) × the quantity, an unparsable quantity counting as 0 |
| ServiceModal.Form.SetWidth | components/ServiceModal.tsx:78-89 | typing a width stores it, runs the area effect and then the subtotal effect (also line 343) |
| ServiceModal.Form.SetLength | components/ServiceModal.tsx:78-89 | typing a length stores it, runs the area effect and then the subtotal effect (also line 353) |
| ServiceModal.Form.SetArea | components/ServiceModal.tsx:86-89 | typing the quantity stores it and runs the subtotal effect (also line 363) |
| ServiceModal.Form.SetDetail | components/ServiceModal.tsx:375-389 | typing an environment, a brand or a model changes that field only |
| ServiceModal.Form.SelectCategory | components/ServiceModal.tsx:231-245 | a tile selects its category; the back button clears the selection |
| ServiceModal.Form.SetSearch | components/ServiceModal.tsx:273 | the search box sets the query |
| ServiceModal.Form.SetTab | components/ServiceModal.tsx:204-213 | the tab buttons switch tabs (also line 427) |
| ServiceModal.Form.CatalogSelect | components/ServiceModal.tsx:91-108 | selecting an entry copies its code, description, category, unit, specification and memorial definition, sets material and labour to the rounded 60 % and 40 % shares, clears width, length and quantity (so the subtotal is 0) and switches to the manual tab |
| ServiceModal.Form.Close | components/ServiceModal.tsx:110-128 | closing puts back every field `handleClose` resets and returns to the catalog tab; source and unit keep their values |
| ServiceModal.Form.ClearInputs | components/ServiceModal.tsx:111-126 | the calculator, free-text and navigation inputs return to their initial values |
| ServiceModal.Form.ClearSelection | components/ServiceModal.tsx:117-123 | the selected entry's fields and the prices return to their initial values |
| ServiceModal.Form.Submit | components/ServiceModal.tsx:130-163 | a quantity that is not positive adds nothing and leaves the form unchanged; otherwise the returned item carries the form's fields (name with the brand/model reference, `Outros` for an empty category, the parsed quantity, the specification as existing floor, an empty new floor) and the form is closed |
| Memorial.ServiceBlock | pages/Memorial.tsx:59-162 | exactly one branch applies: the structured block iff a memorial definition is present, the flooring block iff not and the lower-cased name contains `piso` or `revestimento`, the generic block otherwise; the structured block keeps object, methodology, materials and measurement verbatim and adds the `Referência` bullet iff a brand or a model is given; the flooring block names the porcelain tile iff the new floor is `porcelanato`; the generic block quotes the existing floor iff it is longer than 20 characters, else describes the lower-cased name, source and code, and always ends with the place and quantity line |
| Memorial.HeadingNumbered | pages/Memorial.tsx:64 | the heading of block i opens with the decimal digits of i + 1, followed by `. ` and the service name (also lines 105, 149) |
| Memorial.FlooringIgnoresCase | pages/Memorial.tsx:102 | the flooring test lower-cases the name first, so a name spelling `PISO` in capitals selects the flooring block |
| Memorial.ObjectLine | pages/Memorial.tsx:214 | the upper-cased object, or `OBJETO NÃO DEFINIDO` when there is no project or no object |
| Memorial.LocationLine | pages/Memorial.tsx:215 | the upper-cased location, or `LOCAL NÃO DEFINIDO` when there is no project or no location |
| Budget.EmptyBudget | pages/Budget.tsx:16-18 | material, labour and general totals of an empty budget are all 0 |
| Budget.LineTotalsSumToGeneral | pages/Budget.tsx:16-18 | the per-line totals (material × quantity + labour × quantity) add up to the general total (also lines 176-178) |
| Budget.TotalValueIsGeneral | pages/Budget.tsx:16-18 | the DFD's fold of quantity × (material + labour) equals material total plus labour total |
| Budget.DFDEstimateIsBudgetTotal | pages/Budget.tsx:18 | the DFD's estimated value is the budget's general total |
| Budget.HeaderShowsProject | pages/Budget.tsx:36-47 | the header has ten rows ending in the column titles; the ASSUNTO, UNIDADE and LOCAL rows carry the project's object, unit and location, or blanks without a project |
| Budget.PushDataRows | pages/Budget.tsx:50-67 | the loop keeps the rows already there and pushes one row per service, in order, row i showing item number `1.{i+1}`, source and code, name, unit, quantity, unit and total material, unit and total labour, and the line total |
| Budget.ExportRows | pages/Budget.tsx:32-76 | the sheet has the ten header rows, one row per service in order, a blank row, SUB TOTAL with material, labour and general totals in columns 6, 8 and 9, and TOTAL GERAL with the general total in column 9: n + 13 rows |
| Budget.SheetTotalsAgree | pages/Budget.tsx:50-76 | the TOTAL column of the data rows adds up to the TOTAL GERAL cell |
| Budget.SumColumnIsLineTotals | pages/Budget.tsx:55-66 | summing column 9 of the data rows is summing the line totals |
| CdhuUpdate.CodeAtIsCode | pages/CDHUUpdate.tsx:59 | the code pattern matches at a position exactly when the nine characters there form a catalog-shaped code |
| CdhuUpdate.FirstCodeFrom | pages/CDHUUpdate.tsx:82 | the result is the leftmost code match at or after the start, and none is reported only when no position matches |
| CdhuUpdate.SegmentCode | pages/CDHUUpdate.tsx:82-84 | a segment has a code exactly when the code pattern matches somewhere in it, and the code is well formed |
| CdhuUpdate.CodeCutsSpec | pages/CDHUUpdate.tsx:79 | the cut positions are exactly the code occurrences after the start, in increasing order |
| CdhuUpdate.SplitShape | pages/CDHUUpdate.tsx:79 | the look-ahead split cuts the text at its code occurrences: the segments join back to the text, every boundary after the first is a code occurrence, and no code starts strictly inside a segment |
| CdhuUpdate.SegmentIsSlice | pages/CDHUUpdate.tsx:79 | segment k is the text between boundaries k and k + 1 |
| CdhuUpdate.SegmentCodeAtStart | pages/CDHUUpdate.tsx:79-84 | when a segment holds a code, its first code starts at position 0 |
| CdhuUpdate.LaterSegmentsStartWithCode | pages/CDHUUpdate.tsx:79-84 | every segment after the first, nine characters or longer, is filed under the code it starts with |
| CdhuUpdate.PriceMatchAt | pages/CDHUUpdate.tsx:87 | the back-tracking matcher of `\d{1,3}(?:\.\d{3})*,\d{2}` agrees with the direct greedy reading, and a match spans at least four characters of digits, dots and commas starting with a digit |
| CdhuUpdate.PriceMatchNoBacktracking | pages/CDHUUpdate.tsx:87 | backing off the digit count or the group count never finds a match the greedy reading misses, nor a different one |
| CdhuUpdate.PriceMatchesFrom | pages/CDHUUpdate.tsx:87 | the global matches are price matches, left to right, none overlapping the previous one |
| CdhuUpdate.PricesIn | pages/CDHUUpdate.tsx:87-88 | one converted number per price match |
| CdhuUpdate.FractionPlaces | pages/CDHUUpdate.tsx:88 | two decimal places read as hundredths, three as thousandths |
| CdhuUpdate.ParsePrefixShape | pages/CDHUUpdate.tsx:88 | `parseFloat` of digits, a dot, digits and then a non-digit is the whole part plus the fraction |
| CdhuUpdate.ConvertNoGroups | pages/CDHUUpdate.tsx:88 | a price without thousands groups, such as `85,00`, converts to its value |
| CdhuUpdate.ConvertOneGroup | pages/CDHUUpdate.tsx:88 | a price with one thousands group, such as `1.234,56`, converts to its value |
| CdhuUpdate.ConvertTruncates | pages/CDHUUpdate.tsx:88 | with two or more thousands groups only the first dot is removed, so `1.234.567,89` converts to 1234.567 |
| CdhuUpdate.SpaceRun | pages/CDHUUpdate.tsx:68 | the greedy `\s*` run: all spaces, and stopped by a non-space or the end |
| CdhuUpdate.VersionMatchAt | pages/CDHUUpdate.tsx:68 | a capture is a non-empty run of digits |
| CdhuUpdate.VersionMatchIff | pages/CDHUUpdate.tsx:68 | the version pattern matches at a position exactly when `BOLETIM`, in any case, is followed by spaces and a digit |
| CdhuUpdate.VersionCapture | pages/CDHUUpdate.tsx:68-70 | the capture is the whole digit run after the marker and its spaces |
| CdhuUpdate.FirstVersionFrom | pages/CDHUUpdate.tsx:68 | the leftmost position where the version pattern matches, none only when it matches nowhere |
| CdhuUpdate.VersionInIs | pages/CDHUUpdate.tsx:68 | a version is read exactly when the pattern matches somewhere, and it is a non-empty digit capture of a match |
| CdhuUpdate.BulletinHeader | pages/CDHUUpdate.tsx:68-70 | a text opening with `BOLETIM `, a number and no further digit is read as that number |
| CdhuUpdate.ExtractedVersion | pages/CDHUUpdate.tsx:55-71 | the version is `Desconhecida` or starts with `CDHU ` |
| CdhuUpdate.LaterPagesIgnored | pages/CDHUUpdate.tsx:67 | pages after the third never change the version |
| CdhuUpdate.ExtractedVersionIs | pages/CDHUUpdate.tsx:55-71 | the version is unknown exactly when none of the first three pages matches, and otherwise it is `CDHU ` and the number of the last of them that matches |
| CdhuUpdate.ProgressBounds | pages/CDHUUpdate.tsx:101 | the progress is at most 100 and is the nearest integer to 100·i/n, a half rounding up |
| CdhuUpdate.ProgressEnds | pages/CDHUUpdate.tsx:101 | no page done is 0 %, all pages done is 100 % |
| CdhuUpdate.ProgressMonotone | pages/CDHUUpdate.tsx:101 | the progress never goes back |
| CdhuUpdate.SegmentRecord | pages/CDHUUpdate.tsx:81-98 | a segment sets at most one price, always positive and under a well-formed code |
| CdhuUpdate.CollectSnoc | pages/CDHUUpdate.tsx:96 | one more assignment sets its code's price |
| CdhuUpdate.CollectKeys | pages/CDHUUpdate.tsx:96 | a code has a price exactly when some assignment names it |
| CdhuUpdate.CollectCount | pages/CDHUUpdate.tsx:117 | the `updated` count is the number of distinct codes assigned |
| CdhuUpdate.CollectLastWins | pages/CDHUUpdate.tsx:94-96 | the price of a code is that of the last assignment naming it |
| CdhuUpdate.CollectValues | pages/CDHUUpdate.tsx:96 | every collected price comes from an assignment |
| CdhuUpdate.CollectedPricesWellFormed | pages/CDHUUpdate.tsx:93-96 | every collected price is positive and filed under a well-formed code |
| CdhuUpdate.RecordUnderLeadingCode | pages/CDHUUpdate.tsx:79-96 | a price found in a segment after the first is filed under the code the segment starts with |
| CdhuUpdate.FirstUnreadable | pages/CDHUUpdate.tsx:61-63 | the index of the first page that cannot be read, every page before it readable |
| CdhuUpdate.Label | pages/CDHUUpdate.tsx:106 | a found version is stored as it is, an unknown one as `Upload em ` followed by the date; the stored label is never `Desconhecida` |
| CdhuUpdate.UpdatePage.constructor | pages/CDHUUpdate.tsx:11-15 | not dragging, not processing, progress 0, no result and no error |
| CdhuUpdate.UpdatePage.DragOver | pages/CDHUUpdate.tsx:17-20 | sets dragging, nothing else changes |
| CdhuUpdate.UpdatePage.DragLeave | pages/CDHUUpdate.tsx:22-24 | clears dragging, nothing else changes |
| CdhuUpdate.UpdatePage.Drop | pages/CDHUUpdate.tsx:26-35 | a first file of PDF type is processed; otherwise the PDF error is shown and nothing else changes |
| CdhuUpdate.UpdatePage.FileChange | pages/CDHUUpdate.tsx:37-41 | the first chosen file is processed whatever its type; no file changes nothing |
| CdhuUpdate.UpdatePage.ProcessPDF | pages/CDHUUpdate.tsx:43-127 | on success the record of the collected prices and the labelled version is stored and reported; on a read failure the stored record is kept and the read error is shown; processing is over either way |
| CdhuUpdate.UpdatePage.ReadPages | pages/CDHUUpdate.tsx:61-102 | the loop stops at the first unreadable page; after all pages the version and prices are those of all the page texts, and the progress is that of the pages read |
| CdhuUpdate.ReadPage | pages/CDHUUpdate.tsx:62-99 | one more page read extends what was found by that page's version and prices |
| CdhuUpdate.LookForVersion | pages/CDHUUpdate.tsx:67-72 | the version after one more page, as the specification of the version gives it |
| CdhuUpdate.ScanPage | pages/CDHUUpdate.tsx:79-99 | the prices after one page's segments are those of the earlier assignments followed by the page's |
| CdhuUpdate.ScanSegment | pages/CDHUUpdate.tsx:81-98 | one segment sets the price of its code exactly as its record says: its last price, when it has a code and that price is above zero |
| CdhuUpdate.ExtractFails | pages/CDHUUpdate.tsx:121-124 | a document whose page k is the first unreadable one fails after k pages |
| CdhuUpdate.ExtractDone | pages/CDHUUpdate.tsx:104-119 | a fully readable document comes to the prices and version of its texts |
| CdhuUpdate.NextPageVersion | pages/CDHUUpdate.tsx:67-71 | one more page sets the version when it is among the first three and matches |
| CdhuUpdate.UploadFeedsCatalog | pages/CDHUUpdate.tsx:104-111 | after an upload the catalog reports the stored version and gives exactly the collected codes the uploaded price, marked, leaving every other item as it is |
| App.Session.constructor | App.tsx:25-36 | signed out, both modals closed, no services, no project details, no memorial |
| App.Session.HandleLogin | App.tsx:38-40 | the session is authenticated and nothing else changes |
| App.Session.HandleLogout | App.tsx:42-47 | signed out, with the service list emptied, the project details cleared and the memorial withdrawn; the modal flags are kept |
| App.Session.StartNewProject | App.tsx:50-55 | services emptied, memorial withdrawn, project details cleared, project modal opened |
| App.Session.HandleProjectDetailsSubmit | App.tsx:58-63 | the details are stored, the project modal closes and the service modal opens; the services are kept |
| App.Session.HandleAddService | App.tsx:66-70 | the item is appended after the existing services, the service modal closes and the memorial is withdrawn |
| App.Session.HandleMemorialComplete | App.tsx:72-74 | the memorial counts as generated |
| App.Session.OpenServiceModal | App.tsx:105 | the service modal opens, nothing else changes |
| App.Session.CloseServiceModal | App.tsx:109 | the service modal closes, nothing else changes (also lines 133, 155, 177) |
| App.Session.CloseProjectModal | App.tsx:114 | the project modal closes, nothing else changes |
| App.ApplyMemorialFlag | App.tsx:42-74 | only the memorial completion sets the flag; logout, a new project and an added service clear it; every other event keeps it |
| App.MemorialFlagOfRun | App.tsx:42-74 | after any sequence of handler calls the memorial counts as generated exactly when it was completed and nothing invalidated it since |
| App.ServicesOfRun | App.tsx:42-70 | without a reset, the services are the earlier ones followed by the added items, in order |
| App.ServicesAfterReset | App.tsx:42-70 | after a logout or a new project, the services are exactly the items added since |
| App.RunAppend | App.tsx:38-74 | running two sequences of handler calls one after the other is running their concatenation |
| App.Resolve | App.tsx:20-204 | every path comes to a page within two redirects |
| App.AuthenticationGate | App.tsx:20-204 | signed out, only the sign-in and registration pages show, the registration page exactly when asked for; signed in, neither shows |
| App.MemorialGate | App.tsx:140-183 | the budget and artifacts pages show only to a signed-in user with a generated memorial, and otherwise send a signed-in user to the memorial |
| App.SignedInFallback | App.tsx:79-204 | signed in, an unknown path, the sign-in or the registration path lands on the dashboard |
| App.BudgetNeedsFreshMemorial | App.tsx:66-161 | the budget page is reachable from a fresh session only if the memorial was completed after the last added service and the last reset |
| Artifacts.Render | pages/Artifacts.tsx:16-120 | without a project only the no-project message shows; the ETP editor gets the DFD in hand; the missing-DFD error shows exactly on the ETP step of a project without a DFD |
| Artifacts.Page.constructor | pages/Artifacts.tsx:13-14 | the DFD step, no DFD yet: the state the action model starts from |
| Artifacts.Page.HandleDFDComplete | pages/Artifacts.tsx:25-27 | the DFD is stored and the step is kept, exactly one approval step of the action model that the lemmas below are about |
| Artifacts.Page.BackToDfd | pages/Artifacts.tsx:40 | back to the DFD step, the DFD kept, as one back step of the action model (also line 124) |
| Artifacts.Page.GoToEtp | pages/Artifacts.tsx:50-87 | the ETP step is entered only with a DFD, and without one nothing changes, as one forward step of the action model |
| Artifacts.Page.ApproveDfd | pages/Artifacts.tsx:78-82 | the DFD editor's download, with `handleDFDComplete` as its `onComplete`: with a record, the PDF carries its sections and the record becomes the page's DFD, as one approval of the action model; without one nothing changes |
| Artifacts.NeverMissingDfd | pages/Artifacts.tsx:13-120 | after any sequence of actions the ETP step comes with a DFD, there is a DFD exactly when one was approved, and the missing-DFD error never shows |
| Artifacts.DfdNeverCleared | pages/Artifacts.tsx:25-53 | once approved, a DFD is only ever replaced by a newer one |
| DfdEditor.SetField | components/artifacts/DFDEditor.tsx:23-27 | the edited field takes the new value, every other field and the estimate are kept |
| DfdEditor.FieldsDetermine | types.ts:53-60 | a DFD record is its five text fields and its estimate |
| DfdEditor.SetFieldLaws | components/artifacts/DFDEditor.tsx:23-27 | writing back a field's own value changes nothing; of two writes to one field the last wins |
| DfdEditor.EditsKeepEstimate | components/artifacts/DFDEditor.tsx:52-111 | no sequence of edits changes the estimate, which is shown in a disabled input |
| DfdEditor.Editor.constructor | components/artifacts/DFDEditor.tsx:14 | no record before the effect runs |
| DfdEditor.Editor.Regenerate | components/artifacts/DFDEditor.tsx:16-21 | the record becomes the defaults for the project and services, discarding edits: the object description is the project's object, the estimate the services' total |
| DfdEditor.Editor.HandleChange | components/artifacts/DFDEditor.tsx:23-27 | with a record, the field is set; without one nothing changes |
| DfdEditor.Editor.HandleDownload | components/artifacts/DFDEditor.tsx:29-34 | with a record, a PDF is drawn that carries the record's six section texts in order, and the same record, edits included, is handed on; without one, no PDF and nothing handed on |
| EtpEditor.SetField | components/artifacts/ETPEditor.tsx:23-27 | the edited field takes the new value, every other field is kept |
| EtpEditor.Number | components/artifacts/ETPEditor.tsx:46-58 | each section has a number from 1 to 12 |
| EtpEditor.ControlsCoverFields | components/artifacts/ETPEditor.tsx:46-59 | the editor lists twelve text areas, each section exactly once, in document order, each label opening with the section's number and a dot |
| EtpEditor.LabelsNumbered | components/artifacts/ETPEditor.tsx:46-58 | label i opens with the decimal i + 1 followed by `. ` |
| EtpEditor.OrderNumbered | components/artifacts/ETPEditor.tsx:46-58 | the i-th text area edits section i + 1 |
| EtpEditor.RewriteSets | components/artifacts/ETPEditor.tsx:59-66 | after typing a target's text into the first k text areas, the sections numbered up to k hold the target's text and the others their old text |
| EtpEditor.EditsReachAnyRecord | components/artifacts/ETPEditor.tsx:59-66 | going through the twelve text areas turns any record into any other |
| EtpEditor.FieldsDetermine | types.ts:62-75 | an ETP record is its twelve sections |
| EtpEditor.Editor.constructor | components/artifacts/ETPEditor.tsx:14 | no record before the effect runs |
| EtpEditor.Editor.Regenerate | components/artifacts/ETPEditor.tsx:16-21 | with a project and a DFD the record becomes the defaults, whose need description is the DFD's justification; otherwise it is kept |
| EtpEditor.Editor.HandleChange | components/artifacts/ETPEditor.tsx:23-27 | with a record, the field is set; without one nothing changes |
| EtpEditor.Editor.Download | components/artifacts/ETPEditor.tsx:35-36 | the PDF drawn from the record carries its twelve section texts in order, edits included |
| PdfGenerator.Document.constructor | utils/pdfGenerator.ts:31 | a new document is on page 1 with nothing drawn (also line 65) |
| PdfGenerator.Document.AddPage | utils/pdfGenerator.ts:46 | one page more, nothing drawn (also lines 72, 117) |
| PdfGenerator.Document.Draw | utils/pdfGenerator.ts:18 | the item is drawn after everything else, on the current page (also lines 25, 51) |
| PdfGenerator.GenerateHeader | utils/pdfGenerator.ts:4-13 | the state's name at 20, the title at 30 and a rule at 35, on the current page |
| PdfGenerator.AddSection | utils/pdfGenerator.ts:15-28 | the title at the cursor, the wrapped text 7 below it, and the cursor returned 6 per line plus 17 further down |
| PdfGenerator.CheckPageBreak | utils/pdfGenerator.ts:70-76 | past 260 a new page starts with the cursor at 30, otherwise nothing changes; the cursor is never past 260 afterwards |
| PdfGenerator.DateLine | utils/pdfGenerator.ts:44-51 | the date 20 below the cursor, or at 40 on a new page when that is past 250 (also lines 115-122) |
| PdfGenerator.DrawSections | utils/pdfGenerator.ts:78-112 | the sections are drawn in order, each at the cursor the ones before it leave, with a page check after each when the document checks (also lines 36-41) |
| PdfGenerator.GenerateDFDPDF | utils/pdfGenerator.ts:30-62 | the header, the six DFD sections from 45 down with no page check, the date, and 30 below it two signature rules and their captions: 20 items |
| PdfGenerator.GenerateETPPDF | utils/pdfGenerator.ts:64-131 | the header, the twelve ETP sections each followed by a page check, the date, and 30 below it one signature rule and its caption: 30 items |
| PdfGenerator.SectionsCarry | utils/pdfGenerator.ts:15-28 | the header followed by the sections carries every title and every text, section j at item 3 + 2j |
| PdfGenerator.EtpDocumentDeterminesRecord | utils/pdfGenerator.ts:78-111 | an ETP document gives its record back: two records whose sections it carries are the same |
| PdfGenerator.DfdDocumentDeterminesRecord | utils/pdfGenerator.ts:36-41 | a DFD document gives back the five text fields and the formatted estimate, and the whole record when the formatting tells amounts apart |
| PdfGenerator.SectionAt | utils/pdfGenerator.ts:15-41 | section j is its title and its text at the cursor the sections before it leave (also lines 78-112) |
| PdfGenerator.UncheckedStacks | utils/pdfGenerator.ts:36-41 | without page checks everything stays on page 1, each section right below the previous one |
| PdfGenerator.CheckedTopsInPage | utils/pdfGenerator.ts:70-112 | with page checks the next section starts between 30 and 260, and k sections take at most k + 1 pages |
| PdfGenerator.PageStep | utils/pdfGenerator.ts:70-76 | the next section goes on a new page exactly when the last one ran past 260 |
| PdfGenerator.ChecksIdleWhenShort | utils/pdfGenerator.ts:70-112 | while the stacked sections end at or above 260 the page checks change nothing |
| PdfGenerator.CheckedTitleInPage | utils/pdfGenerator.ts:70-112 | with page checks, the title of section j is drawn between 30 and 260 on one of the first j + 1 pages |
| PdfGenerator.EtpTitleInPage | utils/pdfGenerator.ts:78-112 | every ETP section title is drawn between 30 and 260, the j-th on one of the first j + 1 pages |
| PdfGenerator.DfdStaysOnFirstPage | utils/pdfGenerator.ts:32-41 | every DFD section title is drawn on page 1 right below the previous section, so a first text of 40 lines or more pushes the second title below the bottom of an A4 page |
| DataMapper.FromDbProject | services/dataMapper.ts:43-50 | every field copied back, a null description or client read as the empty string |
| DataMapper.ToDbService | services/dataMapper.ts:52-69 | the item's fields under their snake-case columns with the given project; the stored category is never empty, and is `Outros` exactly when the item's is empty or `Outros` |
| DataMapper.FromDbService | services/dataMapper.ts:71-87 | the columns back to fields; the category is never empty, and is `Outros` exactly when the column is null, empty or `Outros` |
| DataMapper.ProjectRoundTrip | services/dataMapper.ts:34-50 | storing a project and reading it back gives the same project |
| DataMapper.ProjectRowRoundTrip | services/dataMapper.ts:34-50 | reading a row and storing it again reproduces it exactly when it has no owner and both a description and a client |
| DataMapper.ServiceRoundTrip | services/dataMapper.ts:52-87 | storing an item and reading it back gives the same item with an empty category replaced by `Outros`, so exactly the items with a category come back unchanged |
| DataMapper.ServiceRowRoundTrip | services/dataMapper.ts:52-87 | reading a row and storing the item under the row's project reproduces it exactly when its category is present and non-empty |
| DataMapper.FromDbServiceDropsProject | services/dataMapper.ts:71-87 | the item read from a row does not depend on the row's project |
| DataMapper.RenamingIsBijective | services/dataMapper.ts:52-69 | two items with a category that store to the same row under the same project are the same item |
| EnvLoader.Entry | test-connection.js:15-18 | a line gives an entry exactly when the text before its first `=` and the text between the first and the second `=` are both non-empty, and then it is those two pieces trimmed |
| EnvLoader.SplitPieces | test-connection.js:15 | the first two pieces of `line.split('=')` are the text before the first `=` and the text between the first and the second |
| EnvLoader.LoadEnv | test-connection.js:10-25 | a file that cannot be read gives the empty map, otherwise the map its lines build |
| EnvLoader.AssignKeys | test-connection.js:16-18 | a key is in the map exactly when some entry sets it |
| EnvLoader.AssignFromEntry | test-connection.js:16-18 | every binding of the map is one of the entries |
| EnvLoader.AssignLastWins | test-connection.js:14-18 | the value of a key is that of the last entry setting it |
| EnvLoader.EnvKeys | test-connection.js:14-18 | a key is in the map exactly when some line holds an entry for it |
| EnvLoader.LastLineWins | test-connection.js:14-18 | a later line with the same key overrides an earlier one |
| EnvLoader.EnvTrimmed | test-connection.js:17 | every stored key and value is trimmed, and the pair is the trimmed key and value pieces of one of the lines |
| EnvLoader.SecondEqualsDropsRest | test-connection.js:15 | text after a second `=` on a line is dropped from the value |
| EnvLoader.BlankValueKeptEmpty | test-connection.js:16-17 | a value of white space only passes the check before trimming and is stored as the empty string |
| EnvLoader.BlankPiecesKeptEmpty | test-connection.js:16-17 | a line whose key piece and value piece are non-empty is kept, and a key or value is stored as the empty string exactly when its piece is white space |
| JsText.IndexOf | test-connection.js:15 | the first occurrence of the character, or the length when there is none |
| JsText.SplitJoin | test-connection.js:14-15 | splitting at a character and joining with it gives the text back, and no piece holds the character |
| JsText.JoinSplit | utils/artifactDefaults.ts:42 | joining pieces that hold no separator and splitting at it gives the pieces back |
| JsText.Trim | test-connection.js:17 | the result occurs in the text with only white space before and after it, has no white space at either end, and is empty exactly when the text is all white space |
| JsText.NatToStringValue | components/artifacts/ETPEditor.tsx:46-58 | writing a number in decimal and reading it back gives the number |
| JsText.DigitsValueAppend | pages/CDHUUpdate.tsx:88 | digits written after other digits shift them left by their own length |
| JsText.ToLower | pages/Memorial.tsx:102 | lower-casing maps each character, keeping the length |
| JsSet.AddAllAppend | utils/artifactDefaults.ts:18-30 | adding a sequence in two parts is adding it in one go |
| JsSet.DedupMembers | utils/artifactDefaults.ts:18-33 | the deduplicated list holds exactly the elements of the input, each once |
| JsSet.DedupOrder | utils/artifactDefaults.ts:18-33 | elements come out in the order of their first occurrence |

## Left out

- React rendering, markup, styling and icons, and the presentational files (components/Layout.tsx, components/Button.tsx, components/Input.tsx, components/Select.tsx, components/ProjectDetailsModal.tsx, pages/Help.tsx, pages/Auth.tsx, pages/Dashboard.tsx). They hold no logic beyond what is shown. The sign-in page is a timer stub that ends in `handleLogin`, which is modelled.
- components/DataSynchronizer.tsx and the database client calls of test-connection.js:27-74. They are network polling, timers and asynchronous calls. Only `loadEnv` is modelled.
- Local storage and `JSON.parse`. The stored record is the value `Catalog.StoredState`. Reading it is a parameter, and writing it is the assignment of the `stored` field in `CdhuUpdate.UpdatePage`.
- The `cdhu_catalog_updated` window event and `console.error` logging. Neither changes any state of the model.
- pdf.js: the worker set-up, document loading and text extraction. A document is `Option<seq<Page>>`: `None` when it cannot be opened, and a page is its text items or `Unreadable` when reading it throws. The file's `arrayBuffer()` read is part of that `None`.
- html2canvas and the image-based PDF of the memorial (pages/Memorial.tsx:18-56). They measure canvases in floating point.
- The memorial's fixed prose. Each block keeps the text that depends on the service (name, object, steps, materials, measurement, floors, place, quantity, source and code), but the constant sentences around them are not reproduced word for word.
- jsPDF internals: fonts, font sizes, horizontal positions, alignment and `doc.save`. `splitTextToSize` is the line-count parameter `wrap`. A document is the list of what is drawn, with page and vertical position.
- PdfGenerator.DrawSections: the source writes out six (DFD) and twelve (ETP) `addSection` calls. The model draws the same sections in the same order with one loop over the section table.
- The XLSX workbook, its column widths and the file name (pages/Budget.tsx:78-87). Only the row array is modelled.
- Number and date formatting: `toLocaleString('pt-BR')`, `toFixed(2)` as text, and `new Date().toLocaleDateString()`. These are function parameters (`Locale`, `money`) or the `today` and `date` strings. The rounding that `Number(x.toFixed(2))` applies is modelled (`ServiceModal.Round2`).
- IEEE double arithmetic. Amounts are exact reals. ServiceModal.Round2 rounds a half up, whereas `toFixed` works on the binary value and may round some halves down.
- `parseFloat` of user text in the service form. A text field is an `Option<real>`, with `None` standing for NaN. The bulletin conversion's `parseFloat` is modelled exactly for the texts it is given.
- `Math.random` ids (components/ServiceModal.tsx:144): the id is a parameter of `ServiceModal.Form.Submit`.
- `alert` calls. `ServiceModal.Form.Submit` returns no item and leaves the form as it is, as the code does after its alert.
- A general regular-expression engine. Only the code, price and `BOLETIM` patterns are written out, as matchers on strings.
- The case folding of `/i` for characters outside ASCII. The marker's letters are ASCII, and a non-ASCII character never folds onto them.
- `toLowerCase` and `toUpperCase` beyond ASCII and Latin-1. The full Unicode tables are not reproduced.
- Database columns that may be null are `Option`s. The loose `any` of `memorial_def` is taken to hold a memorial definition.
- The `fs.readFileSync` of the `.env` file is an `Option<string>` parameter of `EnvLoader.LoadEnv`, where `None` stands for a read that throws.
- The router's rendering of `Layout` and the modals inside each route. `App.RouteElement` keeps only which page or redirect a path gives.
- ArtifactDefaults.SolutionText: it requires that no solution line holds a line break, instead of deriving this for the fixed default sentence. For a service with a memorial definition, the premise follows from `SingleLine` through `ArtifactDefaults.SolutionLineSingle`.
- The download itself, `doc.save` with its file name (utils/pdfGenerator.ts:61 and utils/pdfGenerator.ts:130). The editors return the drawn document instead.
