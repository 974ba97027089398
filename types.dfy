/** Record shapes shared by every part of the model (types.ts). */
module Types {

  /** A value that may be absent: `undefined`, `null` or an optional property. */
  datatype Option<T> = None | Some(value: T)

  /** The structured memorial text authored for a catalog item. */
  datatype MemorialDef = MemorialDef(
    obj: string,
    methodology: seq<string>,
    materials: seq<string>,
    measurement: string)

  /** The contracting context of one project. */
  datatype ProjectDetails = ProjectDetails(
    obj: string,
    location: string,
    date: string,
    unit: string)

  /** One line item of a project; `area` is the quantity, whatever the unit. */
  datatype ServiceItem = ServiceItem(
    id: string,
    code: string,
    source: string,
    name: string,
    unit: string,
    area: real,
    environment: string,
    existingFloor: string,
    newFloor: string,
    brand: string,
    model: string,
    materialPrice: real,
    laborPrice: real,
    memorialDef: Option<MemorialDef>,
    category: string)

  /** Documento de Formalização de Demanda. */
  datatype DFDData = DFDData(
    sector: string,
    justification: string,
    objectDescription: string,
    strategicAlignment: string,
    estimatedValue: real,
    expectedTimeline: string)

  /** Estudo Técnico Preliminar: twelve text sections. */
  datatype ETPData = ETPData(
    needDescription: string,
    requirements: string,
    marketResearch: string,
    solutionDescription: string,
    quantityEstimate: string,
    valueEstimate: string,
    partitioningJustification: string,
    expectedResults: string,
    priorMeasures: string,
    relatedHires: string,
    environmentalImpacts: string,
    viability: string)

  /** The three values of the ProjectStatus enum. */
  datatype ProjectStatus = InProgress | Completed | Draft

  function StatusLabel(s: ProjectStatus): string
  {
    match s
    case InProgress => "Em Andamento"
    case Completed => "Concluído"
    case Draft => "Rascunho"
  }

  /**
   * A stored project. `status` holds the enum's string value; records read
   * back from the database are cast to the enum without any check, so any
   * string can appear here.
   */
  datatype Project = Project(
    id: string,
    name: string,
    description: string,
    client: string,
    status: string,
    date: string)
}
