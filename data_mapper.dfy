/**
 * The mapping between the application's records and the rows of the hosted
 * database (services/dataMapper.ts). Database text columns may come back
 * null, so the columns the mapping guards with `|| fallback` are nullable
 * here; a JavaScript string is falsy exactly when it is empty or absent.
 */
module DataMapper {
  import opened Types

  /** A row of the `projects` table; `ownerId` relates it to the signed-in user. */
  datatype DbProject = DbProject(
    id: string,
    name: string,
    description: Option<string>,
    client: Option<string>,
    status: string,
    date: string,
    ownerId: Option<string>)

  /** A row of the `services` table, with the column names in snake case. */
  datatype DbService = DbService(
    id: string,
    code: string,
    source: string,
    name: string,
    unit: string,
    area: real,
    environment: string,
    existing_floor: string,
    new_floor: string,
    brand: string,
    model: string,
    material_price: real,
    labor_price: real,
    category: Option<string>,
    memorial_def: Option<MemorialDef>,
    project_id: Option<string>)

  const DefaultCategory := "Outros"

  /** `v || fallback` on a string: the fallback when `v` is null, undefined or empty. */
  function OrElse(v: Option<string>, fallback: string): (r: string)
    ensures v.Some? && v.value != "" ==> r == v.value
    ensures v.None? || v.value == "" ==> r == fallback
  {
    if v.Some? && v.value != "" then v.value else fallback
  }

  /** `toSupabaseProject`: every field copied, no owner set. */
  function ToDbProject(p: Project): (row: DbProject)
    ensures row.id == p.id && row.name == p.name && row.status == p.status && row.date == p.date
    ensures row.description == Some(p.description) && row.client == Some(p.client)
    ensures row.ownerId.None?
  {
    DbProject(p.id, p.name, Some(p.description), Some(p.client), p.status, p.date, None)
  }

  /** `fromSupabaseProject`: a null or empty description or client reads back as the empty string. */
  function FromDbProject(row: DbProject): (p: Project)
    ensures p.id == row.id && p.name == row.name && p.status == row.status && p.date == row.date
    ensures row.description.None? ==> p.description == ""
    ensures row.description.Some? ==> p.description == row.description.value
    ensures row.client.None? ==> p.client == ""
    ensures row.client.Some? ==> p.client == row.client.value
  {
    Project(row.id, row.name, OrElse(row.description, ""), OrElse(row.client, ""), row.status, row.date)
  }

  /** `toSupabaseService`: the camel-case fields under their column names, an empty category stored as `Outros`. */
  function ToDbService(s: ServiceItem, projectId: Option<string>): (row: DbService)
    ensures row.project_id == projectId
    ensures row.category.Some? && row.category.value != ""
    ensures row.category.value == DefaultCategory <==> s.category == "" || s.category == DefaultCategory
    ensures s.category != "" ==> row.category.value == s.category
    ensures row.existing_floor == s.existingFloor && row.new_floor == s.newFloor
    ensures row.material_price == s.materialPrice && row.labor_price == s.laborPrice
    ensures row.memorial_def == s.memorialDef
  {
    DbService(s.id, s.code, s.source, s.name, s.unit, s.area, s.environment,
      s.existingFloor, s.newFloor, s.brand, s.model, s.materialPrice, s.laborPrice,
      Some(OrElse(Some(s.category), DefaultCategory)), s.memorialDef, projectId)
  }

  /** `fromSupabaseService`: the column names back to fields; the project reference is not part of an item. */
  function FromDbService(row: DbService): (s: ServiceItem)
    ensures s.category != ""
    ensures s.category == DefaultCategory <==> row.category.None? || row.category.value in {"", DefaultCategory}
    ensures s.existingFloor == row.existing_floor && s.newFloor == row.new_floor
    ensures s.materialPrice == row.material_price && s.laborPrice == row.labor_price
    ensures s.memorialDef == row.memorial_def
  {
    ServiceItem(row.id, row.code, row.source, row.name, row.unit, row.area, row.environment,
      row.existing_floor, row.new_floor, row.brand, row.model, row.material_price, row.labor_price,
      row.memorial_def, OrElse(row.category, DefaultCategory))
  }

  // ---------------------------------------------------------------- properties

  /** Storing a project and reading it back gives the same project. */
  lemma ProjectRoundTrip(p: Project)
    ensures FromDbProject(ToDbProject(p)) == p
  {
  }

  /**
   * Reading a row and storing the project again reproduces the row exactly
   * when nothing was lost: no owner, and a description and a client present.
   */
  lemma ProjectRowRoundTrip(row: DbProject)
    ensures ToDbProject(FromDbProject(row)) == row <==>
      row.ownerId.None? && row.description.Some? && row.client.Some?
  {
  }

  /**
   * Storing an item and reading it back gives the same item, except that an
   * empty category comes back as `Outros`; so exactly the items with a
   * category survive unchanged.
   */
  lemma ServiceRoundTrip(s: ServiceItem, projectId: Option<string>)
    ensures FromDbService(ToDbService(s, projectId)) ==
      s.(category := if s.category == "" then DefaultCategory else s.category)
    ensures FromDbService(ToDbService(s, projectId)) == s <==> s.category != ""
  {
  }

  /**
   * Reading a row and storing the item back under the row's project
   * reproduces the row exactly when its category is present and non-empty.
   */
  lemma ServiceRowRoundTrip(row: DbService)
    ensures ToDbService(FromDbService(row), row.project_id) == row <==>
      row.category.Some? && row.category.value != ""
  {
  }

  /** The reverse mapping ignores the project reference. */
  lemma FromDbServiceDropsProject(row: DbService, other: Option<string>)
    ensures FromDbService(row.(project_id := other)) == FromDbService(row)
  {
  }

  /**
   * The renaming loses nothing: two items with a category that store to the
   * same row under the same project are the same item.
   */
  lemma RenamingIsBijective(s1: ServiceItem, s2: ServiceItem, projectId: Option<string>)
    requires s1.category != "" && s2.category != ""
    ensures ToDbService(s1, projectId) == ToDbService(s2, projectId) <==> s1 == s2
  {
    if ToDbService(s1, projectId) == ToDbService(s2, projectId) {
      ServiceRoundTrip(s1, projectId);
      ServiceRoundTrip(s2, projectId);
    }
  }
}
