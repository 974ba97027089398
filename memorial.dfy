/**
 * The descriptive memorial page (pages/Memorial.tsx): one block per service,
 * chosen by the service's data, and the document header. Blocks are values
 * standing for the rendered markup; list items are their plain text, a bold
 * label written as a prefix.
 */
module Memorial {
  import opened Types
  import opened JsText

  /** The four lettered sections of a detailed block, or the two paragraphs of a generic one. */
  datatype Content =
    | Structured(obj: string, methodology: seq<string>, materials: seq<string>, measurement: string)
      /**
       * The fixed flooring text; only the environment, the brand and model
       * and the tile vary, so the fixed sentences are not repeated here.
       */
    | Flooring(environment: string, brand: string, model: string, tile: Tile)
    | Generic(description: Description, placeLine: string)

  /** One numbered service block: `{index + 1}. {service.name}` and its content. */
  datatype Block = Block(heading: string, content: Content)

  /** The body of section 2: the placeholder, or the blocks in list order. */
  datatype Body = Placeholder | Blocks(blocks: seq<Block>)

  const PlaceholderText := "Nenhum serviço selecionado."
  const NoObject := "OBJETO NÃO DEFINIDO"
  const NoLocation := "LOCAL NÃO DEFINIDO"

  /** `index + 1`, a dot and a space, then the service name. */
  function Heading(index: nat, name: string): string
  {
    NatToString(index + 1) + ". " + name
  }

  /** The `Referência` bullet shown under the materials when a brand or a model is given. */
  function ReferenceBullet(item: ServiceItem): seq<string>
  {
    if item.brand != "" || item.model != "" then ["Referência: " + item.brand + " " + item.model] else []
  }

  /** `name.toLowerCase()` mentions a floor or a covering. */
  predicate IsFlooringName(name: string)
  {
    Contains(ToLower(name), "piso") || Contains(ToLower(name), "revestimento")
  }

  /** The tile named in the first materials bullet of a flooring block. */
  datatype Tile = PorcelainTile | GlazedCeramic

  function TileFor(newFloor: string): Tile
  {
    if newFloor == "porcelanato" then PorcelainTile else GlazedCeramic
  }

  /** The description of a generic block: the recorded floor text, or the generated sentence. */
  datatype Description =
    | Quoted(text: string)
      /** "Execução completa de {subject}, incluindo ... código {source} {code}." */
    | Generated(subject: string, source: string, code: string)

  /**
   * `renderServiceContent(service, index)`. `numText` is how a number is
   * written into the page.
   */
  function ServiceBlock(item: ServiceItem, index: nat, numText: real -> string): (b: Block)
    ensures b.heading == Heading(index, item.name)
    ensures b.content.Structured? <==> item.memorialDef.Some?
    ensures b.content.Flooring? <==> item.memorialDef.None? && IsFlooringName(item.name)
    ensures b.content.Generic? <==> item.memorialDef.None? && !IsFlooringName(item.name)
    ensures b.content.Structured? ==>
      var def := item.memorialDef.value;
      && b.content.obj == def.obj && b.content.methodology == def.methodology
      && |b.content.materials| >= |def.materials| && b.content.materials[..|def.materials|] == def.materials
      && b.content.measurement == def.measurement
      // one more bullet, the reference, exactly when a brand or a model is given
      && |b.content.materials| == |def.materials| + (if item.brand != "" || item.model != "" then 1 else 0)
      && (|b.content.materials| > |def.materials| ==>
            b.content.materials[|def.materials|] == "Referência: " + item.brand + " " + item.model)
    ensures b.content.Flooring? ==>
      && (b.content.tile == PorcelainTile <==> item.newFloor == "porcelanato")
      && b.content.environment == item.environment && b.content.brand == item.brand && b.content.model == item.model
    ensures b.content.Generic? ==>
      var d := b.content.description;
      && (d.Quoted? <==> |item.existingFloor| > 20)
      && (d.Quoted? ==> d.text == item.existingFloor)
      && (d.Generated? ==> d.subject == ToLower(item.name) && d.source == item.source && d.code == item.code)
    ensures b.content.Generic? ==>
      b.content.placeLine == "Local: " + item.environment + " | Quantidade: " + numText(item.area) + " " + item.unit
  {
    var heading := Heading(index, item.name);
    match item.memorialDef
    case Some(def) =>
      var materials := def.materials + ReferenceBullet(item);
      assert materials[..|def.materials|] == def.materials;
      Block(heading, Structured(def.obj, def.methodology, materials, def.measurement))
    case None =>
      if IsFlooringName(item.name) then
        Block(heading, Flooring(item.environment, item.brand, item.model, TileFor(item.newFloor)))
      else
        var description :=
          if |item.existingFloor| > 20 then Quoted(item.existingFloor)
          else Generated(ToLower(item.name), item.source, item.code);
        Block(heading, Generic(description,
          "Local: " + item.environment + " | Quantidade: " + numText(item.area) + " " + item.unit))
  }

  /** Section 2 of the memorial. */
  function MemorialBody(services: seq<ServiceItem>, numText: real -> string): (body: Body)
    ensures |services| == 0 <==> body == Placeholder
    ensures body.Blocks? ==> |body.blocks| == |services|
    ensures body.Blocks? ==> forall i | 0 <= i < |services| :: body.blocks[i] == ServiceBlock(services[i], i, numText)
  {
    if |services| == 0 then Placeholder
    else Blocks(seq(|services|, i requires 0 <= i < |services| => ServiceBlock(services[i], i, numText)))
  }

  /** The OBJETO line: the upper-cased object, or the fallback when there is none. */
  function ObjectLine(project: Option<ProjectDetails>): (line: string)
    ensures project.Some? && project.value.obj != "" ==> line == ToUpper(project.value.obj)
    ensures project.None? || project.value.obj == "" ==> line == NoObject
  {
    if project.Some? && ToUpper(project.value.obj) != "" then ToUpper(project.value.obj) else NoObject
  }

  /** The LOCAL line: the upper-cased location, or the fallback when there is none. */
  function LocationLine(project: Option<ProjectDetails>): (line: string)
    ensures project.Some? && project.value.location != "" ==> line == ToUpper(project.value.location)
    ensures project.None? || project.value.location == "" ==> line == NoLocation
  {
    if project.Some? && ToUpper(project.value.location) != "" then ToUpper(project.value.location) else NoLocation
  }

  // ---------------------------------------------------------------- properties

  /** The number at the head of block `i` reads back as `i + 1`. */
  lemma HeadingNumbered(services: seq<ServiceItem>, numText: real -> string, i: nat)
    requires i < |services|
    ensures MemorialBody(services, numText).Blocks?
    ensures var h := MemorialBody(services, numText).blocks[i].heading;
      var n := NatToString(i + 1);
      && h[..|n|] == n && AllDigits(n) && DigitsValue(n) == i + 1
      && h[|n|..] == ". " + services[i].name
  {
    var n := NatToString(i + 1);
    var h := Heading(i, services[i].name);
    assert h == n + (". " + services[i].name);
    NatToStringValue(i + 1);
  }

  /** The flooring test ignores case: a name spelling `PISO` in capitals is a flooring name. */
  lemma FlooringIgnoresCase(name: string, i: nat)
    requires OccursAt(name, "PISO", i)
    ensures IsFlooringName(name)
  {
    var lower := ToLower(name);
    var word := name[i..i + 4];
    assert word == "PISO";
    assert word[0] == 'P' && word[1] == 'I' && word[2] == 'S' && word[3] == 'O';
    assert name[i] == word[0] && name[i + 1] == word[1] && name[i + 2] == word[2] && name[i + 3] == word[3];
    assert lower[i..i + 4] == [LowerChar('P'), LowerChar('I'), LowerChar('S'), LowerChar('O')];
    assert OccursAt(lower, "piso", i);
  }
}
