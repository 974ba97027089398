/**
 * Default field values of the two procurement artifacts
 * (utils/artifactDefaults.ts): the DFD derived from the project and its
 * services, and the ETP derived from those and the DFD.
 */
module ArtifactDefaults {
  import opened Types
  import opened JsText
  import JsSet

  /**
   * The pt-BR display formatting the templates use: `quantity` renders with
   * exactly two decimals, `money` with at least two.
   */
  datatype Locale = Locale(quantity: real -> string, money: real -> string)

  // ---------------------------------------------------------------- DFD

  const Sector := "Departamento de Infraestrutura e Obras"
  const StrategicAlignment := "A contratação está alinhada ao Planejamento Estratégico do Órgão, especificamente na meta de conservação do patrimônio público e melhoria da infraestrutura de atendimento ao cidadão."
  const ExpectedTimeline := "Início imediato após a homologação do processo licitatório, com prazo de execução conforme cronograma físico-financeiro."

  function Justification(location: string): string
  {
    "A presente demanda se justifica pela necessidade de manutenção e adequação das instalações do prédio público localizado em "
    + location
    + ", visando garantir a segurança, acessibilidade e funcionalidade para os usuários, conforme vistoria técnica realizada."
  }

  /** What one service adds to the estimate: quantity times the unit prices. */
  function LineValue(s: ServiceItem): real
  {
    s.area * (s.materialPrice + s.laborPrice)
  }

  /** The left fold `services.reduce((acc, s) => acc + LineValue(s), 0)`. */
  function TotalValue(services: seq<ServiceItem>): real
  {
    if |services| == 0 then 0.0
    else TotalValue(services[..|services| - 1]) + LineValue(services[|services| - 1])
  }

  /** The estimate of a list split in two is the sum of the estimates of the parts. */
  lemma {:induction false} TotalValueAppend(a: seq<ServiceItem>, b: seq<ServiceItem>)
    ensures TotalValue(a + b) == TotalValue(a) + TotalValue(b)
    decreases |b|
  {
    if |b| > 0 {
      assert (a + b)[..|a + b| - 1] == a + b[..|b| - 1];
      TotalValueAppend(a, b[..|b| - 1]);
    } else {
      assert a + b == a;
    }
  }

  /** `generateDFDDefaults`. */
  function GenerateDFDDefaults(project: ProjectDetails, services: seq<ServiceItem>): (d: DFDData)
    ensures d.objectDescription == project.obj
    ensures d.estimatedValue == TotalValue(services)
    ensures services == [] ==> d.estimatedValue == 0.0
  {
    DFDData(
      sector := Sector,
      justification := Justification(project.location),
      objectDescription := project.obj,
      strategicAlignment := StrategicAlignment,
      estimatedValue := TotalValue(services),
      expectedTimeline := ExpectedTimeline)
  }

  // ---------------------------------------------------------------- ETP: standards

  const NBR5410 := "NBR 5410 (Instalações Elétricas de Baixa Tensão)"
  const NBR5626 := "NBR 5626 (Instalações Prediais de Água Fria)"
  const NBR13245 := "NBR 13245 (Pintura para Construção Civil)"
  const NBR13753 := "NBR 13753 (Revestimento de Piso Interno ou Externo com Placas Cerâmicas)"

  /** The four standards, in the order the category tests run. */
  const AllStandards := [NBR5410, NBR5626, NBR13245, NBR13753]

  /** The category test that makes a service call for standard `k` of `AllStandards`. */
  predicate Triggers(s: ServiceItem, k: nat)
  {
    (k == 0 && s.category == "Elétrica")
    || (k == 1 && s.category == "Hidráulica")
    || (k == 2 && s.category == "Pintura")
    || (k == 3 && Contains(s.category, "Pisos"))
  }

  /** The standards one service adds, in the order of the four tests. */
  function TriggeredBy(s: ServiceItem): seq<string>
  {
    (if s.category == "Elétrica" then [NBR5410] else [])
    + (if s.category == "Hidráulica" then [NBR5626] else [])
    + (if s.category == "Pintura" then [NBR13245] else [])
    + (if Contains(s.category, "Pisos") then [NBR13753] else [])
  }

  /** Every standard the services add, service by service, duplicates included. */
  function TriggerSequence(services: seq<ServiceItem>): seq<string>
  {
    if |services| == 0 then []
    else TriggerSequence(services[..|services| - 1]) + TriggeredBy(services[|services| - 1])
  }

  /** The `standards` set, listed as `Array.from` lists it. */
  function Standards(services: seq<ServiceItem>): seq<string>
  {
    JsSet.Dedup(TriggerSequence(services))
  }

  /** Every methodology step of every structured service, in order. */
  function MethodologySequence(services: seq<ServiceItem>): seq<string>
  {
    if |services| == 0 then []
    else
      var s := services[|services| - 1];
      MethodologySequence(services[..|services| - 1])
      + (if s.memorialDef.Some? then s.memorialDef.value.methodology else [])
  }

  lemma TriggeredByMembers(s: ServiceItem)
    ensures forall k | 0 <= k < 4 :: AllStandards[k] in TriggeredBy(s) <==> Triggers(s, k)
    ensures forall x | x in TriggeredBy(s) :: x in AllStandards
  {
  }

  /**
   * Each of the four standards is listed exactly when some service's category
   * calls for it; nothing else is listed.
   */
  lemma TriggerSequenceMembers(services: seq<ServiceItem>)
    ensures forall k | 0 <= k < 4 ::
      AllStandards[k] in TriggerSequence(services) <==> exists i | 0 <= i < |services| :: Triggers(services[i], k)
    ensures forall x | x in TriggerSequence(services) :: x in AllStandards
  {
    forall k | 0 <= k < 4
      ensures AllStandards[k] in TriggerSequence(services) <==> exists i | 0 <= i < |services| :: Triggers(services[i], k)
    {
      TriggerSequenceMember(services, k);
    }
    TriggerSequenceOnlyStandards(services);
  }

  /** Standard `k` is listed exactly when some service's category calls for it. */
  lemma {:induction false} TriggerSequenceMember(services: seq<ServiceItem>, k: nat)
    requires k < 4
    ensures AllStandards[k] in TriggerSequence(services) <==> exists i | 0 <= i < |services| :: Triggers(services[i], k)
  {
    if |services| > 0 {
      var init := services[..|services| - 1];
      var last := services[|services| - 1];
      TriggerSequenceMember(init, k);
      TriggeredByMembers(last);
      assert TriggerSequence(services) == TriggerSequence(init) + TriggeredBy(last);
      if exists i | 0 <= i < |services| :: Triggers(services[i], k) {
        var i :| 0 <= i < |services| && Triggers(services[i], k);
        if i < |init| { assert Triggers(init[i], k); }
      }
      if AllStandards[k] in TriggerSequence(init) {
        var i :| 0 <= i < |init| && Triggers(init[i], k);
        assert Triggers(services[i], k);
      }
    }
  }

  /** Nothing but the four standards is ever listed. */
  lemma {:induction false} TriggerSequenceOnlyStandards(services: seq<ServiceItem>)
    ensures forall x | x in TriggerSequence(services) :: x in AllStandards
  {
    if |services| > 0 {
      var init := services[..|services| - 1];
      TriggerSequenceOnlyStandards(init);
      TriggeredByMembers(services[|services| - 1]);
    }
  }

  /**
   * The ETP standards list: a standard is in it iff some service triggers it,
   * it holds no duplicates, and standards appear in the order in which they
   * are first triggered.
   */
  lemma StandardsSpec(services: seq<ServiceItem>)
    ensures forall k | 0 <= k < 4 ::
      AllStandards[k] in Standards(services) <==> exists i | 0 <= i < |services| :: Triggers(services[i], k)
    ensures forall x | x in Standards(services) :: x in AllStandards
    ensures JsSet.Distinct(Standards(services))
    ensures forall i | 0 <= i < |Standards(services)| :: Standards(services)[i] in TriggerSequence(services)
    ensures forall i, j | 0 <= i < j < |Standards(services)| ::
      JsSet.FirstIndex(TriggerSequence(services), Standards(services)[i])
      < JsSet.FirstIndex(TriggerSequence(services), Standards(services)[j])
  {
    TriggerSequenceMembers(services);
    JsSet.DedupMembers(TriggerSequence(services));
    forall i, j | 0 <= i < j < |Standards(services)|
      ensures JsSet.FirstIndex(TriggerSequence(services), Standards(services)[i])
        < JsSet.FirstIndex(TriggerSequence(services), Standards(services)[j])
    {
      JsSet.DedupOrder(TriggerSequence(services), i, j);
    }
  }

  /**
   * The `forEach` of `generateETPDefaults` that fills the `methodologies` and
   * `standards` sets. Only `standards` is used afterwards.
   */
  method CollectSets(services: seq<ServiceItem>) returns (methodologies: seq<string>, standards: seq<string>)
    ensures methodologies == JsSet.Dedup(MethodologySequence(services))
    ensures standards == Standards(services)
  {
    methodologies, standards := [], [];
    var i := 0;
    while i < |services|
      invariant 0 <= i <= |services|
      invariant methodologies == JsSet.Dedup(MethodologySequence(services[..i]))
      invariant standards == JsSet.Dedup(TriggerSequence(services[..i]))
    {
      var s := services[i];
      assert services[..i + 1][..i] == services[..i];
      if s.memorialDef.Some? {
        var steps := s.memorialDef.value.methodology;
        methodologies := AddSteps(methodologies, steps);
        assert MethodologySequence(services[..i + 1]) == MethodologySequence(services[..i]) + steps;
        JsSet.AddAllAppend([], MethodologySequence(services[..i]), steps);
      } else {
        assert MethodologySequence(services[..i + 1]) == MethodologySequence(services[..i]);
      }
      standards := AddStandards(standards, s);
      JsSet.AddAllAppend([], TriggerSequence(services[..i]), TriggeredBy(s));
      i := i + 1;
    }
    assert services[..i] == services;
  }

  /** The inner `forEach` over a service's methodology steps, each added to the set. */
  method AddSteps(methodologies: seq<string>, steps: seq<string>) returns (r: seq<string>)
    ensures r == JsSet.AddAll(methodologies, steps)
  {
    r := methodologies;
    var j := 0;
    while j < |steps|
      invariant 0 <= j <= |steps|
      invariant r == JsSet.AddAll(methodologies, steps[..j])
    {
      JsSet.AddAllSnoc(methodologies, steps[..j], steps[j]);
      assert steps[..j + 1] == steps[..j] + [steps[j]];
      r := JsSet.Add(r, steps[j]);
      j := j + 1;
    }
    assert steps[..j] == steps;
  }

  /** The four category tests of one service, each adding its standard to the set. */
  method AddStandards(standards: seq<string>, s: ServiceItem) returns (r: seq<string>)
    ensures r == JsSet.AddAll(standards, TriggeredBy(s))
  {
    r := standards;
    if s.category == "Elétrica" { r := JsSet.Add(r, NBR5410); }
    if s.category == "Hidráulica" { r := JsSet.Add(r, NBR5626); }
    if s.category == "Pintura" { r := JsSet.Add(r, NBR13245); }
    if Contains(s.category, "Pisos") { r := JsSet.Add(r, NBR13753); }
    AddTriggered(standards, s);
  }

  /** The four conditional `standards.add` calls add `TriggeredBy(s)`. */
  lemma AddTriggered(s0: seq<string>, s: ServiceItem)
    ensures JsSet.AddAll(s0, TriggeredBy(s)) ==
      var a := if s.category == "Elétrica" then JsSet.Add(s0, NBR5410) else s0;
      var b := if s.category == "Hidráulica" then JsSet.Add(a, NBR5626) else a;
      var c := if s.category == "Pintura" then JsSet.Add(b, NBR13245) else b;
      if Contains(s.category, "Pisos") then JsSet.Add(c, NBR13753) else c
  {
    var t1: seq<string> := if s.category == "Elétrica" then [NBR5410] else [];
    var t2: seq<string> := if s.category == "Hidráulica" then [NBR5626] else [];
    var t3: seq<string> := if s.category == "Pintura" then [NBR13245] else [];
    var t4: seq<string> := if Contains(s.category, "Pisos") then [NBR13753] else [];
    assert TriggeredBy(s) == t1 + t2 + t3 + t4;
    JsSet.AddAllAppend(s0, t1 + t2 + t3, t4);
    JsSet.AddAllAppend(s0, t1 + t2, t3);
    JsSet.AddAllAppend(s0, t1, t2);
    assert JsSet.AddAll(s0, []) == s0;
    assert t1 == [] || t1 == [] + [NBR5410];
    assert t2 == [] || t2 == [] + [NBR5626];
    assert t3 == [] || t3 == [] + [NBR13245];
    assert t4 == [] || t4 == [] + [NBR13753];
  }

  // ---------------------------------------------------------------- ETP: text blocks

  const RequirementsIntro := "A execução deverá seguir rigorosamente as melhores práticas de engenharia."
  const ExecutionRequirements := "\n\nRequisitos Específicos de Execução:\n- O uso de EPIs é obrigatório durante toda a obra.\n- Os materiais devem ser novos e de primeira linha.\n- A garantia dos serviços será de 5 (cinco) anos conforme Código Civil.\n- A contratada deverá manter preposto capacitado no local."
  const StandardsHeading := "\n\nNormas Técnicas Obrigatórias:\n"

  function Bullets(items: seq<string>): (r: seq<string>)
    ensures |r| == |items|
    ensures forall i | 0 <= i < |items| :: r[i] == "- " + items[i]
  {
    seq(|items|, i requires 0 <= i < |items| => "- " + items[i])
  }

  /** The standards block: empty when no standard applies. */
  function StandardsText(standards: seq<string>): string
  {
    if |standards| > 0 then StandardsHeading + Join(Bullets(standards), "\n") else ""
  }

  function Requirements(standards: seq<string>): string
  {
    RequirementsIntro + StandardsText(standards) + ExecutionRequirements
  }

  const DefaultSolution := "Execução conforme especificações técnicas padrão."

  /** One solution line: the structured object when the service has one. */
  function SolutionLine(s: ServiceItem): string
  {
    match s.memorialDef
    case Some(def) => "-> " + s.name + ": " + def.obj
    case None => "-> " + s.name + ": " + DefaultSolution
  }

  function SolutionLines(services: seq<ServiceItem>): seq<string>
  {
    seq(|services|, i requires 0 <= i < |services| => SolutionLine(services[i]))
  }

  const SolutionIntro := "A solução técnica definida abrange a execução dos seguintes serviços especializados:\n\n"
  const SolutionOutro := "\n\nEsta solução foi dimensionada para atender a demanda com durabilidade, facilidade de manutenção futura e melhor relação custo-benefício."

  function SolutionDescription(services: seq<ServiceItem>): string
  {
    SolutionIntro + Join(SolutionLines(services), "\n") + SolutionOutro
  }

  /** `services.some(s => s.category === 'Demolições')`, scanning left to right. */
  predicate HasDemolition(services: seq<ServiceItem>)
  {
    |services| > 0 && (services[0].category == "Demolições" || HasDemolition(services[1..]))
  }

  lemma {:induction false} HasDemolitionSpec(services: seq<ServiceItem>)
    ensures HasDemolition(services) <==> exists i | 0 <= i < |services| :: services[i].category == "Demolições"
  {
    if |services| > 0 {
      HasDemolitionSpec(services[1..]);
      if exists i | 0 <= i < |services| :: services[i].category == "Demolições" {
        var i :| 0 <= i < |services| && services[i].category == "Demolições";
        if i > 0 { assert services[1..][i - 1].category == "Demolições"; }
      }
      if HasDemolition(services[1..]) {
        var i :| 0 <= i < |services| - 1 && services[1..][i].category == "Demolições";
        assert services[i + 1].category == "Demolições";
      }
    }
  }

  const DemolitionClause := "A execução envolve demolições que geram resíduos Classe A. A CONTRATADA deverá elaborar Plano de Gerenciamento de Resíduos da Construção Civil (PGRCC) e garantir a destinação em aterros licenciados, conforme Resolução CONAMA 307/2002. É vedada a queima de materiais ou disposição em áreas não licenciadas."
  const LowComplexityClause := "Os serviços geram resíduos de baixa complexidade (embalagens, restos de materiais). A contratada deverá proceder com a limpeza diária e o descarte em caçambas estacionárias apropriadas."

  function EnvironmentalImpacts(services: seq<ServiceItem>): string
  {
    if HasDemolition(services) then DemolitionClause else LowComplexityClause
  }

  /** `s.memorialDef?.measurement` is truthy. */
  predicate HasMeasurement(s: ServiceItem)
  {
    s.memorialDef.Some? && s.memorialDef.value.measurement != ""
  }

  /** `services.filter(s => s.memorialDef?.measurement)`. */
  function Measured(services: seq<ServiceItem>): seq<ServiceItem>
  {
    if |services| == 0 then []
    else if HasMeasurement(services[0]) then [services[0]] + Measured(services[1..])
    else Measured(services[1..])
  }

  /** The filter keeps exactly the measured services, in their order. */
  lemma {:induction false} MeasuredSpec(services: seq<ServiceItem>)
    ensures forall s :: s in Measured(services) <==> s in services && HasMeasurement(s)
    ensures |Measured(services)| <= |services|
    ensures Measured(services) == [] <==> forall i | 0 <= i < |services| :: !HasMeasurement(services[i])
  {
    if |services| > 0 {
      MeasuredSpec(services[1..]);
      assert services == [services[0]] + services[1..];
      if !HasMeasurement(services[0]) && Measured(services[1..]) == [] {
        forall i | 0 <= i < |services| ensures !HasMeasurement(services[i]) {
          if i > 0 { assert services[i] == services[1..][i - 1]; }
        }
      }
    }
  }

  /** Filtering a concatenation filters each part: the listing keeps list order. */
  lemma {:induction false} MeasuredAppend(a: seq<ServiceItem>, b: seq<ServiceItem>)
    ensures Measured(a + b) == Measured(a) + Measured(b)
  {
    if |a| == 0 {
      assert a + b == b;
    } else {
      assert (a + b)[1..] == a[1..] + b;
      MeasuredAppend(a[1..], b);
    }
  }

  function MeasurementLine(s: ServiceItem, locale: Locale): string
    requires HasMeasurement(s)
  {
    "- " + s.name + ": " + locale.quantity(s.area) + " " + s.unit
    + " (Critério: " + s.memorialDef.value.measurement + ")"
  }

  function MeasurementLines(services: seq<ServiceItem>, locale: Locale): seq<string>
  {
    var m := Measured(services);
    MeasuredSpec(services);
    seq(|m|, i requires 0 <= i < |m| => assert m[i] in m; MeasurementLine(m[i], locale))
  }

  const QuantityIntro := "As quantidades foram levantadas através de inspeção técnica in loco e cálculo geométrico das áreas de intervenção, considerando as dimensões reais do imóvel e eventuais perdas inerentes ao processo construtivo."
  const MeasurementHeading := "\n\nDetalhamento dos Quantitativos e Critérios de Medição:\n"

  function QuantityEstimate(services: seq<ServiceItem>, locale: Locale): string
  {
    var criteria := Join(MeasurementLines(services, locale), "\n");
    QuantityIntro + (if criteria != "" then MeasurementHeading + criteria else "")
  }

  function ValueEstimate(estimated: real, locale: Locale): string
  {
    "O valor total estimado para a contratação é de R$ " + locale.money(estimated)
    + ", sendo compatível com o praticado no mercado para obras deste porte e complexidade."
  }

  const MarketResearch := "A estimativa de preços baseou-se em pesquisa de mercado utilizando tabelas oficiais de referência (CDHU - Companhia de Desenvolvimento Habitacional e Urbano) atualizadas, que refletem os preços praticados no mercado para contratações públicas similares, acrescido de BDI compatível."
  const PartitioningJustification := "O parcelamento do objeto não é técnica nem economicamente viável. A interdependência das etapas (exime coordenação única para demolição, preparo e acabamento) recomenda a contratação global para assegurar a responsabilidade técnica única, o cumprimento do cronograma e a garantia integrada da obra (Súmula 247 do TCU)."
  const ExpectedResults := "Entrega da edificação em perfeitas condições de uso, com instalações seguras e adequadas ao funcionamento público; Valorização do patrimônio imobiliário; Redução de custos de manutenção corretiva no curto prazo."
  const PriorMeasures := "Foram realizadas vistorias técnicas para levantamento das patologias e definição do escopo. O local encontra-se liberado para início das intervenções."
  const RelatedHires := "Não há contratações correlatas diretas. A fiscalização será exercida por equipe própria do órgão contratante."
  const Viability := "O estudo demonstra viabilidade técnica (soluções consagradas), econômica (compatível com orçamento) e operacional (prazo exequível). A intervenção é necessária e o retorno social justifica o investimento."

  /** The ETP defaults, given the standards list the loop collected. */
  function ETPDefaults(services: seq<ServiceItem>, dfd: DFDData, locale: Locale): ETPData
  {
    ETPData(
      needDescription := dfd.justification,
      requirements := Requirements(Standards(services)),
      marketResearch := MarketResearch,
      solutionDescription := SolutionDescription(services),
      quantityEstimate := QuantityEstimate(services, locale),
      valueEstimate := ValueEstimate(dfd.estimatedValue, locale),
      partitioningJustification := PartitioningJustification,
      expectedResults := ExpectedResults,
      priorMeasures := PriorMeasures,
      relatedHires := RelatedHires,
      environmentalImpacts := EnvironmentalImpacts(services),
      viability := Viability)
  }

  /**
   * `generateETPDefaults`: runs the set-collecting loop, then assembles the
   * twelve fields. The project itself is not read by any field.
   */
  method GenerateETPDefaults(project: ProjectDetails, services: seq<ServiceItem>, dfd: DFDData, locale: Locale)
    returns (etp: ETPData)
    ensures etp == ETPDefaults(services, dfd, locale)
    ensures etp.needDescription == dfd.justification
    ensures etp.environmentalImpacts == DemolitionClause
      <==> exists i | 0 <= i < |services| :: services[i].category == "Demolições"
  {
    var methodologies, standards := CollectSets(services);
    var requirements := RequirementsIntro + StandardsText(standards) + ExecutionRequirements;
    etp := ETPData(
      needDescription := dfd.justification,
      requirements := requirements,
      marketResearch := MarketResearch,
      solutionDescription := SolutionDescription(services),
      quantityEstimate := QuantityEstimate(services, locale),
      valueEstimate := ValueEstimate(dfd.estimatedValue, locale),
      partitioningJustification := PartitioningJustification,
      expectedResults := ExpectedResults,
      priorMeasures := PriorMeasures,
      relatedHires := RelatedHires,
      environmentalImpacts := EnvironmentalImpacts(services),
      viability := Viability);
    HasDemolitionSpec(services);
    assert DemolitionClause != LowComplexityClause by {
      assert |DemolitionClause| != |LowComplexityClause|;
    }
  }

  // ---------------------------------------------------------------- ETP: properties

  /**
   * The "Normas Técnicas Obrigatórias" block of the requirements is present
   * iff some service's category calls for a standard.
   */
  lemma RequirementsShape(services: seq<ServiceItem>)
    ensures StandardsText(Standards(services)) == "" <==> forall i, k | 0 <= i < |services| && 0 <= k < 4 :: !Triggers(services[i], k)
    ensures Standards(services) != [] ==>
      StandardsText(Standards(services)) == StandardsHeading + Join(Bullets(Standards(services)), "\n")
  {
    StandardsSpec(services);
    if Standards(services) != [] {
      var x := Standards(services)[0];
      assert x in Standards(services);
      assert StandardsText(Standards(services))[0] == '\n';
    }
    if exists i, k | 0 <= i < |services| && 0 <= k < 4 :: Triggers(services[i], k) {
      var i, k :| 0 <= i < |services| && 0 <= k < 4 && Triggers(services[i], k);
      assert AllStandards[k] in Standards(services);
    }
  }

  /**
   * One solution line per service, in list order; a line carries the
   * structured object when there is one, else the fixed sentence.
   */
  lemma SolutionLinesSpec(services: seq<ServiceItem>)
    ensures |SolutionLines(services)| == |services|
    ensures forall i | 0 <= i < |services| ::
      SolutionLines(services)[i] == "-> " + services[i].name + ": "
        + (if services[i].memorialDef.Some? then services[i].memorialDef.value.obj else DefaultSolution)
  {
  }

  /** No line break in a service's name, nor in its structured object. */
  predicate SingleLine(s: ServiceItem)
  {
    '\n' !in s.name && (s.memorialDef.Some? ==> '\n' !in s.memorialDef.value.obj)
  }

  /**
   * `solutionDescription` is the fixed introduction, the solution lines and
   * the fixed closing; when no line holds a line break, the text between
   * the two, cut at its line breaks, gives back exactly the lines: one per
   * service, in list order.
   */
  lemma SolutionText(services: seq<ServiceItem>)
    requires forall i | 0 <= i < |services| :: '\n' !in SolutionLine(services[i])
    ensures var d := SolutionDescription(services);
      && |SolutionIntro| + |SolutionOutro| <= |d|
      && d[..|SolutionIntro|] == SolutionIntro
      && d[|d| - |SolutionOutro|..] == SolutionOutro
      && (|services| == 0 <==> |d| == |SolutionIntro| + |SolutionOutro|)
      && (|services| > 0 ==> Split(d[|SolutionIntro|..|d| - |SolutionOutro|], '\n') == SolutionLines(services))
  {
    var lines := SolutionLines(services);
    var body := Join(lines, "\n");
    var d := SolutionDescription(services);
    assert d == SolutionIntro + body + SolutionOutro;
    assert d[..|SolutionIntro|] == SolutionIntro;
    assert d[|d| - |SolutionOutro|..] == SolutionOutro;
    assert d[|SolutionIntro|..|d| - |SolutionOutro|] == body;
    if |services| > 0 {
      JoinSplit(lines, '\n');
      JoinNonEmpty(lines, "\n");
    }
  }

  /** The line of a service with a structured object holds no line break when its name and object hold none. */
  lemma SolutionLineSingle(s: ServiceItem)
    requires SingleLine(s) && s.memorialDef.Some?
    ensures '\n' !in SolutionLine(s)
  {
    assert SolutionLine(s) == "-> " + s.name + ": " + s.memorialDef.value.obj;
    assert '\n' !in "-> " && '\n' !in ": ";
  }

  /** The quantity listing is left out entirely exactly when no service has a measurement criterion. */
  lemma QuantityEstimateShape(services: seq<ServiceItem>, locale: Locale)
    ensures (QuantityEstimate(services, locale) == QuantityIntro)
      <==> forall i | 0 <= i < |services| :: !HasMeasurement(services[i])
    ensures |MeasurementLines(services, locale)| == |Measured(services)|
  {
    MeasuredSpec(services);
    var lines := MeasurementLines(services, locale);
    if |lines| > 0 {
      assert lines[0][..2] == "- ";
      JoinNonEmpty(lines, "\n");
      var c := Join(lines, "\n");
      assert |QuantityEstimate(services, locale)| == |QuantityIntro| + |MeasurementHeading| + |c|;
    }
  }

  /** Two service lists that differ only in their methodology steps. */
  predicate SameButMethodology(a: seq<ServiceItem>, b: seq<ServiceItem>)
  {
    |a| == |b|
    && forall i | 0 <= i < |a| ::
      && a[i].memorialDef.Some? == b[i].memorialDef.Some?
      && (a[i].memorialDef.Some? ==>
            a[i].memorialDef.value.obj == b[i].memorialDef.value.obj
            && a[i].memorialDef.value.measurement == b[i].memorialDef.value.measurement)
      && a[i].(memorialDef := None) == b[i].(memorialDef := None)
  }

  /** The collected methodologies are never used: they cannot change the ETP. */
  lemma {:induction false} MethodologyIrrelevant(a: seq<ServiceItem>, b: seq<ServiceItem>, dfd: DFDData, locale: Locale)
    requires SameButMethodology(a, b)
    ensures ETPDefaults(a, dfd, locale) == ETPDefaults(b, dfd, locale)
  {
    SameButMethodologyParts(a, b, locale);
    assert SolutionLines(a) == SolutionLines(b);
  }

  lemma {:induction false} SameButMethodologyParts(a: seq<ServiceItem>, b: seq<ServiceItem>, locale: Locale)
    requires SameButMethodology(a, b)
    ensures TriggerSequence(a) == TriggerSequence(b)
    ensures HasDemolition(a) == HasDemolition(b)
    ensures MeasurementLines(a, locale) == MeasurementLines(b, locale)
  {
    if |a| > 0 {
      var n := |a|;
      assert a[n - 1].category == a[n - 1].(memorialDef := None).category;
      assert b[n - 1].category == b[n - 1].(memorialDef := None).category;
      SameButMethodologyParts(a[..n - 1], b[..n - 1], locale);
      SameButMethodologyParts(a[1..], b[1..], locale);
      assert a[0].category == a[0].(memorialDef := None).category;
      assert b[0].category == b[0].(memorialDef := None).category;
      MeasuredSame(a, b, locale);
    }
  }

  lemma {:induction false} MeasuredSame(a: seq<ServiceItem>, b: seq<ServiceItem>, locale: Locale)
    requires SameButMethodology(a, b)
    ensures MeasurementLines(a, locale) == MeasurementLines(b, locale)
  {
    if |a| > 0 {
      MeasuredSame(a[1..], b[1..], locale);
      MeasurementLinesCons(a, locale);
      MeasurementLinesCons(b, locale);
      var x, y := a[0], b[0];
      assert x.name == x.(memorialDef := None).name && y.name == y.(memorialDef := None).name;
      assert x.unit == x.(memorialDef := None).unit && y.unit == y.(memorialDef := None).unit;
      assert x.area == x.(memorialDef := None).area && y.area == y.(memorialDef := None).area;
      assert HasMeasurement(x) == HasMeasurement(y);
      if HasMeasurement(x) {
        assert MeasurementLine(x, locale) == MeasurementLine(y, locale);
      }
    }
  }

  /** The measurement lines of a list: the first item's line, if it has a criterion, then the rest's. */
  lemma MeasurementLinesCons(services: seq<ServiceItem>, locale: Locale)
    requires |services| > 0
    ensures MeasurementLines(services, locale) ==
      if HasMeasurement(services[0]) then [MeasurementLine(services[0], locale)] + MeasurementLines(services[1..], locale)
      else MeasurementLines(services[1..], locale)
  {
    MeasuredSpec(services);
    MeasuredSpec(services[1..]);
  }
}
