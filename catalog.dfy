/**
 * The static CDHU price catalog (data/cdhuCatalog.ts), the price overrides a
 * bulletin upload stores, and the merge of the two.
 *
 * The stored record (`cdhu_update_data`) is taken as an abstract value: what
 * reading and parsing it produced, rather than local storage and JSON.
 */
module Catalog {
  import opened Types
  import opened JsText

  /** One catalog entry. */
  datatype CatalogItem = CatalogItem(
    code: string,
    description: string,
    unit: string,
    price: real,
    category: string,
    detailedSpec: string,
    memorialDef: Option<MemorialDef>)

  /** A CDHU service code: `DD.DD.DDD`. */
  predicate IsCode(s: string)
  {
    && |s| == 9
    && IsDigit(s[0]) && IsDigit(s[1]) && s[2] == '.'
    && IsDigit(s[3]) && IsDigit(s[4]) && s[5] == '.'
    && IsDigit(s[6]) && IsDigit(s[7]) && IsDigit(s[8])
  }

  /** The built-in catalog, base bulletin CDHU 197. */
  const StaticCatalog: seq<CatalogItem> := [
    CatalogItem("02.08.050", "Placa de obra em lona com impressão digital", "m²", 150.0, "Serviços Preliminares",
      "Fornecimento e instalação de placa de identificação da obra em lona vinílica com impressão digital de alta resolução, fixada em estrutura de madeira ou metálica.",
      Some(MemorialDef(
      "Fornecimento, confecção e instalação de placa de identificação da obra, conforme modelo oficial exigido.",
      [
        "A placa será confeccionada em lona vinílica de alta resistência, com impressão digital de alta resolução (1440 DPI).",
        "A estrutura de sustentação será executada em madeira de lei serrada (pontaletes 6x6cm e sarrafos 5x2cm) ou estrutura metálica, garantindo perfeita estabilidade e planicidade.",
        "A fixação da lona sobre a estrutura será feita com abraçadeiras plásticas ou grampos galvanizados, garantindo o tencionamento adequado.",
        "A placa deverá ser instalada em local visível, preferencialmente na testada principal do imóvel, sem obstruir a circulação ou a visibilidade do trânsito."],
      [
        "Lona vinílica 440g com trama de nylon.",
        "Estrutura em madeira de lei (Peroba/Garapeira) ou aço galvanizado.",
        "Tintas solventes resistentes a intempéries."],
      "A medição será realizada pela área total da placa instalada (m²)."))),
    CatalogItem("02.05.010", "Tapume móvel de madeira", "m²", 85.0, "Serviços Preliminares",
      "Execução de tapume móvel com chapas de madeira compensada resinada sobre estrutura de madeira.",
      Some(MemorialDef(
      "Execução de fechamento provisório do canteiro de obras para garantia da segurança e isolamento da área de intervenção.",
      [
        "Implantar pontaletes de madeira de 3\" x 3\" (7,5 x 7,5 cm) espaçados a cada 2,00m, devidamente contraventados.",
        "Fixar chapas de madeira compensada resinada de 6mm ou 10mm sobre a estrutura.",
        "Prever portões de acesso para veículos e pedestres conforme logística da obra.",
        "Pintura em cal ou tinta látex na cor branca (se solicitado)."],
      [
        "Chapa de madeira compensada resinada 1.10 x 2.20m.",
        "Madeira serrada mista para estrutura.",
        "Pregos galvanizados e dobradiças reforçadas."],
      "Será medido pela projeção vertical (comprimento x altura) do tapume executado (m²)."))),
    CatalogItem("03.01.020", "Demolição manual de concreto simples", "m³", 250.0, "Demolições",
      "Demolição manual de concreto simples (sem armadura), abrangendo lastros e bases.",
      Some(MemorialDef(
      "Demolição de elementos em concreto simples, tais como contrapisos, calçadas e bases de equipamentos.",
      [
        "A demolição será executada manualmente, utilizando-se ponteiros, marretas e talhadeiras.",
        "Deverão ser tomadas precauções para não abalar as estruturas remanescentes ou tubulações embutidas.",
        "O entulho gerado será imediatamente segregado e transportado para caçambas estacionárias.",
        "O local deverá ser constantemente umidificado para evitar a dispersão de poeira."],
      [
        "Equipamentos manuais: marretas, ponteiros, pás e carrinhos de mão."],
      "Volume geométrico do concreto demolido medido no local (m³)."))),
    CatalogItem("03.02.040", "Demolição manual de alvenaria de elevação", "m³", 120.0, "Demolições",
      "Demolição manual cuidadosa de alvenaria de elevação.",
      Some(MemorialDef(
      "Desmonte e remoção de paredes de alvenaria de tijolos ou blocos.",
      [
        "A demolição iniciar-se-á da parte superior para a inferior.",
        "Remover previamente marcos, batentes e instalações elétricas/hidráulicas interferentes.",
        "Evitar a queda de blocos grandes sobre lajes que não foram escoradas para tal carga.",
        "Umidificação constante para controle de particulados."],
      [
        "Ferramentas manuais e EPIs adequados."],
      "Volume real da alvenaria demolida, descontando-se vãos superiores a 2,00 m² (m³)."))),
    CatalogItem("03.04.020", "Demolição de revestimento cerâmico (piso/parede)", "m²", 35.0, "Demolições",
      "Retirada de revestimento cerâmico, azulejos ou ladrilhos, inclusive argamassa.",
      Some(MemorialDef(
      "Remoção de revestimentos cerâmicos em pisos ou paredes, incluindo a camada de argamassa de assentamento.",
      [
        "Executar o apicoamento e remoção das placas com talhadeira e marreta ou martelete leve.",
        "Remover toda a argamassa de assentamento remanescente até atingir a base (alvenaria ou contrapiso) firme.",
        "Limpeza e varrição contínua do local.",
        "Preservação das instalações embutidas."],
      [
        "Ferramentas de impacto manual ou elétrico leve."],
      "Área superficial do revestimento removido (m²)."))),
    CatalogItem("03.10.140", "Remoção de pintura em massa com lixamento", "m²", 18.0, "Demolições",
      "Remoção de camadas de pintura antiga ou massa até exposição do substrato.",
      Some(MemorialDef(
      "Remoção total ou parcial de pintura existente para preparo de superfície.",
      [
        "Utilizar espátulas de aço e lixadeiras manuais ou mecânicas.",
        "Remover partes soltas, descascadas ou com aderência comprometida.",
        "Após a remoção, a superfície deverá ser lavada e isenta de pó para receber novo acabamento."],
      [
        "Lixas grão 60/80/100, espátulas e removedores (se necessário)."],
      "Área superficial tratada (m²)."))),
    CatalogItem("04.04.020", "Retirada de piso de pedra/granito", "m²", 45.0, "Demolições",
      "Retirada de pisos de pedra natural, mármore ou granito.",
      Some(MemorialDef(
      "Remoção de piso em pedra natural assentado sobre argamassa.",
      [
        "Se houver interesse no reaproveitamento, iniciar a retirada com cuidado pelas juntas, utilizando alavancas.",
        "Caso contrário, fragmentar e remover as peças juntamente com a argamassa de base.",
        "Regularizar a superfície remanescente."],
      [
        "Alavancas, talhadeiras e ponteiros."],
      "Área superficial removida (m²)."))),
    CatalogItem("18.06.142", "Piso cerâmico esmaltado PEI-5", "m²", 85.0, "Pisos e Revestimentos",
      "Fornecimento e assentamento de piso cerâmico esmaltado PEI-5.",
      Some(MemorialDef(
      "Fornecimento e instalação de piso cerâmico em áreas internas/externas.",
      [
        "Limpar e umedecer a base.",
        "Estender a argamassa colante com desempenadeira dentada (8mm). Para peças > 30x30cm, usar dupla colagem (argamassa na base e na peça).",
        "Assentar as placas garantindo o alinhamento das juntas e nivelamento (usar espaçadores).",
        "Realizar os recortes nos cantos e interferências.",
        "Aguardar 72h para o rejuntamento."],
      [
        "Placa cerâmica PEI-5, absorção BIIa ou BIIb, conforme NBR 13818.",
        "Argamassa colante industrializada AC-II ou AC-III.",
        "Espaçadores plásticos."],
      "Área real executada, sem desconto de perdas (m²)."))),
    CatalogItem("18.06.410", "Rejuntamento de placas cerâmicas", "m²", 12.0, "Pisos e Revestimentos",
      "Execução de rejuntamento para placas cerâmicas com argamassa industrializada (rejunte flexível) na cor definida pela fiscalização, incluindo limpeza final das juntas e remoção de excessos.",
      Some(MemorialDef(
      "Preenchimento técnico das juntas entre placas cerâmicas.",
      [
        "Limpeza profunda das juntas (frestas) para remoção de poeira e restos de argamassa.",
        "Preparo da pasta de rejuntamento (mecânico ou manual) conforme fabricante.",
        "Aplicação em diagonais com desempenadeira de borracha, pressionando para evitar vazios.",
        "Remoção do excesso e frisamento (acabamento) com esponja úmida após tempo de pega inicial.",
        "Limpeza final do pano."],
      [
        "Argamassa de rejuntamento flexível (tipo II) na cor definida em projeto.",
        "Esponjas e estopas."],
      "Área efetiva de revestimento tratado (m²)."))),
    CatalogItem("17.02.020", "Contrapiso em argamassa 1:3", "m²", 48.0, "Pisos e Revestimentos",
      "Execução de contrapiso ou argamassa de regularização com traço 1:3 (cimento e areia), espessura média de 3,0 cm, acabamento sarrafeado e desempenado, preparado para receber revestimento.",
      Some(MemorialDef(
      "Execução de base regularizada de cimento e areia para recebimento de piso.",
      [
        "Limpeza e lavagem da base de concreto.",
        "Execução de taliscas de nível para garantir caimento (se necessário) e espessura uniforme.",
        "Aplicação de nata de cimento para aderência (se necessário).",
        "Lançamento da argamassa farofa e compactação.",
        "Sarrafeamento com régua de alumínio e acabamento desempenado."],
      [
        "Cimento Portland.",
        "Areia média lavada.",
        "Aditivo impermeabilizante (para áreas molhadas)."],
      "Área geométrica executada (m²)."))),
    CatalogItem("18.15.010", "Rodapé cerâmico", "m", 25.0, "Pisos e Revestimentos",
      "Fornecimento e instalação de rodapé cerâmico, utilizando o mesmo material do piso ou peça específica, assentado com argamassa colante e rejuntado.",
      Some(MemorialDef(
      "Acabamento de proteção e arremate entre piso e parede.",
      [
        "Marcação de nível e alinhamento.",
        "Corte das peças cerâmicas na altura especificada (se não comprar pronto).",
        "Assentamento com argamassa colante no tardoz da peça.",
        "Rejuntamento da junção com o piso e com a parede (calafetação)."],
      [
        "Peças de rodapé cerâmico.",
        "Argamassa colante.",
        "Rejunte."],
      "Comprimento linear instalado (m)."))),
    CatalogItem("33.10.030", "Pintura látex acrílico antimofo (2 demãos)", "m²", 38.0, "Pintura",
      "Aplicação de tinta látex acrílica com aditivo antimofo em paredes.",
      Some(MemorialDef(
      "Pintura imobiliária em paredes internas ou externas sobre reboco ou massa.",
      [
        "Lixar a superfície para conferir aderência e remover imperfeições.",
        "Aplicar Fundo Preparador de Paredes se o reboco for fraco, ou Selador Acrílico se for novo.",
        "Aplicar a primeira demão de tinta látex acrílica com rolo de lã de pelo baixo.",
        "Aguardar intervalo de secagem de 4 horas.",
        "Aplicar a segunda demão em sentido cruzado (ou quantas necessárias para o perfeito recobrimento)."],
      [
        "Tinta Látex Acrílica Premium antimofo (Suvinil, Coral ou similar).",
        "Lixas e solventes de limpeza."],
      "Área superficial efetivamente pintada, descontando vãos (m²)."))),
    CatalogItem("33.11.050", "Esmalte sintético base água em metais", "m²", 45.0, "Pintura",
      "Pintura de superfícies metálicas com esmalte sintético ecológico.",
      Some(MemorialDef(
      "Proteção e acabamento de superfícies metálicas (esquadrias, grades).",
      [
        "Remoção de ferrugem com escova de aço ou lixa.",
        "Limpeza com aguarrás para remoção de oleosidade.",
        "Aplicação de Fundo Anticorrosivo (Zarcão) se houver exposição do metal ferroso.",
        "Aplicação de 2 demãos de Esmalte Sintético Base Água (secagem rápida e baixo odor)."],
      [
        "Esmalte Sintético Base Água (Brilhante, Acetinado ou Fosco).",
        "Fundo Zarcão ou Galvite."],
      "Área da superfície pintada ou calculada por perímetro (m²)."))),
    CatalogItem("33.02.010", "Aplicação de fundo selador", "m²", 12.0, "Pintura",
      "Aplicação de uma demão de líquido selador acrílico.",
      Some(MemorialDef(
      "Preparação de paredes novas para uniformizar a absorção.",
      [
        "Aguardar a cura completa do reboco (mínimo 28 dias).",
        "Aplicar uma demão farta e uniforme de selador acrílico diluído conforme fabricante.",
        "Aguardar secagem antes da massa ou tinta."],
      [
        "Selador Acrílico pigmentado ou incolor."],
      "Área superficial aplicada (m²)."))),
    CatalogItem("26.04.030", "Forro de PVC inclusive estrutura", "m²", 75.0, "Forro",
      "Fornecimento e instalação de forro de PVC.",
      Some(MemorialDef(
      "Execução de forro em lâminas de PVC para acabamento de teto.",
      [
        "Nivelamento do perímetro e fixação de cantoneiras (rodateto).",
        "Instalação da estrutura de sustentação (metalon) fixada na laje/telhado com tirantes rígidos, espaçados a cada 1,00m.",
        "Encaixe das lâminas de PVC perpendicularmente à estrutura, fixando-as com parafusos ponta-broca.",
        "Ajuste dos arremates finais."],
      [
        "Lâminas de PVC 8mm, cor branca ou madeirada com proteção UV.",
        "Perfil metálico galvanizado (Metalon).",
        "Acessórios de fixação."],
      "Área plana de forro executado (m²)."))),
    CatalogItem("26.02.050", "Forro de gesso acartonado (drywall)", "m²", 95.0, "Forro",
      "Execução de forro em chapas de gesso acartonado (Drywall) ST (Standard), espessura 12,5mm, estruturado com perfis metálicos galvanizados, incluindo tratamento de juntas com fita e massa, pronto para pintura.",
      Some(MemorialDef(
      "Rebaixamento de teto com sistema de gesso acartonado estruturado.",
      [
        "Marcação do nível (laser/mangueira) nas paredes.",
        "Fixação das tabicas perimetrais.",
        "Fixação dos tirantes rígidos na laje superior.",
        "Montagem da grelha de perfis (F530) clipados aos reguladores.",
        "Parafusamento das chapas ST 12.5mm com parafusos trombeta.",
        "Tratamento de juntas com fita de papel e massa específica (3 demãos)."],
      [
        "Chapas gesso ST 12.5mm.",
        "Perfis F530, Tabicas, Tirantes.",
        "Massa de junta e fita de papel microperfurada."],
      "Área plana de forro acabado (m²)."))),
    CatalogItem("39.02.010", "Ponto de luz no teto", "un", 150.0, "Elétrica",
      "Execução de ponto de iluminação no teto, compreendendo o fornecimento e instalação de eletroduto flexível corrugado, caixa octogonal metálica ou PVC, fiação (fase, neutro e retorno) e bocal simples, interligado ao interruptor.",
      Some(MemorialDef(
      "Instalação de infraestrutura e cabeamento para ponto de iluminação.",
      [
        "Fixação da caixa octogonal na laje ou estrutura.",
        "Instalação dos eletrodutos corrugados e luvas de emenda.",
        "Passagem dos condutores (Fase, Neutro, Retorno) utilizando guia de nylon.",
        "Identificação dos circuitos por anilhas ou fitas coloridas.",
        "Receptáculo (bocal) e teste de funcionamento."],
      [
        "Eletroduto flexível corrugado reforçado (laranja) ou amarelo.",
        "Cabo flexível 1.5mm² ou 2.5mm² (anti-chama).",
        "Caixa octogonal 4x4\"."],
      "Unidade (un) instalada e testada."))),
    CatalogItem("39.04.030", "Tomada 2P+T 10A completa", "un", 45.0, "Elétrica",
      "Fornecimento e instalação de conjunto de tomada de energia 2P+T, 10A, padrão brasileiro NBR 14136, incluindo suporte, placa de acabamento e módulo, e conexão aos condutores existentes.",
      Some(MemorialDef(
      "Instalação de ponto de força (tomada) em parede.",
      [
        "Chumbamento da caixa 4x2\" de embutir na alvenaria nivelada.",
        "Conexão dos condutores (Fase, Neutro, Terra) aos bornes do módulo.",
        "Fixação do suporte e encaixe da placa de acabamento (espelho).",
        "Verificação da polaridade e tensão com multímetro."],
      [
        "Conjunto tomada 2P+T 10A (NBR 14136).",
        "Caixa 4x2\" PVC."],
      "Unidade (un) completa instalada."))),
    CatalogItem("39.15.010", "Disjuntor termomagnético monopolar", "un", 35.0, "Elétrica",
      "Fornecimento e instalação de disjuntor termomagnético monopolar padrão DIN (minidisjuntor) em quadro de distribuição, com capacidade de corrente adequada ao circuito a proteger (10A a 32A), incluindo conexões.",
      Some(MemorialDef(
      "Instalação de dispositivo de proteção contra sobrecarga e curto-circuito.",
      [
        "Fixação do disjuntor no trilho DIN do Quadro de Distribuição.",
        "Decapagem e conexão dos cabos nos bornes garantindo o aperto adequado.",
        "Identificação do circuito com etiqueta adesiva no quadro.",
        "Reaperto das conexões."],
      [
        "Disjuntor termomagnético curva C (DIN).",
        "Terminais tipo ilhós ou genéricos adequados."],
      "Unidade (un) instalada."))),
    CatalogItem("45.06.020", "Ponto de água fria (tubo PVC soldável)", "un", 220.0, "Hidráulica",
      "Execução de ponto de consumo de água fria, compreendendo rasgos em alvenaria, fornecimento e instalação de tubulação de PVC soldável marrom, conexões (joelhos, tês, luvas) e joelho de transição com bucha de latão na saída.",
      Some(MemorialDef(
      "Ramal de alimentação de água fria embutido em alvenaria.",
      [
        "Abertura de rasgo (\"shaft\") na alvenaria.",
        "Corte, lixamento e limpeza das pontas dos tubos e conexões.",
        "Aplicação de adesivo plástico (solda fria) uniformemente.",
        "Montagem das conexões e tubos.",
        "Instalação do joelho azul (bucha latão) na saída do ponto.",
        "Teste de pressão hidrostática antes do fechamento do rasgo."],
      [
        "Tubos e conexões PVC Soldável (Marrom).",
        "Joelho Azul com bucha de Latão.",
        "Adesivo plástico para PVC."],
      "Unidade (un) por ponto de consumo."))),
    CatalogItem("46.04.010", "Registro de gaveta 3/4\"", "un", 85.0, "Hidráulica",
      "Fornecimento e instalação de registro de gaveta bruto (base) de 3/4\" (25mm), padrão ABNT, acoplado à tubulação, destinado ao bloqueio geral ou parcial do fluxo de água de setores ou ambientes.",
      Some(MemorialDef(
      "Dispositivo de bloqueio (seccionamento) da rede hidráulica.",
      [
        "Verificação do sentido de fluxo indicado no corpo do registro.",
        "Aplicação de fita veda-rosca (se roscável) ou solda (se soldável com adaptadores).",
        "Instalação na altura especificada (geralmente 1.80m).",
        "Proteção da haste/castelo durante o reboco.",
        "Instalação da canopla e volante cromado no acabamento final."],
      [
        "Registro de Gaveta 3/4\" bruto.",
        "Acabamento (Canopla + Volante) cromado ou C-50."],
      "Unidade (un) instalada."))),
    CatalogItem("48.02.030", "Sifão plástico extensível", "un", 25.0, "Hidráulica",
      "Fornecimento e instalação de sifão tipo garrafa ou extensível universal em polipropileno (branco ou cromado), para lavatórios ou pias, incluindo vedações e conexão à válvula de escoamento e ao tubo de esgoto.",
      Some(MemorialDef(
      "Interligação entre válvula de escoamento e tubo de esgoto (fecho hídrico).",
      [
        "Ajuste do comprimento do tubo extensível ou altura do copo.",
        "Posicionamento dos anéis de vedação na válvula.",
        "Rosqueamento manual firme (sem uso de grifo para não danificar).",
        "Encaixe da saída no tubo de esgoto utilizando bolsa de borracha ou anel.",
        "Verificação de curvatura para garantir o fecho hídrico (evitar mau cheiro)."],
      [
        "Sifão extensível universal (PVC/PP).",
        "Anel de vedação de borracha."],
      "Unidade (un) instalada."))),
    CatalogItem("16.02.040", "Telha cerâmica tipo romana/francesa", "m²", 65.0, "Telhado",
      "Fornecimento e assentamento de telhas cerâmicas tipo romana, portuguesa ou francesa, de primeira qualidade, sobre estrutura de madeira existente (ripamento), com sobreposição e encaixes adequados para garantir a estanqueidade.",
      Some(MemorialDef(
      "Cobertura da edificação para proteção contra intempéries.",
      [
        "Verificação do alinhamento e distanciamento das ripas (galga).",
        "Içamento das telhas com cuidado para evitar quebras.",
        "Assentamento iniciando do beiral para o cume, garantindo os encaixes.",
        "Fixação das telhas de beiral com arame ou prego (locais com vento).",
        "Recortes nos espigões e águas-furtadas."],
      [
        "Telha cerâmica de barro cozido (Romana/Portuguesa) conforme NBR 15310.",
        "Arame galvanizado (se necessário)."],
      "Área inclinada de telhado recoberto (m²)."))),
    CatalogItem("16.10.030", "Calha em chapa galvanizada", "m", 80.0, "Telhado",
      "Fornecimento e instalação de calha moldada em chapa de aço galvanizado nº 26 ou 24, desenvolvimento conforme local, fixada em suportes metálicos, incluindo soldas, vedações com silicone/PU e bocais de descida.",
      Some(MemorialDef(
      "Sistema de captação de águas pluviais do telhado.",
      [
        "Medição e confecção da calha na funilaria conforme desenvolvimento (largura da chapa).",
        "Instalação dos suportes a cada 1,00m ou nos caibros.",
        "Fixação da calha com declividade mínima de 0,5% em direção aos bocais.",
        "Rebitagem e vedação das emendas com selante PU e solda estanho.",
        "Teste de estanqueidade jogando água."],
      [
        "Chapa de aço galvanizado #26.",
        "Selante PU (Poliuretano).",
        "Solda estanho e ácido."],
      "Comprimento linear instalado (m)."))),
    CatalogItem("16.30.010", "Limpeza de calhas e condutores", "m", 15.0, "Telhado",
      "Serviço de limpeza e desobstrução de calhas, rufos e condutores verticais de águas pluviais, com remoção de folhas, detritos e sedimentos, visando o perfeito escoamento das águas.",
      Some(MemorialDef(
      "Manutenção preventiva/corretiva do sistema de drenagem pluvial.",
      [
        "Remoção manual de folhas e detritos acumulados na calha.",
        "Desobstrução dos bocais e curvaturas dos condutores.",
        "Lavagem com jato de água para remoção de terra/lama.",
        "Verificação de pontos de vazamento ou oxidação."],
      [
        "Sacos para entulho.",
        "Água sob pressão."],
      "Comprimento linear limpo (m)."))),
    CatalogItem("55.01.020", "Limpeza final de obra", "m²", 18.0, "Limpeza",
      "Limpeza geral pós-obra, incluindo varrição e lavagem de pisos, limpeza de vidros, esquadrias, louças e metais sanitários, remoção de manchas de tinta e respingos de argamassa, deixando o imóvel pronto para uso.",
      Some(MemorialDef(
      "Higienização final para entrega da obra.",
      [
        "Remoção de todo entulho e restos de materiais.",
        "Raspagem de respingos de argamassa e tinta com espátula (s/ riscar).",
        "Limpeza dos vidros com limpa-vidros e água.",
        "Lavagem dos pisos com detergente neutro ou produto específico (pós-obra).",
        "Limpeza de louças e metais sanitários."],
      [
        "Detergentes e desincrustantes (Pós-Obra).",
        "Vassouras, rodos e panos.",
        "Lã de aço (com cuidado)."],
      "Área total de construção limpa (m²).")))
  ]

  /** Every entry has a well-formed code, a positive price and a memorial definition, and no two entries share a code. */
  lemma StaticCatalogWellFormed()
    ensures |StaticCatalog| == 26
    ensures forall i | 0 <= i < |StaticCatalog| ::
      IsCode(StaticCatalog[i].code) && StaticCatalog[i].price > 0.0 && StaticCatalog[i].memorialDef.Some?
    ensures forall i, j | 0 <= i < j < |StaticCatalog| :: StaticCatalog[i].code != StaticCatalog[j].code
  {
    StaticCodesAgree();
    StaticCodesWellFormed();
  }

  /** The codes of the static catalog, in catalog order. */
  const StaticCodes: seq<string> := [
    "02.08.050", "02.05.010", "03.01.020", "03.02.040", "03.04.020", "03.10.140",
    "04.04.020", "18.06.142", "18.06.410", "17.02.020", "18.15.010", "33.10.030",
    "33.11.050", "33.02.010", "26.04.030", "26.02.050", "39.02.010", "39.04.030",
    "39.15.010", "45.06.020", "46.04.010", "48.02.030", "16.02.040", "16.10.030",
    "16.30.010", "55.01.020"]

  lemma StaticCodesAgree()
    ensures |StaticCodes| == |StaticCatalog|
    ensures forall i | 0 <= i < |StaticCatalog| :: StaticCatalog[i].code == StaticCodes[i]
  {
  }

  lemma StaticCodesWellFormed()
    ensures forall i | 0 <= i < |StaticCodes| :: IsCode(StaticCodes[i])
    ensures forall i, j | 0 <= i < j < |StaticCodes| :: StaticCodes[i] != StaticCodes[j]
  {
  }

  // ---------------------------------------------------------------- stored overrides

  /**
   * What reading the stored update record gives: nothing stored (or an empty
   * string), text that fails to parse or is JSON `null` (reading a property
   * of it throws), or a parsed value with its optional `version` and
   * `prices` properties.
   */
  datatype StoredState =
    | Missing
    | Unparsable
    | Parsed(version: Option<string>, prices: Option<map<string, real>>)

  const BaseVersion := "CDHU 197 (Base)"
  const CustomVersion := "Personalizado"
  /** Appended to the description of an item whose price was overridden. */
  const UpdatedMarker := " *"

  /** `getCatalogVersion`. */
  function GetCatalogVersion(stored: StoredState): (v: string)
    ensures v != ""
    ensures stored.Parsed? && stored.version.Some? && stored.version.value != "" ==> v == stored.version.value
    ensures stored.Parsed? && (stored.version.None? || stored.version.value == "") ==> v == CustomVersion
    ensures !stored.Parsed? ==> v == BaseVersion
  {
    match stored
    case Parsed(version, _) =>
      if version.Some? && version.value != "" then version.value else CustomVersion
    case _ => BaseVersion
  }

  /** The override map `getCatalog` ends up with: empty unless a parsed record has `prices`. */
  function Overrides(stored: StoredState): map<string, real>
  {
    if stored.Parsed? && stored.prices.Some? then stored.prices.value else map[]
  }

  /** `overrides[code]` is truthy: present and not zero. */
  predicate HasOverride(overrides: map<string, real>, code: string)
  {
    code in overrides && overrides[code] != 0.0
  }

  /** The callback of the `map` in `getCatalog`. */
  function ApplyOverride(item: CatalogItem, overrides: map<string, real>): (r: CatalogItem)
    ensures HasOverride(overrides, item.code) ==>
      r == item.(price := overrides[item.code], description := item.description + UpdatedMarker)
    ensures !HasOverride(overrides, item.code) ==> r == item
  {
    if HasOverride(overrides, item.code) then
      item.(price := overrides[item.code], description := item.description + UpdatedMarker)
    else item
  }

  /** `getCatalog`: the static catalog with the stored price overrides applied. */
  function GetCatalog(stored: StoredState): (r: seq<CatalogItem>)
    ensures |r| == |StaticCatalog|
    ensures forall i | 0 <= i < |r| :: r[i] == ApplyOverride(StaticCatalog[i], Overrides(stored))
  {
    seq(|StaticCatalog|, i requires 0 <= i < |StaticCatalog| => ApplyOverride(StaticCatalog[i], Overrides(stored)))
  }

  /** Without a parsed record that has prices, the catalog is the static one. */
  lemma NoPricesNoChange(stored: StoredState)
    requires !stored.Parsed? || stored.prices.None?
    ensures GetCatalog(stored) == StaticCatalog
  {
  }

  /**
   * An item changes exactly when its code has a truthy override; a changed
   * item keeps its code, unit, category, specification and memorial text,
   * takes the override as its price, and carries one marker.
   */
  lemma OverriddenItems(stored: StoredState, i: nat)
    requires i < |StaticCatalog|
    ensures var item := StaticCatalog[i]; var r := GetCatalog(stored)[i];
      && (r != item <==> HasOverride(Overrides(stored), item.code))
      && r.code == item.code && r.unit == item.unit && r.category == item.category
      && r.detailedSpec == item.detailedSpec && r.memorialDef == item.memorialDef
      && (r != item ==> r.price == Overrides(stored)[item.code] && r.description == item.description + UpdatedMarker)
  {
    var item := StaticCatalog[i];
    var r := GetCatalog(stored)[i];
    if HasOverride(Overrides(stored), item.code) {
      assert |r.description| == |item.description| + 2;
    }
  }

  /** No static description ends with the marker, so a merged description ends with it exactly when the item was overridden. */
  lemma MarkerShowsOverride(stored: StoredState, i: nat)
    requires i < |StaticCatalog|
    ensures EndsWithMarker(GetCatalog(stored)[i].description) <==> HasOverride(Overrides(stored), StaticCatalog[i].code)
  {
    StaticDescriptionsUnmarked();
    var item := StaticCatalog[i];
    if HasOverride(Overrides(stored), item.code) {
      var d := item.description + UpdatedMarker;
      assert d[|d| - 2..] == UpdatedMarker;
    }
  }

  predicate EndsWithMarker(s: string)
  {
    |s| >= 2 && s[|s| - 2..] == UpdatedMarker
  }

  lemma StaticDescriptionsUnmarked()
    ensures forall i | 0 <= i < |StaticCatalog| :: StaticCatalog[i].description[|StaticCatalog[i].description| - 1] != '*'
  {
  }
}
