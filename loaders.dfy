/** `process_ad_data` and `process_order_data`: the steps that turn the two
    exports into typed frames, and what the frames they return hold. */
module Loaders {
  import opened Wrappers
  import opened Text
  import opened Categories
  import opened Tables

  // ---------------------------------------------------------------------
  // The cell functions of the derived columns
  // ---------------------------------------------------------------------

  /** `tipo_campanha` of a campaign-name cell; `in` raises on a cell that is
      not text. */
  function CampaignCell(c: Cell): (r: Option<Cell>)
    ensures r.Some? <==> c.Str?
    ensures r.Some? ==> r.value == Str(CampaignLine(c.s))
  {
    if c.Str? then Some(Str(CampaignLine(c.s))) else None
  }

  /** `categorize_product` of a product-name cell; the regular-expression
      search raises on a cell that is not text. */
  function CategoryCell(c: Cell): (r: Option<Cell>)
    ensures r.Some? <==> c.Str?
    ensures r.Some? ==> r.value == Str(Categorize(c.s))
  {
    if c.Str? then Some(Str(Categorize(c.s))) else None
  }

  /** `tipo_venda` of a category cell: any cell but the text
      `Cursos e Workshops` compares unequal to it. */
  function SaleLineCell(c: Cell): (r: Option<Cell>)
    ensures r.Some?
    ensures r.value == Str(Institute) <==> c == Str(CoursesWorkshops)
    ensures r.value == Str(Institute) || r.value == Str(Ecommerce)
  {
    Some(Str(if c.Str? then SaleLine(c.s) else Ecommerce))
  }

  // ---------------------------------------------------------------------
  // The two loaders
  // ---------------------------------------------------------------------

  const AdColumns: seq<string> := [
    "data_inicio", "data_fim", "nome_campanha", "alcance", "impressoes",
    "cpm", "cliques", "cpc", "views_pagina", "custo_view_pagina",
    "adicoes_carrinho", "custo_adicao_carrinho", "valor_conversao_carrinho",
    "valor_gasto"]

  const AdNumeric: seq<string> := [
    "alcance", "impressoes", "cpm", "cliques", "cpc",
    "views_pagina", "custo_view_pagina", "adicoes_carrinho",
    "custo_adicao_carrinho", "valor_conversao_carrinho", "valor_gasto"]

  const OrderColumns: seq<string> := [
    "pedido_id", "pedido_data", "pedido_hora", "pedido_status",
    "envio_estado", "produto_nome", "produto_valor_unitario",
    "produto_quantidade", "produto_valor_total"]

  const OrderNumeric: seq<string> := ["produto_valor_unitario", "produto_valor_total"]

  /** `process_ad_data`: the ad frame after its steps, or nothing when a
      step raises. */
  function ProcessedAds(t: Table): (r: Option<Table>)
    requires WellFormed(t)
    ensures r.Some? ==> WellFormed(r.value) && r.value.height == t.height
  {
    var renamed :- Renamed(t, AdColumns);
    var started :- Converted(renamed, "data_inicio", ToIsoDate);
    var ended :- Converted(started, "data_fim", ToIsoDate);
    var numeric :- ConvertedAll(ended, AdNumeric, ToFloat, true);
    Applied(numeric, "nome_campanha", "tipo_campanha", CampaignCell)
  }

  /** `process_order_data`: the order frame after its steps, or nothing when
      a step raises. */
  function ProcessedOrders(t: Table): (r: Option<Table>)
    requires WellFormed(t)
    ensures r.Some? ==> WellFormed(r.value) && r.value.height == t.height
  {
    var renamed :- Renamed(t, OrderColumns);
    var ids :- Converted(renamed, "pedido_id", ToInt);
    var prices :- ConvertedAll(ids, OrderNumeric, ToFloat, false);
    var counted :- Converted(prices, "produto_quantidade", ToInt);
    var dated :- Converted(counted, "pedido_data", ToDayFirstDate);
    var categorized :- Applied(dated, "produto_nome", "categoria_produto", CategoryCell);
    Applied(categorized, "categoria_produto", "tipo_venda", SaleLineCell)
  }

  // ---------------------------------------------------------------------
  // The two headers
  // ---------------------------------------------------------------------

  /** A name whose length or first letter no header name shares is not in
      the header. */
  lemma NotInHeader(names: seq<string>, n: string)
    requires n != []
    requires forall j | 0 <= j < |names| :: |names[j]| != |n| || (names[j] != [] && names[j][0] != n[0])
    ensures n !in names
  {
  }

  /** Where each name of the ad header sits. */
  lemma AdIndices()
    ensures AdNumeric == AdColumns[3..]
    ensures forall j | 0 <= j < 14 :: Find(AdColumns, AdColumns[j]) == Some(j)
  {
    AdDistinct();
    forall j | 0 <= j < 14 ensures Find(AdColumns, AdColumns[j]) == Some(j) {
      FindDistinct(AdColumns, j);
    }
  }

  /** The ad header has no name twice. */
  lemma AdDistinct()
    ensures Distinct(AdColumns)
  {
    var front := ["data_inicio", "data_fim", "nome_campanha", "alcance", "impressoes", "cpm", "cliques"];
    var back := ["cpc", "views_pagina", "custo_view_pagina", "adicoes_carrinho", "custo_adicao_carrinho",
                 "valor_conversao_carrinho", "valor_gasto"];
    assert Distinct(front);
    assert Distinct(back);
    assert forall i, j | 0 <= i < 7 && 0 <= j < 7 :: front[i] != back[j];
    DistinctConcat(front, back);
    assert AdColumns == front + back;
  }

  /** The derived ad column is a new one, and the numeric columns are not the
      other ones. */
  lemma AdHeaderFresh()
    ensures "tipo_campanha" !in AdColumns
    ensures "data_inicio" !in AdNumeric && "data_fim" !in AdNumeric && "nome_campanha" !in AdNumeric
  {
    NotInHeader(AdColumns, "tipo_campanha");
    NotInHeader(AdNumeric, "data_inicio");
    NotInHeader(AdNumeric, "data_fim");
    NotInHeader(AdNumeric, "nome_campanha");
  }

  /** The order header has no name twice. */
  lemma OrderDistinct()
    ensures Distinct(OrderColumns)
  {
    var front := ["pedido_id", "pedido_data", "pedido_hora", "pedido_status"];
    var back := ["envio_estado", "produto_nome", "produto_valor_unitario", "produto_quantidade", "produto_valor_total"];
    assert Distinct(front);
    assert Distinct(back);
    assert forall i, j | 0 <= i < 4 && 0 <= j < 5 :: front[i] != back[j];
    DistinctConcat(front, back);
    assert OrderColumns == front + back;
  }

  /** Where each name of the order header sits. */
  lemma OrderIndices()
    ensures forall j | 0 <= j < 9 :: Find(OrderColumns, OrderColumns[j]) == Some(j)
    ensures OrderNumeric == [OrderColumns[6], OrderColumns[8]]
  {
    OrderDistinct();
    forall j | 0 <= j < 9 ensures Find(OrderColumns, OrderColumns[j]) == Some(j) {
      FindDistinct(OrderColumns, j);
    }
  }

  /** The two derived order columns are new ones. */
  lemma OrderHeaderFresh()
    ensures "categoria_produto" !in OrderColumns
    ensures "tipo_venda" !in OrderColumns + ["categoria_produto"]
  {
    NotInHeader(OrderColumns, "categoria_produto");
    NotInHeader(OrderColumns + ["categoria_produto"], "tipo_venda");
  }

  /** The derived category column is looked up where it was appended. */
  lemma CategoryIndex()
    ensures Find(OrderColumns + ["categoria_produto"], "categoria_produto") == Some(9)
  {
    OrderHeaderFresh();
    var names := OrderColumns + ["categoria_produto"];
    assert names[..9] == OrderColumns;
    FindAt(names, "categoria_produto", 9);
  }

  // ---------------------------------------------------------------------
  // What the ad loader produces
  // ---------------------------------------------------------------------

  /** The names the ad loader works with: its header, the two date columns,
      the campaign name, the numeric columns, and the derived column. */
  datatype AdHeader = AdHeader(names: seq<string>, start: string, finish: string, campaign: string,
                               numeric: seq<string>, line: string)

  const AdNames := AdHeader(AdColumns, "data_inicio", "data_fim", "nome_campanha", AdNumeric, "tipo_campanha")

  /** The shape of the ad header: fourteen names without repetition, the two
      dates and the campaign name first, the numeric columns after them, and
      the derived column not among them. The stage lemmas below are stated
      over any header of this shape. */
  predicate AdLayout(l: AdHeader) {
    && |l.names| == 14 && l.numeric == l.names[3..]
    && (forall j | 0 <= j < 14 :: Find(l.names, l.names[j]) == Some(j))
    && l.names[0] == l.start && l.names[1] == l.finish && l.names[2] == l.campaign && l.line !in l.names
  }

  /** The ad header has that shape. */
  lemma AdLayoutHolds()
    ensures AdLayout(AdNames)
  {
    AdIndices();
    AdHeaderFresh();
  }

  /** The stages of the ad loader: each table is the one before it after one
      step, and `r` is the frame the loader returns. */
  predicate AdStages(t: Table, l: AdHeader, s0: Table, s1: Table, s2: Table, s3: Table, r: Table) {
    && WellFormed(t)
    && Renamed(t, l.names) == Some(s0)
    && Converted(s0, l.start, ToIsoDate) == Some(s1)
    && Converted(s1, l.finish, ToIsoDate) == Some(s2)
    && ConvertedAll(s2, l.numeric, ToFloat, true) == Some(s3)
    && Applied(s3, l.campaign, l.line, CampaignCell) == Some(r)
  }

  /** A frame the ad loader accepts passes through its stages. */
  lemma AdSteps(t: Table) returns (s0: Table, s1: Table, s2: Table, s3: Table)
    requires WellFormed(t) && ProcessedAds(t).Some?
    ensures AdStages(t, AdNames, s0, s1, s2, s3, ProcessedAds(t).value)
  {
    s0 := Renamed(t, AdColumns).value;
    s1 := Converted(s0, "data_inicio", ToIsoDate).value;
    s2 := Converted(s1, "data_fim", ToIsoDate).value;
    s3 := ConvertedAll(s2, AdNumeric, ToFloat, true).value;
  }

  /** An export with any number of columns but fourteen is rejected. */
  lemma AdsRejectWidth(t: Table)
    requires WellFormed(t) && |t.names| != 14
    ensures ProcessedAds(t).None?
  {
    assert Renamed(t, AdColumns).None?;
  }

  /** The header and width of every stage. */
  lemma AdStagesSchema(t: Table, l: AdHeader, s0: Table, s1: Table, s2: Table, s3: Table, r: Table)
    requires AdLayout(l) && AdStages(t, l, s0, s1, s2, s3, r)
    ensures s0.names == s1.names == s2.names == s3.names == l.names
    ensures s0.columns == t.columns && |t.columns| == 14
    ensures r.names == l.names + [l.line] && r.height == t.height
    ensures WellFormed(s1) && WellFormed(s2) && WellFormed(s3) && WellFormed(r)
    ensures |r.columns| == 15 && r.columns[..14] == s3.columns
  {
    AppliedKeeps(s3, l.campaign, l.line, CampaignCell);
  }

  /** The ad loader keeps the rows, and its header is the fourteen renamed
      columns and `tipo_campanha`. */
  lemma AdsSchema(t: Table)
    requires WellFormed(t) && ProcessedAds(t).Some?
    ensures ProcessedAds(t).value.names == AdColumns + ["tipo_campanha"]
    ensures ProcessedAds(t).value.height == t.height
    ensures |ProcessedAds(t).value.columns| == 15
  {
    var s0, s1, s2, s3 := AdSteps(t);
    AdLayoutHolds();
    AdStagesSchema(t, AdNames, s0, s1, s2, s3, ProcessedAds(t).value);
  }

  /** Which step last writes each of the first three columns. */
  lemma AdStagesKeep(t: Table, l: AdHeader, s0: Table, s1: Table, s2: Table, s3: Table, r: Table)
    requires AdLayout(l) && AdStages(t, l, s0, s1, s2, s3, r)
    ensures |r.columns| == 15 && |s1.columns| == 14 && |s2.columns| == 14
    ensures r.columns[0] == s1.columns[0] && r.columns[1] == s2.columns[1] && r.columns[2] == t.columns[2]
    ensures forall k | 0 <= k < 14 && k != 1 :: s2.columns[k] == s1.columns[k]
    ensures forall k | 1 <= k < 14 :: s1.columns[k] == t.columns[k]
  {
    AdStagesSchema(t, l, s0, s1, s2, s3, r);
    assert Find(l.names, l.names[0]) == Some(0) && Find(l.names, l.names[1]) == Some(1);
    forall k | 1 <= k < 14 ensures s1.columns[k] == t.columns[k] {
      ConvertedKeeps(s0, l.start, ToIsoDate, k);
    }
    forall k | 0 <= k < 14 && k != 1 ensures s2.columns[k] == s1.columns[k] {
      ConvertedKeeps(s1, l.finish, ToIsoDate, k);
    }
    ConvertedAllKeeps(s2, l.numeric, ToFloat, true);
    forall k | 0 <= k < 3 ensures l.names[k] !in l.numeric && r.columns[k] == s3.columns[k] {
      forall j | 0 <= j < |l.numeric| ensures l.numeric[j] != l.names[k] {
        assert Find(l.names, l.names[j + 3]) == Some(j + 3);
      }
      assert r.columns[k] == r.columns[..14][k];
    }
  }

  lemma AdStagesDates(t: Table, l: AdHeader, s0: Table, s1: Table, s2: Table, s3: Table, r: Table)
    requires AdLayout(l) && AdStages(t, l, s0, s1, s2, s3, r)
    ensures |r.columns| == 15 && WellFormed(r) && r.height == t.height && |t.columns| == 14
    ensures CellsConverted(t.columns[0], r.columns[0], ToIsoDate) && CellsConverted(t.columns[1], r.columns[1], ToIsoDate)
  {
    AdStagesSchema(t, l, s0, s1, s2, s3, r);
    AdStagesKeep(t, l, s0, s1, s2, s3, r);
    assert Find(l.names, l.names[0]) == Some(0) && Find(l.names, l.names[1]) == Some(1);
    forall i | 0 <= i < t.height
      ensures ConvertCell(t.columns[0][i], ToIsoDate) == Some(r.columns[0][i])
      ensures ConvertCell(t.columns[1][i], ToIsoDate) == Some(r.columns[1][i])
    {
      ConvertedAt(s0, l.start, ToIsoDate, 0, i);
      ConvertedAt(s1, l.finish, ToIsoDate, 1, i);
    }
  }

  /** In an accepted ad frame the start and end dates are the exported
      dates read as `YYYY-MM-DD`. */
  lemma AdsDates(t: Table)
    requires WellFormed(t) && ProcessedAds(t).Some?
    ensures var r := ProcessedAds(t).value;
            && |r.columns| == 15 && |t.columns| == 14
            && CellsConverted(t.columns[0], r.columns[0], ToIsoDate)
            && CellsConverted(t.columns[1], r.columns[1], ToIsoDate)
  {
    var s0, s1, s2, s3 := AdSteps(t);
    AdLayoutHolds();
    AdStagesDates(t, AdNames, s0, s1, s2, s3, ProcessedAds(t).value);
  }

  lemma AdStagesNumbers(t: Table, l: AdHeader, s0: Table, s1: Table, s2: Table, s3: Table, r: Table)
    requires AdLayout(l) && AdStages(t, l, s0, s1, s2, s3, r)
    ensures && |r.columns| == 15 && |t.columns| == 14
            && forall k | 3 <= k < 14 :: Treated(t, r, k, ToFloat, true) && !HoldsText(r.columns[k])
  {
    AdStagesSchema(t, l, s0, s1, s2, s3, r);
    AdStagesKeep(t, l, s0, s1, s2, s3, r);
    ConvertedAllTreats(s2, l.numeric, ToFloat, true);
    forall k | 3 <= k < 14 ensures Treated(t, r, k, ToFloat, true) && !HoldsText(r.columns[k]) {
      assert l.names[k] == l.numeric[k - 3];
      assert Find(l.names, l.names[k]) == Some(k);
      assert r.columns[k] == s3.columns[k] by {
        assert r.columns[..14][k] == r.columns[k];
      }
      TreatedTransfer(s2, s3, k, t, r, k, ToFloat, true);
      TreatedHoldsNoText(t, r, k, true);
    }
  }

  /** In an accepted ad frame each numeric column that holds text is read
      as numbers, and each numeric column holding none (its dtype is not
      `object`) is kept as exported; either way it then holds no text. */
  lemma AdsNumbers(t: Table)
    requires WellFormed(t) && ProcessedAds(t).Some?
    ensures var r := ProcessedAds(t).value;
            |r.columns| == 15 &&
            forall k | 3 <= k < 14 :: Treated(t, r, k, ToFloat, true) && !HoldsText(r.columns[k])
  {
    var s0, s1, s2, s3 := AdSteps(t);
    AdLayoutHolds();
    AdStagesNumbers(t, AdNames, s0, s1, s2, s3, ProcessedAds(t).value);
  }

  lemma AdStagesCampaignLines(t: Table, l: AdHeader, s0: Table, s1: Table, s2: Table, s3: Table, r: Table)
    requires AdLayout(l) && AdStages(t, l, s0, s1, s2, s3, r)
    ensures |r.columns| == 15 && WellFormed(r) && r.height == t.height && |t.columns| == 14
    ensures r.columns[2] == t.columns[2] && CellsApplied(t.columns[2], r.columns[14], CampaignCell)
  {
    AdStagesSchema(t, l, s0, s1, s2, s3, r);
    AdStagesKeep(t, l, s0, s1, s2, s3, r);
    assert Find(l.names, l.names[2]) == Some(2);
    forall i | 0 <= i < t.height ensures CampaignCell(t.columns[2][i]) == Some(r.columns[14][i]) {
      AppliedAt(s3, l.campaign, l.line, CampaignCell, 2, i);
    }
  }

  /** The derived campaign column spelled out: every campaign name is text
      and its line sits beside it. */
  lemma CampaignLines(campaigns: seq<Cell>, lines: seq<Cell>)
    requires CellsApplied(campaigns, lines, CampaignCell)
    ensures |lines| == |campaigns|
    ensures forall i | 0 <= i < |campaigns| :: campaigns[i].Str? && lines[i] == Str(CampaignLine(campaigns[i].s))
  {
    forall i | 0 <= i < |campaigns| ensures campaigns[i].Str? && lines[i] == Str(CampaignLine(campaigns[i].s)) {
      assert CampaignCell(campaigns[i]) == Some(lines[i]);
    }
  }

  /** In an accepted ad frame every campaign name is text and is kept, and
      `tipo_campanha` is the line of the campaign name on the same row. */
  lemma AdsCampaignLines(t: Table)
    requires WellFormed(t) && ProcessedAds(t).Some?
    ensures var r := ProcessedAds(t).value;
            && |r.columns| == 15
            && r.columns[2] == t.columns[2]
            && (forall i | 0 <= i < t.height ::
                  t.columns[2][i].Str? && r.columns[14][i] == Str(CampaignLine(t.columns[2][i].s)))
  {
    var s0, s1, s2, s3 := AdSteps(t);
    var r := ProcessedAds(t).value;
    AdLayoutHolds();
    AdStagesCampaignLines(t, AdNames, s0, s1, s2, s3, r);
    CampaignLines(t.columns[2], r.columns[14]);
  }

  /** What the ad loader demands of an export: fourteen columns, dates in
      `YYYY-MM-DD` form in the first two, numbers in every numeric column of
      text, and text for every campaign name. */
  predicate AdsAcceptable(t: Table)
    requires WellFormed(t)
  {
    && |t.names| == 14
    && Convertible(t.columns[0], ToIsoDate)
    && Convertible(t.columns[1], ToIsoDate)
    && (forall k | 3 <= k < 14 :: Passes(t.columns[k], ToFloat, true))
    && (forall i | 0 <= i < t.height :: t.columns[2][i].Str?)
  }

  /** The numeric loop over an ad frame: it passes exactly when each numeric
      column passes, and it keeps the campaign names. */
  lemma AdNumbersStep(s: Table, l: AdHeader)
    requires AdLayout(l) && WellFormed(s) && s.names == l.names
    ensures ConvertedAll(s, l.numeric, ToFloat, true).Some? <==> forall k | 3 <= k < 14 :: Passes(s.columns[k], ToFloat, true)
    ensures ConvertedAll(s, l.numeric, ToFloat, true).Some? ==>
              && ConvertedAll(s, l.numeric, ToFloat, true).value.columns[2] == s.columns[2]
              && Find(ConvertedAll(s, l.numeric, ToFloat, true).value.names, l.campaign) == Some(2)
  {
    ConvertedAllSucceeds(s, l.numeric, ToFloat, true);
    if forall k | 3 <= k < 14 :: Passes(s.columns[k], ToFloat, true) {
      forall n | n in l.numeric ensures n in s.names && Passes(s.columns[Find(s.names, n).value], ToFloat, true) {
        var j :| 0 <= j < |l.numeric| && l.numeric[j] == n;
        assert Find(l.names, l.names[j + 3]) == Some(j + 3);
      }
    }
    if forall n | n in l.numeric :: n in s.names && Passes(s.columns[Find(s.names, n).value], ToFloat, true) {
      forall k | 3 <= k < 14 ensures Passes(s.columns[k], ToFloat, true) {
        assert l.numeric[k - 3] in l.numeric;
        assert Find(l.names, l.names[k]) == Some(k);
      }
    }
    if ConvertedAll(s, l.numeric, ToFloat, true).Some? {
      ConvertedAllKeeps(s, l.numeric, ToFloat, true);
      forall j | 0 <= j < |l.numeric| ensures l.numeric[j] != l.names[2] {
        assert Find(l.names, l.names[j + 3]) == Some(j + 3);
      }
      assert Find(l.names, l.names[2]) == Some(2);
    }
  }

  /** What the last two ad steps demand of a frame: numbers in every
      numeric column of text, and text for every campaign name. */
  predicate AdTailDemands(s: Table)
    requires WellFormed(s) && |s.columns| == 14
  {
    && (forall k | 3 <= k < 14 :: Passes(s.columns[k], ToFloat, true))
    && (forall i | 0 <= i < s.height :: s.columns[2][i].Str?)
  }

  /** The last two ad steps, after the dates, pass exactly on a frame that
      meets their demands. */
  lemma AdTailAccept(s: Table, l: AdHeader)
    requires AdLayout(l) && WellFormed(s) && s.names == l.names
    ensures (var numbers :- ConvertedAll(s, l.numeric, ToFloat, true);
             Applied(numbers, l.campaign, l.line, CampaignCell)).Some?
            <==> AdTailDemands(s)
  {
    AdNumbersStep(s, l);
    if ConvertedAll(s, l.numeric, ToFloat, true).Some? {
      AppliedSucceeds(ConvertedAll(s, l.numeric, ToFloat, true).value, l.campaign, l.line, CampaignCell);
    }
  }

  /** The ad steps from the end date on. */
  lemma AdFinishAccept(s: Table, l: AdHeader)
    requires AdLayout(l) && WellFormed(s) && s.names == l.names
    ensures (var ended :- Converted(s, l.finish, ToIsoDate);
             var numbers :- ConvertedAll(ended, l.numeric, ToFloat, true);
             Applied(numbers, l.campaign, l.line, CampaignCell)).Some?
            <==> Convertible(s.columns[1], ToIsoDate) && AdTailDemands(s)
  {
    assert Find(s.names, l.finish) == Some(1);
    ConvertedStep(s, l.finish, ToIsoDate, 1);
    if Convertible(s.columns[1], ToIsoDate) {
      var next := Converted(s, l.finish, ToIsoDate).value;
      AdTailAccept(next, l);
      assert forall k | 2 <= k < 14 :: next.columns[k] == s.columns[k];
    }
  }

  /** The ad steps from the start date on. */
  lemma AdStartAccept(s: Table, l: AdHeader)
    requires AdLayout(l) && WellFormed(s) && s.names == l.names
    ensures (var started :- Converted(s, l.start, ToIsoDate);
             var ended :- Converted(started, l.finish, ToIsoDate);
             var numbers :- ConvertedAll(ended, l.numeric, ToFloat, true);
             Applied(numbers, l.campaign, l.line, CampaignCell)).Some?
            <==> Convertible(s.columns[0], ToIsoDate) && Convertible(s.columns[1], ToIsoDate) && AdTailDemands(s)
  {
    assert Find(s.names, l.start) == Some(0);
    ConvertedStep(s, l.start, ToIsoDate, 0);
    if Convertible(s.columns[0], ToIsoDate) {
      var next := Converted(s, l.start, ToIsoDate).value;
      AdFinishAccept(next, l);
      assert forall k | 1 <= k < 14 :: next.columns[k] == s.columns[k];
    }
  }

  /** The ad steps over any header of the ad layout accept exactly the
      exports that meet the loader's demands. */
  lemma AdStepsAccept(t: Table, l: AdHeader)
    requires AdLayout(l) && WellFormed(t)
    ensures (var renamed :- Renamed(t, l.names);
             var started :- Converted(renamed, l.start, ToIsoDate);
             var ended :- Converted(started, l.finish, ToIsoDate);
             var numbers :- ConvertedAll(ended, l.numeric, ToFloat, true);
             Applied(numbers, l.campaign, l.line, CampaignCell)).Some?
            <==> AdsAcceptable(t)
  {
    if |t.names| == 14 {
      AdStartAccept(Renamed(t, l.names).value, l);
    }
  }

  /** The ad loader accepts exactly the exports that meet its demands; on
      any other it raises. */
  lemma AdsAccepts(t: Table)
    requires WellFormed(t)
    ensures ProcessedAds(t).Some? <==> AdsAcceptable(t)
  {
    AdLayoutHolds();
    AdStepsAccept(t, AdNames);
  }

  // ---------------------------------------------------------------------
  // What the order loader produces
  // ---------------------------------------------------------------------

  /** The names the order loader works with: its header, the columns it
      converts, and the two it derives. */
  datatype OrderHeader = OrderHeader(names: seq<string>, id: string, date: string, product: string,
                                     quantity: string, prices: seq<string>, category: string, sale: string)

  const OrderNames := OrderHeader(OrderColumns, "pedido_id", "pedido_data", "produto_nome", "produto_quantidade",
                                  OrderNumeric, "categoria_produto", "tipo_venda")

  /** The shape of the order header: nine names without repetition at their
      positions, and the two derived columns not among them. The stage lemmas
      below are stated over any header of this shape. */
  predicate OrderLayout(l: OrderHeader) {
    && |l.names| == 9 && l.prices == [l.names[6], l.names[8]]
    && (forall j | 0 <= j < 9 :: Find(l.names, l.names[j]) == Some(j))
    && l.names[0] == l.id && l.names[1] == l.date && l.names[5] == l.product && l.names[7] == l.quantity
    && l.category !in l.names && l.sale !in l.names + [l.category]
  }

  /** The order header has that shape. */
  lemma OrderLayoutHolds()
    ensures OrderLayout(OrderNames)
  {
    OrderIndices();
    OrderHeaderFresh();
  }

  /** The stages of the order loader: each table is the one before it after
      one step, and `r` is the frame the loader returns. */
  predicate OrderStages(t: Table, l: OrderHeader, s0: Table, s1: Table, s2: Table, s3: Table, s4: Table, s5: Table,
                        r: Table) {
    && WellFormed(t)
    && Renamed(t, l.names) == Some(s0)
    && Converted(s0, l.id, ToInt) == Some(s1)
    && ConvertedAll(s1, l.prices, ToFloat, false) == Some(s2)
    && Converted(s2, l.quantity, ToInt) == Some(s3)
    && Converted(s3, l.date, ToDayFirstDate) == Some(s4)
    && Applied(s4, l.product, l.category, CategoryCell) == Some(s5)
    && Applied(s5, l.category, l.sale, SaleLineCell) == Some(r)
  }

  /** A frame the order loader accepts passes through its stages. */
  lemma OrderSteps(t: Table) returns (s0: Table, s1: Table, s2: Table, s3: Table, s4: Table, s5: Table)
    requires WellFormed(t) && ProcessedOrders(t).Some?
    ensures OrderStages(t, OrderNames, s0, s1, s2, s3, s4, s5, ProcessedOrders(t).value)
  {
    s0 := Renamed(t, OrderColumns).value;
    s1 := Converted(s0, "pedido_id", ToInt).value;
    s2 := ConvertedAll(s1, OrderNumeric, ToFloat, false).value;
    s3 := Converted(s2, "produto_quantidade", ToInt).value;
    s4 := Converted(s3, "pedido_data", ToDayFirstDate).value;
    s5 := Applied(s4, "produto_nome", "categoria_produto", CategoryCell).value;
  }

  /** An export with any number of columns but nine is rejected. */
  lemma OrdersRejectWidth(t: Table)
    requires WellFormed(t) && |t.names| != 9
    ensures ProcessedOrders(t).None?
  {
    assert Renamed(t, OrderColumns).None?;
  }

  /** The header and width of every stage. */
  lemma OrderStagesSchema(t: Table, l: OrderHeader, s0: Table, s1: Table, s2: Table, s3: Table, s4: Table,
                          s5: Table, r: Table)
    requires OrderLayout(l) && OrderStages(t, l, s0, s1, s2, s3, s4, s5, r)
    ensures s0.names == s1.names == s2.names == s3.names == s4.names == l.names
    ensures s0.columns == t.columns && |t.columns| == 9
    ensures s5.names == l.names + [l.category] && r.names == l.names + [l.category, l.sale]
    ensures WellFormed(s1) && WellFormed(s2) && WellFormed(s3) && WellFormed(s4) && WellFormed(s5) && WellFormed(r)
    ensures r.height == t.height && |s5.columns| == 10 && |r.columns| == 11
    ensures s5.columns[..9] == s4.columns && r.columns[..10] == s5.columns
  {
    AppliedKeeps(s4, l.product, l.category, CategoryCell);
    AppliedKeeps(s5, l.category, l.sale, SaleLineCell);
    assert l.names + [l.category] + [l.sale] == l.names + [l.category, l.sale];
  }

  /** The order loader keeps the rows, and its header is the nine renamed
      columns, `categoria_produto` and `tipo_venda`. */
  lemma OrdersSchema(t: Table)
    requires WellFormed(t) && ProcessedOrders(t).Some?
    ensures ProcessedOrders(t).value.names == OrderColumns + ["categoria_produto", "tipo_venda"]
    ensures ProcessedOrders(t).value.height == t.height
    ensures |ProcessedOrders(t).value.columns| == 11
  {
    var s0, s1, s2, s3, s4, s5 := OrderSteps(t);
    OrderLayoutHolds();
    OrderStagesSchema(t, OrderNames, s0, s1, s2, s3, s4, s5, ProcessedOrders(t).value);
  }

  /** The price loop passes exactly when both price columns convert. */
  lemma OrderPricesSucceed(s: Table, l: OrderHeader)
    requires OrderLayout(l) && WellFormed(s) && s.names == l.names
    ensures ConvertedAll(s, l.prices, ToFloat, false).Some?
            <==> Convertible(s.columns[6], ToFloat) && Convertible(s.columns[8], ToFloat)
  {
    ConvertedPair(s, l.names[6], l.names[8], ToFloat, 6, 8);
  }

  /** The price loop converts its two columns and keeps the others. */
  lemma OrderPricesStep(s: Table, l: OrderHeader)
    requires OrderLayout(l) && WellFormed(s) && s.names == l.names
    requires ConvertedAll(s, l.prices, ToFloat, false).Some?
    ensures var r := ConvertedAll(s, l.prices, ToFloat, false).value;
            && |r.columns| == 9
            && CellsConverted(s.columns[6], r.columns[6], ToFloat) && CellsConverted(s.columns[8], r.columns[8], ToFloat)
            && forall k | 0 <= k < 9 && k != 6 && k != 8 :: r.columns[k] == s.columns[k]
  {
    ConvertedPair(s, l.names[6], l.names[8], ToFloat, 6, 8);
  }

  /** Which step last writes each of the nine columns. */
  lemma OrderStagesKeep(t: Table, l: OrderHeader, s0: Table, s1: Table, s2: Table, s3: Table, s4: Table,
                        s5: Table, r: Table)
    requires OrderLayout(l) && OrderStages(t, l, s0, s1, s2, s3, s4, s5, r)
    ensures |r.columns| == 11 && |s1.columns| == 9 && |s2.columns| == 9 && |s3.columns| == 9 && |s4.columns| == 9
    ensures forall k | 0 <= k < 9 :: r.columns[k] == s4.columns[k]
    ensures forall k | 0 <= k < 9 && k != 1 :: s4.columns[k] == s3.columns[k]
    ensures forall k | 0 <= k < 9 && k != 7 :: s3.columns[k] == s2.columns[k]
    ensures forall k | 0 <= k < 9 && k != 6 && k != 8 :: s2.columns[k] == s1.columns[k]
    ensures forall k | 1 <= k < 9 :: s1.columns[k] == t.columns[k]
    ensures CellsConverted(s1.columns[6], s2.columns[6], ToFloat) && CellsConverted(s1.columns[8], s2.columns[8], ToFloat)
  {
    OrderStagesSchema(t, l, s0, s1, s2, s3, s4, s5, r);
    assert Find(s0.names, l.id) == Some(0) && Find(s2.names, l.quantity) == Some(7);
    assert Find(s3.names, l.date) == Some(1);
    ConvertedStep(s0, l.id, ToInt, 0);
    OrderPricesStep(s1, l);
    ConvertedStep(s2, l.quantity, ToInt, 7);
    ConvertedStep(s3, l.date, ToDayFirstDate, 1);
    forall k | 0 <= k < 9 ensures r.columns[k] == s4.columns[k] {
      assert r.columns[k] == r.columns[..10][k] == s5.columns[k] == s5.columns[..9][k];
    }
  }

  lemma OrderStagesNumbers(t: Table, l: OrderHeader, s0: Table, s1: Table, s2: Table, s3: Table, s4: Table,
                           s5: Table, r: Table)
    requires OrderLayout(l) && OrderStages(t, l, s0, s1, s2, s3, s4, s5, r)
    ensures |r.columns| == 11 && WellFormed(r) && r.height == t.height && |t.columns| == 9
    ensures && CellsConverted(t.columns[0], r.columns[0], ToInt) && CellsConverted(t.columns[6], r.columns[6], ToFloat)
            && CellsConverted(t.columns[7], r.columns[7], ToInt) && CellsConverted(t.columns[8], r.columns[8], ToFloat)
  {
    OrderStagesSchema(t, l, s0, s1, s2, s3, s4, s5, r);
    OrderStagesKeep(t, l, s0, s1, s2, s3, s4, s5, r);
    assert Find(s0.names, l.id) == Some(0) && Find(s2.names, l.quantity) == Some(7);
    forall i | 0 <= i < t.height
      ensures ConvertCell(t.columns[0][i], ToInt) == Some(r.columns[0][i])
      ensures ConvertCell(t.columns[7][i], ToInt) == Some(r.columns[7][i])
    {
      ConvertedAt(s0, l.id, ToInt, 0, i);
      ConvertedAt(s2, l.quantity, ToInt, 7, i);
    }
  }

  /** In an accepted order frame the order number and the quantity are the
      exported ones read as integers, and the two prices are read as numbers
      with a comma or a point as the decimal separator. */
  lemma OrdersNumbers(t: Table)
    requires WellFormed(t) && ProcessedOrders(t).Some?
    ensures var r := ProcessedOrders(t).value;
            && |r.columns| == 11 && |t.columns| == 9
            && CellsConverted(t.columns[0], r.columns[0], ToInt) && CellsConverted(t.columns[6], r.columns[6], ToFloat)
            && CellsConverted(t.columns[7], r.columns[7], ToInt) && CellsConverted(t.columns[8], r.columns[8], ToFloat)
  {
    var s0, s1, s2, s3, s4, s5 := OrderSteps(t);
    OrderLayoutHolds();
    OrderStagesNumbers(t, OrderNames, s0, s1, s2, s3, s4, s5, ProcessedOrders(t).value);
  }

  lemma OrderStagesDates(t: Table, l: OrderHeader, s0: Table, s1: Table, s2: Table, s3: Table, s4: Table,
                         s5: Table, r: Table)
    requires OrderLayout(l) && OrderStages(t, l, s0, s1, s2, s3, s4, s5, r)
    ensures |r.columns| == 11 && WellFormed(r) && r.height == t.height && |t.columns| == 9
    ensures (forall k | 2 <= k < 6 :: r.columns[k] == t.columns[k])
            && CellsConverted(t.columns[1], r.columns[1], ToDayFirstDate)
  {
    OrderStagesSchema(t, l, s0, s1, s2, s3, s4, s5, r);
    OrderStagesKeep(t, l, s0, s1, s2, s3, s4, s5, r);
    assert Find(s3.names, l.date) == Some(1);
    forall i | 0 <= i < t.height ensures ConvertCell(t.columns[1][i], ToDayFirstDate) == Some(r.columns[1][i]) {
      ConvertedAt(s3, l.date, ToDayFirstDate, 1, i);
    }
  }

  /** In an accepted order frame the order date is the exported date read as
      `DD/MM/YYYY`, and the time, status, state and product name are kept as
      exported. */
  lemma OrdersDates(t: Table)
    requires WellFormed(t) && ProcessedOrders(t).Some?
    ensures var r := ProcessedOrders(t).value;
            && |r.columns| == 11 && |t.columns| == 9
            && (forall k | 2 <= k < 6 :: r.columns[k] == t.columns[k])
            && CellsConverted(t.columns[1], r.columns[1], ToDayFirstDate)
  {
    var s0, s1, s2, s3, s4, s5 := OrderSteps(t);
    OrderLayoutHolds();
    OrderStagesDates(t, OrderNames, s0, s1, s2, s3, s4, s5, ProcessedOrders(t).value);
  }

  lemma OrderStagesLines(t: Table, l: OrderHeader, s0: Table, s1: Table, s2: Table, s3: Table, s4: Table,
                         s5: Table, r: Table)
    requires OrderLayout(l) && OrderStages(t, l, s0, s1, s2, s3, s4, s5, r)
    ensures |r.columns| == 11 && WellFormed(r) && r.height == t.height && |t.columns| == 9
    ensures CellsApplied(t.columns[5], r.columns[9], CategoryCell) && CellsApplied(r.columns[9], r.columns[10], SaleLineCell)
  {
    OrderStagesSchema(t, l, s0, s1, s2, s3, s4, s5, r);
    OrderStagesKeep(t, l, s0, s1, s2, s3, s4, s5, r);
    assert Find(s4.names, l.product) == Some(5);
    assert Find(s5.names, l.category) == Some(9) by {
      assert s5.names[9] == l.category && s5.names[..9] == l.names;
      FindAt(s5.names, l.category, 9);
    }
    assert r.columns[9] == r.columns[..10][9];
    forall i | 0 <= i < t.height
      ensures CategoryCell(t.columns[5][i]) == Some(r.columns[9][i])
      ensures SaleLineCell(r.columns[9][i]) == Some(r.columns[10][i])
    {
      AppliedAt(s4, l.product, l.category, CategoryCell, 5, i);
      AppliedAt(s5, l.category, l.sale, SaleLineCell, 9, i);
    }
  }

  /** The two derived columns spelled out: every product name is text, its
      category sits beside it, and the line of that category beside that. */
  lemma CategoryLines(products: seq<Cell>, categories: seq<Cell>, lines: seq<Cell>)
    requires CellsApplied(products, categories, CategoryCell) && CellsApplied(categories, lines, SaleLineCell)
    ensures |categories| == |lines| == |products|
    ensures forall i | 0 <= i < |products| ::
              && products[i].Str?
              && categories[i] == Str(Categorize(products[i].s))
              && lines[i] == Str(SaleLine(Categorize(products[i].s)))
  {
    forall i | 0 <= i < |products|
      ensures && products[i].Str?
              && categories[i] == Str(Categorize(products[i].s))
              && lines[i] == Str(SaleLine(Categorize(products[i].s)))
    {
      assert CategoryCell(products[i]) == Some(categories[i]);
      assert SaleLineCell(categories[i]) == Some(lines[i]);
    }
  }

  /** In an accepted order frame every product name is text,
      `categoria_produto` is its category, and `tipo_venda` is the line of
      that category, on the same row. */
  lemma OrdersLines(t: Table)
    requires WellFormed(t) && ProcessedOrders(t).Some?
    ensures var r := ProcessedOrders(t).value;
            && |r.columns| == 11
            && forall i | 0 <= i < t.height ::
                 && t.columns[5][i].Str?
                 && r.columns[9][i] == Str(Categorize(t.columns[5][i].s))
                 && r.columns[10][i] == Str(SaleLine(Categorize(t.columns[5][i].s)))
  {
    var s0, s1, s2, s3, s4, s5 := OrderSteps(t);
    var r := ProcessedOrders(t).value;
    OrderLayoutHolds();
    OrderStagesLines(t, OrderNames, s0, s1, s2, s3, s4, s5, r);
    CategoryLines(t.columns[5], r.columns[9], r.columns[10]);
  }

  /** What the order loader demands of an export: nine columns, integers
      for the order number and the quantity, numbers for the two prices, a
      date in `DD/MM/YYYY` form, and text for every product name. */
  predicate OrdersAcceptable(t: Table)
    requires WellFormed(t)
  {
    && |t.names| == 9
    && Convertible(t.columns[0], ToInt)
    && Convertible(t.columns[6], ToFloat) && Convertible(t.columns[8], ToFloat)
    && Convertible(t.columns[7], ToInt)
    && Convertible(t.columns[1], ToDayFirstDate)
    && (forall i | 0 <= i < t.height :: t.columns[5][i].Str?)
  }

  /** The two derived columns pass exactly when every product name is
      text. */
  lemma OrderLinesAccept(s: Table, l: OrderHeader)
    requires OrderLayout(l) && WellFormed(s) && s.names == l.names
    ensures (var categorized :- Applied(s, l.product, l.category, CategoryCell);
             Applied(categorized, l.category, l.sale, SaleLineCell)).Some?
            <==> forall i | 0 <= i < s.height :: s.columns[5][i].Str?
  {
    assert Find(s.names, l.product) == Some(5);
    AppliedSucceeds(s, l.product, l.category, CategoryCell);
    if Applied(s, l.product, l.category, CategoryCell).Some? {
      AppliedSucceeds(Applied(s, l.product, l.category, CategoryCell).value, l.category, l.sale, SaleLineCell);
    }
  }

  /** The order steps from the date on. */
  lemma OrderDateAccept(s: Table, l: OrderHeader)
    requires OrderLayout(l) && WellFormed(s) && s.names == l.names
    ensures (var dated :- Converted(s, l.date, ToDayFirstDate);
             var categorized :- Applied(dated, l.product, l.category, CategoryCell);
             Applied(categorized, l.category, l.sale, SaleLineCell)).Some?
            <==> Convertible(s.columns[1], ToDayFirstDate) && forall i | 0 <= i < s.height :: s.columns[5][i].Str?
  {
    assert Find(s.names, l.date) == Some(1);
    ConvertedStep(s, l.date, ToDayFirstDate, 1);
    if Convertible(s.columns[1], ToDayFirstDate) {
      var next := Converted(s, l.date, ToDayFirstDate).value;
      OrderLinesAccept(next, l);
      assert next.columns[5] == s.columns[5];
    }
  }

  /** The order steps from the quantity on. */
  lemma OrderQuantityAccept(s: Table, l: OrderHeader)
    requires OrderLayout(l) && WellFormed(s) && s.names == l.names
    ensures (var counted :- Converted(s, l.quantity, ToInt);
             var dated :- Converted(counted, l.date, ToDayFirstDate);
             var categorized :- Applied(dated, l.product, l.category, CategoryCell);
             Applied(categorized, l.category, l.sale, SaleLineCell)).Some?
            <==> && Convertible(s.columns[7], ToInt) && Convertible(s.columns[1], ToDayFirstDate)
                 && forall i | 0 <= i < s.height :: s.columns[5][i].Str?
  {
    assert Find(s.names, l.quantity) == Some(7);
    ConvertedStep(s, l.quantity, ToInt, 7);
    if Convertible(s.columns[7], ToInt) {
      var next := Converted(s, l.quantity, ToInt).value;
      OrderDateAccept(next, l);
      assert next.columns[1] == s.columns[1] && next.columns[5] == s.columns[5];
    }
  }

  /** The order steps from the prices on. */
  lemma OrderPricesAccept(s: Table, l: OrderHeader)
    requires OrderLayout(l) && WellFormed(s) && s.names == l.names
    ensures (var prices :- ConvertedAll(s, l.prices, ToFloat, false);
             var counted :- Converted(prices, l.quantity, ToInt);
             var dated :- Converted(counted, l.date, ToDayFirstDate);
             var categorized :- Applied(dated, l.product, l.category, CategoryCell);
             Applied(categorized, l.category, l.sale, SaleLineCell)).Some?
            <==> && Convertible(s.columns[6], ToFloat) && Convertible(s.columns[8], ToFloat)
                 && Convertible(s.columns[7], ToInt) && Convertible(s.columns[1], ToDayFirstDate)
                 && forall i | 0 <= i < s.height :: s.columns[5][i].Str?
  {
    OrderPricesSucceed(s, l);
    if ConvertedAll(s, l.prices, ToFloat, false).Some? {
      var next := ConvertedAll(s, l.prices, ToFloat, false).value;
      OrderPricesStep(s, l);
      OrderQuantityAccept(next, l);
      assert next.columns[1] == s.columns[1] && next.columns[5] == s.columns[5] && next.columns[7] == s.columns[7];
    }
  }

  /** The order steps from the order number on. */
  lemma OrderIdAccept(s: Table, l: OrderHeader)
    requires OrderLayout(l) && WellFormed(s) && s.names == l.names
    ensures (var ids :- Converted(s, l.id, ToInt);
             var prices :- ConvertedAll(ids, l.prices, ToFloat, false);
             var counted :- Converted(prices, l.quantity, ToInt);
             var dated :- Converted(counted, l.date, ToDayFirstDate);
             var categorized :- Applied(dated, l.product, l.category, CategoryCell);
             Applied(categorized, l.category, l.sale, SaleLineCell)).Some?
            <==> && Convertible(s.columns[0], ToInt)
                 && Convertible(s.columns[6], ToFloat) && Convertible(s.columns[8], ToFloat)
                 && Convertible(s.columns[7], ToInt) && Convertible(s.columns[1], ToDayFirstDate)
                 && forall i | 0 <= i < s.height :: s.columns[5][i].Str?
  {
    assert Find(s.names, l.id) == Some(0);
    ConvertedStep(s, l.id, ToInt, 0);
    if Convertible(s.columns[0], ToInt) {
      var next := Converted(s, l.id, ToInt).value;
      OrderPricesAccept(next, l);
      assert next.names == s.names && next.height == s.height;
      assert next.columns[1] == s.columns[1] && next.columns[5] == s.columns[5];
      assert next.columns[6] == s.columns[6] && next.columns[7] == s.columns[7] && next.columns[8] == s.columns[8];
    }
  }

  /** The order steps over any header of the order layout accept exactly the
      exports that meet the loader's demands. */
  lemma OrderStepsAccept(t: Table, l: OrderHeader)
    requires OrderLayout(l) && WellFormed(t)
    ensures (var renamed :- Renamed(t, l.names);
             var ids :- Converted(renamed, l.id, ToInt);
             var prices :- ConvertedAll(ids, l.prices, ToFloat, false);
             var counted :- Converted(prices, l.quantity, ToInt);
             var dated :- Converted(counted, l.date, ToDayFirstDate);
             var categorized :- Applied(dated, l.product, l.category, CategoryCell);
             Applied(categorized, l.category, l.sale, SaleLineCell)).Some?
            <==> OrdersAcceptable(t)
  {
    if |t.names| == 9 {
      OrderIdAccept(Renamed(t, l.names).value, l);
    }
  }

  /** The order loader accepts exactly the exports that meet its demands; on
      any other it raises. */
  lemma OrdersAccepts(t: Table)
    requires WellFormed(t)
    ensures ProcessedOrders(t).Some? <==> OrdersAcceptable(t)
  {
    OrderLayoutHolds();
    OrderStepsAccept(t, OrderNames);
  }
}
