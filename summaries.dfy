/** The summary statistics of the dashboard (`get_orders_summary`,
    `get_ads_summary`) over tables of typed rows. Money and the campaign
    metrics are `real`, so sums and rates are exact rather than floating
    point. */
module Summaries {
  import opened Wrappers
  import opened Text
  import opened Categories
  import opened Filtering
  import opened Folds

  // ---------------------------------------------------------------------
  // Orders
  // ---------------------------------------------------------------------

  /** One product line of an order, with the two derived columns
      `categoria_produto` and `tipo_venda`. */
  datatype OrderLine = OrderLine(
    orderId: int,         // pedido_id (shared by the lines of one order)
    date: Date,           // pedido_data
    time: string,         // pedido_hora
    status: string,       // pedido_status
    state: string,        // envio_estado
    product: string,      // produto_nome
    unitPrice: real,      // produto_valor_unitario
    quantity: int,        // produto_quantidade
    total: real,          // produto_valor_total
    category: string,     // categoria_produto
    saleLine: string)     // tipo_venda

  /** The derived columns agree with the product name, as the loader
      computes them. */
  predicate WellTagged(l: OrderLine) {
    l.category == Categorize(l.product) && l.saleLine == SaleLine(l.category)
  }

  // The columns, as projections.
  function OrderIdOf(l: OrderLine): int { l.orderId }
  function OrderDate(l: OrderLine): Date { l.date }
  function StatusOf(l: OrderLine): string { l.status }
  function StateOf(l: OrderLine): string { l.state }
  function QuantityOf(l: OrderLine): int { l.quantity }
  function LineTotalOf(l: OrderLine): real { l.total }
  function CategoryOf(l: OrderLine): string { l.category }
  function SaleLineOf(l: OrderLine): string { l.saleLine }

  datatype OrdersSummary = OrdersSummary(
    totalOrders: nat,                   // total_pedidos
    totalSales: real,                   // total_vendas
    averageTicket: Option<real>,        // ticket_medio, None when there is no order
    itemsSold: int,                     // produtos_vendidos
    statusCounts: map<string, nat>,     // status_counts
    salesByState: map<string, real>,    // vendas_por_estado
    salesByCategory: map<string, real>, // vendas_por_categoria
    salesByDay: map<Date, real>)        // vendas_por_dia

  /** `get_orders_summary`. The average ticket divides the revenue by the
      number of distinct orders, and is absent for a table without orders. */
  function SummarizeOrders(rows: seq<OrderLine>): (s: OrdersSummary)
    ensures s.averageTicket.Some? <==> rows != []
    ensures s.averageTicket.Some? ==> s.averageTicket.value * s.totalOrders as real == s.totalSales
  {
    var orders := |Values(rows, OrderIdOf)|;
    var sales := Sum(rows, LineTotalOf);
    ValuesEmpty(rows, OrderIdOf);
    OrdersSummary(
      orders,
      sales,
      if orders > 0 then Some(sales / orders as real) else None,
      SumInt(rows, QuantityOf),
      GroupDistinctCount(rows, StatusOf, OrderIdOf),
      GroupSum(rows, StateOf, LineTotalOf),
      GroupSum(rows, CategoryOf, LineTotalOf),
      GroupSum(rows, OrderDate, LineTotalOf))
  }

  /** `total_pedidos` counts orders, not lines: it never exceeds the number
      of lines, is zero only for an empty table, and a line whose order is
      already counted does not change it while a line of a new order adds
      one. */
  lemma OrderCount(rows: seq<OrderLine>, l: OrderLine)
    ensures SummarizeOrders(rows).totalOrders <= |rows|
    ensures SummarizeOrders(rows).totalOrders == 0 <==> rows == []
    ensures (exists i | 0 <= i < |rows| :: rows[i].orderId == l.orderId)
            ==> SummarizeOrders(rows + [l]).totalOrders == SummarizeOrders(rows).totalOrders
    ensures (forall i | 0 <= i < |rows| :: rows[i].orderId != l.orderId)
            ==> SummarizeOrders(rows + [l]).totalOrders == SummarizeOrders(rows).totalOrders + 1
  {
    ValuesBound(rows, OrderIdOf);
    ValuesEmpty(rows, OrderIdOf);
    ValuesAppend(rows, [l], OrderIdOf);
    ValuesSingleton(l, OrderIdOf);
    if exists i | 0 <= i < |rows| :: rows[i].orderId == l.orderId {
      var i :| 0 <= i < |rows| && rows[i].orderId == l.orderId;
      assert OrderIdOf(rows[i]) == OrderIdOf(l);
      ValuesRepeat(rows, l, OrderIdOf);
    } else {
      assert OrderIdOf(l) !in Values(rows, OrderIdOf);
    }
  }

  /** Revenue and units sold add up over disjoint parts of the table. */
  lemma OrderTotalsAdditive(a: seq<OrderLine>, b: seq<OrderLine>)
    ensures SummarizeOrders(a + b).totalSales == SummarizeOrders(a).totalSales + SummarizeOrders(b).totalSales
    ensures SummarizeOrders(a + b).itemsSold == SummarizeOrders(a).itemsSold + SummarizeOrders(b).itemsSold
    ensures SummarizeOrders(a + b).totalOrders <= SummarizeOrders(a).totalOrders + SummarizeOrders(b).totalOrders
  {
    SumAppend(a, b, LineTotalOf);
    SumIntAppend(a, b, QuantityOf);
    ValuesAppend(a, b, OrderIdOf);
  }

  /** Every breakdown is keyed by exactly the values found in its column. */
  lemma BreakdownKeys(rows: seq<OrderLine>)
    ensures SummarizeOrders(rows).statusCounts.Keys == Values(rows, StatusOf)
    ensures SummarizeOrders(rows).salesByState.Keys == Values(rows, StateOf)
    ensures SummarizeOrders(rows).salesByCategory.Keys == Values(rows, CategoryOf)
    ensures SummarizeOrders(rows).salesByDay.Keys == Values(rows, OrderDate)
  {
    GroupValuesKeys(rows, StatusOf, OrderIdOf);
    GroupSumKeys(rows, StateOf, LineTotalOf);
    GroupSumKeys(rows, CategoryOf, LineTotalOf);
    GroupSumKeys(rows, OrderDate, LineTotalOf);
  }

  /** The per-state, per-category and per-day revenue each add up to the
      total revenue. */
  lemma BreakdownTotals(rows: seq<OrderLine>)
    ensures MapTotal(SummarizeOrders(rows).salesByState) == SummarizeOrders(rows).totalSales
    ensures MapTotal(SummarizeOrders(rows).salesByCategory) == SummarizeOrders(rows).totalSales
    ensures MapTotal(SummarizeOrders(rows).salesByDay) == SummarizeOrders(rows).totalSales
  {
    GroupSumTotal(rows, StateOf, LineTotalOf);
    GroupSumTotal(rows, CategoryOf, LineTotalOf);
    GroupSumTotal(rows, OrderDate, LineTotalOf);
  }

  /** A status count is the number of distinct orders among the lines with
      that status, which is at most the number of all orders. An order whose
      lines have different statuses counts under each of them. */
  lemma StatusCountAgreesWithFilter(rows: seq<OrderLine>, status: string)
    requires status in SummarizeOrders(rows).statusCounts
    ensures SummarizeOrders(rows).statusCounts[status]
            == SummarizeOrders(Filter(rows, StatusOf, status)).totalOrders
    ensures SummarizeOrders(rows).statusCounts[status] <= SummarizeOrders(rows).totalOrders
  {
    GroupDistinctCountAt(rows, StatusOf, OrderIdOf, status);
    FilterValuesBound(rows, StatusOf, status, OrderIdOf);
  }

  /** A state's entry in the state breakdown is the revenue of the summary of
      that state's lines. */
  lemma StateSalesAgreeWithFilter(rows: seq<OrderLine>, state: string)
    requires state in SummarizeOrders(rows).salesByState
    ensures SummarizeOrders(rows).salesByState[state]
            == SummarizeOrders(Filter(rows, StateOf, state)).totalSales
  {
    GroupSumAt(rows, StateOf, LineTotalOf, state);
  }

  /** A category's entry in the category breakdown is the revenue of the
      summary of that category's lines. */
  lemma CategorySalesAgreeWithFilter(rows: seq<OrderLine>, category: string)
    requires category in SummarizeOrders(rows).salesByCategory
    ensures SummarizeOrders(rows).salesByCategory[category]
            == SummarizeOrders(Filter(rows, CategoryOf, category)).totalSales
  {
    GroupSumAt(rows, CategoryOf, LineTotalOf, category);
  }

  /** A day's entry in the daily breakdown is the revenue of the summary of
      that day's lines. */
  lemma DaySalesAgreeWithFilter(rows: seq<OrderLine>, day: Date)
    requires day in SummarizeOrders(rows).salesByDay
    ensures SummarizeOrders(rows).salesByDay[day] == SummarizeOrders(Filter(rows, OrderDate, day)).totalSales
  {
    GroupSumAt(rows, OrderDate, LineTotalOf, day);
  }

  /** Lines tagged as the loader tags them carry one of the seven categories
      and one of the two sale lines. */
  lemma WellTaggedLines(rows: seq<OrderLine>)
    requires forall i | 0 <= i < |rows| :: WellTagged(rows[i])
    ensures forall i | 0 <= i < |rows| :: CategoryOf(rows[i]) in AllCategories
    ensures forall i | 0 <= i < |rows| :: SaleLineOf(rows[i]) == Institute || SaleLineOf(rows[i]) == Ecommerce
  {
    forall i | 0 <= i < |rows|
      ensures CategoryOf(rows[i]) in AllCategories
      ensures SaleLineOf(rows[i]) == Institute || SaleLineOf(rows[i]) == Ecommerce
    {
      assert WellTagged(rows[i]);
    }
  }

  /** The category breakdown of lines whose categories are among the seven
      uses only those seven. */
  lemma CategoryBreakdownKeys(rows: seq<OrderLine>)
    requires forall i | 0 <= i < |rows| :: CategoryOf(rows[i]) in AllCategories
    ensures SummarizeOrders(rows).salesByCategory.Keys <= AllCategories
  {
    BreakdownKeys(rows);
  }

  /** When every line is in the institute or the e-commerce segment
      (`filter_dataframe(df, 'tipo_venda', ...)`), the two segments split the
      revenue between them. */
  lemma SegmentsSplitSales(rows: seq<OrderLine>)
    requires forall i | 0 <= i < |rows| :: SaleLineOf(rows[i]) == Institute || SaleLineOf(rows[i]) == Ecommerce
    ensures SummarizeOrders(Filter(rows, SaleLineOf, Institute)).totalSales
            + SummarizeOrders(Filter(rows, SaleLineOf, Ecommerce)).totalSales
            == SummarizeOrders(rows).totalSales
  {
    assert Institute[0] != Ecommerce[0];
    SumSplit(rows, SaleLineOf, Institute, Ecommerce, LineTotalOf);
  }

  /** Two orders of two lines each: 2 units at 100.00, and 1 unit at 25.00. */
  lemma OrdersExample()
    ensures var d := Date(2025, 4, 5);
            var a := OrderLine(1, d, "10:00", "Entregue", "SP", "Café Especial", 100.0, 2, 200.0, Coffee, Ecommerce);
            var b := OrderLine(1, d, "10:00", "Entregue", "SP", "Kit Presente", 25.0, 1, 25.0, Kits, Ecommerce);
            var c := OrderLine(2, d, "11:30", "Entregue", "RJ", "Café Especial", 100.0, 2, 200.0, Coffee, Ecommerce);
            var e := OrderLine(2, d, "11:30", "Entregue", "RJ", "Kit Presente", 25.0, 1, 25.0, Kits, Ecommerce);
            var s := SummarizeOrders([a, b, c, e]);
            s.totalOrders == 2 && s.totalSales == 450.0 && s.averageTicket == Some(225.0) && s.itemsSold == 6
  {
    var d := Date(2025, 4, 5);
    var a := OrderLine(1, d, "10:00", "Entregue", "SP", "Café Especial", 100.0, 2, 200.0, Coffee, Ecommerce);
    var b := OrderLine(1, d, "10:00", "Entregue", "SP", "Kit Presente", 25.0, 1, 25.0, Kits, Ecommerce);
    var c := OrderLine(2, d, "11:30", "Entregue", "RJ", "Café Especial", 100.0, 2, 200.0, Coffee, Ecommerce);
    var e := OrderLine(2, d, "11:30", "Entregue", "RJ", "Kit Presente", 25.0, 1, 25.0, Kits, Ecommerce);
    var rows := [a, b, c, e];
    assert rows[..3] == [a, b, c] && [a, b, c][..2] == [a, b] && [a, b][..1] == [a] && [a][..0] == [];
    assert Sum([a], LineTotalOf) == 200.0;
    assert Sum([a, b], LineTotalOf) == 225.0;
    assert Sum([a, b, c], LineTotalOf) == 425.0;
    assert Sum(rows, LineTotalOf) == 450.0;
    assert SumInt([a], QuantityOf) == 2;
    assert SumInt([a, b], QuantityOf) == 3;
    assert SumInt([a, b, c], QuantityOf) == 5;
    assert SumInt(rows, QuantityOf) == 6;
    assert Values(rows, OrderIdOf) == {1, 2} by {
      assert OrderIdOf(rows[0]) == 1 && OrderIdOf(rows[2]) == 2;
    }
    assert |{1, 2}| == 2;
  }

  // ---------------------------------------------------------------------
  // Campaigns
  // ---------------------------------------------------------------------

  /** One campaign row, with the derived column `tipo_campanha`. The
      numeric columns are decimals once the loader has rewritten them. */
  datatype Campaign = Campaign(
    start: Date,            // data_inicio
    end: Date,              // data_fim
    name: string,           // nome_campanha
    reach: real,            // alcance
    impressions: real,      // impressoes
    cpm: real,              // cpm
    clicks: real,           // cliques
    cpc: real,              // cpc
    pageViews: real,        // views_pagina
    costPerPageView: real,  // custo_view_pagina
    cartAdds: real,         // adicoes_carrinho, the conversions
    costPerCartAdd: real,   // custo_adicao_carrinho
    cartValue: real,        // valor_conversao_carrinho
    spent: real,            // valor_gasto
    line: string)           // tipo_campanha

  function SpentOf(c: Campaign): real { c.spent }
  function ImpressionsOf(c: Campaign): real { c.impressions }
  function ClicksOf(c: Campaign): real { c.clicks }
  function CartAddsOf(c: Campaign): real { c.cartAdds }
  function LineOf(c: Campaign): string { c.line }

  datatype AdsSummary = AdsSummary(
    totalSpent: real,                     // total_gasto
    totalImpressions: real,               // total_impressoes
    totalClicks: real,                    // total_cliques
    totalConversions: real,               // total_conversoes
    ctr: real,                            // ctr, a percentage
    conversionRate: real,                 // taxa_conversao, a percentage
    spentByLine: map<string, real>,       // gasto_por_tipo
    conversionsByLine: map<string, real>) // conv_por_tipo

  /** `part / whole * 100`, and 0 when `whole` is not positive. */
  function Percentage(part: real, whole: real): (p: real)
    ensures whole <= 0.0 ==> p == 0.0
    ensures whole > 0.0 ==> p * whole == part * 100.0
  {
    if whole > 0.0 then part / whole * 100.0 else 0.0
  }

  /** A share of a positive whole is a percentage between 0 and 100. */
  lemma PercentageBounds(part: real, whole: real)
    requires 0.0 <= part <= whole
    ensures 0.0 <= Percentage(part, whole) <= 100.0
  {
    if whole > 0.0 {
      var q := part / whole;
      assert q * whole == part;
      assert q <= 1.0;
    }
  }

  /** `get_ads_summary`. The click-through and conversion rates are 0 when
      their denominator (impressions, clicks) is not positive. */
  function SummarizeAds(rows: seq<Campaign>): (s: AdsSummary)
    ensures s.totalImpressions <= 0.0 ==> s.ctr == 0.0
    ensures s.totalImpressions > 0.0 ==> s.ctr * s.totalImpressions == s.totalClicks * 100.0
    ensures s.totalClicks <= 0.0 ==> s.conversionRate == 0.0
    ensures s.totalClicks > 0.0 ==> s.conversionRate * s.totalClicks == s.totalConversions * 100.0
  {
    var impressions := Sum(rows, ImpressionsOf);
    var clicks := Sum(rows, ClicksOf);
    var conversions := Sum(rows, CartAddsOf);
    AdsSummary(
      Sum(rows, SpentOf),
      impressions,
      clicks,
      conversions,
      Percentage(clicks, impressions),
      Percentage(conversions, clicks),
      GroupSum(rows, LineOf, SpentOf),
      GroupSum(rows, LineOf, CartAddsOf))
  }

  /** Campaigns that were never shown give a click-through rate of 0, not a
      division by zero. */
  lemma NoImpressionsNoCtr(rows: seq<Campaign>)
    requires forall i | 0 <= i < |rows| :: rows[i].impressions == 0.0
    ensures SummarizeAds(rows).ctr == 0.0
  {
    SumZero(rows, ImpressionsOf);
  }

  /** When no campaign is clicked more often than shown, the click-through
      rate is a percentage between 0 and 100; with non-negative counts the
      conversion rate is never negative. */
  lemma RatesBounded(rows: seq<Campaign>)
    requires forall i | 0 <= i < |rows| :: 0.0 <= rows[i].clicks <= rows[i].impressions
    requires forall i | 0 <= i < |rows| :: rows[i].cartAdds >= 0.0
    ensures 0.0 <= SummarizeAds(rows).ctr <= 100.0
    ensures SummarizeAds(rows).conversionRate >= 0.0
  {
    SumNonNegative(rows, ClicksOf);
    SumNonNegative(rows, CartAddsOf);
    SumMonotone(rows, ClicksOf, ImpressionsOf);
    PercentageBounds(Sum(rows, ClicksOf), Sum(rows, ImpressionsOf));
    var clicks := Sum(rows, ClicksOf);
    if clicks > 0.0 {
      var conversions := Sum(rows, CartAddsOf);
      assert conversions / clicks >= 0.0;
    }
  }

  /** The campaign totals add up over disjoint parts of the table. */
  lemma AdsTotalsAdditive(a: seq<Campaign>, b: seq<Campaign>)
    ensures SummarizeAds(a + b).totalSpent == SummarizeAds(a).totalSpent + SummarizeAds(b).totalSpent
    ensures SummarizeAds(a + b).totalImpressions
            == SummarizeAds(a).totalImpressions + SummarizeAds(b).totalImpressions
    ensures SummarizeAds(a + b).totalClicks == SummarizeAds(a).totalClicks + SummarizeAds(b).totalClicks
    ensures SummarizeAds(a + b).totalConversions
            == SummarizeAds(a).totalConversions + SummarizeAds(b).totalConversions
  {
    SumAppend(a, b, SpentOf);
    SumAppend(a, b, ImpressionsOf);
    SumAppend(a, b, ClicksOf);
    SumAppend(a, b, CartAddsOf);
  }

  /** The per-line breakdowns are keyed by the campaign lines present, add up
      to the totals, and each entry is the total of the summary of that
      line's campaigns (`filter_dataframe(df, 'tipo_campanha', ...)`). */
  lemma LineBreakdowns(rows: seq<Campaign>, line: string)
    ensures SummarizeAds(rows).spentByLine.Keys == Values(rows, LineOf)
    ensures SummarizeAds(rows).conversionsByLine.Keys == Values(rows, LineOf)
    ensures MapTotal(SummarizeAds(rows).spentByLine) == SummarizeAds(rows).totalSpent
    ensures MapTotal(SummarizeAds(rows).conversionsByLine) == SummarizeAds(rows).totalConversions
    ensures line in Values(rows, LineOf) ==>
            SummarizeAds(rows).spentByLine[line] == SummarizeAds(Filter(rows, LineOf, line)).totalSpent
    ensures line in Values(rows, LineOf) ==>
            SummarizeAds(rows).conversionsByLine[line]
            == SummarizeAds(Filter(rows, LineOf, line)).totalConversions
  {
    GroupSumKeys(rows, LineOf, SpentOf);
    GroupSumKeys(rows, LineOf, CartAddsOf);
    GroupSumTotal(rows, LineOf, SpentOf);
    GroupSumTotal(rows, LineOf, CartAddsOf);
    if line in Values(rows, LineOf) {
      GroupSumAt(rows, LineOf, SpentOf, line);
      GroupSumAt(rows, LineOf, CartAddsOf, line);
    }
  }

  /** Campaigns tagged from their names are each in one of the two lines. */
  lemma TaggedCampaignLines(rows: seq<Campaign>)
    requires forall i | 0 <= i < |rows| :: rows[i].line == CampaignLine(rows[i].name)
    ensures forall i | 0 <= i < |rows| :: LineOf(rows[i]) == Institute || LineOf(rows[i]) == Ecommerce
  {
    forall i | 0 <= i < |rows| ensures LineOf(rows[i]) == Institute || LineOf(rows[i]) == Ecommerce {
      assert rows[i].line == CampaignLine(rows[i].name);
    }
  }

  /** When every campaign is in the institute or the e-commerce line, the
      two lines split the spend between them. */
  lemma CampaignSegmentsSplitSpend(rows: seq<Campaign>)
    requires forall i | 0 <= i < |rows| :: LineOf(rows[i]) == Institute || LineOf(rows[i]) == Ecommerce
    ensures SummarizeAds(Filter(rows, LineOf, Institute)).totalSpent
            + SummarizeAds(Filter(rows, LineOf, Ecommerce)).totalSpent
            == SummarizeAds(rows).totalSpent
  {
    assert Institute[0] != Ecommerce[0];
    SumSplit(rows, LineOf, Institute, Ecommerce, SpentOf);
  }
}
