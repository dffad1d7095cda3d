/** The frame the two loaders change in place: `df.columns = ...`,
    `df[n] = ...` and the conversion loop rewrite its fields step by step.
    Each method is proved against the value-level step of `Tables` or
    loader of `Loaders` it carries out. */
module Frames {
  import opened Wrappers
  import opened Tables
  import opened Loaders

  class Frame {
    var names: seq<string>
    var columns: seq<seq<Cell>>
    var height: nat

    /** The frame as a value. */
    function View(): Table
      reads this
    {
      Table(names, columns, height)
    }

    predicate Valid()
      reads this
    {
      WellFormed(View())
    }

    /** `pd.read_csv`, with the file already read into `t`. */
    constructor (t: Table)
      requires WellFormed(t)
      ensures Valid() && View() == t
    {
      names, columns, height := t.names, t.columns, t.height;
    }

    /** `df.columns = header`; raises, changing nothing, when the lengths
        differ. */
    method Rename(header: seq<string>) returns (ok: bool)
      requires Valid()
      modifies this
      ensures Valid()
      ensures ok <==> Renamed(old(View()), header).Some?
      ensures ok ==> View() == Renamed(old(View()), header).value
      ensures !ok ==> View() == old(View())
    {
      if |header| != |names| {
        return false;
      }
      names := header;
      ok := true;
    }

    /** `df[n] = cells`. */
    method Store(n: string, cells: seq<Cell>)
      requires Valid() && |cells| == height
      modifies this
      ensures Valid() && View() == SetColumn(old(View()), n, cells)
    {
      var k := Find(names, n);
      if k.Some? {
        columns := columns[k.value := cells];
      } else {
        names, columns := names + [n], columns + [cells];
      }
    }

    /** `df[n] = convert(df[n])`; raises, changing nothing, when the column
        is missing or a cell does not convert. */
    method Convert(n: string, conv: Conversion) returns (ok: bool)
      requires Valid()
      modifies this
      ensures Valid()
      ensures ok <==> Converted(old(View()), n, conv).Some?
      ensures ok ==> View() == Converted(old(View()), n, conv).value
      ensures !ok ==> View() == old(View())
    {
      var col := Column(View(), n);
      if col.None? {
        return false;
      }
      var cells := MapCells(col.value, c => ConvertCell(c, conv));
      if cells.None? {
        return false;
      }
      Store(n, cells.value);
      ok := true;
    }

    /** `for col in targets: df[col] = convert(df[col])`, where with
        `onlyText` only a column of dtype `object` is converted. On failure
        the columns converted before the failing one stay converted. */
    method ConvertEach(targets: seq<string>, conv: Conversion, onlyText: bool) returns (ok: bool)
      requires Valid()
      modifies this
      ensures Valid()
      ensures ok <==> ConvertedAll(old(View()), targets, conv, onlyText).Some?
      ensures ok ==> View() == ConvertedAll(old(View()), targets, conv, onlyText).value
    {
      var i := 0;
      while i < |targets|
        invariant 0 <= i <= |targets| && Valid()
        invariant ConvertedAll(old(View()), targets, conv, onlyText) == ConvertedAll(View(), targets[i..], conv, onlyText)
      {
        assert targets[i..][0] == targets[i] && targets[i..][1..] == targets[i + 1..];
        var col := Column(View(), targets[i]);
        if col.None? {
          return false;
        }
        if !onlyText || HoldsText(col.value) {
          var converted := Convert(targets[i], conv);
          if !converted {
            return false;
          }
        }
        i := i + 1;
      }
      ok := true;
    }

    /** `df[dst] = df[src].apply(f)`; raises, changing nothing, when `src`
        is missing or `f` raises on a cell. */
    method Derive(src: string, dst: string, f: Cell -> Option<Cell>) returns (ok: bool)
      requires Valid()
      modifies this
      ensures Valid()
      ensures ok <==> Applied(old(View()), src, dst, f).Some?
      ensures ok ==> View() == Applied(old(View()), src, dst, f).value
      ensures !ok ==> View() == old(View())
    {
      var col := Column(View(), src);
      if col.None? {
        return false;
      }
      var cells := MapCells(col.value, f);
      if cells.None? {
        return false;
      }
      Store(dst, cells.value);
      ok := true;
    }

    /** `process_ad_data`: the frame becomes the loader's result exactly when
        no step raises. */
    method ProcessAdData() returns (ok: bool)
      requires Valid()
      modifies this
      ensures Valid()
      ensures ok <==> ProcessedAds(old(View())).Some?
      ensures ok ==> View() == ProcessedAds(old(View())).value
    {
      ok := Rename(AdColumns);
      if !ok { return; }
      ok := Convert("data_inicio", ToIsoDate);
      if !ok { return; }
      ok := Convert("data_fim", ToIsoDate);
      if !ok { return; }
      ok := ConvertEach(AdNumeric, ToFloat, true);
      if !ok { return; }
      ok := Derive("nome_campanha", "tipo_campanha", CampaignCell);
    }

    /** `process_order_data`: the frame becomes the loader's result exactly
        when no step raises. */
    method ProcessOrderData() returns (ok: bool)
      requires Valid()
      modifies this
      ensures Valid()
      ensures ok <==> ProcessedOrders(old(View())).Some?
      ensures ok ==> View() == ProcessedOrders(old(View())).value
    {
      ok := Rename(OrderColumns);
      if !ok { return; }
      ok := Convert("pedido_id", ToInt);
      if !ok { return; }
      ok := ConvertEach(OrderNumeric, ToFloat, false);
      if !ok { return; }
      ok := Convert("produto_quantidade", ToInt);
      if !ok { return; }
      ok := Convert("pedido_data", ToDayFirstDate);
      if !ok { return; }
      ok := Derive("produto_nome", "categoria_produto", CategoryCell);
      if !ok { return; }
      ok := Derive("categoria_produto", "tipo_venda", SaleLineCell);
    }
  }
}
