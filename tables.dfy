/** A pandas data frame as the loaders use it: a header and equally long
    columns of cells, looked up by name, renamed, and rewritten one column
    at a time by a conversion or a cell function. */
module Tables {
  import opened Wrappers
  import opened Text

  /** A cell as the loaders see it: text, a float, an integer, or a date. */
  datatype Cell = Str(s: string) | Num(x: real) | Int(n: int) | When(date: Date)

  /** A frame as a value: a header and one column of `height` cells per
      name. */
  datatype Table = Table(names: seq<string>, columns: seq<seq<Cell>>, height: nat)

  predicate WellFormed(t: Table) {
    |t.names| == |t.columns| && forall k | 0 <= k < |t.columns| :: |t.columns[k]| == t.height
  }

  /** The position of the first column named `n`, as a label lookup finds it. */
  function Find(names: seq<string>, n: string): (k: Option<nat>)
    ensures k.Some? <==> n in names
    ensures k.Some? ==> k.value < |names| && names[k.value] == n
  {
    if names == [] then None
    else if names[0] == n then Some(0)
    else
      var k := Find(names[1..], n);
      if k.Some? then Some(k.value + 1) else None
  }

  /** The lookup finds the first column of that name. */
  lemma {:induction false} FindFirst(names: seq<string>, n: string)
    requires n in names
    ensures n !in names[..Find(names, n).value]
  {
    if names[0] != n {
      FindFirst(names[1..], n);
      var k := Find(names[1..], n).value;
      assert names[..k + 1] == [names[0]] + names[1..][..k];
    }
  }

  /** The header has no name twice. */
  predicate Distinct(names: seq<string>) {
    forall i, j | 0 <= i < j < |names| :: names[i] != names[j]
  }

  /** A name found at `k` with no earlier column of that name is looked up
      at `k`. */
  lemma FindAt(names: seq<string>, n: string, k: nat)
    requires k < |names| && names[k] == n && n !in names[..k]
    ensures Find(names, n) == Some(k)
  {
    var f := Find(names, n).value;
    FindFirst(names, n);
    assert forall i | 0 <= i < k :: names[..k][i] == names[i];
    assert forall i | 0 <= i < f :: names[..f][i] == names[i];
  }

  /** Two headers without a name twice, and without a name in common, make
      one without a name twice. */
  lemma DistinctConcat(a: seq<string>, b: seq<string>)
    requires Distinct(a) && Distinct(b)
    requires forall i, j | 0 <= i < |a| && 0 <= j < |b| :: a[i] != b[j]
    ensures Distinct(a + b)
  {
  }

  lemma FindDistinct(names: seq<string>, k: nat)
    requires Distinct(names) && k < |names|
    ensures Find(names, names[k]) == Some(k)
  {
    FindAt(names, names[k], k);
  }

  /** `df[n]`: the column named `n`, or nothing (a `KeyError`). */
  function Column(t: Table, n: string): (c: Option<seq<Cell>>)
    requires WellFormed(t)
    ensures c.Some? <==> n in t.names
    ensures c.Some? ==> c.value == t.columns[Find(t.names, n).value] && |c.value| == t.height
  {
    var k :- Find(t.names, n);
    Some(t.columns[k])
  }

  /** `df.columns = names`: the new header, provided it has one name per
      column; pandas raises a length mismatch otherwise. */
  function Renamed(t: Table, names: seq<string>): (r: Option<Table>)
    requires WellFormed(t)
    ensures r.Some? <==> |names| == |t.names|
    ensures r.Some? ==> WellFormed(r.value) && r.value.names == names
                        && r.value.columns == t.columns && r.value.height == t.height
  {
    if |names| == |t.names| then Some(t.(names := names)) else None
  }

  /** `df[n] = cells`: replaces the first column named `n`, or appends a new
      column `n` when there is none. */
  function SetColumn(t: Table, n: string, cells: seq<Cell>): (r: Table)
    requires WellFormed(t) && |cells| == t.height
    ensures WellFormed(r) && r.height == t.height
    ensures n in t.names ==> r.names == t.names && r.columns == t.columns[Find(t.names, n).value := cells]
    ensures n !in t.names ==> r.names == t.names + [n] && r.columns == t.columns + [cells]
  {
    var k := Find(t.names, n);
    if k.Some? then t.(columns := t.columns[k.value := cells])
    else Table(t.names + [n], t.columns + [cells], t.height)
  }

  /** After `df[n] = cells`, column `n` reads `cells` and every other column
      reads as before. */
  lemma SetColumnReads(t: Table, n: string, cells: seq<Cell>, m: string)
    requires WellFormed(t) && |cells| == t.height
    ensures Column(SetColumn(t, n, cells), n) == Some(cells)
    ensures m != n ==> Column(SetColumn(t, n, cells), m) == Column(t, m)
  {
    var r := SetColumn(t, n, cells);
    if n !in t.names {
      assert r.names[..|t.names|] == t.names;
      if m in t.names {
        var k := Find(t.names, m).value;
        FindFirst(t.names, m);
        assert m !in r.names[..k] by {
          assert r.names[..k] == t.names[..k];
        }
        FindAt(r.names, m, k);
      }
    }
  }

  /** `apply` of a cell function that may raise: the mapped column, or
      nothing when `f` fails on some cell. */
  function MapCells(cells: seq<Cell>, f: Cell -> Option<Cell>): (r: Option<seq<Cell>>)
    ensures r.Some? <==> forall i | 0 <= i < |cells| :: f(cells[i]).Some?
    ensures r.Some? ==> |r.value| == |cells| && forall i | 0 <= i < |cells| :: r.value[i] == f(cells[i]).value
  {
    if cells == [] then Some([])
    else
      var init := cells[..|cells| - 1];
      assert forall i | 0 <= i < |init| :: init[i] == cells[i];
      var front :- MapCells(init, f);
      var last :- f(cells[|cells| - 1]);
      Some(front + [last])
  }

  predicate HoldsText(cells: seq<Cell>) {
    exists i | 0 <= i < |cells| :: cells[i].Str?
  }

  // ---------------------------------------------------------------------
  // Cell conversions
  // ---------------------------------------------------------------------

  /** The conversions the loaders apply to a column: `astype(float)` after
      the comma-to-dot replacement, `astype(int)`, and `to_datetime` with
      the formats `%Y-%m-%d` and `%d/%m/%Y`. */
  datatype Conversion = ToFloat | ToInt | ToIsoDate | ToDayFirstDate

  /** `int(x)` of a float: rounds toward zero. */
  function Truncate(x: real): (n: int)
    ensures 0.0 <= x ==> n as real <= x < n as real + 1.0
    ensures x < 0.0 ==> n as real - 1.0 < x <= n as real
  {
    if x >= 0.0 then x.Floor else -((-x).Floor)
  }

  /** The range of pandas' `int64`, the type `astype(int)` casts to. */
  const Int64Min: int := -0x8000_0000_0000_0000
  const Int64Max: int := 0x7FFF_FFFF_FFFF_FFFF

  predicate InInt64(n: int) {
    Int64Min <= n <= Int64Max
  }

  /** One cell through a conversion, or nothing when the conversion raises.
      A number turned into text and back (`astype(str)` then `astype(float)`)
      is the same number; a date does not read as a number; text whose
      integer lies outside `int64` raises an overflow. */
  function ConvertCell(c: Cell, conv: Conversion): (r: Option<Cell>)
    ensures r.Some? ==> (conv == ToFloat ==> r.value.Num?) && (conv == ToInt ==> r.value.Int?)
    ensures r.Some? && (conv == ToIsoDate || conv == ToDayFirstDate) ==> r.value.When? && ValidDate(r.value.date)
    ensures conv == ToInt && c.Str? ==>
              (r.Some? <==> ParseInteger(c.s).Some? && InInt64(ParseInteger(c.s).value))
  {
    match conv
    case ToFloat =>
      (match c
       case Str(s) => var x :- ParseDecimal(NormalizeDecimal(s)); Some(Num(x))
       case Num(x) => Some(Num(x))
       case Int(n) => Some(Num(n as real))
       case When(_) => None)
    case ToInt =>
      (match c
       case Str(s) => var n :- ParseInteger(s); if InInt64(n) then Some(Int(n)) else None
       case Num(x) => Some(Int(Truncate(x)))
       case Int(n) => Some(Int(n))
       case When(_) => None)
    case ToIsoDate =>
      (match c
       case Str(s) => var d :- ParseIsoDate(s); Some(When(d))
       case When(d) => if ValidDate(d) then Some(When(d)) else None
       case _ => None)
    case ToDayFirstDate =>
      (match c
       case Str(s) => var d :- ParseDayFirstDate(s); Some(When(d))
       case When(d) => if ValidDate(d) then Some(When(d)) else None
       case _ => None)
  }

  /** Converting what a conversion produced changes nothing. */
  lemma ConvertIdempotent(c: Cell, conv: Conversion)
    requires ConvertCell(c, conv).Some?
    ensures ConvertCell(ConvertCell(c, conv).value, conv) == ConvertCell(c, conv)
  {
  }

  /** Every cell of the column survives the conversion. */
  predicate Convertible(cells: seq<Cell>, conv: Conversion) {
    forall i | 0 <= i < |cells| :: ConvertCell(cells[i], conv).Some?
  }

  /** A comma decimal in a text cell reads as a float. */
  lemma CommaCellExample()
    ensures ConvertCell(Str("12,50"), ToFloat) == Some(Num(12.5))
  {
    CommaDecimalExample();
  }

  /** `astype(int)` of a negative float truncates it toward zero. */
  lemma TruncationExample()
    ensures ConvertCell(Num(-2.7), ToInt) == Some(Int(-2))
  {
  }

  /** Text naming the integer just above the `int64` range raises; the
      largest `int64` converts. */
  lemma Int64BoundExample()
    ensures ConvertCell(Str(IntegerText(Int64Max + 1, 19)), ToInt) == None
    ensures ConvertCell(Str(IntegerText(Int64Max, 19)), ToInt) == Some(Int(Int64Max))
  {
    assert Pow10(4) == 10_000 && Pow10(5) == 100_000;
    Pow10Add(5, 5);
    Pow10Add(5, 4);
    Pow10Add(10, 9);
    IntegerRoundTrip(Int64Max + 1, 19);
    IntegerRoundTrip(Int64Max, 19);
  }

  /** The same day written in the two export formats reads as one date. */
  lemma DateCellsExample()
    ensures ConvertCell(Str("05/04/2025"), ToDayFirstDate) == Some(When(Date(2025, 4, 5)))
    ensures ConvertCell(Str("2025-04-05"), ToIsoDate) == Some(When(Date(2025, 4, 5)))
  {
    DateFormatsExample();
  }

  // ---------------------------------------------------------------------
  // Column steps
  // ---------------------------------------------------------------------

  /** `df[n] = convert(df[n])`: the column converted cell by cell; nothing
      when the column is missing or a cell does not convert. */
  function Converted(t: Table, n: string, conv: Conversion): (r: Option<Table>)
    requires WellFormed(t)
    ensures r.Some? ==> WellFormed(r.value) && r.value.names == t.names && r.value.height == t.height
  {
    var col :- Column(t, n);
    var cells :- MapCells(col, c => ConvertCell(c, conv));
    Some(SetColumn(t, n, cells))
  }

  /** A column conversion fails exactly when the column is missing or one of
      its cells does not convert. */
  lemma ConvertedSucceeds(t: Table, n: string, conv: Conversion)
    requires WellFormed(t)
    ensures Converted(t, n, conv).Some? <==> n in t.names && Convertible(t.columns[Find(t.names, n).value], conv)
  {
    if n in t.names {
      var col := t.columns[Find(t.names, n).value];
      assert forall i | 0 <= i < |col| :: (c => ConvertCell(c, conv))(col[i]) == ConvertCell(col[i], conv);
    }
  }

  /** One conversion step at a known position: it succeeds exactly when the
      column converts, and leaves every other column as it was. */
  lemma ConvertedStep(t: Table, n: string, conv: Conversion, k: nat)
    requires WellFormed(t) && Find(t.names, n) == Some(k)
    ensures Converted(t, n, conv).Some? <==> Convertible(t.columns[k], conv)
    ensures Converted(t, n, conv).Some? ==>
              forall j | 0 <= j < |t.columns| && j != k :: Converted(t, n, conv).value.columns[j] == t.columns[j]
  {
    ConvertedSucceeds(t, n, conv);
  }

  /** Each cell of the converted column is its old cell converted. */
  lemma ConvertedAt(t: Table, n: string, conv: Conversion, k: nat, i: nat)
    requires WellFormed(t) && Converted(t, n, conv).Some?
    requires Find(t.names, n) == Some(k) && i < t.height
    ensures ConvertCell(t.columns[k][i], conv) == Some(Converted(t, n, conv).value.columns[k][i])
  {
    var cells := MapCells(t.columns[k], c => ConvertCell(c, conv)).value;
    assert (c => ConvertCell(c, conv))(t.columns[k][i]) == ConvertCell(t.columns[k][i], conv);
  }

  /** The conversion of one column leaves every other column as it was. */
  lemma ConvertedKeeps(t: Table, n: string, conv: Conversion, j: nat)
    requires WellFormed(t) && Converted(t, n, conv).Some?
    requires j < |t.columns| && Find(t.names, n) != Some(j)
    ensures Converted(t, n, conv).value.columns[j] == t.columns[j]
  {
  }

  /** `after` is `before` converted cell by cell. */
  predicate CellsConverted(before: seq<Cell>, after: seq<Cell>, conv: Conversion) {
    |after| == |before| && forall i | 0 <= i < |before| :: ConvertCell(before[i], conv) == Some(after[i])
  }

  /** A converted column holds cells of the kind its conversion produces. */
  lemma CellsConvertedKinds(before: seq<Cell>, after: seq<Cell>, conv: Conversion)
    requires CellsConverted(before, after, conv)
    ensures conv == ToFloat ==> forall i | 0 <= i < |after| :: after[i].Num?
    ensures conv == ToInt ==> forall i | 0 <= i < |after| :: after[i].Int?
    ensures conv == ToIsoDate || conv == ToDayFirstDate ==> forall i | 0 <= i < |after| :: after[i].When?
  {
    assert forall i | 0 <= i < |after| :: ConvertCell(before[i], conv) == Some(after[i]);
  }

  /** What a conversion loop leaves in column `j` of the result `r`: when only
      text columns are converted, a column holding no text is kept as it is;
      any other column holds its cells converted. */
  predicate Treated(t: Table, r: Table, j: nat, conv: Conversion, onlyText: bool)
    requires j < |t.columns| && j < |r.columns|
  {
    if onlyText && !HoldsText(t.columns[j]) then r.columns[j] == t.columns[j]
    else CellsConverted(t.columns[j], r.columns[j], conv)
  }

  /** The conversion of a column treats it. */
  lemma ConvertedTreats(t: Table, n: string, conv: Conversion, onlyText: bool)
    requires WellFormed(t) && Converted(t, n, conv).Some? && n in t.names
    requires !(onlyText && !HoldsText(t.columns[Find(t.names, n).value]))
    ensures Treated(t, Converted(t, n, conv).value, Find(t.names, n).value, conv, onlyText)
  {
    var k := Find(t.names, n).value;
    forall i | 0 <= i < t.height
      ensures ConvertCell(t.columns[k][i], conv) == Some(Converted(t, n, conv).value.columns[k][i])
    {
      ConvertedAt(t, n, conv, k, i);
    }
  }

  /** A column treated by a conversion into numbers holds no text. */
  lemma TreatedHoldsNoText(t: Table, r: Table, j: nat, onlyText: bool)
    requires j < |t.columns| && j < |r.columns|
    requires Treated(t, r, j, ToFloat, onlyText)
    ensures !HoldsText(r.columns[j])
  {
    if !(onlyText && !HoldsText(t.columns[j])) {
      forall i | 0 <= i < |r.columns[j]| ensures !r.columns[j][i].Str? {
        assert ConvertCell(t.columns[j][i], ToFloat).value.Num?;
      }
    }
  }

  /** Treatment depends on nothing but the column before and after. */
  lemma TreatedTransfer(t: Table, r: Table, j: nat, t': Table, r': Table, j': nat, conv: Conversion, onlyText: bool)
    requires j < |t.columns| && j < |r.columns| && j' < |t'.columns| && j' < |r'.columns|
    requires t.columns[j] == t'.columns[j'] && r.columns[j] == r'.columns[j']
    requires Treated(t, r, j, conv, onlyText)
    ensures Treated(t', r', j', conv, onlyText)
  {
  }

  /** A column treated twice is treated once: what a conversion produced
      converts to itself. */
  lemma TreatedAgain(t: Table, m: Table, r: Table, j: nat, conv: Conversion, onlyText: bool)
    requires j < |t.columns| && j < |m.columns| && j < |r.columns|
    requires Treated(t, m, j, conv, onlyText) && Treated(m, r, j, conv, onlyText)
    ensures Treated(t, r, j, conv, onlyText)
  {
    if !(onlyText && !HoldsText(t.columns[j])) {
      forall i | 0 <= i < |t.columns[j]| ensures ConvertCell(t.columns[j][i], conv) == Some(r.columns[j][i]) {
        ConvertIdempotent(t.columns[j][i], conv);
      }
      if onlyText {
        assert !HoldsText(m.columns[j]) by {
          forall i | 0 <= i < |m.columns[j]| ensures !m.columns[j][i].Str? {
            assert ConvertCell(t.columns[j][i], conv) == Some(m.columns[j][i]);
          }
        }
      }
    }
  }

  /** The loop `for col in targets: df[col] = convert(df[col])`; with
      `onlyText` a column is converted only when its dtype is `object`, that
      is, when it holds text. */
  function ConvertedAll(t: Table, targets: seq<string>, conv: Conversion, onlyText: bool): (r: Option<Table>)
    requires WellFormed(t)
    ensures r.Some? ==> WellFormed(r.value) && r.value.names == t.names && r.value.height == t.height
    decreases |targets|
  {
    if targets == [] then Some(t)
    else
      var col :- Column(t, targets[0]);
      var next :- if onlyText && !HoldsText(col) then Some(t) else Converted(t, targets[0], conv);
      ConvertedAll(next, targets[1..], conv, onlyText)
  }

  /** The table after the first step of the loop. */
  function FirstStep(t: Table, n: string, conv: Conversion, onlyText: bool): (r: Table)
    requires WellFormed(t) && n in t.names
    requires (onlyText && !HoldsText(t.columns[Find(t.names, n).value])) || Converted(t, n, conv).Some?
    ensures WellFormed(r) && r.names == t.names && r.height == t.height
  {
    if onlyText && !HoldsText(t.columns[Find(t.names, n).value]) then t else Converted(t, n, conv).value
  }

  /** The loop is its first step followed by the rest of the loop. */
  lemma ConvertedAllUnfold(t: Table, targets: seq<string>, conv: Conversion, onlyText: bool)
    requires WellFormed(t) && targets != [] && ConvertedAll(t, targets, conv, onlyText).Some?
    ensures targets[0] in t.names
    ensures (onlyText && !HoldsText(t.columns[Find(t.names, targets[0]).value])) || Converted(t, targets[0], conv).Some?
    ensures ConvertedAll(FirstStep(t, targets[0], conv, onlyText), targets[1..], conv, onlyText)
            == ConvertedAll(t, targets, conv, onlyText)
  {
  }

  /** A loop over two different columns that converts both: it passes
      exactly when both convert, converts those two and keeps the others. */
  lemma ConvertedPair(t: Table, a: string, b: string, conv: Conversion, ka: nat, kb: nat)
    requires WellFormed(t) && Find(t.names, a) == Some(ka) && Find(t.names, b) == Some(kb) && ka != kb
    ensures ConvertedAll(t, [a, b], conv, false).Some?
            <==> Convertible(t.columns[ka], conv) && Convertible(t.columns[kb], conv)
    ensures ConvertedAll(t, [a, b], conv, false).Some? ==>
              var r := ConvertedAll(t, [a, b], conv, false).value;
              && |r.columns| == |t.columns|
              && CellsConverted(t.columns[ka], r.columns[ka], conv) && CellsConverted(t.columns[kb], r.columns[kb], conv)
              && forall j | 0 <= j < |t.columns| && j != ka && j != kb :: r.columns[j] == t.columns[j]
  {
    ConvertedStep(t, a, conv, ka);
    if Convertible(t.columns[ka], conv) {
      var m := Converted(t, a, conv).value;
      assert [a, b][1..] == [b] && [b][1..] == [];
      assert ConvertedAll(t, [a, b], conv, false) == ConvertedAll(m, [b], conv, false);
      ConvertedStep(m, b, conv, kb);
      if Convertible(t.columns[kb], conv) {
        var r := Converted(m, b, conv).value;
        assert ConvertedAll(m, [b], conv, false) == Some(r);
        forall i | 0 <= i < t.height
          ensures ConvertCell(t.columns[ka][i], conv) == Some(r.columns[ka][i])
          ensures ConvertCell(t.columns[kb][i], conv) == Some(r.columns[kb][i])
        {
          ConvertedAt(t, a, conv, ka, i);
          ConvertedAt(m, b, conv, kb, i);
        }
      }
    }
  }

  /** The conversion loop leaves every column it does not name as it was. */
  lemma {:induction false} ConvertedAllKeeps(t: Table, targets: seq<string>, conv: Conversion, onlyText: bool)
    requires WellFormed(t) && ConvertedAll(t, targets, conv, onlyText).Some?
    ensures |ConvertedAll(t, targets, conv, onlyText).value.columns| == |t.columns|
    ensures forall j | 0 <= j < |t.columns| && t.names[j] !in targets ::
              ConvertedAll(t, targets, conv, onlyText).value.columns[j] == t.columns[j]
    decreases |targets|
  {
    if targets != [] {
      ConvertedAllUnfold(t, targets, conv, onlyText);
      var next := FirstStep(t, targets[0], conv, onlyText);
      ConvertedAllKeeps(next, targets[1..], conv, onlyText);
      forall j | 0 <= j < |t.columns| && t.names[j] !in targets ensures next.columns[j] == t.columns[j] {
        if next != t {
          ConvertedKeeps(t, targets[0], conv, j);
        }
      }
    }
  }

  /** The conversion loop treats each column it names, however often it
      names it. */
  lemma {:induction false} ConvertedAllTreats(t: Table, targets: seq<string>, conv: Conversion, onlyText: bool)
    requires WellFormed(t) && ConvertedAll(t, targets, conv, onlyText).Some?
    ensures var r := ConvertedAll(t, targets, conv, onlyText).value;
            forall n | n in targets :: n in t.names && Treated(t, r, Find(t.names, n).value, conv, onlyText)
    decreases |targets|
  {
    if targets != [] {
      var r := ConvertedAll(t, targets, conv, onlyText).value;
      ConvertedAllUnfold(t, targets, conv, onlyText);
      var n0 := targets[0];
      var k0 := Find(t.names, n0).value;
      var next := FirstStep(t, n0, conv, onlyText);
      ConvertedAllTreats(next, targets[1..], conv, onlyText);
      ConvertedAllKeeps(next, targets[1..], conv, onlyText);
      // The first step treats its own column and keeps every other one.
      assert Treated(t, next, k0, conv, onlyText) by {
        if !(onlyText && !HoldsText(t.columns[k0])) {
          ConvertedTreats(t, n0, conv, onlyText);
        }
      }
      forall n | n in targets
        ensures n in t.names && Treated(t, r, Find(t.names, n).value, conv, onlyText)
      {
        var k := Find(t.names, n).value;
        if n !in targets[1..] {
          assert n == n0;
          TreatedTransfer(t, next, k, t, r, k, conv, onlyText);
        } else if n == n0 {
          TreatedAgain(t, next, r, k, conv, onlyText);
        } else {
          if next != t {
            ConvertedKeeps(t, n0, conv, k);
          }
          TreatedTransfer(next, r, k, t, r, k, conv, onlyText);
        }
      }
    }
  }

  /** Whether a column named by the loop lets the loop through: it is
      skipped, or all its cells convert. */
  predicate Passes(cells: seq<Cell>, conv: Conversion, onlyText: bool) {
    (onlyText && !HoldsText(cells)) || Convertible(cells, conv)
  }

  /** The conversion loop fails exactly when it names a missing column, or a
      column it must convert holds a cell that does not convert. */
  lemma {:induction false} ConvertedAllSucceeds(t: Table, targets: seq<string>, conv: Conversion, onlyText: bool)
    requires WellFormed(t)
    ensures ConvertedAll(t, targets, conv, onlyText).Some?
            <==> forall n | n in targets :: n in t.names && Passes(t.columns[Find(t.names, n).value], conv, onlyText)
    decreases |targets|
  {
    if targets != [] {
      var n0 := targets[0];
      ConvertedSucceeds(t, n0, conv);
      if n0 in t.names && Passes(t.columns[Find(t.names, n0).value], conv, onlyText) {
        var k0 := Find(t.names, n0).value;
        var next := FirstStep(t, n0, conv, onlyText);
        assert ConvertedAll(t, targets, conv, onlyText) == ConvertedAll(next, targets[1..], conv, onlyText);
        ConvertedAllSucceeds(next, targets[1..], conv, onlyText);
        assert Treated(t, next, k0, conv, onlyText) by {
          if !(onlyText && !HoldsText(t.columns[k0])) {
            ConvertedTreats(t, n0, conv, onlyText);
          }
        }
        forall n | n in targets[1..] && n in t.names
          ensures Passes(next.columns[Find(t.names, n).value], conv, onlyText)
                  <==> Passes(t.columns[Find(t.names, n).value], conv, onlyText)
        {
          var k := Find(t.names, n).value;
          if n == n0 {
            TreatedPasses(t, next, k, conv, onlyText);
          } else if next != t {
            ConvertedKeeps(t, n0, conv, k);
          }
        }
      }
    }
  }

  /** A treated column lets the loop through again. */
  lemma TreatedPasses(t: Table, r: Table, j: nat, conv: Conversion, onlyText: bool)
    requires j < |t.columns| && j < |r.columns|
    requires Treated(t, r, j, conv, onlyText) && Passes(t.columns[j], conv, onlyText)
    ensures Passes(r.columns[j], conv, onlyText)
  {
    if !(onlyText && !HoldsText(t.columns[j])) {
      forall i | 0 <= i < |r.columns[j]| ensures ConvertCell(r.columns[j][i], conv).Some? {
        ConvertIdempotent(t.columns[j][i], conv);
      }
    }
  }

  /** `df[dst] = df[src].apply(f)`: a column computed cell by cell from
      another; nothing when `src` is missing or `f` raises on a cell. The
      new column replaces `dst`, or is appended when there is no `dst`. */
  function Applied(t: Table, src: string, dst: string, f: Cell -> Option<Cell>): (r: Option<Table>)
    requires WellFormed(t)
    ensures r.Some? ==> WellFormed(r.value) && r.value.height == t.height
    ensures r.Some? && dst !in t.names ==> r.value.names == t.names + [dst]
  {
    var col :- Column(t, src);
    var cells :- MapCells(col, f);
    Some(SetColumn(t, dst, cells))
  }

  /** Computing a column fails exactly when the source column is missing or
      `f` raises on one of its cells. */
  lemma AppliedSucceeds(t: Table, src: string, dst: string, f: Cell -> Option<Cell>)
    requires WellFormed(t)
    ensures Applied(t, src, dst, f).Some?
            <==> src in t.names && forall i | 0 <= i < t.height :: f(t.columns[Find(t.names, src).value][i]).Some?
  {
    if src in t.names {
      var col := t.columns[Find(t.names, src).value];
      assert Column(t, src) == Some(col) && |col| == t.height;
      assert Applied(t, src, dst, f).Some? <==> MapCells(col, f).Some?;
      if MapCells(col, f).Some? {
        forall i | 0 <= i < t.height ensures f(col[i]).Some? {
        }
      } else {
        var i :| 0 <= i < |col| && f(col[i]).None?;
        assert f(t.columns[Find(t.names, src).value][i]).None?;
      }
    } else {
      assert Column(t, src).None?;
    }
  }

  /** `after` is `f` applied to `before` cell by cell. */
  predicate CellsApplied(before: seq<Cell>, after: seq<Cell>, f: Cell -> Option<Cell>) {
    |after| == |before| && forall i | 0 <= i < |before| :: f(before[i]) == Some(after[i])
  }

  /** An appended column leaves the others as they were. */
  lemma AppliedKeeps(t: Table, src: string, dst: string, f: Cell -> Option<Cell>)
    requires WellFormed(t) && Applied(t, src, dst, f).Some? && dst !in t.names
    ensures |Applied(t, src, dst, f).value.columns| == |t.columns| + 1
    ensures Applied(t, src, dst, f).value.columns[..|t.columns|] == t.columns
  {
  }

  /** One row of an appended column is `f` of the source cell on that row. */
  lemma AppliedAt(t: Table, src: string, dst: string, f: Cell -> Option<Cell>, k: nat, i: nat)
    requires WellFormed(t) && Applied(t, src, dst, f).Some? && dst !in t.names
    requires Find(t.names, src) == Some(k) && i < t.height
    ensures |Applied(t, src, dst, f).value.columns| == |t.columns| + 1
    ensures f(t.columns[k][i]) == Some(Applied(t, src, dst, f).value.columns[|t.columns|][i])
  {
  }
}
