/** The parameter tables the sequencer reads from its input workbook before the cohort loop:
    the estimates of the "Inputs" and "Costs" sheets, the unit-cost dictionary of the "Costs"
    sheet, and the nested regression-coefficient configuration of the "RegCoeffs" sheet.
    A sheet is its sequence of rows; a row is its sequence of cell values. */
module ParameterTables {
  import opened Entities

  /** A cell value: empty (`None`), a number, or text. */
  datatype Cell = Empty | Number(x: real) | Text(s: string)

  /** Truth value of a cell in a condition: empty, zero and the empty text are false. */
  predicate Truthy(c: Cell) {
    match c
    case Empty => false
    case Number(x) => x != 0.0
    case Text(s) => |s| > 0
  }

  /** The text a cell value converts to; `show` is the number formatting. */
  function Render(c: Cell, show: real -> string): string {
    match c
    case Empty => "None"
    case Number(x) => show(x)
    case Text(s) => s
  }

  type Row = seq<Cell>

  /** Column `j` (from 0) of a row; cells past the row's end read as empty. */
  function CellAt(row: Row, j: nat): Cell {
    if j < |row| then row[j] else Empty
  }

  /** The name of the header row, removed from every table once folded. */
  const HeaderName := "Parameter"

  /** Why building a table fails: a row too short for the columns it reads, a name that is
      not text, a row of the regression sheet that is not six cells wide, no header row. */
  datatype Error = ShortRow(row: nat) | NonTextName(row: nat) | BadWidth(row: nat) | MissingHeader

  datatype Result<T> = Ok(value: T) | Fail(error: Error)

  /** The first row failing `ok`, if any. */
  function FirstFailing(rows: seq<Row>, ok: Row -> bool): (r: Option<nat>)
    ensures r.None? <==> forall i :: 0 <= i < |rows| ==> ok(rows[i])
    ensures r.Some? ==> r.value < |rows| && !ok(rows[r.value]) && forall i :: 0 <= i < r.value ==> ok(rows[i])
    decreases |rows|
  {
    if |rows| == 0 then None
    else if !ok(rows[0]) then Some(0)
    else
      var rest := FirstFailing(rows[1..], ok);
      if rest.None? then None else Some(rest.value + 1)
  }

  // ---------------------------------------------------------------------------------------
  // Estimates (the "Inputs" sheet, and the "Costs" sheet read the same way)
  // ---------------------------------------------------------------------------------------

  /** The three columns after the name, as handed to the estimate constructor. */
  datatype Estimate = Estimate(first: Cell, second: Cell, third: Cell)

  /** A row the estimate fold can read: it has a name cell and, when named, three more
      cells and a text name. */
  predicate EstimateRowOk(row: Row) {
    |row| > 0 && (Truthy(row[0]) ==> |row| >= 4 && row[0].Text?)
  }

  /** Row `row` carries the estimate name `name`. */
  predicate NamedRow(row: Row, name: string) {
    |row| > 0 && row[0] == Text(name)
  }

  /** No row after `i` carries the name `name`. */
  predicate LastNamed(rows: seq<Row>, i: nat, name: string) {
    forall j :: i < j < |rows| ==> !NamedRow(rows[j], name)
  }

  /** One row of the estimate fold, at index `i`: unnamed rows are skipped, named rows set
      (or overwrite) the attribute of that name. */
  function AddEstimate(m: map<string, Estimate>, row: Row, i: nat): Result<map<string, Estimate>> {
    if |row| == 0 then Fail(ShortRow(i))
    else if !Truthy(row[0]) then Ok(m)
    else if |row| < 4 then Fail(ShortRow(i))
    else if !row[0].Text? then Fail(NonTextName(i))
    else Ok(m[row[0].s := Estimate(row[1], row[2], row[3])])
  }

  /** The estimate fold over all rows, front to back. */
  function EstimateRows(rows: seq<Row>): Result<map<string, Estimate>>
    decreases |rows|
  {
    if |rows| == 0 then Ok(map[])
    else
      match EstimateRows(rows[..|rows| - 1])
      case Fail(err) => Fail(err)
      case Ok(m) => AddEstimate(m, rows[|rows| - 1], |rows| - 1)
  }

  /** The estimates object of a sheet: the fold, then the header attribute deleted. */
  function LoadEstimates(rows: seq<Row>): Result<map<string, Estimate>> {
    match EstimateRows(rows)
    case Fail(err) => Fail(err)
    case Ok(m) => if HeaderName in m then Ok(m - {HeaderName}) else Fail(MissingHeader)
  }

  /** The fold succeeds exactly on readable rows; it then holds every non-empty name, each
      with the estimate of the last row of that name; otherwise it reports the first
      unreadable row. */
  lemma {:induction false} EstimateRowsRule(rows: seq<Row>)
    ensures var r := EstimateRows(rows);
            && (r.Ok? <==> forall i :: 0 <= i < |rows| ==> EstimateRowOk(rows[i]))
            && (r.Ok? ==> forall name :: name in r.value <==>
                  name != "" && exists i :: 0 <= i < |rows| && NamedRow(rows[i], name))
            && (r.Ok? ==> forall i, name ::
                  0 <= i < |rows| && NamedRow(rows[i], name) && name != "" && LastNamed(rows, i, name) ==>
                  name in r.value && r.value[name] == Estimate(rows[i][1], rows[i][2], rows[i][3]))
            && (r.Fail? ==>
                  && (r.error.ShortRow? || r.error.NonTextName?)
                  && r.error.row < |rows|
                  && !EstimateRowOk(rows[r.error.row])
                  && forall i :: 0 <= i < r.error.row ==> EstimateRowOk(rows[i]))
    decreases |rows|
  {
    if |rows| > 0 {
      var n := |rows| - 1;
      var pre := rows[..n];
      EstimateRowsRule(pre);
      assert forall i :: 0 <= i < n ==> pre[i] == rows[i];
    }
  }

  /** Loading succeeds exactly when every row is readable and one is named "Parameter"; the
      result then holds every other non-empty name, with the last row's estimate. */
  lemma LoadEstimatesRule(rows: seq<Row>)
    ensures var r := LoadEstimates(rows);
            && (r.Ok? <==> (forall i :: 0 <= i < |rows| ==> EstimateRowOk(rows[i]))
                           && exists i :: 0 <= i < |rows| && NamedRow(rows[i], HeaderName))
            && (r.Ok? ==> forall name :: name in r.value <==>
                  name != "" && name != HeaderName && exists i :: 0 <= i < |rows| && NamedRow(rows[i], name))
            && (r.Ok? ==> forall i, name ::
                  0 <= i < |rows| && NamedRow(rows[i], name) && name != "" && name != HeaderName && LastNamed(rows, i, name) ==>
                  name in r.value && r.value[name] == Estimate(rows[i][1], rows[i][2], rows[i][3]))
  {
    EstimateRowsRule(rows);
  }

  // ---------------------------------------------------------------------------------------
  // Unit costs (the "Costs" sheet)
  // ---------------------------------------------------------------------------------------

  /** The (type, mean, SE) triple of a cost. */
  datatype CostEntry = CostEntry(kind: Cell, mean: Cell, se: Cell)

  /** The text key of a cost row: its first cell converted to text. */
  function CostKey(row: Row, show: real -> string): string {
    Render(CellAt(row, 0), show)
  }

  /** The cost dictionary over all rows, front to back; every row is stored, unnamed ones
      under "None". */
  function CostRows(rows: seq<Row>, show: real -> string): map<string, CostEntry>
    decreases |rows|
  {
    if |rows| == 0 then map[]
    else
      var row := rows[|rows| - 1];
      CostRows(rows[..|rows| - 1], show)[CostKey(row, show) := CostEntry(CellAt(row, 1), CellAt(row, 2), CellAt(row, 3))]
  }

  /** The unit-cost dictionary: the fold, then the header key deleted. */
  function CostTable(rows: seq<Row>, show: real -> string): Result<map<string, CostEntry>> {
    var m := CostRows(rows, show);
    if HeaderName in m then Ok(m - {HeaderName}) else Fail(MissingHeader)
  }

  /** No row after `i` has the key of row `i`. */
  predicate LastKeyed(rows: seq<Row>, i: nat, show: real -> string)
    requires i < |rows|
  {
    forall j :: i < j < |rows| ==> CostKey(rows[j], show) != CostKey(rows[i], show)
  }

  /** Some row has key `key`. */
  predicate Keyed(rows: seq<Row>, key: string, show: real -> string) {
    exists i :: 0 <= i < |rows| && CostKey(rows[i], show) == key
  }

  /** The fold keys every row by its converted name. */
  lemma {:induction false} CostRowsKeys(rows: seq<Row>, show: real -> string)
    ensures forall key :: key in CostRows(rows, show) <==> Keyed(rows, key, show)
    decreases |rows|
  {
    if |rows| > 0 {
      var n := |rows| - 1;
      var pre := rows[..n];
      CostRowsKeys(pre, show);
      forall key ensures Keyed(rows, key, show) <==> Keyed(pre, key, show) || CostKey(rows[n], show) == key {
        if Keyed(rows, key, show) {
          var i :| 0 <= i < |rows| && CostKey(rows[i], show) == key;
          if i < n { assert pre[i] == rows[i]; }
        }
        if Keyed(pre, key, show) {
          var i :| 0 <= i < |pre| && CostKey(pre[i], show) == key;
          assert pre[i] == rows[i];
        }
      }
    }
  }

  /** The last row of a key decides its triple. */
  lemma {:induction false} CostRowsLast(rows: seq<Row>, show: real -> string, i: nat)
    requires i < |rows| && LastKeyed(rows, i, show)
    ensures CostKey(rows[i], show) in CostRows(rows, show)
    ensures CostRows(rows, show)[CostKey(rows[i], show)] == CostEntry(CellAt(rows[i], 1), CellAt(rows[i], 2), CellAt(rows[i], 3))
    decreases |rows|
  {
    var n := |rows| - 1;
    if i < n {
      var pre := rows[..n];
      assert pre[i] == rows[i];
      assert LastKeyed(pre, i, show) by {
        forall j | i < j < |pre| ensures CostKey(pre[j], show) != CostKey(pre[i], show) {
          assert pre[j] == rows[j];
        }
      }
      CostRowsLast(pre, show, i);
    }
  }

  /** The dictionary exists exactly when some row converts to "Parameter"; it then keys every
      other row by its converted name (an unnamed row under "None"), last row winning. */
  lemma CostTableRule(rows: seq<Row>, show: real -> string)
    ensures var r := CostTable(rows, show);
            && (r.Ok? <==> Keyed(rows, HeaderName, show))
            && (r.Ok? ==> forall key :: key in r.value <==> key != HeaderName && Keyed(rows, key, show))
            && (r.Ok? ==> forall i :: 0 <= i < |rows| && CostKey(rows[i], show) != HeaderName && LastKeyed(rows, i, show) ==>
                  r.value[CostKey(rows[i], show)] == CostEntry(CellAt(rows[i], 1), CellAt(rows[i], 2), CellAt(rows[i], 3)))
  {
    CostRowsKeys(rows, show);
    forall i | 0 <= i < |rows| && LastKeyed(rows, i, show) {
      CostRowsLast(rows, show, i);
    }
  }

  /** Unlike the estimate fold, the cost dictionary keeps a row with an empty name cell. */
  lemma UnnamedCostRowKept(rows: seq<Row>, show: real -> string, i: nat)
    requires i < |rows| && CellAt(rows[i], 0) == Empty
    requires Keyed(rows, HeaderName, show)
    ensures CostTable(rows, show).Ok? && "None" in CostTable(rows, show).value
  {
    CostTableRule(rows, show);
    assert CostKey(rows[i], show) == "None";
  }

  // ---------------------------------------------------------------------------------------
  // Regression coefficients (the "RegCoeffs" sheet)
  // ---------------------------------------------------------------------------------------

  /** A data row of the regression sheet, parameter and factor converted to text. */
  datatype RegRow = RegRow(param: string, factor: string, vartype: Cell, level: Cell, mean: Cell, se: Cell)

  /** An entry of a factor's dictionary: a plain value ("vartype", "mean", "SE") or the
      `{mean, SE}` pair of a level. */
  datatype Slot = Scalar(v: Cell) | Level(mean: Cell, se: Cell)

  type Factor = map<Cell, Slot>
  type Config = map<string, map<string, Factor>>

  const VartypeKey := Text("vartype")
  const MeanKey := Text("mean")
  const SEKey := Text("SE")

  /** A false value becomes 0 (the rule for SE and vartype). */
  function OrZero(c: Cell): Cell {
    if Truthy(c) then c else Number(0.0)
  }

  /** The reference category ("ref") and a missing mean become 0. */
  function MeanOrZero(c: Cell): Cell {
    if c == Text("ref") || c == Empty then Number(0.0) else c
  }

  /** The factor dictionary a row without level writes, replacing what was there. */
  function Wholesale(r: RegRow): Factor {
    map[VartypeKey := Scalar(OrZero(r.vartype)), MeanKey := Scalar(MeanOrZero(r.mean)), SEKey := Scalar(OrZero(r.se))]
  }

  /** One row of the configuration fold. */
  function AddRow(cfg: Config, r: RegRow): Config {
    var factors := if r.param in cfg then cfg[r.param] else map[];
    var entry :=
      if Truthy(r.level) then
        var base := if r.factor in factors then factors[r.factor] else map[VartypeKey := Scalar(OrZero(r.vartype))];
        base[r.level := Level(MeanOrZero(r.mean), OrZero(r.se))]
      else Wholesale(r);
    cfg[r.param := factors[r.factor := entry]]
  }

  /** The configuration fold over all rows, front to back, from the empty dictionary. */
  function Configure(rows: seq<RegRow>): Config
    decreases |rows|
  {
    if |rows| == 0 then map[] else AddRow(Configure(rows[..|rows| - 1]), rows[|rows| - 1])
  }

  /** The entry `config[p][f][key]`, if present. */
  function Get(cfg: Config, p: string, f: string, key: Cell): Option<Slot> {
    if p in cfg && f in cfg[p] && key in cfg[p][f] then Some(cfg[p][f][key]) else None
  }

  /** Some row is about factor `f` of parameter `p`. */
  predicate HasFactor(rows: seq<RegRow>, p: string, f: string) {
    exists i :: 0 <= i < |rows| && rows[i].param == p && rows[i].factor == f
  }

  /** Reference reading of one configuration entry, from the last row about the factor
      backwards: a level row answers for its own level and otherwise defers to earlier rows
      (or, as the factor's first row, answers "vartype"); a row without level answers alone. */
  function Lookup(rows: seq<RegRow>, p: string, f: string, key: Cell): Option<Slot>
    decreases |rows|
  {
    if |rows| == 0 then None
    else
      var r, pre := rows[|rows| - 1], rows[..|rows| - 1];
      if r.param != p || r.factor != f then Lookup(pre, p, f, key)
      else if !Truthy(r.level) then (if key in Wholesale(r) then Some(Wholesale(r)[key]) else None)
      else if key == r.level then Some(Level(MeanOrZero(r.mean), OrZero(r.se)))
      else if HasFactor(pre, p, f) then Lookup(pre, p, f, key)
      else if key == VartypeKey then Some(Scalar(OrZero(r.vartype)))
      else None
  }

  /** Some row is about parameter `p`. */
  predicate HasParam(rows: seq<RegRow>, p: string) {
    exists i :: 0 <= i < |rows| && rows[i].param == p
  }

  /** The fold holds a parameter exactly when some row names it, and a factor exactly when
      some row is about it. */
  lemma {:induction false} ConfigureKeys(rows: seq<RegRow>)
    ensures forall p :: p in Configure(rows) <==> HasParam(rows, p)
    ensures forall p, f :: p in Configure(rows) && f in Configure(rows)[p] <==> HasFactor(rows, p, f)
    decreases |rows|
  {
    if |rows| > 0 {
      var n := |rows| - 1;
      var pre, r := rows[..n], rows[n];
      ConfigureKeys(pre);
      forall p ensures HasParam(rows, p) <==> HasParam(pre, p) || r.param == p {
        if HasParam(rows, p) {
          var i :| 0 <= i < |rows| && rows[i].param == p;
          if i < n { assert pre[i] == rows[i]; }
        }
        if HasParam(pre, p) {
          var i :| 0 <= i < |pre| && pre[i].param == p;
          assert pre[i] == rows[i];
        }
      }
      forall p, f ensures HasFactor(rows, p, f) <==> HasFactor(pre, p, f) || (r.param == p && r.factor == f) {
        if HasFactor(rows, p, f) {
          var i :| 0 <= i < |rows| && rows[i].param == p && rows[i].factor == f;
          if i < n { assert pre[i] == rows[i]; }
        }
        if HasFactor(pre, p, f) {
          var i :| 0 <= i < |pre| && pre[i].param == p && pre[i].factor == f;
          assert pre[i] == rows[i];
        }
      }
    }
  }

  /** Every entry of the fold is the one the reference reading gives. */
  lemma {:induction false} ConfigureLookup(rows: seq<RegRow>, p: string, f: string, key: Cell)
    ensures Get(Configure(rows), p, f, key) == Lookup(rows, p, f, key)
    decreases |rows|
  {
    if |rows| > 0 {
      var n := |rows| - 1;
      var pre := rows[..n];
      ConfigureKeys(pre);
      ConfigureLookup(pre, p, f, key);
    }
  }

  /** A level row's mean and SE stay unless a later row about the same factor has no level
      or the same level. */
  lemma {:induction false} LevelLastWins(rows: seq<RegRow>, i: nat)
    requires i < |rows| && Truthy(rows[i].level)
    requires forall j :: i < j < |rows| && rows[j].param == rows[i].param && rows[j].factor == rows[i].factor ==>
               Truthy(rows[j].level) && rows[j].level != rows[i].level
    ensures Get(Configure(rows), rows[i].param, rows[i].factor, rows[i].level) ==
            Some(Level(MeanOrZero(rows[i].mean), OrZero(rows[i].se)))
    decreases |rows|
  {
    ConfigureLookup(rows, rows[i].param, rows[i].factor, rows[i].level);
    LevelLookup(rows, i);
  }

  lemma {:induction false} LevelLookup(rows: seq<RegRow>, i: nat)
    requires i < |rows| && Truthy(rows[i].level)
    requires forall j :: i < j < |rows| && rows[j].param == rows[i].param && rows[j].factor == rows[i].factor ==>
               Truthy(rows[j].level) && rows[j].level != rows[i].level
    ensures Lookup(rows, rows[i].param, rows[i].factor, rows[i].level) == Some(Level(MeanOrZero(rows[i].mean), OrZero(rows[i].se)))
    decreases |rows|
  {
    var n := |rows| - 1;
    if i < n {
      var pre := rows[..n];
      assert pre[i] == rows[i];
      LevelLookup(pre, i);
      assert HasFactor(pre, rows[i].param, rows[i].factor);
    }
  }

  /** A row without level decides its factor's whole dictionary when no later row is about
      that factor. */
  lemma WholesaleLastWins(rows: seq<RegRow>, i: nat)
    requires i < |rows| && !Truthy(rows[i].level)
    requires forall j :: i < j < |rows| ==> rows[j].param != rows[i].param || rows[j].factor != rows[i].factor
    ensures var cfg := Configure(rows);
            rows[i].param in cfg && rows[i].factor in cfg[rows[i].param] &&
            cfg[rows[i].param][rows[i].factor] == Wholesale(rows[i])
  {
    var p, f := rows[i].param, rows[i].factor;
    ConfigureKeys(rows);
    assert HasFactor(rows, p, f);
    var cfg := Configure(rows);
    forall key ensures Get(cfg, p, f, key) == (if key in Wholesale(rows[i]) then Some(Wholesale(rows[i])[key]) else None) {
      ConfigureLookup(rows, p, f, key);
      WholesaleLookup(rows, i, key);
    }
    assert forall key :: key in cfg[p][f] <==> key in Wholesale(rows[i]) by {
      forall key ensures key in cfg[p][f] <==> key in Wholesale(rows[i]) {
        assert Get(cfg, p, f, key).Some? <==> key in cfg[p][f];
      }
    }
    assert cfg[p][f].Keys == Wholesale(rows[i]).Keys;
  }

  lemma {:induction false} WholesaleLookup(rows: seq<RegRow>, i: nat, key: Cell)
    requires i < |rows| && !Truthy(rows[i].level)
    requires forall j :: i < j < |rows| ==> rows[j].param != rows[i].param || rows[j].factor != rows[i].factor
    ensures Lookup(rows, rows[i].param, rows[i].factor, key) ==
            (if key in Wholesale(rows[i]) then Some(Wholesale(rows[i])[key]) else None)
    decreases |rows|
  {
    var n := |rows| - 1;
    if i < n {
      assert rows[..n][i] == rows[i];
      WholesaleLookup(rows[..n], i, key);
    }
  }

  /** "vartype" is written only when a level row creates its factor: later level rows (of
      other levels than "vartype") leave the first row's value. */
  lemma VartypeFirstWins(rows: seq<RegRow>, i: nat)
    requires i < |rows| && Truthy(rows[i].level) && rows[i].level != VartypeKey
    requires forall j :: 0 <= j < i ==> rows[j].param != rows[i].param || rows[j].factor != rows[i].factor
    requires forall j :: i < j < |rows| && rows[j].param == rows[i].param && rows[j].factor == rows[i].factor ==>
               Truthy(rows[j].level) && rows[j].level != VartypeKey
    ensures Get(Configure(rows), rows[i].param, rows[i].factor, VartypeKey) == Some(Scalar(OrZero(rows[i].vartype)))
  {
    ConfigureLookup(rows, rows[i].param, rows[i].factor, VartypeKey);
    VartypeLookup(rows, i);
  }

  lemma {:induction false} VartypeLookup(rows: seq<RegRow>, i: nat)
    requires i < |rows| && Truthy(rows[i].level) && rows[i].level != VartypeKey
    requires forall j :: 0 <= j < i ==> rows[j].param != rows[i].param || rows[j].factor != rows[i].factor
    requires forall j :: i < j < |rows| && rows[j].param == rows[i].param && rows[j].factor == rows[i].factor ==>
               Truthy(rows[j].level) && rows[j].level != VartypeKey
    ensures Lookup(rows, rows[i].param, rows[i].factor, VartypeKey) == Some(Scalar(OrZero(rows[i].vartype)))
    decreases |rows|
  {
    var n := |rows| - 1;
    var pre := rows[..n];
    if i < n {
      assert pre[i] == rows[i];
      VartypeLookup(pre, i);
      assert HasFactor(pre, rows[i].param, rows[i].factor);
    } else {
      assert !HasFactor(pre, rows[i].param, rows[i].factor);
    }
  }

  /** Every stored value is normalised: SE and vartype never false unless 0, and no mean is
      "ref" or missing. */
  predicate NormalSlot(key: Cell, s: Slot) {
    match s
    case Level(m, se) => MeanOrZero(m) == m && OrZero(se) == se
    case Scalar(v) => (key == MeanKey ==> MeanOrZero(v) == v) && (key != MeanKey ==> OrZero(v) == v)
  }

  predicate NormalConfig(cfg: Config) {
    forall p, f, key :: p in cfg && f in cfg[p] && key in cfg[p][f] ==> NormalSlot(key, cfg[p][f][key])
  }

  lemma {:induction false} ConfigureNormal(rows: seq<RegRow>)
    ensures NormalConfig(Configure(rows))
    decreases |rows|
  {
    if |rows| > 0 {
      ConfigureNormal(rows[..|rows| - 1]);
    }
  }

  /** The data rows of the sheet (all but the header), with parameter and factor converted
      to text; every row must first have those two cells, then be exactly six cells wide. */
  function RegRows(sheet: seq<Row>, show: real -> string): (r: Result<seq<RegRow>>)
    ensures var data := if |sheet| == 0 then [] else sheet[1..];
            && (r.Ok? <==> forall i :: 0 <= i < |data| ==> |data[i]| == 6)
            && (r.Ok? ==> |r.value| == |data| && forall i :: 0 <= i < |data| ==>
                  r.value[i] == RegRow(Render(data[i][0], show), Render(data[i][1], show),
                                       data[i][2], data[i][3], data[i][4], data[i][5]))
  {
    var data := if |sheet| == 0 then [] else sheet[1..];
    var short := FirstFailing(data, row => |row| >= 2);
    var wide := FirstFailing(data, row => |row| == 6);
    if short.Some? then
      Fail(ShortRow(short.value + 1))
    else if wide.Some? then
      Fail(BadWidth(wide.value + 1))
    else
      Ok(seq(|data|, i requires 0 <= i < |data| =>
        RegRow(Render(data[i][0], show), Render(data[i][1], show), data[i][2], data[i][3], data[i][4], data[i][5])))
  }

  /** The regression configuration of a sheet. */
  function BuildConfig(sheet: seq<Row>, show: real -> string): Result<Config> {
    match RegRows(sheet, show)
    case Fail(err) => Fail(err)
    case Ok(rows) => Ok(Configure(rows))
  }
}
