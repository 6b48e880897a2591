/** Validation of the `[[systems]]` table of an input file: the single system table, its
    `cell` entry and its `guess_bonds` flag. */
module InputSystem {
  import opened Wrappers
  import opened Toml
  import Extract

  /** The unit cell an input file asks for, by the constructor that builds it: the default
      (infinite) cell, an orthorhombic cell from three lengths, a triclinic cell from three
      lengths and three angles, or a cubic cell from one length. */
  datatype UnitCell =
    | Infinite
    | Ortho(a: real, b: real, c: real)
    | Triclinic(a: real, b: real, c: real, alpha: real, beta: real, gamma: real)
    | Cubic(length: real)

  const NoSystem := "'systems' array should contain a system"
  const TooManySystems := "Only one system is supported in input file"
  const SystemNotTable := "'systems' should be an array of tables in input file"
  const CellNotNumber := "Values must be numbers in 'cell' array"
  const CellBadSize := "'cell' array must have a size of 3 or 6"
  const CellBadType := "'cell' must be a number or an array in system"
  const GuessBondsNotBool := "'guess_bonds' should be a boolean value in system"

  /** The one system table of the input file: `systems` must be an array holding exactly
      one table. */
  function SystemTable(config: Entries): (r: Result<Entries>)
    ensures r.Ok? <==> && "systems" in config && config["systems"].Array?
                       && |config["systems"].items| == 1 && config["systems"].items[0].Table?
    ensures r.Ok? ==> r.value == config["systems"].items[0].entries
    ensures "systems" !in config ==> r == Err(Extract.MissingKey("systems", "input file"))
    ensures "systems" in config && !config["systems"].Array?
        ==> r == Err(Extract.MustBe("systems", "an array", "input file"))
    ensures "systems" in config && config["systems"] == Array([]) ==> r == Err(NoSystem)
    ensures "systems" in config && config["systems"].Array? && |config["systems"].items| > 1
        ==> r == Err(TooManySystems)
    ensures "systems" in config && config["systems"].Array? && |config["systems"].items| == 1
            && !config["systems"].items[0].Table?
        ==> r == Err(SystemNotTable)
  {
    match Extract.Slice("systems", config, "input file")
    case Err(e) => Err(e)
    case Ok(systems) =>
      if |systems| == 0 then Err(NoSystem)
      else if |systems| > 1 then Err(TooManySystems)
      else if systems[0].Table? then Ok(systems[0].entries)
      else Err(SystemNotTable)
  }

  /** `get_cell_number`: an integer converted to a real, or a float as it is. */
  function GetCellNumber(value: Value): (r: Result<real>)
    ensures r.Ok? <==> IsNumber(value)
    ensures value.Integer? ==> r == Ok(value.integer as real)
    ensures value.Float? ==> r == Ok(value.float)
    ensures r.Err? ==> r.message == CellNotNumber
  {
    if value.Integer? then Ok(value.integer as real)
    else if value.Float? then Ok(value.float)
    else Err(CellNotNumber)
  }

  /** The numbers of a `cell` array, read left to right; the first item that is not a
      number stops the reading with its error. */
  function CellNumbers(items: seq<Value>): (r: Result<seq<real>>)
    ensures r.Ok? <==> forall i | 0 <= i < |items| :: IsNumber(items[i])
    ensures r.Ok? ==> |r.value| == |items|
    ensures r.Ok? ==> forall i | 0 <= i < |items| :: GetCellNumber(items[i]) == Ok(r.value[i])
    ensures r.Err? ==> r.message == CellNotNumber
  {
    if |items| == 0 then Ok([])
    else match GetCellNumber(items[0])
      case Err(e) => Err(e)
      case Ok(x) =>
        match CellNumbers(items[1..])
        case Err(e) => Err(e)
        case Ok(xs) => Ok([x] + xs)
  }

  /** The numbers a cell is built from, in the order the input file lists them. */
  function Parameters(cell: UnitCell): seq<real> {
    match cell
    case Infinite => []
    case Ortho(a, b, c) => [a, b, c]
    case Triclinic(a, b, c, alpha, beta, gamma) => [a, b, c, alpha, beta, gamma]
    case Cubic(l) => [l]
  }

  /** The unit cell a `cell` value describes. */
  function CellFromValue(cell: Value): (r: Result<UnitCell>)
    ensures cell.Array? ==>
      && (|cell.items| == 0 ==> r == Ok(Infinite))
      && (|cell.items| !in {0, 3, 6} ==> r == Err(CellBadSize))
      && (|cell.items| in {3, 6} ==> (r.Ok? <==> forall i | 0 <= i < |cell.items| :: IsNumber(cell.items[i])))
      && (|cell.items| in {3, 6} && r.Err? ==> r.message == CellNotNumber)
      && (r.Ok? ==> CellNumbers(cell.items) == Ok(Parameters(r.value)))
      && (r.Ok? && |cell.items| == 3 ==> r.value.Ortho?)
      && (r.Ok? && |cell.items| == 6 ==> r.value.Triclinic?)
    ensures cell.Integer? ==> r == Ok(Cubic(cell.integer as real))
    ensures cell.Float? ==> r == Ok(Cubic(cell.float))
    ensures !cell.Array? && !IsNumber(cell) ==> r == Err(CellBadType)
  {
    match cell
    case Array(items) =>
      if |items| == 0 then Ok(Infinite)
      else if |items| == 3 then
        match CellNumbers(items)
        case Err(e) => Err(e)
        case Ok(xs) =>
          assert xs == [xs[0], xs[1], xs[2]];
          Ok(Ortho(xs[0], xs[1], xs[2]))
      else if |items| == 6 then
        match CellNumbers(items)
        case Err(e) => Err(e)
        case Ok(xs) =>
          assert xs == [xs[0], xs[1], xs[2], xs[3], xs[4], xs[5]];
          Ok(Triclinic(xs[0], xs[1], xs[2], xs[3], xs[4], xs[5]))
      else Err(CellBadSize)
    case Integer(length) => Ok(Cubic(length as real))
    case Float(length) => Ok(Cubic(length))
    case _ => Err(CellBadType)
  }

  /** `read_cell`: no cell when the system table has no `cell` key, otherwise the cell it
      describes. Errors of the system table come first. */
  function ReadCell(config: Entries): (r: Result<Option<UnitCell>>)
    ensures SystemTable(config).Err? ==> r == Err(SystemTable(config).message)
    ensures SystemTable(config).Ok? && "cell" !in SystemTable(config).value ==> r == Ok(None)
    ensures SystemTable(config).Ok? && "cell" in SystemTable(config).value ==>
      match CellFromValue(SystemTable(config).value["cell"])
      case Ok(cell) => r == Ok(Some(cell))
      case Err(e) => r == Err(e)
  {
    match SystemTable(config)
    case Err(e) => Err(e)
    case Ok(system) =>
      if "cell" !in system then Ok(None)
      else match CellFromValue(system["cell"])
        case Err(e) => Err(e)
        case Ok(cell) => Ok(Some(cell))
  }

  /** How an input file writes a cell: an empty array for the infinite cell, arrays of three
      or six floats, and one float for a cubic cell. */
  function CellToValue(cell: UnitCell): Value {
    match cell
    case Infinite => Array([])
    case Ortho(a, b, c) => Array([Float(a), Float(b), Float(c)])
    case Triclinic(a, b, c, alpha, beta, gamma) =>
      Array([Float(a), Float(b), Float(c), Float(alpha), Float(beta), Float(gamma)])
    case Cubic(l) => Float(l)
  }

  /** Reading back a written cell gives the same cell, whatever else the system table holds. */
  lemma ReadCellRoundTrip(system: Entries, cell: UnitCell)
    ensures ReadCell(map["systems" := Array([Table(system["cell" := CellToValue(cell)])])])
         == Ok(Some(cell))
  {
    var config := map["systems" := Array([Table(system["cell" := CellToValue(cell)])])];
    assert SystemTable(config) == Ok(system["cell" := CellToValue(cell)]);
    match cell
    case Infinite =>
    case Cubic(l) =>
    case Ortho(a, b, c) =>
      var items := CellToValue(cell).items;
      var numbers := CellNumbers(items);
      assert numbers.Ok? && numbers.value[0] == a && numbers.value[1] == b && numbers.value[2] == c;
      assert numbers.value == [a, b, c];
    case Triclinic(a, b, c, alpha, beta, gamma) =>
      var items := CellToValue(cell).items;
      var numbers := CellNumbers(items);
      assert numbers.Ok? && numbers.value[0] == a && numbers.value[1] == b && numbers.value[2] == c;
      assert numbers.value[3] == alpha && numbers.value[4] == beta && numbers.value[5] == gamma;
      assert numbers.value == [a, b, c, alpha, beta, gamma];
  }

  /** A cell number is what `extract::number` would read for the same value. */
  lemma CellNumberIsExtractNumber(key: string, config: Entries, context: string)
    requires key in config
    ensures GetCellNumber(config[key]).Ok? <==> Extract.Number(key, config, context).Ok?
    ensures GetCellNumber(config[key]).Ok? ==> GetCellNumber(config[key]) == Extract.Number(key, config, context)
  {
  }

  /** The `guess_bonds` flag of a system table: `false` when absent, its value when it is
      a boolean, an error otherwise. */
  function GuessBonds(system: Entries): (r: Result<bool>)
    ensures r == Ok(true) <==> "guess_bonds" in system && system["guess_bonds"] == Boolean(true)
    ensures r == Ok(false) <==> "guess_bonds" !in system || system["guess_bonds"] == Boolean(false)
    ensures r.Err? <==> "guess_bonds" in system && !system["guess_bonds"].Boolean?
    ensures r.Err? ==> r.message == GuessBondsNotBool
  {
    if "guess_bonds" in system then
      if system["guess_bonds"].Boolean? then Ok(system["guess_bonds"].boolean)
      else Err(GuessBondsNotBool)
    else Ok(false)
  }
}
