/**
 * The Gas resource: the `autolog_gas` table of fuel and charging records,
 * each owned by a vehicle through `vehicle_id`, the `GasCreate` request
 * schema, the record's `__repr__`, and the six handlers of the gas
 * controller. Every handler addresses records through the vehicle id in its
 * path; list and create first check that the vehicle exists.
 */
module Gases {
  import opened Values
  import opened ResourceTable
  import Vehicles

  /** The columns of `autolog_gas`. */
  datatype GasColumn =
    | Id | VehicleId | Date | Odometer
    | Gallons | Cost | Mpg | MilesDriven | CostPerGallon
    | KwhPerMile | MilesPerKwh | CostPerKwh
    | CreateDate | UpdateDate

  type GasRow = Row<GasColumn>

  const AllColumns: set<GasColumn> := {
    Id, VehicleId, Date, Odometer, Gallons, Cost, Mpg, MilesDriven, CostPerGallon,
    KwhPerMile, MilesPerKwh, CostPerKwh, CreateDate, UpdateDate}

  /** The column's name in the table and in serialized responses. */
  function Name(c: GasColumn): string {
    match c
    case Id => "id"
    case VehicleId => "vehicle_id"
    case Date => "date"
    case Odometer => "odometer"
    case Gallons => "gallons"
    case Cost => "cost"
    case Mpg => "mpg"
    case MilesDriven => "miles_driven"
    case CostPerGallon => "cost_per_gallon"
    case KwhPerMile => "kwh_per_mile"
    case MilesPerKwh => "miles_per_kwh"
    case CostPerKwh => "cost_per_kwh"
    case CreateDate => "create_date"
    case UpdateDate => "update_date"
  }

  /** The declared type of each column: id, vehicle_id, date and odometer are NOT NULL. */
  function TypeOf(c: GasColumn): ColumnType {
    match c
    case Id | VehicleId | Odometer => ColumnType(IntKind, false)
    case Date => ColumnType(TimeKind, false)
    case MilesDriven => NullableInt
    case Gallons | Cost | Mpg | CostPerGallon | KwhPerMile | MilesPerKwh | CostPerKwh => NullableFloat
    case CreateDate | UpdateDate => NullableTime
  }

  const GasColumns: map<GasColumn, ColumnType> := map c | c in AllColumns :: TypeOf(c)

  /** The `GasBase` fields: every column but the keys and the two timestamps. */
  predicate IsField(c: GasColumn) {
    !(c.Id? || c.VehicleId? || c.CreateDate? || c.UpdateDate?)
  }

  /** `GasBase` requires date and odometer; the eight others are `Optional[...] = None`. */
  predicate IsRequired(c: GasColumn) {
    c.Date? || c.Odometer?
  }

  const GasFields: set<GasColumn> := set c | c in AllColumns && IsField(c)
  const GasRequired: set<GasColumn> := set c | c in GasFields && IsRequired(c)
  const GasOptional: set<GasColumn> := GasFields - GasRequired

  const GasSchema: Schema<GasColumn> := Schema(
    "Gas",
    AllColumns,
    GasFields,
    GasRequired,
    map f | f in GasOptional :: Null,
    Some(VehicleId),
    Id, CreateDate, UpdateDate)

  lemma AllColumnsComplete(c: GasColumn)
    ensures c in AllColumns
  {
  }

  lemma RequiredFields()
    ensures GasRequired == {Date, Odometer}
  {
    forall c ensures c in GasRequired <==> c in {Date, Odometer} {
      AllColumnsComplete(c);
    }
  }

  lemma SchemaWellFormed()
    ensures WellFormed(GasSchema)
  {
  }

  lemma KeyColumnTypes()
    ensures GasColumns.Keys == AllColumns
    ensures Id in GasColumns && GasColumns[Id] == ColumnType(IntKind, false)
    ensures VehicleId in GasColumns && GasColumns[VehicleId] == ColumnType(IntKind, false)
    ensures CreateDate in GasColumns && GasColumns[CreateDate].kind == TimeKind
    ensures UpdateDate in GasColumns && GasColumns[UpdateDate].kind == TimeKind
  {
  }

  lemma NonNullableRequired()
    ensures forall c :: c in GasColumns && !GasColumns[c].nullable && !IsSystemColumn(GasSchema, c) && c != VehicleId ==> c in GasRequired
  {
    forall c | c in GasColumns && !GasColumns[c].nullable && !IsSystemColumn(GasSchema, c) && c != VehicleId
      ensures c in GasRequired
    {
      assert GasColumns[c] == TypeOf(c);
    }
  }

  lemma DefaultsConform()
    ensures forall f :: f in GasSchema.defaults ==> f in GasColumns && Conforms(GasSchema.defaults[f], GasColumns[f])
  {
  }

  lemma ColumnTypesAgree()
    ensures TypesAgree(GasSchema, GasColumns)
  {
    KeyColumnTypes();
    NonNullableRequired();
    DefaultsConform();
  }

  /** The schema is consistent with the table: the body sets neither key nor timestamp, and exactly the non-null data columns are required. */
  lemma GasSchemaSound()
    ensures WellFormed(GasSchema) && TypesAgree(GasSchema, GasColumns)
    ensures GasRequired == {Date, Odometer} && GasSchema.parent == Some(VehicleId)
    ensures forall f :: f in GasOptional ==> GasSchema.defaults[f] == Null
  {
    SchemaWellFormed();
    ColumnTypesAgree();
    RequiredFields();
  }

  /** A stored gas record, typed as its columns declare. */
  datatype Gas = Gas(
    id: int,
    vehicleId: int,
    date: Moment,
    odometer: int,
    gallons: Option<Float>,
    cost: Option<Float>,
    mpg: Option<Float>,
    milesDriven: Option<int>,
    costPerGallon: Option<Float>,
    kwhPerMile: Option<Float>,
    milesPerKwh: Option<Float>,
    costPerKwh: Option<Float>,
    createDate: Option<Moment>,
    updateDate: Option<Moment>)

  /** A conforming row has every column, each holding a value of the column's declared type. */
  lemma ConformingCells(row: GasRow)
    requires RowConforms(GasColumns, row)
    ensures forall c :: c in row && Conforms(row[c], TypeOf(c))
  {
    forall c ensures c in row && Conforms(row[c], TypeOf(c)) {
      AllColumnsComplete(c);
      assert GasColumns[c] == TypeOf(c);
    }
  }

  /** The value a gas record holds in one column. */
  function Cell(g: Gas, c: GasColumn): (x: Value)
    ensures Conforms(x, TypeOf(c))
  {
    match c
    case Id => IntV(g.id)
    case VehicleId => IntV(g.vehicleId)
    case Date => TimeV(g.date)
    case Odometer => IntV(g.odometer)
    case Gallons => OptFloat(g.gallons)
    case Cost => OptFloat(g.cost)
    case Mpg => OptFloat(g.mpg)
    case MilesDriven => OptInt(g.milesDriven)
    case CostPerGallon => OptFloat(g.costPerGallon)
    case KwhPerMile => OptFloat(g.kwhPerMile)
    case MilesPerKwh => OptFloat(g.milesPerKwh)
    case CostPerKwh => OptFloat(g.costPerKwh)
    case CreateDate => OptTime(g.createDate)
    case UpdateDate => OptTime(g.updateDate)
  }

  /** The column map of a gas record: what `serialize_sqlalchemy_obj` returns for it. */
  function ToRow(g: Gas): (r: GasRow)
    ensures RowConforms(GasColumns, r) && RowFits(GasSchema, g.id, r)
    ensures OwnedBy(GasSchema, r, Owner(g.vehicleId))
  {
    map c | c in AllColumns :: Cell(g, c)
  }

  /** Reads a row back as a gas record, attribute by attribute. */
  function FromRow(row: GasRow): Gas {
    Gas(
      GetInt(At(row, Id)), GetInt(At(row, VehicleId)), GetTime(At(row, Date)), GetInt(At(row, Odometer)),
      GetOptFloat(At(row, Gallons)), GetOptFloat(At(row, Cost)), GetOptFloat(At(row, Mpg)),
      GetOptInt(At(row, MilesDriven)), GetOptFloat(At(row, CostPerGallon)),
      GetOptFloat(At(row, KwhPerMile)), GetOptFloat(At(row, MilesPerKwh)), GetOptFloat(At(row, CostPerKwh)),
      GetOptTime(At(row, CreateDate)), GetOptTime(At(row, UpdateDate)))
  }

  lemma CellOfFromRow(row: GasRow, c: GasColumn)
    requires RowConforms(GasColumns, row)
    ensures c in row && Cell(FromRow(row), c) == row[c]
  {
    ConformingCells(row);
    match c
    case Id =>
    case VehicleId =>
    case Date =>
    case Odometer =>
    case Gallons =>
    case Cost =>
    case Mpg =>
    case MilesDriven =>
    case CostPerGallon =>
    case KwhPerMile =>
    case MilesPerKwh =>
    case CostPerKwh =>
    case CreateDate =>
    case UpdateDate =>
  }

  /** Reading a conforming row back and writing it out again gives the same row. */
  lemma ToRowFromRow(row: GasRow)
    requires RowConforms(GasColumns, row)
    ensures ToRow(FromRow(row)) == row
  {
    forall c | c in AllColumns ensures Cell(FromRow(row), c) == row[c] {
      CellOfFromRow(row, c);
    }
    ConformingCells(row);
  }

  /** Writing a gas record out and reading it back gives the same record. */
  lemma FromRowToRow(g: Gas)
    ensures FromRow(ToRow(g)) == g
  {
    var h := FromRow(ToRow(g));
    ToRowFromRow(ToRow(g));
    forall c ensures Cell(h, c) == Cell(g, c) {
      AllColumnsComplete(c);
    }
    CellsDetermine(g, h);
  }

  /** A gas record is determined by its column values. */
  lemma CellsDetermine(g: Gas, h: Gas)
    requires forall c :: Cell(g, c) == Cell(h, c)
    ensures g == h
  {
    SameCells(g, h, Id); SameCells(g, h, VehicleId); SameCells(g, h, Date); SameCells(g, h, Odometer);
    SameCells(g, h, Gallons); SameCells(g, h, Cost); SameCells(g, h, Mpg); SameCells(g, h, MilesDriven);
    SameCells(g, h, CostPerGallon); SameCells(g, h, KwhPerMile); SameCells(g, h, MilesPerKwh);
    SameCells(g, h, CostPerKwh); SameCells(g, h, CreateDate); SameCells(g, h, UpdateDate);
  }

  /** Equal column values mean equal attributes. */
  lemma SameCells(g: Gas, h: Gas, c: GasColumn)
    requires Cell(g, c) == Cell(h, c)
    ensures c == Id ==> g.id == h.id
    ensures c == VehicleId ==> g.vehicleId == h.vehicleId
    ensures c == Date ==> g.date == h.date
    ensures c == Odometer ==> g.odometer == h.odometer
    ensures c == Gallons ==> g.gallons == h.gallons
    ensures c == Cost ==> g.cost == h.cost
    ensures c == Mpg ==> g.mpg == h.mpg
    ensures c == MilesDriven ==> g.milesDriven == h.milesDriven
    ensures c == CostPerGallon ==> g.costPerGallon == h.costPerGallon
    ensures c == KwhPerMile ==> g.kwhPerMile == h.kwhPerMile
    ensures c == MilesPerKwh ==> g.milesPerKwh == h.milesPerKwh
    ensures c == CostPerKwh ==> g.costPerKwh == h.costPerKwh
    ensures c == CreateDate ==> g.createDate == h.createDate
    ensures c == UpdateDate ==> g.updateDate == h.updateDate
  {
    match c
    case Id =>
    case VehicleId =>
    case Date =>
    case Odometer =>
    case Gallons =>
    case Cost =>
    case Mpg =>
    case MilesDriven =>
    case CostPerGallon =>
    case KwhPerMile =>
    case MilesPerKwh =>
    case CostPerKwh =>
    case CreateDate =>
    case UpdateDate =>
  }

  /** `Gas.__repr__` from the date on; unset attributes print as `None`. */
  function ReprRest(g: Gas): (r: string)
    ensures |r| > 0 && r[0] == ','
  {
    ", date=" + g.date.text + ", odometer=" + IntToString(g.odometer)
      + ", gallons=" + Show(OptFloat(g.gallons)) + ", cost=" + Show(OptFloat(g.cost))
      + ", kWhPerMile=" + Show(OptFloat(g.kwhPerMile)) + ", milesPerKWh=" + Show(OptFloat(g.milesPerKwh)) + ")>"
  }

  /** `Gas.__repr__` from the vehicle id on. */
  function ReprTail(g: Gas): (r: string)
    ensures |r| > 0 && r[0] == ','
  {
    ", vehicle_id=" + IntToString(g.vehicleId) + ReprRest(g)
  }

  /** `Gas.__repr__`. */
  function Repr(g: Gas): (r: string)
    ensures |r| > 8 && r[..8] == "<Gas(id="
  {
    "<Gas(id=" + IntToString(g.id) + ReprTail(g)
  }

  /** The repr names both the record's id and its vehicle's id unambiguously. */
  lemma ReprNamesIds(g: Gas, h: Gas)
    requires Repr(g) == Repr(h)
    ensures g.id == h.id && g.vehicleId == h.vehicleId
  {
    TaggedIntUnique("<Gas(id=", g.id, ReprTail(g), h.id, ReprTail(h));
    TaggedIntUnique(", vehicle_id=", g.vehicleId, ReprRest(g), h.vehicleId, ReprRest(h));
  }

  /** The 404 detail of a lookup scoped to a vehicle. */
  function NotFoundMessage(gasId: int, vehicleId: int): (m: string)
    ensures |m| > 4 && m[..4] == "Gas "
  {
    "Gas " + IntToString(gasId) + " not found for vehicle " + IntToString(vehicleId)
  }

  /** The confirmation of a scoped delete. */
  function DeletedMessage(gasId: int, vehicleId: int): (m: string)
    ensures |m| > 4 && m[..4] == "Gas "
  {
    "Gas " + IntToString(gasId) + " for vehicle " + IntToString(vehicleId) + " deleted successfully"
  }

  /** The 404 detail names exactly the requested record and vehicle. */
  lemma NotFoundMessageNamesIds(a: int, b: int, c: int, d: int)
    requires NotFoundMessage(a, b) == NotFoundMessage(c, d)
    ensures a == c && b == d
  {
    assert NotFoundMessage(a, b) == "Gas " + IntToString(a) + " not found for vehicle " + IntToString(b) + "";
    assert NotFoundMessage(c, d) == "Gas " + IntToString(c) + " not found for vehicle " + IntToString(d) + "";
    TaggedIntPairUnique("Gas ", a, " not found for vehicle ", b, "", c, d);
  }

  /** The confirmation names exactly the deleted record and its vehicle. */
  lemma DeletedMessageNamesIds(a: int, b: int, c: int, d: int)
    requires DeletedMessage(a, b) == DeletedMessage(c, d)
    ensures a == c && b == d
  {
    TaggedIntPairUnique("Gas ", a, " for vehicle ", b, " deleted successfully", c, d);
  }

  /** `list_gas`: 404 unless the vehicle exists, else its gas records from `(page - 1) * limit`, at most `limit`. */
  function ListGas(vehicles: Table<Vehicles.VehicleColumn>, gas: Table<GasColumn>, vehicleId: int,
                   page: int, limit: int, lookupFault: Option<string>, fault: Option<string>): (r: Reply<seq<GasRow>>)
    reads vehicles, gas
    requires gas.Valid() && gas.schema == GasSchema && page >= 1 && 1 <= limit <= 100
    ensures lookupFault.Some? ==> r == Internal(InternalError(lookupFault.value))
    ensures lookupFault.None? && vehicleId !in vehicles.rows ==> r == NotFound(Vehicles.MissingParentMessage(vehicleId))
    ensures lookupFault.None? && vehicleId in vehicles.rows && fault.Some? ==> r == Internal(InternalError(fault.value))
    ensures r.Ok? ==> vehicleId in vehicles.rows && |r.value| <= limit
    ensures r.Ok? ==> forall i :: 0 <= i < |r.value| ==> VehicleId in r.value[i] && r.value[i][VehicleId] == IntV(vehicleId)
    ensures r.Ok? ==>
      r.value == Render(GasSchema, gas.rows, Window(Visible(GasSchema, gas.rows, gas.order, Owner(vehicleId)), Offset(page, limit), limit))
    ensures lookupFault.None? && fault.None? && vehicleId in vehicles.rows ==> r.Ok?
  {
    if lookupFault.Some? then Internal(InternalError(lookupFault.value))
    else if vehicleId !in vehicles.rows then NotFound(Vehicles.MissingParentMessage(vehicleId))
    else gas.List(page, limit, Owner(vehicleId), fault)
  }

  /** Every gas record of the vehicle is on some page of `list_gas`: the pages cover the filtered rows in natural order. */
  lemma ListedRecordsOfVehicle(gas: Table<GasColumn>, vehicleId: int, id: int)
    requires gas.Valid() && gas.schema == GasSchema
    requires id in gas.rows && gas.rows[id][VehicleId] == IntV(vehicleId)
    ensures id in Visible(GasSchema, gas.rows, gas.order, Owner(vehicleId))
  {
    VisibleComplete(GasSchema, gas.rows, gas.order, Owner(vehicleId), id);
  }

  /** `get_gas_by_id`: found only when the record exists and belongs to the vehicle in the path. */
  function GetGasById(gas: Table<GasColumn>, vehicleId: int, gasId: int, fault: Option<string>): (r: Reply<GasRow>)
    reads gas
    requires gas.Valid() && gas.schema == GasSchema
    ensures fault.Some? ==> r == Internal(InternalError(fault.value))
    ensures fault.None? && !(gasId in gas.rows && gas.rows[gasId][VehicleId] == IntV(vehicleId)) ==>
      r == NotFound(NotFoundMessage(gasId, vehicleId))
    ensures fault.None? && gasId in gas.rows && gas.rows[gasId][VehicleId] == IntV(vehicleId) ==>
      r == Ok(gas.rows[gasId])
  {
    gas.Get(gasId, Owner(vehicleId), fault, NotFoundMessage(gasId, vehicleId))
  }

  /** A gas record is reachable through one vehicle only: its own. */
  lemma GetThroughOwnerOnly(gas: Table<GasColumn>, v1: int, v2: int, gasId: int)
    requires gas.Valid() && gas.schema == GasSchema
    requires GetGasById(gas, v1, gasId, None).Ok? && GetGasById(gas, v2, gasId, None).Ok?
    ensures v1 == v2
  {
    assert gas.rows[gasId][VehicleId] == IntV(v1);
  }

  /**
   * `create_gas`: 404 unless the vehicle exists; else a record carrying the
   * sent fields and the path's vehicle id, both timestamps `now`. A failing
   * commit rolls back.
   */
  method CreateGas(vehicles: Table<Vehicles.VehicleColumn>, gas: Table<GasColumn>, vehicleId: int, body: GasRow,
                   now: Moment, lookupFault: Option<string>, fault: Option<string>) returns (r: Reply<GasRow>)
    requires gas.Valid() && gas.schema == GasSchema && ValidBody(GasSchema, body)
    modifies gas
    ensures gas.Valid()
    ensures lookupFault.Some? ==>
      r == Internal(InternalError(lookupFault.value)) && gas.rows == old(gas.rows) && gas.order == old(gas.order)
    ensures lookupFault.None? && vehicleId !in vehicles.rows ==>
      r == NotFound(Vehicles.MissingParentMessage(vehicleId)) && gas.rows == old(gas.rows) && gas.order == old(gas.order)
    ensures lookupFault.None? && vehicleId in vehicles.rows && fault.Some? ==>
      r == Internal(InternalError(fault.value)) && gas.rows == old(gas.rows) && gas.order == old(gas.order)
    ensures lookupFault.None? && vehicleId in vehicles.rows && fault.None? ==>
      && r == Ok(NewRow(GasSchema, old(gas.nextId), Owner(vehicleId), body, now))
      && r.value[VehicleId] == IntV(vehicleId)
      && old(gas.nextId) !in old(gas.rows)
      && gas.rows == old(gas.rows)[old(gas.nextId) := r.value]
      && gas.order == old(gas.order) + [old(gas.nextId)]
    ensures r.Ok? && BodyConforms(GasColumns, body) ==> RowConforms(GasColumns, r.value)
  {
    if lookupFault.Some? {
      return Internal(InternalError(lookupFault.value));
    }
    if vehicleId !in vehicles.rows {
      return NotFound(Vehicles.MissingParentMessage(vehicleId));
    }
    r := gas.Create(body, Owner(vehicleId), now, fault);
    if r.Ok? && BodyConforms(GasColumns, body) {
      GasSchemaSound();
      NewRowConforms(GasSchema, GasColumns, old(gas.nextId), Owner(vehicleId), body, now);
    }
  }

  /** `update_gas_full`: every `GasCreate` field is written, unsent optional ones become `None`; the vehicle id stays. */
  method UpdateGasFull(gas: Table<GasColumn>, vehicleId: int, gasId: int, body: GasRow, now: Moment, lookupFault: Option<string>, fault: Option<string>)
    returns (r: Reply<GasRow>)
    requires gas.Valid() && gas.schema == GasSchema && ValidBody(GasSchema, body)
    modifies gas
    ensures gas.Valid() && gas.order == old(gas.order)
    ensures lookupFault.Some? ==>
      r == Internal(InternalError(lookupFault.value)) && gas.rows == old(gas.rows) && gas.order == old(gas.order)
    ensures lookupFault.None? && !Matches(GasSchema, old(gas.rows), gasId, Owner(vehicleId)) ==>
      r == NotFound(NotFoundMessage(gasId, vehicleId)) && gas.rows == old(gas.rows)
    ensures lookupFault.None? && Matches(GasSchema, old(gas.rows), gasId, Owner(vehicleId)) && fault.Some? ==>
      r == Internal(InternalError(fault.value)) && gas.rows == old(gas.rows)
    ensures lookupFault.None? && Matches(GasSchema, old(gas.rows), gasId, Owner(vehicleId)) && fault.None? ==>
      && r == Ok(Updated(GasSchema, old(gas.rows)[gasId], PutData(GasSchema, body), now))
      && gas.rows == old(gas.rows)[gasId := r.value]
      && (forall f :: f in GasOptional && f !in body ==> r.value[f] == Null)
      && r.value[VehicleId] == IntV(vehicleId)
  {
    GasSchemaSound();
    r := gas.Put(gasId, Owner(vehicleId), body, now, lookupFault, fault, NotFoundMessage(gasId, vehicleId));
  }

  /** `update_gas_partial`: only the sent fields change, and `update_date`. */
  method UpdateGasPartial(gas: Table<GasColumn>, vehicleId: int, gasId: int, body: GasRow, now: Moment, lookupFault: Option<string>, fault: Option<string>)
    returns (r: Reply<GasRow>)
    requires gas.Valid() && gas.schema == GasSchema && ValidBody(GasSchema, body)
    modifies gas
    ensures gas.Valid() && gas.order == old(gas.order)
    ensures lookupFault.Some? ==>
      r == Internal(InternalError(lookupFault.value)) && gas.rows == old(gas.rows) && gas.order == old(gas.order)
    ensures lookupFault.None? && !Matches(GasSchema, old(gas.rows), gasId, Owner(vehicleId)) ==>
      r == NotFound(NotFoundMessage(gasId, vehicleId)) && gas.rows == old(gas.rows)
    ensures lookupFault.None? && Matches(GasSchema, old(gas.rows), gasId, Owner(vehicleId)) && fault.Some? ==>
      r == Internal(InternalError(fault.value)) && gas.rows == old(gas.rows)
    ensures lookupFault.None? && Matches(GasSchema, old(gas.rows), gasId, Owner(vehicleId)) && fault.None? ==>
      && r == Ok(Updated(GasSchema, old(gas.rows)[gasId], body, now))
      && gas.rows == old(gas.rows)[gasId := r.value]
      && (forall c :: c in old(gas.rows)[gasId] && c !in body && c != UpdateDate ==> r.value[c] == old(gas.rows)[gasId][c])
  {
    r := gas.Patch(gasId, Owner(vehicleId), body, now, lookupFault, fault, NotFoundMessage(gasId, vehicleId));
  }

  /** `delete_gas`: removes only this record, and only through its own vehicle. */
  method DeleteGas(gas: Table<GasColumn>, vehicleId: int, gasId: int, lookupFault: Option<string>, fault: Option<string>) returns (r: Reply<string>)
    requires gas.Valid() && gas.schema == GasSchema
    modifies gas
    ensures gas.Valid()
    ensures lookupFault.Some? ==>
      r == Internal(InternalError(lookupFault.value)) && gas.rows == old(gas.rows) && gas.order == old(gas.order)
    ensures lookupFault.None? && !Matches(GasSchema, old(gas.rows), gasId, Owner(vehicleId)) ==>
      r == NotFound(NotFoundMessage(gasId, vehicleId)) && gas.rows == old(gas.rows) && gas.order == old(gas.order)
    ensures lookupFault.None? && Matches(GasSchema, old(gas.rows), gasId, Owner(vehicleId)) && fault.Some? ==>
      r == Internal(InternalError(fault.value)) && gas.rows == old(gas.rows) && gas.order == old(gas.order)
    ensures lookupFault.None? && Matches(GasSchema, old(gas.rows), gasId, Owner(vehicleId)) && fault.None? ==>
      && r == Ok(DeletedMessage(gasId, vehicleId))
      && gas.rows == old(gas.rows) - {gasId}
      && gas.order == Erase(old(gas.order), gasId)
  {
    r := gas.Delete(gasId, Owner(vehicleId), lookupFault, fault, NotFoundMessage(gasId, vehicleId), DeletedMessage(gasId, vehicleId));
  }
}
