/**
 * The Vehicle resource: the `autolog_vehicle` table, the `VehicleCreate`
 * request schema, the record's `__repr__`, and the six handlers of the
 * vehicle controller (list, create, get, PUT, PATCH, delete).
 */
module Vehicles {
  import opened Values
  import opened ResourceTable

  /** The columns of `autolog_vehicle`. */
  datatype VehicleColumn =
    | Id | Year | Make | Model | Color | VinNumber | LicensePlateNumber | RegistrationNumber | State
    | PurchasedDate | PurchasedPrice | PurchasedOdometer | DealerName | SoldDate | SoldPrice | SoldOdometer
    | CreateDate | UpdateDate

  type VehicleRow = Row<VehicleColumn>

  const AllColumns: set<VehicleColumn> := {
    Id, Year, Make, Model, Color, VinNumber, LicensePlateNumber, RegistrationNumber, State,
    PurchasedDate, PurchasedPrice, PurchasedOdometer, DealerName, SoldDate, SoldPrice, SoldOdometer,
    CreateDate, UpdateDate}

  /** The column's name in the table and in serialized responses. */
  function Name(c: VehicleColumn): string {
    match c
    case Id => "id"
    case Year => "year"
    case Make => "make"
    case Model => "model"
    case Color => "color"
    case VinNumber => "vin_number"
    case LicensePlateNumber => "license_plate_number"
    case RegistrationNumber => "registration_number"
    case State => "state"
    case PurchasedDate => "purchased_date"
    case PurchasedPrice => "purchased_price"
    case PurchasedOdometer => "purchased_odometer"
    case DealerName => "dealer_name"
    case SoldDate => "sold_date"
    case SoldPrice => "sold_price"
    case SoldOdometer => "sold_odometer"
    case CreateDate => "create_date"
    case UpdateDate => "update_date"
  }

  /** The declared type of each column: only id, year, make and model are NOT NULL. */
  function TypeOf(c: VehicleColumn): ColumnType {
    match c
    case Id | Year => ColumnType(IntKind, false)
    case Make | Model => ColumnType(StrKind, false)
    case Color | VinNumber | LicensePlateNumber | RegistrationNumber | State | DealerName => NullableStr
    case PurchasedDate | SoldDate | CreateDate | UpdateDate => NullableTime
    case PurchasedPrice | SoldPrice => NullableFloat
    case PurchasedOdometer | SoldOdometer => NullableInt
  }

  const VehicleColumns: map<VehicleColumn, ColumnType> := map c | c in AllColumns :: TypeOf(c)

  /** Every column but the primary key and the two timestamps is a `VehicleCreate` field. */
  predicate IsField(c: VehicleColumn) {
    !(c.Id? || c.CreateDate? || c.UpdateDate?)
  }

  /** `VehicleCreate` requires year, make and model; the other twelve fields are `Optional[...] = None`. */
  predicate IsRequired(c: VehicleColumn) {
    c.Year? || c.Make? || c.Model?
  }

  const VehicleFields: set<VehicleColumn> := set c | c in AllColumns && IsField(c)
  const VehicleRequired: set<VehicleColumn> := set c | c in VehicleFields && IsRequired(c)
  const VehicleOptional: set<VehicleColumn> := VehicleFields - VehicleRequired

  const VehicleSchema: Schema<VehicleColumn> := Schema(
    "Vehicle",
    AllColumns,
    VehicleFields,
    VehicleRequired,
    map f | f in VehicleOptional :: Null,
    None,
    Id, CreateDate, UpdateDate)

  lemma AllColumnsComplete(c: VehicleColumn)
    ensures c in AllColumns
  {
  }

  lemma RequiredFields()
    ensures VehicleRequired == {Year, Make, Model}
  {
    forall c ensures c in VehicleRequired <==> c in {Year, Make, Model} {
      AllColumnsComplete(c);
    }
  }

  lemma SchemaWellFormed()
    ensures WellFormed(VehicleSchema)
  {
  }

  lemma KeyColumnTypes()
    ensures VehicleColumns.Keys == AllColumns
    ensures Id in VehicleColumns && VehicleColumns[Id] == ColumnType(IntKind, false)
    ensures CreateDate in VehicleColumns && VehicleColumns[CreateDate].kind == TimeKind
    ensures UpdateDate in VehicleColumns && VehicleColumns[UpdateDate].kind == TimeKind
  {
  }

  lemma NonNullableRequired()
    ensures forall c :: c in VehicleColumns && !VehicleColumns[c].nullable && !IsSystemColumn(VehicleSchema, c) ==> c in VehicleRequired
  {
    forall c | c in VehicleColumns && !VehicleColumns[c].nullable && !IsSystemColumn(VehicleSchema, c)
      ensures c in VehicleRequired
    {
      assert VehicleColumns[c] == TypeOf(c);
    }
  }

  lemma DefaultsConform()
    ensures forall f :: f in VehicleSchema.defaults ==> f in VehicleColumns && Conforms(VehicleSchema.defaults[f], VehicleColumns[f])
  {
  }

  lemma ColumnTypesAgree()
    ensures TypesAgree(VehicleSchema, VehicleColumns)
  {
    KeyColumnTypes();
    NonNullableRequired();
    DefaultsConform();
  }

  /** The schema is consistent with the table: the body can set no system column, and exactly the non-null columns are required. */
  lemma VehicleSchemaSound()
    ensures WellFormed(VehicleSchema) && TypesAgree(VehicleSchema, VehicleColumns)
    ensures VehicleRequired == {Year, Make, Model}
    ensures forall f :: f in VehicleOptional ==> VehicleSchema.defaults[f] == Null
  {
    SchemaWellFormed();
    ColumnTypesAgree();
    RequiredFields();
  }

  /** A stored vehicle row, typed as its columns declare. */
  datatype Vehicle = Vehicle(
    id: int,
    year: int,
    make: string,
    model: string,
    color: Option<string>,
    vinNumber: Option<string>,
    licensePlateNumber: Option<string>,
    registrationNumber: Option<string>,
    state: Option<string>,
    purchasedDate: Option<Moment>,
    purchasedPrice: Option<Float>,
    purchasedOdometer: Option<int>,
    dealerName: Option<string>,
    soldDate: Option<Moment>,
    soldPrice: Option<Float>,
    soldOdometer: Option<int>,
    createDate: Option<Moment>,
    updateDate: Option<Moment>)

  /** A conforming row has every column, each holding a value of the column's declared type. */
  lemma ConformingCells(row: VehicleRow)
    requires RowConforms(VehicleColumns, row)
    ensures forall c :: c in row && Conforms(row[c], TypeOf(c))
  {
    forall c ensures c in row && Conforms(row[c], TypeOf(c)) {
      AllColumnsComplete(c);
      assert VehicleColumns[c] == TypeOf(c);
    }
  }

  /** The value a vehicle holds in one column (`getattr(obj, column.name)`). */
  function Cell(v: Vehicle, c: VehicleColumn): (x: Value)
    ensures Conforms(x, TypeOf(c))
  {
    match c
    case Id => IntV(v.id)
    case Year => IntV(v.year)
    case Make => StrV(v.make)
    case Model => StrV(v.model)
    case Color => OptStr(v.color)
    case VinNumber => OptStr(v.vinNumber)
    case LicensePlateNumber => OptStr(v.licensePlateNumber)
    case RegistrationNumber => OptStr(v.registrationNumber)
    case State => OptStr(v.state)
    case PurchasedDate => OptTime(v.purchasedDate)
    case PurchasedPrice => OptFloat(v.purchasedPrice)
    case PurchasedOdometer => OptInt(v.purchasedOdometer)
    case DealerName => OptStr(v.dealerName)
    case SoldDate => OptTime(v.soldDate)
    case SoldPrice => OptFloat(v.soldPrice)
    case SoldOdometer => OptInt(v.soldOdometer)
    case CreateDate => OptTime(v.createDate)
    case UpdateDate => OptTime(v.updateDate)
  }

  /** The column map of a vehicle: what `serialize_sqlalchemy_obj` returns for it. */
  function ToRow(v: Vehicle): (r: VehicleRow)
    ensures RowConforms(VehicleColumns, r) && RowFits(VehicleSchema, v.id, r)
  {
    map c | c in AllColumns :: Cell(v, c)
  }

  /** Reads a row back as a vehicle, attribute by attribute. */
  function FromRow(row: VehicleRow): Vehicle {
    Vehicle(
      GetInt(At(row, Id)), GetInt(At(row, Year)), GetStr(At(row, Make)), GetStr(At(row, Model)),
      GetOptStr(At(row, Color)), GetOptStr(At(row, VinNumber)),
      GetOptStr(At(row, LicensePlateNumber)), GetOptStr(At(row, RegistrationNumber)),
      GetOptStr(At(row, State)),
      GetOptTime(At(row, PurchasedDate)), GetOptFloat(At(row, PurchasedPrice)),
      GetOptInt(At(row, PurchasedOdometer)),
      GetOptStr(At(row, DealerName)),
      GetOptTime(At(row, SoldDate)), GetOptFloat(At(row, SoldPrice)), GetOptInt(At(row, SoldOdometer)),
      GetOptTime(At(row, CreateDate)), GetOptTime(At(row, UpdateDate)))
  }

  lemma CellOfFromRow(row: VehicleRow, c: VehicleColumn)
    requires RowConforms(VehicleColumns, row)
    ensures c in row && Cell(FromRow(row), c) == row[c]
  {
    ConformingCells(row);
    match c
    case Id =>
    case Year =>
    case Make =>
    case Model =>
    case Color =>
    case VinNumber =>
    case LicensePlateNumber =>
    case RegistrationNumber =>
    case State =>
    case PurchasedDate =>
    case PurchasedPrice =>
    case PurchasedOdometer =>
    case DealerName =>
    case SoldDate =>
    case SoldPrice =>
    case SoldOdometer =>
    case CreateDate =>
    case UpdateDate =>
  }

  /** Reading a conforming row back and writing it out again gives the same row. */
  lemma ToRowFromRow(row: VehicleRow)
    requires RowConforms(VehicleColumns, row)
    ensures ToRow(FromRow(row)) == row
  {
    forall c | c in AllColumns ensures Cell(FromRow(row), c) == row[c] {
      CellOfFromRow(row, c);
    }
    ConformingCells(row);
  }

  /** Writing a vehicle out and reading it back gives the same vehicle. */
  lemma FromRowToRow(v: Vehicle)
    ensures FromRow(ToRow(v)) == v
  {
    var w := FromRow(ToRow(v));
    ToRowFromRow(ToRow(v));
    forall c ensures Cell(w, c) == Cell(v, c) {
      AllColumnsComplete(c);
    }
    CellsDetermine(v, w);
  }

  /** A vehicle is determined by its column values. */
  lemma CellsDetermine(v: Vehicle, w: Vehicle)
    requires forall c :: Cell(v, c) == Cell(w, c)
    ensures v == w
  {
    SameCells(v, w, Id); SameCells(v, w, Year); SameCells(v, w, Make); SameCells(v, w, Model);
    SameCells(v, w, Color); SameCells(v, w, VinNumber); SameCells(v, w, LicensePlateNumber);
    SameCells(v, w, RegistrationNumber); SameCells(v, w, State); SameCells(v, w, PurchasedDate);
    SameCells(v, w, PurchasedPrice); SameCells(v, w, PurchasedOdometer); SameCells(v, w, DealerName);
    SameCells(v, w, SoldDate); SameCells(v, w, SoldPrice); SameCells(v, w, SoldOdometer);
    SameCells(v, w, CreateDate); SameCells(v, w, UpdateDate);
  }

  /** Equal column values mean equal attributes. */
  lemma SameCells(v: Vehicle, w: Vehicle, c: VehicleColumn)
    requires Cell(v, c) == Cell(w, c)
    ensures c == Id ==> v.id == w.id
    ensures c == Year ==> v.year == w.year
    ensures c == Make ==> v.make == w.make
    ensures c == Model ==> v.model == w.model
    ensures c == Color ==> v.color == w.color
    ensures c == VinNumber ==> v.vinNumber == w.vinNumber
    ensures c == LicensePlateNumber ==> v.licensePlateNumber == w.licensePlateNumber
    ensures c == RegistrationNumber ==> v.registrationNumber == w.registrationNumber
    ensures c == State ==> v.state == w.state
    ensures c == PurchasedDate ==> v.purchasedDate == w.purchasedDate
    ensures c == PurchasedPrice ==> v.purchasedPrice == w.purchasedPrice
    ensures c == PurchasedOdometer ==> v.purchasedOdometer == w.purchasedOdometer
    ensures c == DealerName ==> v.dealerName == w.dealerName
    ensures c == SoldDate ==> v.soldDate == w.soldDate
    ensures c == SoldPrice ==> v.soldPrice == w.soldPrice
    ensures c == SoldOdometer ==> v.soldOdometer == w.soldOdometer
    ensures c == CreateDate ==> v.createDate == w.createDate
    ensures c == UpdateDate ==> v.updateDate == w.updateDate
  {
    match c
    case Id =>
    case Year =>
    case Make =>
    case Model =>
    case Color =>
    case VinNumber =>
    case LicensePlateNumber =>
    case RegistrationNumber =>
    case State =>
    case PurchasedDate =>
    case PurchasedPrice =>
    case PurchasedOdometer =>
    case DealerName =>
    case SoldDate =>
    case SoldPrice =>
    case SoldOdometer =>
    case CreateDate =>
    case UpdateDate =>
  }

  /** `Vehicle.__repr__` after the id: year, make and model. */
  function ReprTail(v: Vehicle): (r: string)
    ensures |r| > 0 && r[0] == ','
  {
    ", year=" + IntToString(v.year) + ", make='" + v.make + "', model='" + v.model + "')>"
  }

  /** `Vehicle.__repr__`. */
  function Repr(v: Vehicle): (r: string)
    ensures |r| > 12 && r[..12] == "<Vehicle(id="
  {
    "<Vehicle(id=" + IntToString(v.id) + ReprTail(v)
  }

  /** The repr names the vehicle's id unambiguously. */
  lemma ReprNamesId(v1: Vehicle, v2: Vehicle)
    requires Repr(v1) == Repr(v2)
    ensures v1.id == v2.id
  {
    TaggedIntUnique("<Vehicle(id=", v1.id, ReprTail(v1), v2.id, ReprTail(v2));
  }

  function NotFoundMessage(id: int): (m: string)
    ensures |m| > 16 && m[..16] == "Vehicle with id "
  {
    "Vehicle with id " + IntToString(id) + " not found"
  }

  function DeletedMessage(id: int): (m: string)
    ensures |m| > 16 && m[..16] == "Vehicle with id "
  {
    "Vehicle with id " + IntToString(id) + " deleted successfully"
  }

  /** The 404 detail the gas and insurance controllers give when the vehicle in the path does not exist. */
  function MissingParentMessage(vehicleId: int): (m: string)
    ensures |m| > 8 && m[..8] == "Vehicle "
  {
    "Vehicle " + IntToString(vehicleId) + " not found"
  }

  /** The missing-parent detail names exactly the vehicle in the path. */
  lemma MissingParentMessageNamesId(a: int, b: int)
    requires MissingParentMessage(a) == MissingParentMessage(b)
    ensures a == b
  {
    TaggedIntUnique("Vehicle ", a, " not found", b, " not found");
  }

  /** The 404 detail of the vehicle handlers names exactly the requested id. */
  lemma NotFoundMessageNamesId(a: int, b: int)
    requires NotFoundMessage(a) == NotFoundMessage(b)
    ensures a == b
  {
    TaggedIntUnique("Vehicle with id ", a, " not found", b, " not found");
  }

  /** `list_vehicle`: rows `(page - 1) * limit` onwards in natural order, at most `limit` of them. */
  function ListVehicle(t: Table<VehicleColumn>, page: int, limit: int, fault: Option<string>): (r: Reply<seq<VehicleRow>>)
    reads t
    requires t.Valid() && t.schema == VehicleSchema && page >= 1 && 1 <= limit <= 100
    ensures fault.Some? ==> r == Internal(InternalError(fault.value))
    ensures fault.None? ==> r.Ok? && |r.value| <= limit
    ensures fault.None? ==> forall i :: 0 <= i < |r.value| ==>
      Offset(page, limit) + i < |t.order| && r.value[i] == t.rows[t.order[Offset(page, limit) + i]]
    ensures fault.None? && Offset(page, limit) < |t.order| ==>
      |r.value| == if Offset(page, limit) + limit <= |t.order| then limit else |t.order| - Offset(page, limit)
    ensures fault.None? && Offset(page, limit) >= |t.order| ==> r == Ok([])
  {
    VisibleUnscoped(t.schema, t.rows, t.order);
    t.List(page, limit, Unscoped, fault)
  }

  /** `get_vehicle_by_id`. */
  function GetVehicleById(t: Table<VehicleColumn>, id: int, fault: Option<string>): (r: Reply<VehicleRow>)
    reads t
    requires t.Valid() && t.schema == VehicleSchema
    ensures fault.Some? ==> r == Internal(InternalError(fault.value))
    ensures fault.None? && id !in t.rows ==> r == NotFound(NotFoundMessage(id))
    ensures fault.None? && id in t.rows ==> r == Ok(t.rows[id])
  {
    t.Get(id, Unscoped, fault, NotFoundMessage(id))
  }

  /**
   * `create_record`: the new vehicle carries only the sent fields, both
   * timestamps are `now`, and a well-typed body yields a row that meets every
   * NOT NULL constraint.
   */
  method CreateRecord(t: Table<VehicleColumn>, body: VehicleRow, now: Moment, fault: Option<string>) returns (r: Reply<VehicleRow>)
    requires t.Valid() && t.schema == VehicleSchema && ValidBody(VehicleSchema, body)
    modifies t
    ensures t.Valid()
    ensures fault.Some? ==>
      r == Internal(InternalError(fault.value)) && t.rows == old(t.rows) && t.order == old(t.order)
    ensures fault.None? ==>
      && r == Ok(NewRow(VehicleSchema, old(t.nextId), Unscoped, body, now))
      && old(t.nextId) !in old(t.rows)
      && t.rows == old(t.rows)[old(t.nextId) := r.value]
      && t.order == old(t.order) + [old(t.nextId)]
    ensures fault.None? && BodyConforms(VehicleColumns, body) ==> RowConforms(VehicleColumns, r.value)
  {
    r := t.Create(body, Unscoped, now, fault);
    if fault.None? && BodyConforms(VehicleColumns, body) {
      VehicleSchemaSound();
      NewRowConforms(VehicleSchema, VehicleColumns, old(t.nextId), Unscoped, body, now);
    }
  }

  /** `update_vehicle_full`: every `VehicleCreate` field is written, unsent ones become `None`. */
  method UpdateVehicleFull(t: Table<VehicleColumn>, id: int, body: VehicleRow, now: Moment, lookupFault: Option<string>, fault: Option<string>) returns (r: Reply<VehicleRow>)
    requires t.Valid() && t.schema == VehicleSchema && ValidBody(VehicleSchema, body)
    modifies t
    ensures t.Valid() && t.order == old(t.order)
    ensures lookupFault.Some? ==>
      r == Internal(InternalError(lookupFault.value)) && t.rows == old(t.rows) && t.order == old(t.order)
    ensures lookupFault.None? && id !in old(t.rows) ==> r == NotFound(NotFoundMessage(id)) && t.rows == old(t.rows)
    ensures lookupFault.None? && id in old(t.rows) && fault.Some? ==>
      r == Internal(InternalError(fault.value)) && t.rows == old(t.rows)
    ensures lookupFault.None? && id in old(t.rows) && fault.None? ==>
      && r == Ok(Updated(VehicleSchema, old(t.rows)[id], PutData(VehicleSchema, body), now))
      && t.rows == old(t.rows)[id := r.value]
      && (forall f :: f in VehicleOptional && f !in body ==> r.value[f] == Null)
      && r.value[Id] == old(t.rows)[id][Id] && r.value[CreateDate] == old(t.rows)[id][CreateDate]
  {
    VehicleSchemaSound();
    r := t.Put(id, Unscoped, body, now, lookupFault, fault, NotFoundMessage(id));
  }

  /** `update_vehicle_partial`: only the sent fields change, and `update_date`. */
  method UpdateVehiclePartial(t: Table<VehicleColumn>, id: int, body: VehicleRow, now: Moment, lookupFault: Option<string>, fault: Option<string>) returns (r: Reply<VehicleRow>)
    requires t.Valid() && t.schema == VehicleSchema && ValidBody(VehicleSchema, body)
    modifies t
    ensures t.Valid() && t.order == old(t.order)
    ensures lookupFault.Some? ==>
      r == Internal(InternalError(lookupFault.value)) && t.rows == old(t.rows) && t.order == old(t.order)
    ensures lookupFault.None? && id !in old(t.rows) ==> r == NotFound(NotFoundMessage(id)) && t.rows == old(t.rows)
    ensures lookupFault.None? && id in old(t.rows) && fault.Some? ==>
      r == Internal(InternalError(fault.value)) && t.rows == old(t.rows)
    ensures lookupFault.None? && id in old(t.rows) && fault.None? ==>
      && r == Ok(Updated(VehicleSchema, old(t.rows)[id], body, now))
      && t.rows == old(t.rows)[id := r.value]
      && (forall c :: c in old(t.rows)[id] && c !in body && c != UpdateDate ==> r.value[c] == old(t.rows)[id][c])
  {
    r := t.Patch(id, Unscoped, body, now, lookupFault, fault, NotFoundMessage(id));
  }

  /** `delete_vehicle`: removes only this row; gas and insurance rows are other tables and stay as they are. */
  method DeleteVehicle(t: Table<VehicleColumn>, id: int, lookupFault: Option<string>, fault: Option<string>) returns (r: Reply<string>)
    requires t.Valid() && t.schema == VehicleSchema
    modifies t
    ensures t.Valid()
    ensures lookupFault.Some? ==>
      r == Internal(InternalError(lookupFault.value)) && t.rows == old(t.rows) && t.order == old(t.order)
    ensures lookupFault.None? && id !in old(t.rows) ==>
      r == NotFound(NotFoundMessage(id)) && t.rows == old(t.rows) && t.order == old(t.order)
    ensures lookupFault.None? && id in old(t.rows) && fault.Some? ==>
      r == Internal(InternalError(fault.value)) && t.rows == old(t.rows) && t.order == old(t.order)
    ensures lookupFault.None? && id in old(t.rows) && fault.None? ==>
      r == Ok(DeletedMessage(id)) && t.rows == old(t.rows) - {id} && t.order == Erase(old(t.order), id)
  {
    r := t.Delete(id, Unscoped, lookupFault, fault, NotFoundMessage(id), DeletedMessage(id));
  }
}
