/**
 * The Insurance resource: the `autolog_insurance` table, each record owned
 * by a vehicle through `vehicle_id`, the `InsuranceCreate` request schema,
 * the record's `__repr__`, and the six handlers of the insurance controller.
 *
 * The controller module imports only `InsuranceCreate`, never the
 * `Insurance` model it queries and constructs, so as written every handler
 * ends in HTTP 500 once it reaches a use of that name. `AsWrittenReply`
 * models that; the handlers below model the evidently intended behaviour,
 * which is the gas controller's.
 */
module Insurances {
  import opened Values
  import opened ResourceTable
  import Vehicles

  /** The columns of `autolog_insurance`. */
  datatype InsuranceColumn = Id | VehicleId | Date | Cost | Notes | CreateDate | UpdateDate

  type InsuranceRow = Row<InsuranceColumn>

  const AllColumns: set<InsuranceColumn> := {Id, VehicleId, Date, Cost, Notes, CreateDate, UpdateDate}

  /** The column's name in the table and in serialized responses. */
  function Name(c: InsuranceColumn): string {
    match c
    case Id => "id"
    case VehicleId => "vehicle_id"
    case Date => "date"
    case Cost => "cost"
    case Notes => "notes"
    case CreateDate => "create_date"
    case UpdateDate => "update_date"
  }

  /** The declared type of each column: all are NOT NULL but notes and the two timestamps. */
  function TypeOf(c: InsuranceColumn): ColumnType {
    match c
    case Id | VehicleId => ColumnType(IntKind, false)
    case Date => ColumnType(TimeKind, false)
    case Cost => ColumnType(FloatKind, false)
    case Notes => NullableStr
    case CreateDate | UpdateDate => NullableTime
  }

  const InsuranceColumns: map<InsuranceColumn, ColumnType> := map c | c in AllColumns :: TypeOf(c)

  /** `InsuranceBase` requires date and cost; notes defaults to the empty string. */
  const InsuranceFields: set<InsuranceColumn> := {Date, Cost, Notes}
  const InsuranceRequired: set<InsuranceColumn> := {Date, Cost}

  const InsuranceSchema: Schema<InsuranceColumn> := Schema(
    "Insurance",
    AllColumns,
    InsuranceFields,
    InsuranceRequired,
    map[Notes := StrV("")],
    Some(VehicleId),
    Id, CreateDate, UpdateDate)

  lemma AllColumnsComplete(c: InsuranceColumn)
    ensures c in AllColumns
  {
  }

  lemma SchemaWellFormed()
    ensures WellFormed(InsuranceSchema)
  {
  }

  lemma KeyColumnTypes()
    ensures InsuranceColumns.Keys == AllColumns
    ensures Id in InsuranceColumns && InsuranceColumns[Id] == ColumnType(IntKind, false)
    ensures VehicleId in InsuranceColumns && InsuranceColumns[VehicleId] == ColumnType(IntKind, false)
    ensures CreateDate in InsuranceColumns && InsuranceColumns[CreateDate].kind == TimeKind
    ensures UpdateDate in InsuranceColumns && InsuranceColumns[UpdateDate].kind == TimeKind
  {
  }

  lemma NonNullableRequired()
    ensures forall c ::
              (c in InsuranceColumns && !InsuranceColumns[c].nullable && !IsSystemColumn(InsuranceSchema, c) && c != VehicleId)
              ==> c in InsuranceRequired
  {
    forall c | c in InsuranceColumns && !InsuranceColumns[c].nullable && !IsSystemColumn(InsuranceSchema, c) && c != VehicleId
      ensures c in InsuranceRequired
    {
      assert InsuranceColumns[c] == TypeOf(c);
    }
  }

  lemma ColumnTypesAgree()
    ensures TypesAgree(InsuranceSchema, InsuranceColumns)
  {
    KeyColumnTypes();
    NonNullableRequired();
    assert InsuranceColumns[Notes] == NullableStr;
  }

  /**
   * The schema is consistent with the table: the body sets neither key nor
   * timestamp, the non-null data columns are required, and the one default,
   * the empty notes, fits its column.
   */
  lemma InsuranceSchemaSound()
    ensures WellFormed(InsuranceSchema) && TypesAgree(InsuranceSchema, InsuranceColumns)
    ensures InsuranceSchema.parent == Some(VehicleId) && InsuranceSchema.defaults == map[Notes := StrV("")]
  {
    SchemaWellFormed();
    ColumnTypesAgree();
  }

  /** A stored insurance record, typed as its columns declare. */
  datatype Insurance = Insurance(
    id: int,
    vehicleId: int,
    date: Moment,
    cost: Float,
    notes: Option<string>,
    createDate: Option<Moment>,
    updateDate: Option<Moment>)

  /** A conforming row has every column, each holding a value of the column's declared type. */
  lemma ConformingCells(row: InsuranceRow)
    requires RowConforms(InsuranceColumns, row)
    ensures forall c :: c in row && Conforms(row[c], TypeOf(c))
  {
    forall c ensures c in row && Conforms(row[c], TypeOf(c)) {
      AllColumnsComplete(c);
      assert InsuranceColumns[c] == TypeOf(c);
    }
  }

  /** The value an insurance record holds in one column. */
  function Cell(n: Insurance, c: InsuranceColumn): (x: Value)
    ensures Conforms(x, TypeOf(c))
  {
    match c
    case Id => IntV(n.id)
    case VehicleId => IntV(n.vehicleId)
    case Date => TimeV(n.date)
    case Cost => FloatV(n.cost)
    case Notes => OptStr(n.notes)
    case CreateDate => OptTime(n.createDate)
    case UpdateDate => OptTime(n.updateDate)
  }

  /** The column map of an insurance record: what `serialize_sqlalchemy_obj` returns for it. */
  function ToRow(n: Insurance): (r: InsuranceRow)
    ensures RowConforms(InsuranceColumns, r) && RowFits(InsuranceSchema, n.id, r)
    ensures OwnedBy(InsuranceSchema, r, Owner(n.vehicleId))
  {
    map c | c in AllColumns :: Cell(n, c)
  }

  /** Reads a row back as an insurance record, attribute by attribute. */
  function FromRow(row: InsuranceRow): Insurance {
    Insurance(
      GetInt(At(row, Id)), GetInt(At(row, VehicleId)), GetTime(At(row, Date)), GetFloat(At(row, Cost)),
      GetOptStr(At(row, Notes)), GetOptTime(At(row, CreateDate)), GetOptTime(At(row, UpdateDate)))
  }

  /** Reading a conforming row back and writing it out again gives the same row. */
  lemma ToRowFromRow(row: InsuranceRow)
    requires RowConforms(InsuranceColumns, row)
    ensures ToRow(FromRow(row)) == row
  {
    ConformingCells(row);
    forall c | c in AllColumns ensures Cell(FromRow(row), c) == row[c] {
      match c
      case Id =>
      case VehicleId =>
      case Date =>
      case Cost =>
      case Notes =>
      case CreateDate =>
      case UpdateDate =>
    }
  }

  /** Writing an insurance record out and reading it back gives the same record. */
  lemma FromRowToRow(n: Insurance)
    ensures FromRow(ToRow(n)) == n
  {
    var row := ToRow(n);
    assert row[Id] == Cell(n, Id) && row[VehicleId] == Cell(n, VehicleId);
    assert row[Date] == Cell(n, Date) && row[Cost] == Cell(n, Cost) && row[Notes] == Cell(n, Notes);
    assert row[CreateDate] == Cell(n, CreateDate) && row[UpdateDate] == Cell(n, UpdateDate);
  }

  /** `Insurance.__repr__` from the date on; a `None` notes prints as `None`. */
  function ReprRest(n: Insurance): (r: string)
    ensures |r| > 0 && r[0] == ','
  {
    ", date=" + n.date.text + ", cost=" + n.cost.text + ", notes=" + Show(OptStr(n.notes)) + ")>"
  }

  /** `Insurance.__repr__` from the vehicle id on. */
  function ReprTail(n: Insurance): (r: string)
    ensures |r| > 0 && r[0] == ','
  {
    ", vehicle_id=" + IntToString(n.vehicleId) + ReprRest(n)
  }

  /** `Insurance.__repr__`. */
  function Repr(n: Insurance): (r: string)
    ensures |r| > 14 && r[..14] == "<Insurance(id="
  {
    "<Insurance(id=" + IntToString(n.id) + ReprTail(n)
  }

  /** The repr names both the record's id and its vehicle's id unambiguously. */
  lemma ReprNamesIds(n: Insurance, m: Insurance)
    requires Repr(n) == Repr(m)
    ensures n.id == m.id && n.vehicleId == m.vehicleId
  {
    TaggedIntUnique("<Insurance(id=", n.id, ReprTail(n), m.id, ReprTail(m));
    TaggedIntUnique(", vehicle_id=", n.vehicleId, ReprRest(n), m.vehicleId, ReprRest(m));
  }

  /** The 404 detail of a lookup scoped to a vehicle. */
  function NotFoundMessage(insuranceId: int, vehicleId: int): (m: string)
    ensures |m| > 10 && m[..10] == "Insurance "
  {
    "Insurance " + IntToString(insuranceId) + " not found for vehicle " + IntToString(vehicleId)
  }

  /** The confirmation of a scoped delete. */
  function DeletedMessage(insuranceId: int, vehicleId: int): (m: string)
    ensures |m| > 10 && m[..10] == "Insurance "
  {
    "Insurance " + IntToString(insuranceId) + " for vehicle " + IntToString(vehicleId) + " deleted successfully"
  }

  /** The 404 detail names exactly the requested record and vehicle. */
  lemma NotFoundMessageNamesIds(a: int, b: int, c: int, d: int)
    requires NotFoundMessage(a, b) == NotFoundMessage(c, d)
    ensures a == c && b == d
  {
    assert NotFoundMessage(a, b) == "Insurance " + IntToString(a) + " not found for vehicle " + IntToString(b) + "";
    assert NotFoundMessage(c, d) == "Insurance " + IntToString(c) + " not found for vehicle " + IntToString(d) + "";
    TaggedIntPairUnique("Insurance ", a, " not found for vehicle ", b, "", c, d);
  }

  /** The confirmation names exactly the deleted record and its vehicle. */
  lemma DeletedMessageNamesIds(a: int, b: int, c: int, d: int)
    requires DeletedMessage(a, b) == DeletedMessage(c, d)
    ensures a == c && b == d
  {
    TaggedIntPairUnique("Insurance ", a, " for vehicle ", b, " deleted successfully", c, d);
  }

  /**
   * Create leaves an omitted notes as the column's NULL, PUT writes the
   * schema default `""`, and PATCH keeps whatever the record held.
   */
  lemma OmittedNotes(row: InsuranceRow, id: int, vehicleId: int, body: InsuranceRow, now: Moment)
    requires ValidBody(InsuranceSchema, body) && Notes !in body && Notes in row
    ensures WellFormed(InsuranceSchema) && ScopeFits(InsuranceSchema, Owner(vehicleId))
    ensures NewRow(InsuranceSchema, id, Owner(vehicleId), body, now)[Notes] == Null
    ensures Updated(InsuranceSchema, row, PutData(InsuranceSchema, body), now)[Notes] == StrV("")
    ensures Updated(InsuranceSchema, row, body, now)[Notes] == row[Notes]
  {
    InsuranceSchemaSound();
  }

  /**
   * `notes: str = ""` admits no `null`, so a PUT always leaves a text in
   * notes, and a PATCH leaves NULL only where the record already held it.
   */
  lemma NotesNeverNulled(row: InsuranceRow, body: InsuranceRow, now: Moment)
    requires ValidBody(InsuranceSchema, body)
    ensures WellFormed(InsuranceSchema)
    ensures Notes in Updated(InsuranceSchema, row, PutData(InsuranceSchema, body), now)
    ensures Updated(InsuranceSchema, row, PutData(InsuranceSchema, body), now)[Notes] != Null
    ensures Notes in row && Updated(InsuranceSchema, row, body, now)[Notes] == Null ==> row[Notes] == Null
  {
    InsuranceSchemaSound();
    assert Notes in InsuranceSchema.defaults && InsuranceSchema.defaults[Notes] == StrV("");
  }

  /** The handlers of the insurance controller. */
  datatype Handler = List | Get | Create | Put | Patch | Delete

  /** Python's message for the unresolved model name. */
  const UnresolvedModel := "name 'Insurance' is not defined"

  /**
   * The reply of each insurance handler as written. List and create first
   * look the vehicle up (that query needs only `Vehicle`); every handler then
   * reaches a use of `Insurance`, raises, and ends in HTTP 500, after a
   * rollback where the handler has one. No handler can change a table.
   */
  function AsWrittenReply(h: Handler, vehicles: Table<Vehicles.VehicleColumn>, vehicleId: int, lookupFault: Option<string>)
    : (r: Reply<string>)
    reads vehicles
    ensures !r.Ok?
    ensures (h.List? || h.Create?) && lookupFault.None? && vehicleId !in vehicles.rows ==>
      r == NotFound(Vehicles.MissingParentMessage(vehicleId))
    ensures (h.List? || h.Create?) && lookupFault.Some? ==> r == Internal(InternalError(lookupFault.value))
    ensures !(h.List? || h.Create?) || (lookupFault.None? && vehicleId in vehicles.rows) ==>
      r == Internal(InternalError(UnresolvedModel))
  {
    if (h.List? || h.Create?) && lookupFault.Some? then Internal(InternalError(lookupFault.value))
    else if (h.List? || h.Create?) && vehicleId !in vehicles.rows then NotFound(Vehicles.MissingParentMessage(vehicleId))
    else Internal(InternalError(UnresolvedModel))
  }

  /** `list_insurance`: 404 unless the vehicle exists, else its insurance records from `(page - 1) * limit`, at most `limit`. */
  function ListInsurance(vehicles: Table<Vehicles.VehicleColumn>, insurance: Table<InsuranceColumn>, vehicleId: int,
                         page: int, limit: int, lookupFault: Option<string>, fault: Option<string>)
    : (r: Reply<seq<InsuranceRow>>)
    reads vehicles, insurance
    requires insurance.Valid() && insurance.schema == InsuranceSchema && page >= 1 && 1 <= limit <= 100
    ensures lookupFault.Some? ==> r == Internal(InternalError(lookupFault.value))
    ensures lookupFault.None? && vehicleId !in vehicles.rows ==> r == NotFound(Vehicles.MissingParentMessage(vehicleId))
    ensures lookupFault.None? && vehicleId in vehicles.rows && fault.Some? ==> r == Internal(InternalError(fault.value))
    ensures r.Ok? ==> vehicleId in vehicles.rows && |r.value| <= limit
    ensures r.Ok? ==> forall i :: 0 <= i < |r.value| ==> VehicleId in r.value[i] && r.value[i][VehicleId] == IntV(vehicleId)
    ensures r.Ok? ==>
      r.value == Render(InsuranceSchema, insurance.rows,
        Window(Visible(InsuranceSchema, insurance.rows, insurance.order, Owner(vehicleId)), Offset(page, limit), limit))
    ensures lookupFault.None? && fault.None? && vehicleId in vehicles.rows ==> r.Ok?
  {
    if lookupFault.Some? then Internal(InternalError(lookupFault.value))
    else if vehicleId !in vehicles.rows then NotFound(Vehicles.MissingParentMessage(vehicleId))
    else insurance.List(page, limit, Owner(vehicleId), fault)
  }

  /** `get_insurance_by_id`: found only when the record exists and belongs to the vehicle in the path. */
  function GetInsuranceById(insurance: Table<InsuranceColumn>, vehicleId: int, insuranceId: int, fault: Option<string>)
    : (r: Reply<InsuranceRow>)
    reads insurance
    requires insurance.Valid() && insurance.schema == InsuranceSchema
    ensures fault.Some? ==> r == Internal(InternalError(fault.value))
    ensures fault.None? && !(insuranceId in insurance.rows && insurance.rows[insuranceId][VehicleId] == IntV(vehicleId)) ==>
      r == NotFound(NotFoundMessage(insuranceId, vehicleId))
    ensures fault.None? && insuranceId in insurance.rows && insurance.rows[insuranceId][VehicleId] == IntV(vehicleId) ==>
      r == Ok(insurance.rows[insuranceId])
  {
    insurance.Get(insuranceId, Owner(vehicleId), fault, NotFoundMessage(insuranceId, vehicleId))
  }

  /** On a record of the vehicle, the intended lookup succeeds where the handler as written fails. */
  lemma MissingImportBreaksGet(vehicles: Table<Vehicles.VehicleColumn>, insurance: Table<InsuranceColumn>,
                               vehicleId: int, insuranceId: int)
    requires insurance.Valid() && insurance.schema == InsuranceSchema
    requires insuranceId in insurance.rows && insurance.rows[insuranceId][VehicleId] == IntV(vehicleId)
    ensures GetInsuranceById(insurance, vehicleId, insuranceId, None).Ok?
    ensures AsWrittenReply(Get, vehicles, vehicleId, None) == Internal(InternalError(UnresolvedModel))
  {
  }

  /**
   * `create_insurance`: 404 unless the vehicle exists; else a record
   * carrying the sent fields and the path's vehicle id, both timestamps
   * `now`. A failing commit rolls back.
   */
  method CreateInsurance(vehicles: Table<Vehicles.VehicleColumn>, insurance: Table<InsuranceColumn>, vehicleId: int,
                         body: InsuranceRow, now: Moment, lookupFault: Option<string>, fault: Option<string>)
    returns (r: Reply<InsuranceRow>)
    requires insurance.Valid() && insurance.schema == InsuranceSchema && ValidBody(InsuranceSchema, body)
    modifies insurance
    ensures insurance.Valid()
    ensures lookupFault.Some? ==>
      r == Internal(InternalError(lookupFault.value)) && insurance.rows == old(insurance.rows) && insurance.order == old(insurance.order)
    ensures lookupFault.None? && vehicleId !in vehicles.rows ==>
      && r == NotFound(Vehicles.MissingParentMessage(vehicleId))
      && insurance.rows == old(insurance.rows) && insurance.order == old(insurance.order)
    ensures lookupFault.None? && vehicleId in vehicles.rows && fault.Some? ==>
      r == Internal(InternalError(fault.value)) && insurance.rows == old(insurance.rows) && insurance.order == old(insurance.order)
    ensures lookupFault.None? && vehicleId in vehicles.rows && fault.None? ==>
      && r == Ok(NewRow(InsuranceSchema, old(insurance.nextId), Owner(vehicleId), body, now))
      && r.value[VehicleId] == IntV(vehicleId)
      && (Notes !in body ==> r.value[Notes] == Null)
      && old(insurance.nextId) !in old(insurance.rows)
      && insurance.rows == old(insurance.rows)[old(insurance.nextId) := r.value]
      && insurance.order == old(insurance.order) + [old(insurance.nextId)]
    ensures r.Ok? && BodyConforms(InsuranceColumns, body) ==> RowConforms(InsuranceColumns, r.value)
  {
    if lookupFault.Some? {
      return Internal(InternalError(lookupFault.value));
    }
    if vehicleId !in vehicles.rows {
      return NotFound(Vehicles.MissingParentMessage(vehicleId));
    }
    InsuranceSchemaSound();
    r := insurance.Create(body, Owner(vehicleId), now, fault);
    if r.Ok? && BodyConforms(InsuranceColumns, body) {
      NewRowConforms(InsuranceSchema, InsuranceColumns, old(insurance.nextId), Owner(vehicleId), body, now);
    }
  }

  /** `update_insurance_full`: date, cost and notes are written, an omitted notes becomes `""`; the vehicle id stays. */
  method UpdateInsuranceFull(insurance: Table<InsuranceColumn>, vehicleId: int, insuranceId: int, body: InsuranceRow,
                             now: Moment, lookupFault: Option<string>, fault: Option<string>) returns (r: Reply<InsuranceRow>)
    requires insurance.Valid() && insurance.schema == InsuranceSchema && ValidBody(InsuranceSchema, body)
    modifies insurance
    ensures insurance.Valid() && insurance.order == old(insurance.order)
    ensures lookupFault.Some? ==>
      r == Internal(InternalError(lookupFault.value)) && insurance.rows == old(insurance.rows) && insurance.order == old(insurance.order)
    ensures lookupFault.None? && !Matches(InsuranceSchema, old(insurance.rows), insuranceId, Owner(vehicleId)) ==>
      r == NotFound(NotFoundMessage(insuranceId, vehicleId)) && insurance.rows == old(insurance.rows)
    ensures lookupFault.None? && Matches(InsuranceSchema, old(insurance.rows), insuranceId, Owner(vehicleId)) && fault.Some? ==>
      r == Internal(InternalError(fault.value)) && insurance.rows == old(insurance.rows)
    ensures lookupFault.None? && Matches(InsuranceSchema, old(insurance.rows), insuranceId, Owner(vehicleId)) && fault.None? ==>
      && r == Ok(Updated(InsuranceSchema, old(insurance.rows)[insuranceId], PutData(InsuranceSchema, body), now))
      && insurance.rows == old(insurance.rows)[insuranceId := r.value]
      && (Notes !in body ==> r.value[Notes] == StrV(""))
      && r.value[VehicleId] == IntV(vehicleId)
  {
    InsuranceSchemaSound();
    r := insurance.Put(insuranceId, Owner(vehicleId), body, now, lookupFault, fault, NotFoundMessage(insuranceId, vehicleId));
  }

  /** `update_insurance_partial`: only the sent fields change, and `update_date`; an omitted notes keeps its value. */
  method UpdateInsurancePartial(insurance: Table<InsuranceColumn>, vehicleId: int, insuranceId: int, body: InsuranceRow,
                                now: Moment, lookupFault: Option<string>, fault: Option<string>) returns (r: Reply<InsuranceRow>)
    requires insurance.Valid() && insurance.schema == InsuranceSchema && ValidBody(InsuranceSchema, body)
    modifies insurance
    ensures insurance.Valid() && insurance.order == old(insurance.order)
    ensures lookupFault.Some? ==>
      r == Internal(InternalError(lookupFault.value)) && insurance.rows == old(insurance.rows) && insurance.order == old(insurance.order)
    ensures lookupFault.None? && !Matches(InsuranceSchema, old(insurance.rows), insuranceId, Owner(vehicleId)) ==>
      r == NotFound(NotFoundMessage(insuranceId, vehicleId)) && insurance.rows == old(insurance.rows)
    ensures lookupFault.None? && Matches(InsuranceSchema, old(insurance.rows), insuranceId, Owner(vehicleId)) && fault.Some? ==>
      r == Internal(InternalError(fault.value)) && insurance.rows == old(insurance.rows)
    ensures lookupFault.None? && Matches(InsuranceSchema, old(insurance.rows), insuranceId, Owner(vehicleId)) && fault.None? ==>
      && r == Ok(Updated(InsuranceSchema, old(insurance.rows)[insuranceId], body, now))
      && insurance.rows == old(insurance.rows)[insuranceId := r.value]
      && (forall c :: c in old(insurance.rows)[insuranceId] && c !in body && c != UpdateDate ==>
            r.value[c] == old(insurance.rows)[insuranceId][c])
  {
    r := insurance.Patch(insuranceId, Owner(vehicleId), body, now, lookupFault, fault, NotFoundMessage(insuranceId, vehicleId));
  }

  /** `delete_insurance`: removes only this record, and only through its own vehicle. */
  method DeleteInsurance(insurance: Table<InsuranceColumn>, vehicleId: int, insuranceId: int, lookupFault: Option<string>, fault: Option<string>)
    returns (r: Reply<string>)
    requires insurance.Valid() && insurance.schema == InsuranceSchema
    modifies insurance
    ensures insurance.Valid()
    ensures lookupFault.Some? ==>
      r == Internal(InternalError(lookupFault.value)) && insurance.rows == old(insurance.rows) && insurance.order == old(insurance.order)
    ensures lookupFault.None? && !Matches(InsuranceSchema, old(insurance.rows), insuranceId, Owner(vehicleId)) ==>
      && r == NotFound(NotFoundMessage(insuranceId, vehicleId))
      && insurance.rows == old(insurance.rows) && insurance.order == old(insurance.order)
    ensures lookupFault.None? && Matches(InsuranceSchema, old(insurance.rows), insuranceId, Owner(vehicleId)) && fault.Some? ==>
      && r == Internal(InternalError(fault.value))
      && insurance.rows == old(insurance.rows) && insurance.order == old(insurance.order)
    ensures lookupFault.None? && Matches(InsuranceSchema, old(insurance.rows), insuranceId, Owner(vehicleId)) && fault.None? ==>
      && r == Ok(DeletedMessage(insuranceId, vehicleId))
      && insurance.rows == old(insurance.rows) - {insuranceId}
      && insurance.order == Erase(old(insurance.order), insuranceId)
  {
    r := insurance.Delete(insuranceId, Owner(vehicleId), lookupFault, fault, NotFoundMessage(insuranceId, vehicleId),
                          DeletedMessage(insuranceId, vehicleId));
  }
}
