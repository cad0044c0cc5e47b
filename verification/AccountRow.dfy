/** Rows of the accounts table: decoding them into an account, and writing the row of a new one. */
module AccountRow {
  import opened Wrappers

  /** The table's columns; `Other` is any column a query selects beyond them. */
  datatype Column =
    | ID | CreatedAt | UpdatedAt | DeletedAt | Name | Notes | Platform | Type | Credentials | Extra
    | ProxyID | ProxyFallbackOriginID | Concurrency | LoadFactor | Priority | RateMultiplier | AccountAdminID
    | Status | ErrorMessage | LastUsedAt | ExpiresAt | AutoPauseOnExpired | Schedulable | RateLimitedAt
    | RateLimitResetAt | OverloadUntil | TempUnschedulableUntil | TempUnschedulableReason | SessionWindowStart
    | SessionWindowEnd | SessionWindowStatus | ParentAccountID | QuotaDimension
    | Other(name: string)

  /** The position of a column in the table. */
  function Ordinal(c: Column): nat {
    match c
    case ID => 0 case CreatedAt => 1 case UpdatedAt => 2 case DeletedAt => 3 case Name => 4
    case Notes => 5 case Platform => 6 case Type => 7 case Credentials => 8 case Extra => 9
    case ProxyID => 10 case ProxyFallbackOriginID => 11 case Concurrency => 12 case LoadFactor => 13 case Priority => 14
    case RateMultiplier => 15 case AccountAdminID => 16 case Status => 17 case ErrorMessage => 18 case LastUsedAt => 19
    case ExpiresAt => 20 case AutoPauseOnExpired => 21 case Schedulable => 22 case RateLimitedAt => 23 case RateLimitResetAt => 24
    case OverloadUntil => 25 case TempUnschedulableUntil => 26 case TempUnschedulableReason => 27 case SessionWindowStart => 28 case SessionWindowEnd => 29
    case SessionWindowStatus => 30 case ParentAccountID => 31 case QuotaDimension => 32
    case Other(_) => 33
  }

  function FirstColumns(i: nat): (c: Column)
    requires i < 11
    ensures Ordinal(c) == i + 0
  {
    match i
    case 0 => ID case 1 => CreatedAt case 2 => UpdatedAt case 3 => DeletedAt case 4 => Name case 5 => Notes
    case 6 => Platform case 7 => Type case 8 => Credentials case 9 => Extra case _ => ProxyID
  }

  function MiddleColumns(i: nat): (c: Column)
    requires i < 11
    ensures Ordinal(c) == i + 11
  {
    match i
    case 0 => ProxyFallbackOriginID case 1 => Concurrency case 2 => LoadFactor case 3 => Priority case 4 => RateMultiplier case 5 => AccountAdminID
    case 6 => Status case 7 => ErrorMessage case 8 => LastUsedAt case 9 => ExpiresAt case _ => AutoPauseOnExpired
  }

  function LastColumns(i: nat): (c: Column)
    requires i < 11
    ensures Ordinal(c) == i + 22
  {
    match i
    case 0 => Schedulable case 1 => RateLimitedAt case 2 => RateLimitResetAt case 3 => OverloadUntil case 4 => TempUnschedulableUntil case 5 => TempUnschedulableReason
    case 6 => SessionWindowStart case 7 => SessionWindowEnd case 8 => SessionWindowStatus case 9 => ParentAccountID case _ => QuotaDimension
  }

  function ColumnAt(i: nat): (c: Column)
    requires i < 33
    ensures Ordinal(c) == i
  {
    if i < 11 then FirstColumns(i) else if i < 22 then MiddleColumns(i - 11) else LastColumns(i - 22)
  }

  /** `account.Columns`, in order. */
  function Columns(): (columns: seq<Column>)
    ensures |columns| == 33 && forall i | 0 <= i < 33 :: columns[i] == ColumnAt(i)
  {
    ColumnsFrom(0)
  }

  function ColumnsFrom(i: nat): (columns: seq<Column>)
    requires i <= 33
    ensures |columns| == 33 - i && forall k | 0 <= k < 33 - i :: columns[k] == ColumnAt(i + k)
    decreases 33 - i
  {
    if i == 33 then [] else [ColumnAt(i)] + ColumnsFrom(i + 1)
  }

  type Members = map<string, string>

  /** A Go field of an account. `Nil` is a nil pointer or a nil map. */
  datatype Value =
    | Nil
    | Int(i: int)
    | Time(t: int)
    | Text(s: string)
    | Bool(b: bool)
    | Float(x: real)
    | Json(members: Members)

  /** The JSON text in a column, as far as decoding into a map can tell. */
  datatype JsonText = Empty | NullText | ObjectText(members: Members) | BadText

  /** A stored cell. */
  datatype Cell =
    | Null
    | IntCell(i: int)
    | TimeCell(t: int)
    | TextCell(s: string)
    | BoolCell(b: bool)
    | FloatCell(x: real)
    | JsonCell(text: JsonText)

  type Row = map<Column, Cell>

  /** The scan buffers: `sql.Null*` values, a byte slice, or `sql.UnknownType`. */
  datatype Buffer =
    | NullInt64(i: Option<int>)
    | NullTime(t: Option<int>)
    | NullString(s: Option<string>)
    | NullBool(b: Option<bool>)
    | NullFloat64(x: Option<real>)
    | Bytes(text: JsonText)
    | Unknown(cell: Cell)

  // ---- scanValues ----

  datatype Kind = Int64Kind | TimeKind | StringKind | BoolKind | Float64Kind | BytesKind | UnknownKind

  function ScanKind(c: Column): Kind {
    match c
    case Credentials | Extra => BytesKind
    case AutoPauseOnExpired | Schedulable => BoolKind
    case RateMultiplier => Float64Kind
    case ID | ProxyID | ProxyFallbackOriginID | Concurrency | LoadFactor | Priority | AccountAdminID | ParentAccountID => Int64Kind
    case Name | Notes | Platform | Type | Status | ErrorMessage | TempUnschedulableReason | SessionWindowStatus
      | QuotaDimension => StringKind
    case CreatedAt | UpdatedAt | DeletedAt | LastUsedAt | ExpiresAt | RateLimitedAt | RateLimitResetAt | OverloadUntil
      | TempUnschedulableUntil | SessionWindowStart | SessionWindowEnd => TimeKind
    case Other(_) => UnknownKind
  }

  method ScanValues(columns: seq<Column>) returns (kinds: seq<Kind>)
    ensures |kinds| == |columns| && forall i | 0 <= i < |columns| :: kinds[i] == ScanKind(columns[i])
  {
    kinds := [];
    for i := 0 to |columns|
      invariant |kinds| == i && forall j | 0 <= j < i :: kinds[j] == ScanKind(columns[j])
    {
      kinds := kinds + [ScanKind(columns[i])];
    }
  }

  /** `rows.Scan` into one buffer: NULL fits every buffer, any other cell only its own kind. */
  function Fill(kind: Kind, cell: Cell): Option<Buffer> {
    match (kind, cell)
    case (Int64Kind, IntCell(i)) => Some(NullInt64(Some(i)))
    case (Int64Kind, Null) => Some(NullInt64(None))
    case (TimeKind, TimeCell(t)) => Some(NullTime(Some(t)))
    case (TimeKind, Null) => Some(NullTime(None))
    case (StringKind, TextCell(s)) => Some(NullString(Some(s)))
    case (StringKind, Null) => Some(NullString(None))
    case (BoolKind, BoolCell(b)) => Some(NullBool(Some(b)))
    case (BoolKind, Null) => Some(NullBool(None))
    case (Float64Kind, FloatCell(x)) => Some(NullFloat64(Some(x)))
    case (Float64Kind, Null) => Some(NullFloat64(None))
    case (BytesKind, JsonCell(text)) => Some(Bytes(text))
    case (BytesKind, Null) => Some(Bytes(Empty))
    case (UnknownKind, _) => Some(Unknown(cell))
    case _ => None
  }

  // ---- assignValues ----

  /** The scalar fields of an account, one per table column, and its dynamically selected values. */
  datatype Fields = Fields(byColumn: map<Column, Value>, selectValues: map<string, Buffer>)

  function Zero(c: Column): Value {
    match c
    case ID | Concurrency | Priority => Int(0)
    case CreatedAt | UpdatedAt => Time(0)
    case Name | Platform | Type | Status | QuotaDimension => Text("")
    case AutoPauseOnExpired | Schedulable => Bool(false)
    case RateMultiplier => Float(0.0)
    case _ => Nil
  }

  /** A freshly allocated account. */
  function Fresh(): Fields {
    Fields(map c | c in Columns() :: Zero(c), map[])
  }

  datatype AssignError = UnexpectedType(c: Column) | Unmarshal(c: Column) | Mismatch(values: nat, columns: nat)

  datatype Assigned = Ok(fields: Fields) | Err(error: AssignError)

  function SetColumn(f: Fields, c: Column, v: Value): Fields {
    f.(byColumn := f.byColumn[c := v])
  }

  function Get(f: Fields, c: Column): Value {
    if c in f.byColumn then f.byColumn[c] else Nil
  }

  /** Unmarshalling into a map field: text `null` clears it, an object adds its members to those already there. */
  function Unmarshalled(prior: Value, text: JsonText): Option<Value> {
    match text
    case NullText => Some(Nil)
    case ObjectText(m) => Some(Json(if prior.Json? then prior.members + m else m))
    case _ => None
  }

  /** One case of the switch over columns. */
  function AssignColumn(f: Fields, c: Column, b: Buffer): Assigned {
    match c
    case ID =>
      if !b.NullInt64? then Err(UnexpectedType(c)) else Ok(SetColumn(f, c, Int(if b.i.Some? then b.i.value else 0)))
    case CreatedAt | UpdatedAt | DeletedAt | LastUsedAt | ExpiresAt | RateLimitedAt | RateLimitResetAt | OverloadUntil
      | TempUnschedulableUntil | SessionWindowStart | SessionWindowEnd =>
      if !b.NullTime? then Err(UnexpectedType(c))
      else if b.t.Some? then Ok(SetColumn(f, c, Time(b.t.value)))
      else Ok(f)
    case Name | Notes | Platform | Type | Status | ErrorMessage | TempUnschedulableReason | SessionWindowStatus
      | QuotaDimension =>
      if !b.NullString? then Err(UnexpectedType(c))
      else if b.s.Some? then Ok(SetColumn(f, c, Text(b.s.value)))
      else Ok(f)
    case Credentials | Extra =>
      if !b.Bytes? then Err(UnexpectedType(c))
      else if b.text == Empty then Ok(f)
      else
        var v := Unmarshalled(Get(f, c), b.text);
        if v.Some? then Ok(SetColumn(f, c, v.value)) else Err(Unmarshal(c))
    case ProxyID | ProxyFallbackOriginID | Concurrency | LoadFactor | Priority | AccountAdminID | ParentAccountID =>
      if !b.NullInt64? then Err(UnexpectedType(c))
      else if b.i.Some? then Ok(SetColumn(f, c, Int(b.i.value)))
      else Ok(f)
    case RateMultiplier =>
      if !b.NullFloat64? then Err(UnexpectedType(c))
      else if b.x.Some? then Ok(SetColumn(f, c, Float(b.x.value)))
      else Ok(f)
    case AutoPauseOnExpired | Schedulable =>
      if !b.NullBool? then Err(UnexpectedType(c))
      else if b.b.Some? then Ok(SetColumn(f, c, Bool(b.b.value)))
      else Ok(f)
    case Other(name) => Ok(f.(selectValues := f.selectValues[name := b]))
  }

  /** The loop over columns, from a given column on; an error keeps what was assigned before it. */
  function AssignFrom(f: Fields, columns: seq<Column>, values: seq<Buffer>): (Fields, Option<AssignError>)
    requires |columns| <= |values|
    decreases |columns|
  {
    if columns == [] then (f, None)
    else match AssignColumn(f, columns[0], values[0])
      case Ok(next) => AssignFrom(next, columns[1..], values[1..])
      case Err(error) => (f, Some(error))
  }

  function AssignAll(f: Fields, columns: seq<Column>, values: seq<Buffer>): (Fields, Option<AssignError>) {
    if |values| < |columns| then (f, Some(Mismatch(|values|, |columns|))) else AssignFrom(f, columns, values)
  }

  // ---- Accounts and their edges ----

  /** A row of a neighbouring table: proxies or groups. */
  datatype LeafRow = LeafRow(id: int, data: int)

  /** A loaded proxy or group. */
  class Neighbour {
    const row: LeafRow

    constructor (row: LeafRow)
      ensures this.row == row
    {
      this.row := row;
    }
  }

  class Account {
    var fields: Fields
    var groups: seq<Neighbour>
    var proxy: Neighbour?
    var parent: Account?
    var children: seq<Account>

    constructor ()
      ensures fields == Fresh() && groups == [] && proxy == null && parent == null && children == []
    {
      fields := Fresh();
      groups, proxy, parent, children := [], null, null, [];
    }

    function Key(): int
      reads this`fields
    {
      if Get(fields, ID).Int? then Get(fields, ID).i else 0
    }

    /** A nullable integer field; None is a nil pointer. */
    function Ref(c: Column): Option<int>
      reads this`fields
    {
      if Get(fields, c).Int? then Some(Get(fields, c).i) else None
    }

    method AssignValues(columns: seq<Column>, values: seq<Buffer>) returns (err: Option<AssignError>)
      modifies this`fields
      ensures (fields, err) == AssignAll(old(fields), columns, values)
    {
      if |values| < |columns| {
        return Some(Mismatch(|values|, |columns|));
      }
      for i := 0 to |columns|
        invariant AssignFrom(old(fields), columns, values) == AssignFrom(fields, columns[i..], values[i..])
      {
        assert columns[i..][0] == columns[i] && columns[i..][1..] == columns[i + 1..];
        assert values[i..][0] == values[i] && values[i..][1..] == values[i + 1..];
        var step := AssignColumn(fields, columns[i], values[i]);
        if step.Err? {
          return Some(step.error);
        }
        fields := step.fields;
      }
      err := None;
    }
  }

  // ---- Decoding a stored row ----

  /** The cell has the type its column scans into. */
  predicate Typed(c: Column, cell: Cell) {
    Fill(ScanKind(c), cell).Some?
  }

  ghost predicate TypedRow(columns: seq<Column>, row: Row) {
    forall c | c in columns :: c in row && Typed(c, row[c])
  }

  function FillAll(columns: seq<Column>, row: Row): (values: seq<Buffer>)
    requires TypedRow(columns, row)
    ensures |values| == |columns|
    ensures forall i | 0 <= i < |columns| :: values[i] == Fill(ScanKind(columns[i]), row[columns[i]]).value
  {
    if columns == [] then []
    else
      assert columns[0] in columns;
      [Fill(ScanKind(columns[0]), row[columns[0]]).value] + FillAll(columns[1..], row)
  }

  /** The field after its cell has been assigned: NULL and empty JSON leave it, except that a NULL id reads as 0. */
  function Decoded(prior: Value, c: Column, cell: Cell): Value {
    match cell
    case Null => if c == ID then Int(0) else prior
    case IntCell(i) => Int(i)
    case TimeCell(t) => Time(t)
    case TextCell(s) => Text(s)
    case BoolCell(b) => Bool(b)
    case FloatCell(x) => Float(x)
    case JsonCell(text) => match Unmarshalled(prior, text) case Some(v) => v case None => prior
  }

  predicate Malformed(cell: Cell) {
    cell == JsonCell(BadText)
  }

  predicate Distinct<T(==)>(xs: seq<T>) {
    forall i, j | 0 <= i < j < |xs| :: xs[i] != xs[j]
  }

  lemma BufferStep(f: Fields, c: Column, cell: Cell)
    requires Typed(c, cell)
    ensures var step, v := AssignColumn(f, c, Fill(ScanKind(c), cell).value), Decoded(Get(f, c), c, cell);
      match c
      case Other(name) => step == Ok(f.(selectValues := f.selectValues[name := Unknown(cell)]))
      case _ =>
        if Malformed(cell) then step == Err(Unmarshal(c))
        else step == Ok(SetColumn(f, c, v)) || (step == Ok(f) && v == Get(f, c))
  {
    hide SetColumn, Get;
  }

  /** The buffer scanValues allocates for a column is the one assignValues expects. */
  lemma BufferIsAccepted(f: Fields, c: Column, cell: Cell)
    requires Typed(c, cell)
    ensures var step := AssignColumn(f, c, Fill(ScanKind(c), cell).value);
      && (step.Err? <==> !c.Other? && Malformed(cell))
      && (step.Ok? && !c.Other? ==> Get(step.fields, c) == Decoded(Get(f, c), c, cell))
      && (step.Ok? ==> forall d | d != c :: Get(step.fields, d) == Get(f, d) && (d in step.fields.byColumn <==> d in f.byColumn))
      && (step.Ok? && c in f.byColumn ==> step.fields.byColumn.Keys == f.byColumn.Keys)
      && (step.Ok? && !c.Other? ==> step.fields.selectValues == f.selectValues)
  {
    BufferStep(f, c, cell);
    hide AssignColumn, Fill, ScanKind, Decoded, Malformed;
  }

  /** A typed row is decoded without error exactly when no selected JSON column holds malformed text. */
  lemma {:induction false} RowIsAccepted(f: Fields, columns: seq<Column>, row: Row)
    requires TypedRow(columns, row)
    ensures AssignAll(f, columns, FillAll(columns, row)).1.None? <==> forall c | c in columns && !c.Other? :: !Malformed(row[c])
    decreases |columns|
  {
    if columns != [] {
      hide AssignColumn, Fill, ScanKind, Malformed, Decoded;
      var c := columns[0];
      BufferIsAccepted(f, c, row[c]);
      assert columns == [c] + columns[1..];
      var values := FillAll(columns, row);
      assert values[1..] == FillAll(columns[1..], row);
      match AssignColumn(f, c, values[0])
      case Ok(next) => RowIsAccepted(next, columns[1..], row);
      case Err(_) =>
    }
  }

  /** Every column of the table has a field. */
  ghost predicate Whole(f: Fields) {
    forall c: Column | !c.Other? :: c in f.byColumn
  }

  /** The selected fields hold their decoded cells, the others their prior values, and there is nothing else. */
  ghost predicate DecodesTo(f: Fields, columns: seq<Column>, row: Row, g: Fields)
    requires forall c | c in columns :: c in row
  {
    && g.byColumn.Keys == f.byColumn.Keys
    && (forall c: Column | !c.Other? :: Get(g, c) == if c in columns then Decoded(Get(f, c), c, row[c]) else Get(f, c))
    && ((forall c | c in columns :: !c.Other?) ==> g.selectValues == f.selectValues)
  }

  /** Assigning the same cell twice is assigning it once. */
  lemma DecodedTwice(prior: Value, c: Column, cell: Cell)
    ensures Decoded(Decoded(prior, c, cell), c, cell) == Decoded(prior, c, cell)
  {
    if cell.JsonCell? && cell.text.ObjectText? && prior.Json? {
      var m := cell.text.members;
      assert prior.members + m + m == prior.members + m;
    }
    if cell.JsonCell? && cell.text.ObjectText? {
      assert cell.text.members + cell.text.members == cell.text.members;
    }
  }

  lemma DecodesCons(f: Fields, next: Fields, g: Fields, c: Column, rest: seq<Column>, row: Row)
    requires c in row && forall d | d in rest :: d in row
    requires Typed(c, row[c])
    requires !c.Other? ==> Get(next, c) == Decoded(Get(f, c), c, row[c])
    requires forall d | d != c :: Get(next, d) == Get(f, d)
    requires next.byColumn.Keys == f.byColumn.Keys
    requires !c.Other? ==> next.selectValues == f.selectValues
    requires DecodesTo(next, rest, row, g)
    ensures DecodesTo(f, [c] + rest, row, g)
  {
    hide Decoded, Get, Typed;
    var columns := [c] + rest;
    DecodedTwice(Get(f, c), c, row[c]);
    assert c == columns[0] && c in columns;
    forall d | d in rest ensures d in columns {
    }
    if forall d | d in columns :: !d.Other? {
      assert !c.Other?;
    }
  }

  /** Each selected field is decoded from its own cell, and nothing else changes. */
  lemma {:induction false} RowIsDecoded(f: Fields, columns: seq<Column>, row: Row)
    requires TypedRow(columns, row) && Whole(f)
    requires forall c | c in columns && !c.Other? :: !Malformed(row[c])
    ensures var (g, err) := AssignAll(f, columns, FillAll(columns, row));
      err.None? && DecodesTo(f, columns, row, g)
    decreases |columns|
  {
    hide AssignColumn, Fill, ScanKind, Malformed, Decoded, Get, DecodesTo;
    if columns == [] {
      DecodesNothing(f, row);
    } else {
      var c, rest := columns[0], columns[1..];
      BufferIsAccepted(f, c, row[c]);
      BufferKeepsKeys(f, c, row[c]);
      assert columns == [c] + rest;
      var values := FillAll(columns, row);
      assert values[1..] == FillAll(rest, row);
      var next := AssignColumn(f, c, values[0]).fields;
      RowIsDecoded(next, rest, row);
      DecodesCons(f, next, AssignAll(next, rest, values[1..]).0, c, rest, row);
    }
  }

  lemma DecodesNothing(f: Fields, row: Row)
    ensures DecodesTo(f, [], row, f)
  {
  }

  lemma BufferKeepsKeys(f: Fields, c: Column, cell: Cell)
    requires Typed(c, cell) && Whole(f) && AssignColumn(f, c, Fill(ScanKind(c), cell).value).Ok?
    ensures AssignColumn(f, c, Fill(ScanKind(c), cell).value).fields.byColumn.Keys == f.byColumn.Keys
  {
    BufferStep(f, c, cell);
    hide AssignColumn, Fill, ScanKind, Decoded, Malformed, Get;
    assert !c.Other? ==> c in f.byColumn;
  }

  lemma ColumnsInOrder()
    ensures |Columns()| == 33 && forall i | 0 <= i < 33 :: Columns()[i] == ColumnAt(i)
    ensures Distinct(Columns())
  {
    hide ColumnAt;
    forall i, j | 0 <= i < j < 33 ensures Columns()[i] != Columns()[j] {
      assert Ordinal(Columns()[i]) == i && Ordinal(Columns()[j]) == j;
    }
  }

  lemma AtOrdinal(c: Column)
    requires !c.Other?
    ensures Ordinal(c) < 33 && ColumnAt(Ordinal(c)) == c
  {
  }

  lemma OtherOrdinal(c: Column)
    requires c.Other?
    ensures Ordinal(c) == 33
  {
  }

  /** The table's columns are all columns but the dynamically selected ones. */
  lemma ColumnsAreAll(c: Column)
    ensures c in Columns() <==> !c.Other?
  {
    ColumnsInOrder();
    if !c.Other? {
      AtOrdinal(c);
      hide ColumnAt;
      assert Columns()[Ordinal(c)] == c;
    } else {
      hide ColumnAt, Ordinal;
      OtherOrdinal(c);
      assert forall i | 0 <= i < 33 :: Ordinal(Columns()[i]) == i;
    }
  }

  lemma FreshIsWhole()
    ensures Whole(Fresh())
    ensures forall c: Column | !c.Other? :: Get(Fresh(), c) == Zero(c)
    ensures forall c | c in Fresh().byColumn :: !c.Other?
    ensures Fresh().selectValues == map[]
  {
    forall c: Column | !c.Other? ensures c in Columns() {
      ColumnsAreAll(c);
    }
    forall c | c in Columns() ensures !c.Other? {
      ColumnsAreAll(c);
    }
  }
}
