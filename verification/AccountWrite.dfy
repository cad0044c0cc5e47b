/** Creating an account: defaults, validation, the insert specification, and the row it writes. */
module AccountWrite {
  import opened Wrappers
  import opened AccountRow

  /** What a create mutation holds: set fields by column, and edge IDs. */
  datatype Mutation = Mutation(
    values: map<Column, Value>,
    groups: seq<int>, proxy: Option<int>, parent: Option<int>, admin: Option<int>,
    children: seq<int>, usageLogs: seq<int>)

  // ---- createSpec ----

  datatype FieldType = TypeTime | TypeString | TypeJSON | TypeInt64 | TypeInt | TypeFloat64 | TypeBool | TypeEnum

  function SpecType(c: Column): Option<FieldType> {
    match c
    case CreatedAt | UpdatedAt | DeletedAt => Some(TypeTime)
    case Name | Notes | Platform | Type => Some(TypeString)
    case Credentials | Extra => Some(TypeJSON)
    case ProxyFallbackOriginID => Some(TypeInt64)
    case Concurrency | LoadFactor | Priority => Some(TypeInt)
    case RateMultiplier => Some(TypeFloat64)
    case Status | ErrorMessage => Some(TypeString)
    case LastUsedAt | ExpiresAt => Some(TypeTime)
    case AutoPauseOnExpired | Schedulable => Some(TypeBool)
    case RateLimitedAt | RateLimitResetAt | OverloadUntil | TempUnschedulableUntil => Some(TypeTime)
    case TempUnschedulableReason => Some(TypeString)
    case SessionWindowStart | SessionWindowEnd => Some(TypeTime)
    case SessionWindowStatus => Some(TypeString)
    case QuotaDimension => Some(TypeEnum)
    case ID | ProxyID | AccountAdminID | ParentAccountID | Other(_) => None
  }

  /** The columns a predicate holds of, in order. */
  function Where(columns: seq<Column>, p: Column -> bool): seq<Column> {
    if columns == [] then []
    else (if p(columns[0]) then [columns[0]] else []) + Where(columns[1..], p)
  }

  predicate Specified(c: Column) {
    SpecType(c).Some?
  }

  /** The columns createSpec writes as fields: all but the id and the foreign keys of to-one edges, in table order. */
  function SpecColumnList(): seq<Column> {
    Where(Columns(), Specified)
  }

  datatype Edge =
    | ToMany(table: string, ids: seq<int>)
    | ToOne(column: Column, id: int)

  datatype SpecField = SpecField(column: Column, fieldType: FieldType, value: Value)

  datatype Spec = Spec(fields: seq<SpecField>, edges: seq<Edge>, id: Option<int>)

  /** The cell a field value is stored as, when it has the field's type. */
  function Stored(t: FieldType, v: Value): Option<Cell> {
    match (t, v)
    case (TypeTime, Time(x)) => Some(TimeCell(x))
    case (TypeString, Text(x)) => Some(TextCell(x))
    case (TypeEnum, Text(x)) => Some(TextCell(x))
    case (TypeJSON, Json(m)) => Some(JsonCell(ObjectText(m)))
    case (TypeJSON, Nil) => Some(JsonCell(NullText))
    case (TypeInt64, Int(x)) => Some(IntCell(x))
    case (TypeInt, Int(x)) => Some(IntCell(x))
    case (TypeFloat64, Float(x)) => Some(FloatCell(x))
    case (TypeBool, Bool(x)) => Some(BoolCell(x))
    case _ => None
  }

  /** The mutation's typed setters allow no other values. */
  ghost predicate WellTyped(m: Mutation) {
    forall c | c in m.values :: SpecType(c).Some? && Stored(SpecType(c).value, m.values[c]).Some?
  }

  function OptionalInt(x: Option<int>): Value {
    if x.Some? then Int(x.value) else Nil
  }

  function SetIfSome(f: Fields, c: Column, x: Option<int>): Fields {
    if x.Some? then SetColumn(f, c, Int(x.value)) else f
  }

  /** The fields set for the given columns, in order. */
  function SpecFields(m: Mutation, columns: seq<Column>): seq<SpecField> {
    if columns == [] then []
    else
      var c := columns[0];
      (if c in m.values && SpecType(c).Some? then [SpecField(c, SpecType(c).value, m.values[c])] else [])
      + SpecFields(m, columns[1..])
  }

  function NodeFields(f: Fields, m: Mutation, columns: seq<Column>): Fields
    decreases |columns|
  {
    if columns == [] then f
    else NodeFields(if columns[0] in m.values then SetColumn(f, columns[0], m.values[columns[0]]) else f, m, columns[1..])
  }

  function ManyEdge(table: string, ids: seq<int>): seq<Edge> {
    if ids != [] then [ToMany(table, ids)] else []
  }

  function OneEdge(column: Column, id: Option<int>): seq<Edge> {
    if id.Some? then [ToOne(column, id.value)] else []
  }

  function EdgesOf(m: Mutation): seq<Edge> {
    ManyEdge("account_groups", m.groups)
    + OneEdge(ProxyID, m.proxy)
    + OneEdge(ParentAccountID, m.parent)
    + ManyEdge("accounts", m.children)
    + ManyEdge("usage_logs", m.usageLogs)
    + OneEdge(AccountAdminID, m.admin)
  }

  /** The account createSpec returns. */
  function NodeOf(m: Mutation): Fields {
    SetIfSome(SetIfSome(SetIfSome(
      NodeFields(Fresh(), m, SpecColumnList()), ProxyID, m.proxy), ParentAccountID, m.parent), AccountAdminID, m.admin)
  }

  /** The insert specification createSpec returns. */
  function SpecOf(m: Mutation): Spec {
    Spec(SpecFields(m, SpecColumnList()), EdgesOf(m), None)
  }

  method SetFields(m: Mutation, columns: seq<Column>, start: Fields) returns (node: Fields, fields: seq<SpecField>)
    requires forall c | c in columns :: SpecType(c).Some?
    ensures node == NodeFields(start, m, columns) && fields == SpecFields(m, columns)
  {
    node, fields := start, [];
    for i := 0 to |columns|
      invariant NodeFields(start, m, columns) == NodeFields(node, m, columns[i..])
      invariant SpecFields(m, columns) == fields + SpecFields(m, columns[i..])
    {
      hide SpecType;
      var c := columns[i];
      assert columns[i..][0] == c && columns[i..][1..] == columns[i + 1..];
      if c in m.values {
        fields := fields + [SpecField(c, SpecType(c).value, m.values[c])];
        node := SetColumn(node, c, m.values[c]);
      }
    }
  }

  method CreateSpec(m: Mutation) returns (node: Fields, spec: Spec)
    ensures node == NodeOf(m) && spec == SpecOf(m)
  {
    hide SpecType, Fresh, NodeFields, SpecFields, SpecColumnList;
    forall c | c in SpecColumnList() ensures SpecType(c).Some? {
      SpecColumns(c);
    }
    var fields;
    node, fields := SetFields(m, SpecColumnList(), Fresh());
    var edges := [];
    if |m.groups| > 0 {
      edges := edges + [ToMany("account_groups", m.groups)];
    }
    assert edges == ManyEdge("account_groups", m.groups);
    if m.proxy.Some? {
      node := SetColumn(node, ProxyID, Int(m.proxy.value));
      edges := edges + [ToOne(ProxyID, m.proxy.value)];
    }
    assert edges == ManyEdge("account_groups", m.groups) + OneEdge(ProxyID, m.proxy);
    ghost var before := edges;
    if m.parent.Some? {
      node := SetColumn(node, ParentAccountID, Int(m.parent.value));
      edges := edges + [ToOne(ParentAccountID, m.parent.value)];
    }
    assert edges == before + OneEdge(ParentAccountID, m.parent);
    before := edges;
    if |m.children| > 0 {
      edges := edges + [ToMany("accounts", m.children)];
    }
    assert edges == before + ManyEdge("accounts", m.children);
    before := edges;
    if |m.usageLogs| > 0 {
      edges := edges + [ToMany("usage_logs", m.usageLogs)];
    }
    assert edges == before + ManyEdge("usage_logs", m.usageLogs);
    before := edges;
    if m.admin.Some? {
      node := SetColumn(node, AccountAdminID, Int(m.admin.value));
      edges := edges + [ToOne(AccountAdminID, m.admin.value)];
    }
    assert edges == before + OneEdge(AccountAdminID, m.admin);
    spec := Spec(fields, edges, None);
  }

  lemma {:induction false} InWhere(columns: seq<Column>, p: Column -> bool, c: Column)
    ensures c in Where(columns, p) <==> c in columns && p(c)
  {
    if columns != [] {
      InWhere(columns[1..], p, c);
      assert columns == [columns[0]] + columns[1..];
    }
  }

  lemma SpecColumns(c: Column)
    ensures c in SpecColumnList() <==> SpecType(c).Some?
  {
    hide Columns, SpecType;
    InWhere(Columns(), Specified, c);
    ColumnsAreAll(c);
    SpecTypeOfOther(c);
  }

  lemma SpecTypeOfOther(c: Column)
    ensures c.Other? ==> SpecType(c).None?
  {
  }

  lemma {:induction false} WhereDistinct(columns: seq<Column>, p: Column -> bool)
    requires Distinct(columns)
    ensures Distinct(Where(columns, p))
  {
    if columns != [] {
      var c, rest := columns[0], Where(columns[1..], p);
      WhereDistinct(columns[1..], p);
      InWhere(columns[1..], p, c);
      assert columns == [c] + columns[1..];
      assert c !in columns[1..];
      forall i | 0 <= i < |rest| ensures rest[i] != c {
        assert rest[i] in rest;
      }
    }
  }

  // ---- The row the insert writes ----

  /** The stored cell of the first field set for a column. */
  function FieldCell(fields: seq<SpecField>, c: Column): Cell {
    if fields == [] then Null
    else if fields[0].column == c && Stored(fields[0].fieldType, fields[0].value).Some?
      then Stored(fields[0].fieldType, fields[0].value).value
    else FieldCell(fields[1..], c)
  }

  /** A to-one edge writes its target into its foreign-key column. */
  function EdgeCell(edges: seq<Edge>, c: Column): Cell {
    if edges == [] then Null
    else if edges[0].ToOne? && edges[0].column == c then IntCell(edges[0].id)
    else EdgeCell(edges[1..], c)
  }

  /** The row stored for a specification under a given id; everything it does not set is NULL. */
  function RowOf(spec: Spec, id: int): Row {
    map c | c in Columns() ::
      if c == ID then IntCell(id)
      else if FieldCell(spec.fields, c) != Null then FieldCell(spec.fields, c)
      else EdgeCell(spec.edges, c)
  }

  lemma {:induction false} SpecFieldCell(m: Mutation, columns: seq<Column>, c: Column)
    requires WellTyped(m)
    ensures FieldCell(SpecFields(m, columns), c) ==
      if c in columns && c in m.values then Stored(SpecType(c).value, m.values[c]).value else Null
  {
    hide SpecType, Stored;
    if columns != [] {
      var d, rest := columns[0], SpecFields(m, columns[1..]);
      SpecFieldCell(m, columns[1..], c);
      assert columns == [d] + columns[1..];
      if d in m.values {
        assert SpecFields(m, columns)[1..] == rest;
      } else {
        assert SpecFields(m, columns) == rest;
      }
    }
  }

  lemma {:induction false} NodeFieldsGet(f: Fields, m: Mutation, columns: seq<Column>, c: Column)
    requires Distinct(columns)
    ensures Get(NodeFields(f, m, columns), c) == if c in columns && c in m.values then m.values[c] else Get(f, c)
    ensures c in NodeFields(f, m, columns).byColumn <==> c in f.byColumn || (c in columns && c in m.values)
    ensures NodeFields(f, m, columns).selectValues == f.selectValues
    decreases |columns|
  {
    if columns != [] {
      var d := columns[0];
      assert columns == [d] + columns[1..];
      assert d !in columns[1..];
      NodeFieldsGet(if d in m.values then SetColumn(f, d, m.values[d]) else f, m, columns[1..], c);
    }
  }

  lemma {:induction false} EdgeCellAppend(a: seq<Edge>, b: seq<Edge>, c: Column)
    ensures EdgeCell(a + b, c) == if EdgeCell(a, c) != Null then EdgeCell(a, c) else EdgeCell(b, c)
  {
    if a == [] {
      assert a + b == b;
    } else {
      assert (a + b)[1..] == a[1..] + b;
      EdgeCellAppend(a[1..], b, c);
    }
  }

  lemma EdgeCellAt(m: Mutation, c: Column)
    ensures EdgeCell(EdgesOf(m), c) ==
      if c == ProxyID && m.proxy.Some? then IntCell(m.proxy.value)
      else if c == ParentAccountID && m.parent.Some? then IntCell(m.parent.value)
      else if c == AccountAdminID && m.admin.Some? then IntCell(m.admin.value)
      else Null
  {
    var e1 := ManyEdge("account_groups", m.groups);
    var e2, e3 := OneEdge(ProxyID, m.proxy), OneEdge(ParentAccountID, m.parent);
    var e4, e5 := ManyEdge("accounts", m.children), ManyEdge("usage_logs", m.usageLogs);
    var e6 := OneEdge(AccountAdminID, m.admin);
    EdgeParts(m, c);
    hide ManyEdge, OneEdge, EdgeCell;
    EdgeCellAppend(e1, e2, c);
    EdgeCellAppend(e1 + e2, e3, c);
    EdgeCellAppend(e1 + e2 + e3, e4, c);
    EdgeCellAppend(e1 + e2 + e3 + e4, e5, c);
    EdgeCellAppend(e1 + e2 + e3 + e4 + e5, e6, c);
  }

  lemma EdgeParts(m: Mutation, c: Column)
    ensures EdgeCell(ManyEdge("account_groups", m.groups), c) == EdgeCell(ManyEdge("accounts", m.children), c)
         == EdgeCell(ManyEdge("usage_logs", m.usageLogs), c) == Null
    ensures EdgeCell(OneEdge(ProxyID, m.proxy), c) == if c == ProxyID && m.proxy.Some? then IntCell(m.proxy.value) else Null
    ensures EdgeCell(OneEdge(ParentAccountID, m.parent), c)
         == if c == ParentAccountID && m.parent.Some? then IntCell(m.parent.value) else Null
    ensures EdgeCell(OneEdge(AccountAdminID, m.admin), c)
         == if c == AccountAdminID && m.admin.Some? then IntCell(m.admin.value) else Null
  {
  }

  /** The buffer for each type of field. */
  function KindFor(t: FieldType): Kind {
    match t
    case TypeTime => TimeKind
    case TypeString | TypeEnum => StringKind
    case TypeJSON => BytesKind
    case TypeInt64 | TypeInt => Int64Kind
    case TypeFloat64 => Float64Kind
    case TypeBool => BoolKind
  }

  lemma TypesAgree(c: Column)
    requires SpecType(c).Some?
    ensures !c.Other? && c != ID && ScanKind(c) == KindFor(SpecType(c).value) && !Zero(c).Json?
  {
  }

  lemma StoredFits(t: FieldType, v: Value)
    requires Stored(t, v).Some?
    ensures var cell := Stored(t, v).value; cell != Null && !Malformed(cell) && Fill(KindFor(t), cell).Some?
  {
  }

  lemma DecodedStored(prior: Value, c: Column, t: FieldType, v: Value)
    requires Stored(t, v).Some? && !prior.Json?
    ensures Decoded(prior, c, Stored(t, v).value) == v
  {
  }

  lemma TypedFor(c: Column, cell: Cell)
    ensures Typed(c, cell) <==> Fill(ScanKind(c), cell).Some?
  {
  }

  /** Column by column: the value createSpec writes fills the buffer scanValues allocates and decodes to itself. */
  lemma TablesAgree(c: Column, v: Value)
    requires SpecType(c).Some? && Stored(SpecType(c).value, v).Some?
    ensures var cell := Stored(SpecType(c).value, v).value;
      !c.Other? && c != ID && cell != Null && Typed(c, cell) && !Malformed(cell) && Decoded(Zero(c), c, cell) == v
  {
    TypesAgree(c);
    StoredFits(SpecType(c).value, v);
    DecodedStored(Zero(c), c, SpecType(c).value, v);
    hide *;
    TypedFor(c, Stored(SpecType(c).value, v).value);
  }

  lemma SpecColumnsDistinct()
    ensures Distinct(SpecColumnList())
  {
    hide Columns;
    ColumnsInOrder();
    WhereDistinct(Columns(), Specified);
  }

  lemma ToOneColumns(c: Column)
    requires c == ProxyID || c == ParentAccountID || c == AccountAdminID || c == ID
    ensures c !in SpecColumnList() && (c != ID ==> Zero(c) == Nil)
  {
    hide *;
    SpecColumns(c);
    ToOneTypes();
  }

  lemma ToOneTypes()
    ensures SpecType(ID) == SpecType(ProxyID) == SpecType(ParentAccountID) == SpecType(AccountAdminID) == None
    ensures Zero(ProxyID) == Zero(ParentAccountID) == Zero(AccountAdminID) == Nil
  {
  }

  /** The account's fields before the foreign keys of its to-one edges are set. */
  lemma NodeFieldsGets(m: Mutation)
    requires WellTyped(m)
    ensures var f := NodeFields(Fresh(), m, SpecColumnList());
      && Whole(f) && (forall c | c in f.byColumn :: !c.Other?) && f.selectValues == map[]
      && (forall c: Column | !c.Other? :: Get(f, c) == if c in m.values then m.values[c] else Zero(c))
  {
    hide Fresh, Zero, NodeFields, SpecColumnList, SpecType, WellTyped, Get;
    FreshIsWhole();
    SpecColumnsDistinct();
    var f := NodeFields(Fresh(), m, SpecColumnList());
    NodeFieldsGet(Fresh(), m, SpecColumnList(), ID);
    forall c
      ensures c in f.byColumn <==> !c.Other?
      ensures !c.Other? ==> Get(f, c) == if c in m.values then m.values[c] else Zero(c)
    {
      NodeFieldsGet(Fresh(), m, SpecColumnList(), c);
      InValuesIsSpecColumn(m, c);
      SpecColumns(c);
      if c in SpecColumnList() {
        SpecifiedIsNotOther(c);
      }
    }
  }

  lemma SpecifiedIsNotOther(c: Column)
    requires SpecType(c).Some?
    ensures !c.Other?
  {
  }

  lemma SetIfSomeGets(f: Fields, c: Column, x: Option<int>)
    requires Whole(f) && !c.Other? && (forall d | d in f.byColumn :: !d.Other?)
    requires Get(f, c) == Nil
    ensures var g := SetIfSome(f, c, x);
      && Whole(g) && (forall d | d in g.byColumn :: !d.Other?) && g.selectValues == f.selectValues
      && Get(g, c) == OptionalInt(x)
      && (forall d | d != c :: Get(g, d) == Get(f, d))
  {
  }

  /** The account createSpec returns, field by field. */
  lemma NodeGets(m: Mutation)
    requires WellTyped(m)
    ensures var node := NodeOf(m);
      && Whole(node) && (forall d | d in node.byColumn :: !d.Other?) && node.selectValues == map[]
      && (forall c: Column | !c.Other? :: Get(node, c) ==
           if c == ProxyID then OptionalInt(m.proxy)
           else if c == ParentAccountID then OptionalInt(m.parent)
           else if c == AccountAdminID then OptionalInt(m.admin)
           else if c in m.values then m.values[c]
           else Zero(c))
  {
    NodeFieldsGets(m);
    ToOneColumns(ProxyID);
    ToOneColumns(ParentAccountID);
    ToOneColumns(AccountAdminID);
    InValuesIsSpecColumn(m, ProxyID);
    InValuesIsSpecColumn(m, ParentAccountID);
    InValuesIsSpecColumn(m, AccountAdminID);
    var f := NodeFields(Fresh(), m, SpecColumnList());
    var g := SetIfSome(f, ProxyID, m.proxy);
    var h := SetIfSome(g, ParentAccountID, m.parent);
    hide Fresh, NodeFields, SpecColumnList, SetIfSome, WellTyped, Get, Zero, OptionalInt, Whole;
    SetIfSomeGets(f, ProxyID, m.proxy);
    SetIfSomeGets(g, ParentAccountID, m.parent);
    SetIfSomeGets(h, AccountAdminID, m.admin);
  }

  lemma InValuesIsSpecColumn(m: Mutation, c: Column)
    requires WellTyped(m)
    ensures c in m.values ==> c in SpecColumnList()
  {
    if c in m.values {
      SpecColumns(c);
    }
  }

  lemma RowCell(m: Mutation, id: int, c: Column)
    requires WellTyped(m) && !c.Other?
    ensures c in RowOf(SpecOf(m), id)
    ensures RowOf(SpecOf(m), id)[c] ==
      if c == ID then IntCell(id)
      else if c in m.values then Stored(SpecType(c).value, m.values[c]).value
      else EdgeCell(EdgesOf(m), c)
  {
    hide EdgesOf, EdgeCell, WellTyped, Columns, FieldCell, SpecFields;
    ColumnsAreAll(c);
    SpecFieldCell(m, SpecColumnList(), c);
    InValuesIsSpecColumn(m, c);
    if c in m.values {
      ValuesAreStored(m, c);
      TablesAgree(c, m.values[c]);
    }
  }

  lemma RowCells(m: Mutation, id: int, c: Column)
    requires WellTyped(m) && !c.Other?
    ensures c in RowOf(SpecOf(m), id)
    ensures var cell := RowOf(SpecOf(m), id)[c];
      && Typed(c, cell) && !Malformed(cell)
      && Decoded(Zero(c), c, cell) == if c == ID then Int(id) else Get(NodeOf(m), c)
  {
    hide NodeOf, RowOf, SpecOf, EdgesOf, EdgeCell, WellTyped, SpecType, Stored, Zero, Get, SpecColumnList, Typed, Malformed;
    RowCell(m, id, c);
    EdgeCellAt(m, c);
    NodeGets(m);
    ToOneTypes();
    if c in m.values {
      ValuesAreStored(m, c);
      TablesAgree(c, m.values[c]);
    }
    InValuesIsSpecColumn(m, c);
    NullIsTyped(c);
    if c == ProxyID || c == ParentAccountID || c == AccountAdminID || c == ID {
      ToOneColumns(c);
      forall i ensures Typed(c, IntCell(i)) && !Malformed(IntCell(i)) {
        IntIsTyped(c, i);
      }
    }
  }

  lemma IntIsTyped(c: Column, i: int)
    requires c == ID || c == ProxyID || c == ParentAccountID || c == AccountAdminID
    ensures Typed(c, IntCell(i)) && !Malformed(IntCell(i))
  {
  }

  lemma ValuesAreStored(m: Mutation, c: Column)
    requires WellTyped(m) && c in m.values
    ensures SpecType(c).Some? && Stored(SpecType(c).value, m.values[c]).Some?
  {
  }

  lemma NullIsTyped(c: Column)
    requires !c.Other?
    ensures Typed(c, Null) && !Malformed(Null)
  {
  }

  /** The row written for a mutation can be read back: every cell fits its buffer. */
  lemma RowIsTyped(m: Mutation, id: int)
    requires WellTyped(m)
    ensures TypedRow(Columns(), RowOf(SpecOf(m), id))
    ensures forall c | c in Columns() :: !Malformed(RowOf(SpecOf(m), id)[c])
  {
    var row := RowOf(SpecOf(m), id);
    hide RowOf, SpecOf, NodeOf, Typed, Malformed, Decoded, Columns, Zero, Get, WellTyped;
    forall c | c in Columns() ensures c in row && Typed(c, row[c]) && !Malformed(row[c]) {
      ColumnsAreAll(c);
      RowCells(m, id, c);
    }
  }

  /** Decoding the full row written for a mutation into a fresh account gives the account createSpec returned,
      under the stored id. */
  lemma RowRoundTrip(m: Mutation, id: int)
    requires WellTyped(m)
    ensures TypedRow(Columns(), RowOf(SpecOf(m), id))
    ensures AssignAll(Fresh(), Columns(), FillAll(Columns(), RowOf(SpecOf(m), id)))
         == (SetColumn(NodeOf(m), ID, Int(id)), None)
  {
    hide RowOf, SpecOf, NodeOf, Malformed, Decoded, Fresh, AssignAll, Zero, WellTyped, Columns, TypedRow, FillAll, Distinct, DecodesTo;
    var row := RowOf(SpecOf(m), id);
    RowIsTyped(m, id);
    ColumnsInOrder();
    FreshIsWhole();
    RowIsDecoded(Fresh(), Columns(), row);
    DecodedIsNode(m, id, AssignAll(Fresh(), Columns(), FillAll(Columns(), row)).0);
  }

  lemma DecodedIsNode(m: Mutation, id: int, g: Fields)
    requires WellTyped(m) && TypedRow(Columns(), RowOf(SpecOf(m), id))
    requires DecodesTo(Fresh(), Columns(), RowOf(SpecOf(m), id), g)
    ensures g == SetColumn(NodeOf(m), ID, Int(id))
  {
    hide RowOf, SpecOf, NodeOf, Typed, Malformed, Decoded, Fresh, Zero, WellTyped, Columns;
    var row, node := RowOf(SpecOf(m), id), SetColumn(NodeOf(m), ID, Int(id));
    NodeGets(m);
    FreshIsWhole();
    forall c: Column
      ensures c in Columns() <==> !c.Other?
      ensures !c.Other? ==> Get(g, c) == Get(node, c)
    {
      ColumnsAreAll(c);
      if !c.Other? {
        RowCells(m, id, c);
      }
    }
    SameFields(g, node);
  }

  lemma SameFields(f: Fields, g: Fields)
    requires Whole(f) && Whole(g) && (forall c: Column | !c.Other? :: Get(f, c) == Get(g, c))
    requires (forall c | c in f.byColumn :: !c.Other?) && (forall c | c in g.byColumn :: !c.Other?)
    requires f.selectValues == g.selectValues
    ensures f == g
  {
    assert f.byColumn == g.byColumn;
  }

  // ---- defaults and check ----

  /** The package-level defaults; the first four are functions that stay nil until the runtime package is loaded. */
  datatype Runtime = Runtime(
    createdAt: Option<int>, updatedAt: Option<int>, credentials: Option<Members>, extra: Option<Members>,
    concurrency: int, priority: int, rateMultiplier: real, status: string, autoPauseOnExpired: bool, schedulable: bool)

  /** None where the default is not initialised, or the column has none. */
  function DefaultValue(rt: Runtime, c: Column): Option<Value> {
    match c
    case CreatedAt => if rt.createdAt.Some? then Some(Time(rt.createdAt.value)) else None
    case UpdatedAt => if rt.updatedAt.Some? then Some(Time(rt.updatedAt.value)) else None
    case Credentials => if rt.credentials.Some? then Some(Json(rt.credentials.value)) else None
    case Extra => if rt.extra.Some? then Some(Json(rt.extra.value)) else None
    case Concurrency => Some(Int(rt.concurrency))
    case Priority => Some(Int(rt.priority))
    case RateMultiplier => Some(Float(rt.rateMultiplier))
    case Status => Some(Text(rt.status))
    case AutoPauseOnExpired => Some(Bool(rt.autoPauseOnExpired))
    case Schedulable => Some(Bool(rt.schedulable))
    case QuotaDimension => Some(Text("global"))
    case _ => None
  }

  predicate HasDefault(c: Column) {
    match c
    case CreatedAt | UpdatedAt | Credentials | Extra | Concurrency | Priority | RateMultiplier | Status
      | AutoPauseOnExpired | Schedulable | QuotaDimension => true
    case _ => false
  }

  /** The columns `defaults` fills, in its order. */
  function Defaulted(): seq<Column> {
    Where(Columns(), HasDefault)
  }

  function SetValue(m: Mutation, c: Column, v: Value): Mutation {
    m.(values := m.values[c := v])
  }

  /** `defaults` from a given column on; it stops at the first default that is not initialised. */
  function DefaultsFrom(rt: Runtime, m: Mutation, columns: seq<Column>): (Mutation, bool)
    decreases |columns|
  {
    if columns == [] then (m, true)
    else if columns[0] in m.values then DefaultsFrom(rt, m, columns[1..])
    else match DefaultValue(rt, columns[0])
      case Some(v) => DefaultsFrom(rt, SetValue(m, columns[0], v), columns[1..])
      case None => (m, false)
  }

  function Defaults(rt: Runtime, m: Mutation): (Mutation, bool) {
    DefaultsFrom(rt, m, Defaulted())
  }

  /** Field validators, by column. */
  type Validators = (Column, Value) -> bool

  datatype CheckError = Missing(c: Column) | Invalid(c: Column)

  predicate Required(c: Column) {
    match c
    case CreatedAt | UpdatedAt | Name | Platform | Type | Credentials | Extra | Concurrency | Priority | RateMultiplier
      | Status | AutoPauseOnExpired | Schedulable | QuotaDimension => true
    case _ => false
  }

  predicate Validated(c: Column) {
    c == Name || c == Platform || c == Type || c == Status || c == SessionWindowStatus || c == QuotaDimension
  }

  predicate IsChecked(c: Column) {
    Required(c) || Validated(c)
  }

  /** The columns `check` looks at, in its order. */
  function Checked(): seq<Column> {
    Where(Columns(), IsChecked)
  }

  predicate CheckPasses(m: Mutation, valid: Validators, c: Column) {
    && (Required(c) ==> c in m.values)
    && (c in m.values && Validated(c) ==> valid(c, m.values[c]))
  }

  /** The first failing check. */
  function CheckFrom(m: Mutation, valid: Validators, columns: seq<Column>): Option<CheckError> {
    if columns == [] then None
    else
      var c := columns[0];
      if c !in m.values && Required(c) then Some(Missing(c))
      else if c in m.values && Validated(c) && !valid(c, m.values[c]) then Some(Invalid(c))
      else CheckFrom(m, valid, columns[1..])
  }

  function Check(m: Mutation, valid: Validators): Option<CheckError> {
    CheckFrom(m, valid, Checked())
  }

  lemma {:induction false} CheckFromPasses(m: Mutation, valid: Validators, columns: seq<Column>)
    ensures CheckFrom(m, valid, columns).None? <==> forall c | c in columns :: CheckPasses(m, valid, c)
    ensures CheckFrom(m, valid, columns).Some? ==>
      var e := CheckFrom(m, valid, columns).value;
      e.c in columns && (if e.Missing? then Required(e.c) && e.c !in m.values else e.c in m.values)
  {
    hide Required, Validated;
    if columns != [] {
      CheckFromPasses(m, valid, columns[1..]);
      assert columns == [columns[0]] + columns[1..];
      assert CheckPasses(m, valid, columns[0]) <==> CheckFrom(m, valid, columns[..1]).None?;
    }
  }

  lemma {:induction false} DefaultsFromGets(rt: Runtime, m: Mutation, columns: seq<Column>)
    ensures var (d, ok) := DefaultsFrom(rt, m, columns);
      && (forall c | c in m.values :: c in d.values && d.values[c] == m.values[c])
      && (forall c | c in d.values && c !in m.values :: c in columns && DefaultValue(rt, c) == Some(d.values[c]))
      && (ok ==> forall c | c in columns :: c in d.values)
      && (!ok ==> exists c | c in columns :: c !in d.values && DefaultValue(rt, c).None?)
      && d.(values := m.values) == m
    decreases |columns|
  {
    hide DefaultValue;
    if columns != [] {
      var c := columns[0];
      assert columns == [c] + columns[1..];
      if c in m.values {
        DefaultsFromGets(rt, m, columns[1..]);
      } else if DefaultValue(rt, c).Some? {
        DefaultsFromGets(rt, SetValue(m, c, DefaultValue(rt, c).value), columns[1..]);
      }
    }
  }

  lemma InDefaulted(c: Column)
    ensures c in Defaulted() <==> HasDefault(c)
  {
    hide Columns, HasDefault;
    InWhere(Columns(), HasDefault, c);
    ColumnsAreAll(c);
    OtherHasNone(c);
  }

  lemma InChecked(c: Column)
    ensures c in Checked() <==> IsChecked(c)
  {
    hide Columns, IsChecked;
    InWhere(Columns(), IsChecked, c);
    ColumnsAreAll(c);
    OtherHasNone(c);
  }

  lemma OtherHasNone(c: Column)
    ensures c.Other? ==> !HasDefault(c) && !IsChecked(c)
  {
  }

  /** Exactly the required columns other than the name, the platform and the type have a default. */
  lemma RequiredIsDefaulted(c: Column)
    ensures Required(c) <==> c == Name || c == Platform || c == Type || HasDefault(c)
    ensures HasDefault(Name) == HasDefault(Platform) == HasDefault(Type) == false
  {
  }

  /** A mutation passes the check exactly when its required columns are set and its validated ones are valid. */
  lemma CheckDecides(m: Mutation, valid: Validators)
    ensures Check(m, valid).None? <==> forall c :: CheckPasses(m, valid, c)
    ensures Check(m, valid).Some? && Check(m, valid).value.Missing? ==>
      Required(Check(m, valid).value.c) && Check(m, valid).value.c !in m.values
  {
    CheckFromPasses(m, valid, Checked());
    hide Checked, CheckFrom;
    forall c ensures c in Checked() <==> IsChecked(c) {
      InChecked(c);
    }
  }

  /** Once the defaults are in, only the name, the platform and the type can still be missing. */
  lemma DefaultsLeaveThreeRequired(rt: Runtime, m: Mutation, valid: Validators)
    requires Defaults(rt, m).1
    ensures var d := Defaults(rt, m).0;
      && (Check(d, valid).Some? && Check(d, valid).value.Missing? ==> Check(d, valid).value.c in {Name, Platform, Type})
      && (Check(d, valid).None? <==>
           && Name in m.values && Platform in m.values && Type in m.values
           && forall c | c in d.values && Validated(c) :: valid(c, d.values[c]))
  {
    var d := Defaults(rt, m).0;
    DefaultsFromGets(rt, m, Defaulted());
    CheckDecides(d, valid);
    hide DefaultValue, DefaultsFrom, Check, Defaulted, Required, Validated, HasDefault;
    forall c
      ensures c in Defaulted() <==> HasDefault(c)
      ensures Required(c) <==> c == Name || c == Platform || c == Type || HasDefault(c)
    {
      InDefaulted(c);
      RequiredIsDefaulted(c);
    }
    RequiredIsDefaulted(Name);
    ThreeAreRequired();
    assert forall c | c == Name || c == Platform || c == Type :: c in d.values <==> c in m.values;
    if forall c :: CheckPasses(d, valid, c) {
      assert CheckPasses(d, valid, Name) && CheckPasses(d, valid, Platform) && CheckPasses(d, valid, Type);
      forall c | c in d.values && Validated(c) ensures valid(c, d.values[c]) {
        assert CheckPasses(d, valid, c);
      }
    }
  }

  lemma ThreeAreRequired()
    ensures Required(Name) && Required(Platform) && Required(Type)
  {
  }

  /** When `defaults` fails on an uninitialised default, the check rejects what it leaves behind: the bulk path may
      ignore its error. */
  lemma FailedDefaultsAreRejected(rt: Runtime, m: Mutation, valid: Validators)
    requires !Defaults(rt, m).1
    ensures Check(Defaults(rt, m).0, valid).Some?
  {
    var d := Defaults(rt, m).0;
    DefaultsFromGets(rt, m, Defaulted());
    hide DefaultValue, DefaultsFrom, Check, Defaulted, Required, Validated, HasDefault;
    var c :| c in Defaulted() && c !in d.values && DefaultValue(rt, c).None?;
    InDefaulted(c);
    RequiredIsDefaulted(c);
    CheckDecides(d, valid);
    assert !CheckPasses(d, valid, c);
  }
}
