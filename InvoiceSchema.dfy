/**
  The invoice schema and `LNInvoice.get_df`: every record of the node's
  `listinvoices` answer has each of the 27 columns of COLUMN_TO_DTYPE cast in
  place, in table order; `state` is then upper-cased. Creation and settle
  dates stay integer seconds since the epoch.
*/
module InvoiceSchema {
  import opened Wrappers
  import opened PyText
  import opened JsonValues

  /** The casts named in COLUMN_TO_DTYPE: Satoshi and MilliSatoshi are Decimal, Second is int. */
  datatype Dtype = Str | Satoshi | MilliSatoshi | Bool | Second | Int

  /** A cast value. */
  datatype Value = VStr(s: string) | VDec(d: real) | VBool(b: bool) | VInt(i: int)

  type Column = (string, Dtype)

  /** COLUMN_TO_DTYPE, in its order. */
  const Columns: seq<Column> := [
    ("memo", Str), ("r_preimage", Str), ("r_hash", Str), ("value", Satoshi),
    ("value_msat", MilliSatoshi), ("settled", Bool), ("creation_date", Second),
    ("settle_date", Second), ("payment_request", Str), ("description_hash", Str),
    ("expiry", Int), ("fallback_addr", Str), ("cltv_expiry", Int), ("route_hints", Str),
    ("private", Bool), ("add_index", Int), ("settle_index", Int), ("amt_paid", Satoshi),
    ("amt_paid_sat", Satoshi), ("amt_paid_msat", MilliSatoshi), ("state", Str),
    ("htlcs", Str), ("features", Str), ("is_keysend", Bool), ("payment_addr", Str),
    ("is_amp", Bool), ("amp_invoice_state", Str)
  ]

  /** STATES */
  const States: seq<string> := ["OPEN", "SETTLED", "CANCELED", "ACCEPTED", "UNKNOWN"]

  /** The five states are already upper-case. */
  lemma StatesUpper()
    ensures forall s :: s in States ==> AsciiUpper(s) == s
  {
    AsciiUpperKeeps("OPEN");
    AsciiUpperKeeps("SETTLED");
    AsciiUpperKeeps("CANCELED");
    AsciiUpperKeeps("ACCEPTED");
    AsciiUpperKeeps("UNKNOWN");
  }

  predicate NamesDistinct(cols: seq<Column>) {
    forall i, j :: 0 <= i < j < |cols| ==> cols[i].0 != cols[j].0
  }

  function Names(cols: seq<Column>): set<string> {
    set j | 0 <= j < |cols| :: cols[j].0
  }

  /** No column of COLUMN_TO_DTYPE is named twice. */
  lemma ColumnsDistinct()
    ensures NamesDistinct(Columns)
  {
    ColumnNamesDistinctFrom0();
    ColumnNamesDistinctFrom4();
    ColumnNamesDistinctFrom9();
    ColumnNamesDistinctFrom15();
  }

  lemma ColumnNamesDistinctFrom0()
    ensures forall i, j :: 0 <= i < 4 && i < j < |Columns| ==> Columns[i].0 != Columns[j].0
  {
  }

  lemma ColumnNamesDistinctFrom4()
    ensures forall i, j :: 4 <= i < 9 && i < j < |Columns| ==> Columns[i].0 != Columns[j].0
  {
  }

  lemma ColumnNamesDistinctFrom9()
    ensures forall i, j :: 9 <= i < 15 && i < j < |Columns| ==> Columns[i].0 != Columns[j].0
  {
  }

  lemma ColumnNamesDistinctFrom15()
    ensures forall i, j :: 15 <= i < 27 && i < j < |Columns| ==> Columns[i].0 != Columns[j].0
  {
  }

  /** `bool(v)`: Python truthiness, so the text "false" is true. */
  function Truthy(v: Json): (b: bool)
    ensures !b <==> v in [JNull, JBool(false), JInt(0), JStr(""), JList([]), JObject(map[])]
  {
    match v
    case JNull => false
    case JBool(b) => b
    case JInt(i) => i != 0
    case JStr(s) => s != ""
    case JList(items) => items != []
    case JObject(fields) => fields != map[]
  }

  /** `str(v)`; the Python repr of a list or dict is supplied by the caller as `repr`. */
  function ToStr(v: Json, repr: Json -> string): (r: string)
    ensures v.JStr? ==> r == v.s
    ensures v.JInt? ==> ParseInt(r) == Some(v.i)
    ensures v.JBool? ==> (r == "True" <==> v.b) && (r == "False" <==> !v.b)
    ensures v.JNull? ==> r == "None"
  {
    match v
    case JNull => "None"
    case JBool(b) => if b then "True" else "False"
    case JInt(i) => ParseIntToString(i); IntToString(i)
    case JStr(s) => s
    case _ => repr(v)
  }

  /** `Decimal(v)`; None where it raises. */
  function ToDecimal(v: Json): (r: Option<real>)
    ensures ToInt(v).Some? ==> r == Some(ToInt(v).value as real)
    ensures v.JStr? ==> (r.Some? <==> DecimalText(v.s))
    ensures v.JNull? || v.JList? || v.JObject? ==> r.None?
  {
    match v
    case JBool(b) => Some(if b then 1.0 else 0.0)
    case JInt(i) => Some(i as real)
    case JStr(s) =>
      ParseDecimalSucceedsIff(s);
      if ParseInt(s).Some? then ParseDecimalExtendsParseInt(s); ParseDecimal(s)
      else ParseDecimal(s)
    case _ => None
  }

  /**
    `Decimal()` of digits, a point and digits, either run possibly empty, is the
    whole part plus the fraction; a leading '-' negates it and a leading '+' keeps it.
  */
  lemma ToDecimalPoint(whole: string, fraction: string)
    requires |whole| + |fraction| > 0 && AllDigits(whole) && AllDigits(fraction)
    ensures ToDecimal(JStr(whole + "." + fraction)) == Some(DecimalValue(whole, fraction))
    ensures ToDecimal(JStr("-" + whole + "." + fraction)) == Some(-DecimalValue(whole, fraction))
    ensures ToDecimal(JStr("+" + whole + "." + fraction)) == Some(DecimalValue(whole, fraction))
  {
    ParseDecimalPoint(whole, fraction);
    ParseDecimalSignedPoint(whole, fraction);
  }

  /** `int(v)`; None where it raises. */
  function ToInt(v: Json): (r: Option<int>)
    ensures v.JInt? ==> r == Some(v.i)
    ensures v.JBool? ==> r == Some(if v.b then 1 else 0)
    ensures v.JStr? ==> (r.Some? <==> SignedDigits(v.s))
    ensures v.JStr? && |v.s| > 0 && AllDigits(v.s) ==> r == Some(DigitsValue(v.s))
    ensures v.JStr? && |v.s| > 1 && (v.s[0] == '-' || v.s[0] == '+') && AllDigits(v.s[1..]) ==>
      r == Some(if v.s[0] == '-' then -(DigitsValue(v.s[1..]) as int) else DigitsValue(v.s[1..]) as int)
    ensures v.JNull? || v.JList? || v.JObject? ==> r.None?
  {
    match v
    case JBool(b) => Some(if b then 1 else 0)
    case JInt(i) => Some(i)
    case JStr(s) => ParseIntSucceedsIff(s); ParseInt(s)
    case _ => None
  }

  predicate HasType(v: Value, t: Dtype) {
    match t
    case Str => v.VStr?
    case Satoshi => v.VDec?
    case MilliSatoshi => v.VDec?
    case Bool => v.VBool?
    case Second => v.VInt?
    case Int => v.VInt?
  }

  /** `dtype(v)` for one column's dtype; None where the cast raises. */
  function Cast(t: Dtype, v: Json, repr: Json -> string): (r: Option<Value>)
    ensures r.Some? ==> HasType(r.value, t)
    ensures (t == Str || t == Bool) ==> r.Some?
  {
    match t
    case Str => Some(VStr(ToStr(v, repr)))
    case Bool => Some(VBool(Truthy(v)))
    case Satoshi => if ToDecimal(v).Some? then Some(VDec(ToDecimal(v).value)) else None
    case MilliSatoshi => if ToDecimal(v).Some? then Some(VDec(ToDecimal(v).value)) else None
    case Second => if ToInt(v).Some? then Some(VInt(ToInt(v).value)) else None
    case Int => if ToInt(v).Some? then Some(VInt(ToInt(v).value)) else None
  }

  /** One entry of a record while its columns are being cast: still as received, or cast. */
  datatype Cell = Raw(json: Json) | Typed(value: Value)

  /** Why a record could not be cast: a KeyError on a missing column, or the cast raised. */
  datatype ColumnFailure = Missing(column: string) | Uncastable(column: string)

  predicate TypedAs(rec: map<string, Cell>, name: string, t: Dtype) {
    name in rec && rec[name].Typed? && HasType(rec[name].value, t)
  }

  predicate ColumnOk(d: map<string, Json>, col: Column, repr: Json -> string) {
    col.0 in d && Cast(col.1, d[col.0], repr).Some?
  }

  function FailureAt(d: map<string, Json>, col: Column): ColumnFailure {
    if col.0 in d then Uncastable(col.0) else Missing(col.0)
  }

  /** The position of the first column of `cols` that is missing from `d` or does not cast; `|cols|` when there is none. */
  function FirstBadColumn(d: map<string, Json>, cols: seq<Column>, repr: Json -> string): (k: nat)
    ensures k <= |cols|
    ensures forall i :: 0 <= i < k ==> ColumnOk(d, cols[i], repr)
    ensures k < |cols| ==> !ColumnOk(d, cols[k], repr)
    decreases |cols|
  {
    if cols == [] then 0
    else if !ColumnOk(d, cols[0], repr) then 0
    else 1 + FirstBadColumn(d, cols[1..], repr)
  }

  lemma FirstBadColumnExtend(d: map<string, Json>, cols: seq<Column>, repr: Json -> string)
    requires cols != []
    ensures var n := |cols| - 1; var k := FirstBadColumn(d, cols[..n], repr);
      FirstBadColumn(d, cols, repr) == if k < n then k else if ColumnOk(d, cols[n], repr) then n + 1 else n
  {
    var n := |cols| - 1;
    assert forall i :: 0 <= i < n ==> cols[..n][i] == cols[i];
  }

  /**
    The record `d` after `d[column] = dtype(d[column])` has run for each column
    of `cols` in order: it fails at the first column that is missing or does not
    cast, and otherwise holds every column cast and every other key untouched.
  */
  function CastRecord(d: map<string, Json>, cols: seq<Column>, repr: Json -> string)
    : (r: Result<map<string, Cell>, ColumnFailure>)
    requires NamesDistinct(cols)
    ensures r.Success? <==> FirstBadColumn(d, cols, repr) == |cols|
    ensures r.Failure? ==> r.error == FailureAt(d, cols[FirstBadColumn(d, cols, repr)])
    decreases |cols|
  {
    if cols == [] then Success(map k | k in d :: Raw(d[k]))
    else
      var n := |cols| - 1;
      assert forall i :: 0 <= i < n ==> cols[..n][i] == cols[i];
      assert NamesDistinct(cols[..n]);
      FirstBadColumnExtend(d, cols, repr);
      var front := CastRecord(d, cols[..n], repr);
      if front.Failure? then front
      else
        var name := cols[n].0;
        if name !in d then Failure(Missing(name))
        else if Cast(cols[n].1, d[name], repr).None? then Failure(Uncastable(name))
        else Success(front.value[name := Typed(Cast(cols[n].1, d[name], repr).value)])
  }

  /**
    A record that casts keeps its keys; each column holds the cast of what was
    received under it, and every other key holds what was received.
  */
  lemma {:induction false} CastRecordContents(d: map<string, Json>, cols: seq<Column>, repr: Json -> string)
    requires NamesDistinct(cols)
    requires CastRecord(d, cols, repr).Success?
    ensures var rec := CastRecord(d, cols, repr).value;
      && rec.Keys == d.Keys
      && (forall j :: 0 <= j < |cols| ==>
            cols[j].0 in d && rec[cols[j].0] == Typed(Cast(cols[j].1, d[cols[j].0], repr).value))
      && (forall j :: 0 <= j < |cols| ==> TypedAs(rec, cols[j].0, cols[j].1))
      && (forall k :: k in d && k !in Names(cols) ==> rec[k] == Raw(d[k]))
    decreases |cols|
  {
    if cols != [] {
      var n := |cols| - 1;
      assert forall i :: 0 <= i < n ==> cols[..n][i] == cols[i];
      assert NamesDistinct(cols[..n]);
      assert Names(cols) == Names(cols[..n]) + {cols[n].0};
      CastRecordContents(d, cols[..n], repr);
    }
  }

  /** Every column of `cols` is present and casts exactly when the cast of the record succeeds. */
  lemma CastRecordSucceedsIff(d: map<string, Json>, cols: seq<Column>, repr: Json -> string)
    requires NamesDistinct(cols)
    ensures CastRecord(d, cols, repr).Success? <==> forall j :: 0 <= j < |cols| ==> ColumnOk(d, cols[j], repr)
  {
  }

  /** The first failing column decides the failure, however many columns follow it. */
  lemma CastRecordFailsEarly(d: map<string, Json>, cols: seq<Column>, k: nat, repr: Json -> string)
    requires k <= |cols| && NamesDistinct(cols) && NamesDistinct(cols[..k])
    requires CastRecord(d, cols[..k], repr).Failure?
    ensures CastRecord(d, cols, repr) == CastRecord(d, cols[..k], repr)
  {
    assert forall i :: 0 <= i < k ==> cols[..k][i] == cols[i];
  }

  /** An invoice as the frame holds it after get_df. */
  datatype Invoice = Invoice(
    memo: string,
    rPreimage: string,
    rHash: string,
    value: real,
    valueMsat: real,
    settled: bool,
    creationDate: int,
    settleDate: int,
    paymentRequest: string,
    descriptionHash: string,
    expiry: int,
    fallbackAddr: string,
    cltvExpiry: int,
    routeHints: string,
    private: bool,
    addIndex: int,
    settleIndex: int,
    amtPaid: real,
    amtPaidSat: real,
    amtPaidMsat: real,
    state: string,
    htlcs: string,
    features: string,
    isKeysend: bool,
    paymentAddr: string,
    isAmp: bool,
    ampInvoiceState: string,
    /** the keys outside COLUMN_TO_DTYPE, as received */
    extra: map<string, Json>)

  /** Every column of the record holds a cast value of its dtype. */
  predicate WellTyped(rec: map<string, Cell>) {
    forall j :: 0 <= j < |Columns| ==> TypedAs(rec, Columns[j].0, Columns[j].1)
  }

  lemma WellTypedHead(rec: map<string, Cell>)
    requires WellTyped(rec)
    ensures TypedAs(rec, "memo", Str)
    ensures TypedAs(rec, "r_preimage", Str)
    ensures TypedAs(rec, "r_hash", Str)
    ensures TypedAs(rec, "value", Satoshi)
    ensures TypedAs(rec, "value_msat", MilliSatoshi)
    ensures TypedAs(rec, "settled", Bool)
    ensures TypedAs(rec, "creation_date", Second)
    ensures TypedAs(rec, "settle_date", Second)
    ensures TypedAs(rec, "payment_request", Str)
  {
    assert TypedAs(rec, Columns[0].0, Columns[0].1);
    assert TypedAs(rec, Columns[1].0, Columns[1].1);
    assert TypedAs(rec, Columns[2].0, Columns[2].1);
    assert TypedAs(rec, Columns[3].0, Columns[3].1);
    assert TypedAs(rec, Columns[4].0, Columns[4].1);
    assert TypedAs(rec, Columns[5].0, Columns[5].1);
    assert TypedAs(rec, Columns[6].0, Columns[6].1);
    assert TypedAs(rec, Columns[7].0, Columns[7].1);
    assert TypedAs(rec, Columns[8].0, Columns[8].1);
  }

  lemma WellTypedMiddle(rec: map<string, Cell>)
    requires WellTyped(rec)
    ensures TypedAs(rec, "description_hash", Str)
    ensures TypedAs(rec, "expiry", Int)
    ensures TypedAs(rec, "fallback_addr", Str)
    ensures TypedAs(rec, "cltv_expiry", Int)
    ensures TypedAs(rec, "route_hints", Str)
    ensures TypedAs(rec, "private", Bool)
    ensures TypedAs(rec, "add_index", Int)
    ensures TypedAs(rec, "settle_index", Int)
    ensures TypedAs(rec, "amt_paid", Satoshi)
  {
    assert TypedAs(rec, Columns[9].0, Columns[9].1);
    assert TypedAs(rec, Columns[10].0, Columns[10].1);
    assert TypedAs(rec, Columns[11].0, Columns[11].1);
    assert TypedAs(rec, Columns[12].0, Columns[12].1);
    assert TypedAs(rec, Columns[13].0, Columns[13].1);
    assert TypedAs(rec, Columns[14].0, Columns[14].1);
    assert TypedAs(rec, Columns[15].0, Columns[15].1);
    assert TypedAs(rec, Columns[16].0, Columns[16].1);
    assert TypedAs(rec, Columns[17].0, Columns[17].1);
  }

  lemma WellTypedTail(rec: map<string, Cell>)
    requires WellTyped(rec)
    ensures TypedAs(rec, "amt_paid_sat", Satoshi)
    ensures TypedAs(rec, "amt_paid_msat", MilliSatoshi)
    ensures TypedAs(rec, "state", Str)
    ensures TypedAs(rec, "htlcs", Str)
    ensures TypedAs(rec, "features", Str)
    ensures TypedAs(rec, "is_keysend", Bool)
    ensures TypedAs(rec, "payment_addr", Str)
    ensures TypedAs(rec, "is_amp", Bool)
    ensures TypedAs(rec, "amp_invoice_state", Str)
  {
    assert TypedAs(rec, Columns[18].0, Columns[18].1);
    assert TypedAs(rec, Columns[19].0, Columns[19].1);
    assert TypedAs(rec, Columns[20].0, Columns[20].1);
    assert TypedAs(rec, Columns[21].0, Columns[21].1);
    assert TypedAs(rec, Columns[22].0, Columns[22].1);
    assert TypedAs(rec, Columns[23].0, Columns[23].1);
    assert TypedAs(rec, Columns[24].0, Columns[24].1);
    assert TypedAs(rec, Columns[25].0, Columns[25].1);
    assert TypedAs(rec, Columns[26].0, Columns[26].1);
  }

  function Text(rec: map<string, Cell>, name: string): string
    requires TypedAs(rec, name, Str)
  {
    rec[name].value.s
  }

  function Amount(rec: map<string, Cell>, name: string): real
    requires TypedAs(rec, name, Satoshi) || TypedAs(rec, name, MilliSatoshi)
  {
    rec[name].value.d
  }

  function Flag(rec: map<string, Cell>, name: string): bool
    requires TypedAs(rec, name, Bool)
  {
    rec[name].value.b
  }

  function Integer(rec: map<string, Cell>, name: string): int
    requires TypedAs(rec, name, Second) || TypedAs(rec, name, Int)
  {
    rec[name].value.i
  }

  /** The row a cast record becomes; the keys left as received are kept as `extra`. */
  function ToInvoice(rec: map<string, Cell>): Invoice
    requires WellTyped(rec)
  {
    WellTypedHead(rec);
    WellTypedMiddle(rec);
    WellTypedTail(rec);
    Invoice(
      memo := Text(rec, "memo"), rPreimage := Text(rec, "r_preimage"), rHash := Text(rec, "r_hash"),
      value := Amount(rec, "value"), valueMsat := Amount(rec, "value_msat"), settled := Flag(rec, "settled"),
      creationDate := Integer(rec, "creation_date"), settleDate := Integer(rec, "settle_date"),
      paymentRequest := Text(rec, "payment_request"), descriptionHash := Text(rec, "description_hash"),
      expiry := Integer(rec, "expiry"), fallbackAddr := Text(rec, "fallback_addr"),
      cltvExpiry := Integer(rec, "cltv_expiry"), routeHints := Text(rec, "route_hints"),
      private := Flag(rec, "private"), addIndex := Integer(rec, "add_index"),
      settleIndex := Integer(rec, "settle_index"), amtPaid := Amount(rec, "amt_paid"),
      amtPaidSat := Amount(rec, "amt_paid_sat"), amtPaidMsat := Amount(rec, "amt_paid_msat"),
      state := Text(rec, "state"), htlcs := Text(rec, "htlcs"), features := Text(rec, "features"),
      isKeysend := Flag(rec, "is_keysend"), paymentAddr := Text(rec, "payment_addr"),
      isAmp := Flag(rec, "is_amp"), ampInvoiceState := Text(rec, "amp_invoice_state"),
      extra := map k | k in rec && rec[k].Raw? :: rec[k].json)
  }

  /** One raw record cast to an invoice (its state not yet upper-cased). */
  function CoerceRecord(d: map<string, Json>, repr: Json -> string): Result<Invoice, ColumnFailure> {
    ColumnsDistinct();
    var rec :- CastRecord(d, Columns, repr);
    CastRecordContents(d, Columns, repr);
    Success(ToInvoice(rec))
  }

  /** A record casts exactly when every column of COLUMN_TO_DTYPE is present and its cast does not raise. */
  lemma CoerceRecordSucceedsIff(d: map<string, Json>, repr: Json -> string)
    ensures CoerceRecord(d, repr).Success? <==> forall j :: 0 <= j < |Columns| ==> ColumnOk(d, Columns[j], repr)
  {
    ColumnsDistinct();
    CastRecordSucceedsIff(d, Columns, repr);
  }

  /** A record that lacks one of the columns cannot be cast: it fails on the first column it lacks or cannot cast. */
  lemma CoerceRecordMissingColumn(d: map<string, Json>, repr: Json -> string, j: nat)
    requires j < |Columns| && Columns[j].0 !in d
    ensures CoerceRecord(d, repr).Failure?
    ensures CoerceRecord(d, repr).error == FailureAt(d, Columns[FirstBadColumn(d, Columns, repr)])
    ensures FirstBadColumn(d, Columns, repr) <= j
  {
    ColumnsDistinct();
    assert !ColumnOk(d, Columns[j], repr);
  }

  /** Every column of COLUMN_TO_DTYPE was received in `d` and `rec` holds its cast. */
  predicate CastFrom(rec: map<string, Cell>, d: map<string, Json>, repr: Json -> string) {
    forall j :: 0 <= j < |Columns| ==>
      && Columns[j].0 in d && Columns[j].0 in rec
      && Cast(Columns[j].1, d[Columns[j].0], repr).Some?
      && rec[Columns[j].0] == Typed(Cast(Columns[j].1, d[Columns[j].0], repr).value)
  }

  /** The entries of a cast record left as received are exactly the keys outside `cols`. */
  lemma CastRecordExtras(d: map<string, Json>, cols: seq<Column>, repr: Json -> string)
    requires NamesDistinct(cols) && CastRecord(d, cols, repr).Success?
    ensures var rec := CastRecord(d, cols, repr).value;
      (map k | k in rec && rec[k].Raw? :: rec[k].json) == map k | k in d && k !in Names(cols) :: d[k]
  {
    CastRecordContents(d, cols, repr);
    var rec := CastRecord(d, cols, repr).value;
    forall k | k in rec
      ensures rec[k].Raw? <==> k !in Names(cols)
    {
      if k in Names(cols) {
        var j :| 0 <= j < |cols| && cols[j].0 == k;
        assert TypedAs(rec, cols[j].0, cols[j].1);
      }
    }
  }

  /** A record that coerces is the invoice built from the cast of each of its columns. */
  lemma CoerceRecordCasts(d: map<string, Json>, repr: Json -> string)
    requires CoerceRecord(d, repr).Success?
    ensures NamesDistinct(Columns) && CastRecord(d, Columns, repr).Success?
    ensures var rec := CastRecord(d, Columns, repr).value;
      && CastFrom(rec, d, repr) && WellTyped(rec)
      && CoerceRecord(d, repr).value == ToInvoice(rec)
  {
    ColumnsDistinct();
    CastRecordContents(d, Columns, repr);
    CastRecordSucceedsIff(d, Columns, repr);
    var rec := CastRecord(d, Columns, repr).value;
    forall j | 0 <= j < |Columns|
      ensures Columns[j].0 in d && Columns[j].0 in rec && Cast(Columns[j].1, d[Columns[j].0], repr).Some?
      ensures rec[Columns[j].0] == Typed(Cast(Columns[j].1, d[Columns[j].0], repr).value)
    {
      assert ColumnOk(d, Columns[j], repr);
    }
  }

  /** The flags are cast by truthiness: a non-empty text such as "false" reads as true. */
  lemma ToInvoiceFlags(rec: map<string, Cell>, d: map<string, Json>, repr: Json -> string)
    requires CastFrom(rec, d, repr) && WellTyped(rec)
    ensures "settled" in d && ToInvoice(rec).settled == Truthy(d["settled"])
    ensures "private" in d && ToInvoice(rec).private == Truthy(d["private"])
    ensures "is_keysend" in d && ToInvoice(rec).isKeysend == Truthy(d["is_keysend"])
    ensures "is_amp" in d && ToInvoice(rec).isAmp == Truthy(d["is_amp"])
  {
    assert Columns[5].0 == "settled" && Columns[5].1 == Bool;
    assert Columns[14].0 == "private" && Columns[14].1 == Bool;
    assert Columns[23].0 == "is_keysend" && Columns[23].1 == Bool;
    assert Columns[25].0 == "is_amp" && Columns[25].1 == Bool;
  }

  /** The memo and state are cast with `str`, the value with `Decimal` and the creation date with `int`. */
  lemma ToInvoiceFields(rec: map<string, Cell>, d: map<string, Json>, repr: Json -> string)
    requires CastFrom(rec, d, repr) && WellTyped(rec)
    ensures "memo" in d && ToInvoice(rec).memo == ToStr(d["memo"], repr)
    ensures "state" in d && ToInvoice(rec).state == ToStr(d["state"], repr)
    ensures "value" in d && ToDecimal(d["value"]) == Some(ToInvoice(rec).value)
    ensures "creation_date" in d && ToInt(d["creation_date"]) == Some(ToInvoice(rec).creationDate)
  {
    assert Columns[0].0 == "memo" && Columns[0].1 == Str;
    assert Columns[20].0 == "state" && Columns[20].1 == Str;
    assert Columns[3].0 == "value" && Columns[3].1 == Satoshi;
    assert Columns[6].0 == "creation_date" && Columns[6].1 == Second;
  }

  /** The flags of a coerced record are cast by truthiness. */
  lemma CoerceRecordFlags(d: map<string, Json>, repr: Json -> string)
    requires CoerceRecord(d, repr).Success?
    ensures var inv := CoerceRecord(d, repr).value;
      && "settled" in d && inv.settled == Truthy(d["settled"])
      && "private" in d && inv.private == Truthy(d["private"])
      && "is_keysend" in d && inv.isKeysend == Truthy(d["is_keysend"])
      && "is_amp" in d && inv.isAmp == Truthy(d["is_amp"])
  {
    CoerceRecordCasts(d, repr);
    ToInvoiceFlags(CastRecord(d, Columns, repr).value, d, repr);
  }

  /** The memo, state, value and creation date of a coerced record are the casts of what was received. */
  lemma CoerceRecordFields(d: map<string, Json>, repr: Json -> string)
    requires CoerceRecord(d, repr).Success?
    ensures var inv := CoerceRecord(d, repr).value;
      && "memo" in d && inv.memo == ToStr(d["memo"], repr)
      && "state" in d && inv.state == ToStr(d["state"], repr)
      && "value" in d && ToDecimal(d["value"]) == Some(inv.value)
      && "creation_date" in d && ToInt(d["creation_date"]) == Some(inv.creationDate)
  {
    CoerceRecordCasts(d, repr);
    ToInvoiceFields(CastRecord(d, Columns, repr).value, d, repr);
  }

  /** The keys outside COLUMN_TO_DTYPE are kept as received. */
  lemma CoerceRecordExtra(d: map<string, Json>, repr: Json -> string)
    requires CoerceRecord(d, repr).Success?
    ensures CoerceRecord(d, repr).value.extra == map k | k in d && k !in Names(Columns) :: d[k]
  {
    CoerceRecordCasts(d, repr);
    CastRecordExtras(d, Columns, repr);
  }

  /** How one record is turned into an invoice, or why it cannot be. */
  type Coercion = map<string, Json> -> Result<Invoice, ColumnFailure>

  function RecordCoercion(repr: Json -> string): Coercion {
    d => CoerceRecord(d, repr)
  }

  /** Why get_df raised. */
  datatype LoadError =
    | NoInvoicesKey
    | InvoicesNotAList
    | RecordNotADict(index: nat)
    | BadRecord(index: nat, failure: ColumnFailure)
    | NoStateColumn

  predicate RecordOk(item: Json, coerce: Coercion) {
    item.JObject? && coerce(item.fields).Success?
  }

  function RecordError(item: Json, index: nat, coerce: Coercion): LoadError
    requires !RecordOk(item, coerce)
  {
    if item.JObject? then BadRecord(index, coerce(item.fields).error) else RecordNotADict(index)
  }

  /** The position of the first record of `items` that is not a dict or does not cast; `|items|` when there is none. */
  function FirstBadRecord(items: seq<Json>, coerce: Coercion): (k: nat)
    ensures k <= |items|
    ensures forall i :: 0 <= i < k ==> RecordOk(items[i], coerce)
    ensures k < |items| ==> !RecordOk(items[k], coerce)
    decreases |items|
  {
    if items == [] then 0
    else if !RecordOk(items[0], coerce) then 0
    else 1 + FirstBadRecord(items[1..], coerce)
  }

  lemma FirstBadRecordPrefix(items: seq<Json>, k: nat, coerce: Coercion)
    requires k <= |items|
    ensures var b := FirstBadRecord(items[..k], coerce);
      b < k ==> FirstBadRecord(items, coerce) == b
    ensures var b := FirstBadRecord(items[..k], coerce);
      b == k ==> FirstBadRecord(items, coerce) >= k
  {
    assert forall i :: 0 <= i < k ==> items[..k][i] == items[i];
  }

  /**
    The loop over the records: it fails at the first record that is not a dict
    or does not cast, and otherwise yields one invoice per record, in order.
  */
  function CoerceAll(items: seq<Json>, coerce: Coercion): (r: Result<seq<Invoice>, LoadError>)
    ensures r.Success? <==> FirstBadRecord(items, coerce) == |items|
    ensures r.Failure? ==>
      r.error == RecordError(items[FirstBadRecord(items, coerce)], FirstBadRecord(items, coerce), coerce)
    ensures r.Success? ==> |r.value| == |items| && forall i :: 0 <= i < |items| ==>
      r.value[i] == coerce(items[i].fields).value
    decreases |items|
  {
    if items == [] then Success([])
    else
      var n := |items| - 1;
      assert forall i :: 0 <= i < n ==> items[..n][i] == items[i];
      FirstBadRecordPrefix(items, n, coerce);
      var front := CoerceAll(items[..n], coerce);
      if front.Failure? then front
      else if !RecordOk(items[n], coerce) then Failure(RecordError(items[n], n, coerce))
      else Success(front.value + [coerce(items[n].fields).value])
  }

  /** Every record is a dict that casts exactly when the loop over the records succeeds. */
  lemma CoerceAllSucceedsIff(items: seq<Json>, coerce: Coercion)
    ensures CoerceAll(items, coerce).Success? <==> forall i :: 0 <= i < |items| ==> RecordOk(items[i], coerce)
  {
  }

  /** A record that coerces extends the coerced prefix by its invoice. */
  lemma CoerceAllStep(items: seq<Json>, i: nat, coerce: Coercion, cast: seq<Invoice>)
    requires i < |items| && CoerceAll(items[..i], coerce) == Success(cast)
    requires RecordOk(items[i], coerce)
    ensures CoerceAll(items[..i + 1], coerce) == Success(cast + [coerce(items[i].fields).value])
  {
    assert items[..i + 1][..i] == items[..i];
  }

  /** A prefix that coerces, followed by a bad record, makes the whole listing fail with that record's error. */
  lemma CoerceAllStopsAt(items: seq<Json>, i: nat, coerce: Coercion)
    requires i < |items| && CoerceAll(items[..i], coerce).Success?
    requires !RecordOk(items[i], coerce)
    ensures CoerceAll(items, coerce) == Failure(RecordError(items[i], i, coerce))
  {
    assert items[..i + 1][..i] == items[..i];
    CoerceAllFailsEarly(items, i + 1, coerce);
  }

  lemma CoerceAllFailsEarly(items: seq<Json>, k: nat, coerce: Coercion)
    requires k <= |items|
    requires CoerceAll(items[..k], coerce).Failure?
    ensures CoerceAll(items, coerce) == CoerceAll(items[..k], coerce)
  {
    FirstBadRecordPrefix(items, k, coerce);
    assert forall i :: 0 <= i < k ==> items[..k][i] == items[i];
  }

  /**
    The state of every invoice, upper-cased: nothing but the state changes,
    and each new state is upper-case.
  */
  function UpperStates(cast: seq<Invoice>): (r: seq<Invoice>)
    ensures |r| == |cast|
    ensures forall i :: 0 <= i < |cast| ==> r[i].(state := cast[i].state) == cast[i]
    ensures forall i :: 0 <= i < |cast| ==> r[i].state == AsciiUpper(cast[i].state)
    ensures forall i :: 0 <= i < |cast| ==> AsciiUpper(r[i].state) == r[i].state
  {
    seq(|cast|, i requires 0 <= i < |cast| => cast[i].(state := AsciiUpper(cast[i].state)))
  }

  /**
    `get_df` on the decoded `listinvoices` answer `data`, with an empty list
    giving an empty collection (see LoadAsWritten for the code as written).
  */
  function Load(data: map<string, Json>, repr: Json -> string): (r: Result<seq<Invoice>, LoadError>)
    ensures r.Success? <==> ("invoices" in data && data["invoices"].JList?
      && FirstBadRecord(data["invoices"].items, RecordCoercion(repr)) == |data["invoices"].items|)
    ensures r.Success? ==> |r.value| == |data["invoices"].items|
  {
    if "invoices" !in data then Failure(NoInvoicesKey)
    else if !data["invoices"].JList? then Failure(InvoicesNotAList)
    else
      var cast :- CoerceAll(data["invoices"].items, RecordCoercion(repr));
      Success(UpperStates(cast))
  }

  /**
    A load keeps every record, in order: record i becomes the cast of
    `items[i]` with its state upper-cased.
  */
  lemma LoadKeepsRecords(data: map<string, Json>, repr: Json -> string)
    requires Load(data, repr).Success?
    ensures var items := data["invoices"].items;
      var r := Load(data, repr).value;
      forall i :: 0 <= i < |r| ==>
        && items[i].JObject?
        && CoerceRecord(items[i].fields, repr).Success?
        && r[i] == CoerceRecord(items[i].fields, repr).value.(state := AsciiUpper(CoerceRecord(items[i].fields, repr).value.state))
  {
    var items := data["invoices"].items;
    var coerce := RecordCoercion(repr);
    var cast := CoerceAll(items, coerce).value;
    forall i | 0 <= i < |items|
      ensures items[i].JObject? && CoerceRecord(items[i].fields, repr).Success?
      ensures cast[i] == CoerceRecord(items[i].fields, repr).value
    {
      assert RecordOk(items[i], coerce);
    }
  }

  /** After a load every state is upper-case: upper-casing it again changes nothing. */
  lemma LoadStatesUpper(data: map<string, Json>, repr: Json -> string)
    requires Load(data, repr).Success?
    ensures var r := Load(data, repr).value;
      forall i :: 0 <= i < |r| ==> AsciiUpper(r[i].state) == r[i].state
  {
    var r := Load(data, repr).value;
    forall i | 0 <= i < |r|
      ensures AsciiUpper(r[i].state) == r[i].state
    {
      LoadKeepsRecords(data, repr);
      AsciiUpperIdempotent(CoerceRecord(data["invoices"].items[i].fields, repr).value.state);
    }
  }

  /** One dict record lacking a column of COLUMN_TO_DTYPE makes the whole load fail. */
  lemma LoadFailsOnMissingColumn(data: map<string, Json>, repr: Json -> string, i: nat, j: nat)
    requires "invoices" in data && data["invoices"].JList?
    requires i < |data["invoices"].items| && data["invoices"].items[i].JObject?
    requires j < |Columns| && Columns[j].0 !in data["invoices"].items[i].fields
    ensures Load(data, repr).Failure?
  {
    var items := data["invoices"].items;
    CoerceRecordMissingColumn(items[i].fields, repr, j);
    assert !RecordOk(items[i], RecordCoercion(repr));
  }

  /** One dict record holding a value that its column's dtype cannot cast makes the whole load fail. */
  lemma LoadFailsOnBadValue(data: map<string, Json>, repr: Json -> string, i: nat, j: nat)
    requires "invoices" in data && data["invoices"].JList?
    requires i < |data["invoices"].items| && data["invoices"].items[i].JObject?
    requires j < |Columns| && Columns[j].0 in data["invoices"].items[i].fields
    requires Cast(Columns[j].1, data["invoices"].items[i].fields[Columns[j].0], repr).None?
    ensures Load(data, repr).Failure?
  {
    var items := data["invoices"].items;
    CoerceRecordSucceedsIff(items[i].fields, repr);
    assert !ColumnOk(items[i].fields, Columns[j], repr);
    assert !RecordOk(items[i], RecordCoercion(repr));
  }

  /** A `creation_date` given as text that `int()` rejects, such as "abc" or "1.5", makes the whole load fail. */
  lemma LoadFailsOnNonNumericDate(data: map<string, Json>, repr: Json -> string, i: nat)
    requires "invoices" in data && data["invoices"].JList?
    requires i < |data["invoices"].items| && data["invoices"].items[i].JObject?
    requires "creation_date" in data["invoices"].items[i].fields
    requires data["invoices"].items[i].fields["creation_date"].JStr?
    requires !SignedDigits(data["invoices"].items[i].fields["creation_date"].s)
    ensures Load(data, repr).Failure?
  {
    assert Columns[6] == ("creation_date", Second);
    LoadFailsOnBadValue(data, repr, i, 6);
  }

  /**
    get_df as written: `pd.DataFrame([])` has no "state" column, so an empty
    invoice list raises KeyError at the upper-casing step.
  */
  function LoadAsWritten(data: map<string, Json>, repr: Json -> string): (r: Result<seq<Invoice>, LoadError>)
    ensures r.Success? ==> r == Load(data, repr)
    ensures r.Failure? <==> Load(data, repr).Failure? || ("invoices" in data && data["invoices"] == JList([]))
    ensures r.Failure? && Load(data, repr).Success? ==> r.error == NoStateColumn
  {
    match Load(data, repr)
    case Success(invoices) => if invoices == [] then Failure(NoStateColumn) else Success(invoices)
    case Failure(e) => Failure(e)
  }

  /** A node without invoices: the code as written raises, the corrected load is empty. */
  lemma EmptyListingRaisesAsWritten(repr: Json -> string)
    ensures LoadAsWritten(map["invoices" := JList([])], repr) == Failure(NoStateColumn)
    ensures Load(map["invoices" := JList([])], repr) == Success([])
  {
  }

  /** `d[column] = dtype(d[column])` for each column of `cols`, in order. */
  method CastColumnsInPlace(d: map<string, Json>, cols: seq<Column>, repr: Json -> string)
    returns (r: Result<map<string, Cell>, ColumnFailure>)
    requires NamesDistinct(cols)
    ensures r == CastRecord(d, cols, repr)
  {
    var rec := map k | k in d :: Raw(d[k]);
    for j := 0 to |cols|
      invariant CastRecord(d, cols[..j], repr) == Success(rec)
    {
      assert cols[..j + 1][..j] == cols[..j];
      assert forall i :: 0 <= i <= j ==> cols[..j + 1][i] == cols[i];
      assert NamesDistinct(cols[..j + 1]);
      var name := cols[j].0;
      if name !in d {
        CastRecordFailsEarly(d, cols, j + 1, repr);
        return Failure(Missing(name));
      }
      var v := Cast(cols[j].1, d[name], repr);
      if v.None? {
        CastRecordFailsEarly(d, cols, j + 1, repr);
        return Failure(Uncastable(name));
      }
      rec := rec[name := Typed(v.value)];
    }
    assert cols[..|cols|] == cols;
    return Success(rec);
  }

  /** The body of get_df's loop for one record `d`. */
  method CoerceRecordInPlace(d: map<string, Json>, repr: Json -> string) returns (r: Result<Invoice, ColumnFailure>)
    ensures r == CoerceRecord(d, repr)
  {
    ColumnsDistinct();
    var rec := CastColumnsInPlace(d, Columns, repr);
    if rec.Failure? {
      return Failure(rec.error);
    }
    CastRecordContents(d, Columns, repr);
    return Success(ToInvoice(rec.value));
  }

  /** The loop of get_df over the records: each is cast in place and appended to `_data`. */
  method CoerceRecords(items: seq<Json>, repr: Json -> string) returns (r: Result<seq<Invoice>, LoadError>)
    ensures r == CoerceAll(items, RecordCoercion(repr))
  {
    ghost var coerce := RecordCoercion(repr);
    var cast: seq<Invoice> := [];
    for i := 0 to |items|
      invariant CoerceAll(items[..i], coerce) == Success(cast)
    {
      if !items[i].JObject? {
        CoerceAllStopsAt(items, i, coerce);
        return Failure(RecordNotADict(i));
      }
      var inv := CoerceRecordInPlace(items[i].fields, repr);
      if inv.Failure? {
        CoerceAllStopsAt(items, i, coerce);
        return Failure(BadRecord(i, inv.error));
      }
      CoerceAllStep(items, i, coerce, cast);
      cast := cast + [inv.value];
    }
    assert items[..|items|] == items;
    return Success(cast);
  }

  /** get_df: the record loop, then the upper-casing of `state`. */
  method GetDf(data: map<string, Json>, repr: Json -> string) returns (r: Result<seq<Invoice>, LoadError>)
    ensures r == Load(data, repr)
  {
    if "invoices" !in data {
      return Failure(NoInvoicesKey);
    }
    if !data["invoices"].JList? {
      return Failure(InvoicesNotAList);
    }
    var cast := CoerceRecords(data["invoices"].items, repr);
    if cast.Failure? {
      return Failure(cast.error);
    }
    return Success(UpperStates(cast.value));
  }
}
