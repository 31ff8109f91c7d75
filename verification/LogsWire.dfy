/**
 The OTLP logs request the fixture generator writes: log records grouped by service.
 The decoder finds every row of a listed service exactly once, in order within its
 service.
 */
module LogsWire {
  import opened Wrappers
  import opened Sorting
  import opened Wire

  const I63: int := 0x8000_0000_0000_0000

  datatype AnyValue = IntValue(n: int) | StrValue(s: Bytes)

  // Text is its UTF-8 encoding; attrs is a dictionary in insertion order.
  datatype Row = Row(service: Bytes, ts: nat, sev: nat, text: Bytes, body: AnyValue,
                     attrs: seq<(Bytes, AnyValue)>, ids: Option<(Bytes, Bytes)>)

  // --- values ----------------------------------------------------------------

  // A negative integer is written as its 64-bit two's complement.
  function AnyFields(v: AnyValue): seq<Field> {
    match v
    case IntValue(n) => [VarintField(3, n % U64)]
    case StrValue(s) => [LenField(1, s)]
  }

  function EncodeAny(v: AnyValue): Bytes { EncodeFields(AnyFields(v)) }

  function KeyValue(key: Bytes, v: AnyValue): Bytes {
    EncodeFields([LenField(1, key), LenField(2, EncodeAny(v))])
  }

  // --- reading by field number -----------------------------------------------

  // The last field of a number wins.
  function Get(fs: seq<Field>, num: nat): Option<Field> {
    if fs == [] then None
    else
      var later := Get(fs[1..], num);
      if later.Some? then later else if fs[0].num == num then Some(fs[0]) else None
  }

  // The payloads of all fields of a number, in order.
  function GetAll(fs: seq<Field>, num: nat): seq<Bytes> {
    if fs == [] then [] else Payload(fs[0], num) + GetAll(fs[1..], num)
  }

  function Payload(f: Field, num: nat): seq<Bytes> {
    if f.num == num && f.LenField? then [f.payload] else []
  }

  lemma {:induction false} GetConcat(a: seq<Field>, b: seq<Field>, num: nat)
    ensures Get(a + b, num) == if Get(b, num).Some? then Get(b, num) else Get(a, num)
  {
    if a == [] {
      assert a + b == b;
    } else {
      GetConcat(a[1..], b, num);
      assert (a + b)[1..] == a[1..] + b;
    }
  }

  lemma {:induction false} GetAllConcat(a: seq<Field>, b: seq<Field>, num: nat)
    ensures GetAll(a + b, num) == GetAll(a, num) + GetAll(b, num)
  {
    hide Payload;
    if a == [] {
      assert a + b == b;
    } else {
      GetAllConcat(a[1..], b, num);
      assert (a + b)[0] == a[0] && (a + b)[1..] == a[1..] + b;
      var p := Payload(a[0], num);
      assert p + (GetAll(a[1..], num) + GetAll(b, num)) == (p + GetAll(a[1..], num)) + GetAll(b, num);
    }
  }

  // One field at the end of a message.
  lemma GetLast(fs: seq<Field>, f: Field, num: nat)
    ensures Get(fs + [f], num) == if f.num == num then Some(f) else Get(fs, num)
    ensures GetAll(fs + [f], num) == GetAll(fs, num) + Payload(f, num)
  {
    GetConcat(fs, [f], num);
    GetAllConcat(fs, [f], num);
    assert [f][1..] == [];
    assert Payload(f, num) + [] == Payload(f, num);
  }

  lemma GetEmpty(num: nat)
    ensures Get([], num).None? && GetAll([], num) == []
  {
  }

  function Signed(u: nat): int { if u < I63 then u else u - U64 }

  lemma SignedOfMasked(n: int)
    ensures Signed(n % U64) == n <==> -I63 <= n < I63
  {
    if -I63 <= n < 0 { assert (n + U64) % U64 == n % U64; }
  }

  function DecodeAny(b: Bytes): Option<AnyValue> {
    match ReadFields(b)
    case None => None
    case Some(fs) =>
      match (Get(fs, 3), Get(fs, 1))
      case (Some(VarintField(_, u)), _) => Some(IntValue(Signed(u)))
      case (_, Some(LenField(_, s))) => Some(StrValue(s))
      case _ => None
  }

  function DecodeKeyValue(b: Bytes): Option<(Bytes, AnyValue)> {
    match ReadFields(b)
    case None => None
    case Some(fs) =>
      match (Get(fs, 1), Get(fs, 2))
      case (Some(LenField(_, key)), Some(LenField(_, v))) =>
        (match DecodeAny(v) case None => None case Some(value) => Some((key, value)))
      case _ => None
  }

  predicate Fits(v: AnyValue) { v.IntValue? ==> -I63 <= v.n < I63 }

  // What is left of a value in 64 signed bits.
  function Wrapped(v: AnyValue): AnyValue {
    match v case IntValue(n) => IntValue(Signed(n % U64)) case StrValue(_) => v
  }

  // A value comes back wrapped to 64 signed bits, so as itself exactly when it fits them.
  lemma AnyRoundTrip(v: AnyValue)
    ensures DecodeAny(EncodeAny(v)) == Some(Wrapped(v))
    ensures Wrapped(v) == v <==> Fits(v)
  {
    hide Get, EncodeFields, ReadFields, Signed;
    FieldsRoundTrip(AnyFields(v));
    var f := AnyFields(v)[0];
    assert AnyFields(v) == [] + [f];
    GetEmpty(3);
    GetEmpty(1);
    GetLast([], f, 3);
    GetLast([], f, 1);
    if v.IntValue? { SignedOfMasked(v.n); }
  }

  // One past the greatest 64-bit integer comes back as the least.
  lemma WrapsPastGreatest()
    ensures DecodeAny(EncodeAny(IntValue(I63))) == Some(IntValue(-I63))
  {
    hide DecodeAny, EncodeAny;
    AnyRoundTrip(IntValue(I63));
  }

  lemma KeyValueRoundTrip(key: Bytes, v: AnyValue)
    ensures DecodeKeyValue(KeyValue(key, v)) == Some((key, Wrapped(v)))
  {
    hide DecodeAny, EncodeAny, Get, EncodeFields, ReadFields;
    var f, g := LenField(1, key), LenField(2, EncodeAny(v));
    FieldsRoundTrip([f, g]);
    AnyRoundTrip(v);
    assert [f, g] == ([] + [f]) + [g];
    GetLast([], f, 1);
    GetLast([] + [f], g, 1);
    GetLast([] + [f], g, 2);
  }

  // --- log records -----------------------------------------------------------

  predicate ByKey(x: (Bytes, AnyValue), y: (Bytes, AnyValue)) { LexLeq(x.0, y.0, Smaller) }

  function AttrFields(attrs: seq<(Bytes, AnyValue)>): seq<Field> {
    if attrs == [] then [] else [LenField(6, KeyValue(attrs[0].0, attrs[0].1))] + AttrFields(attrs[1..])
  }

  function IdFields(ids: Option<(Bytes, Bytes)>): seq<Field> {
    match ids case None => [] case Some((t, s)) => [LenField(9, t), LenField(10, s)]
  }

  function HeadFields(row: Row): seq<Field> {
    [FixedField(1, row.ts), VarintField(2, row.sev), LenField(3, row.text), LenField(5, EncodeAny(row.body))]
  }

  function RecordFields(row: Row): seq<Field> {
    HeadFields(row) + AttrFields(Sort(row.attrs, ByKey)) + IdFields(row.ids) + [FixedField(11, row.ts)]
  }

  function EncodeRecord(row: Row): Bytes { EncodeFields(RecordFields(row)) }

  function DecodeAttrs(kvs: seq<Bytes>): Option<seq<(Bytes, AnyValue)>> {
    if kvs == [] then Some([])
    else
      match (DecodeKeyValue(kvs[0]), DecodeAttrs(kvs[1..]))
      case (Some(kv), Some(rest)) => Some([kv] + rest)
      case _ => None
  }

  function DecodeRecord(b: Bytes, service: Bytes): Option<Row> {
    match ReadFields(b)
    case None => None
    case Some(fs) =>
      match (Get(fs, 1), Get(fs, 2), Get(fs, 3), Get(fs, 5), DecodeAttrs(GetAll(fs, 6)))
      case (Some(FixedField(_, ts)), Some(VarintField(_, sev)), Some(LenField(_, text)), Some(LenField(_, any)),
            Some(attrs)) =>
        (match DecodeAny(any)
         case None => None
         case Some(body) =>
           var ids := match (Get(fs, 9), Get(fs, 10))
             case (Some(LenField(_, t)), Some(LenField(_, s))) => Some((t, s))
             case _ => None;
           Some(Row(service, ts, sev, text, body, attrs, ids)))
      case _ => None
  }

  function WrappedAttrs(attrs: seq<(Bytes, AnyValue)>): (r: seq<(Bytes, AnyValue)>)
    ensures |r| == |attrs| && forall i :: 0 <= i < |attrs| ==> r[i] == (attrs[i].0, Wrapped(attrs[i].1))
  {
    seq(|attrs|, i requires 0 <= i < |attrs| => (attrs[i].0, Wrapped(attrs[i].1)))
  }

  // The row as the wire keeps it: attributes in key order, integers in 64 signed bits.
  function Canonical(row: Row): Row {
    row.(body := Wrapped(row.body), attrs := WrappedAttrs(Sort(row.attrs, ByKey)))
  }

  // Nothing is lost of a row whose integers fit: same attributes, in key order.
  lemma CanonicalKeeps(row: Row)
    requires Fits(row.body) && forall i :: 0 <= i < |row.attrs| ==> Fits(row.attrs[i].1)
    ensures Canonical(row) == row.(attrs := Canonical(row).attrs)
    ensures multiset(Canonical(row).attrs) == multiset(row.attrs)
  {
    hide Fits, Wrapped;
    AnyRoundTrip(row.body);
    var t := Sort(row.attrs, ByKey);
    forall i | 0 <= i < |t| ensures WrappedAttrs(t)[i] == t[i] {
      assert t[i] in multiset(t) && t[i] in row.attrs;
      AnyRoundTrip(t[i].1);
    }
    assert WrappedAttrs(t) == t;
  }

  lemma {:induction false} AttrsRoundTrip(attrs: seq<(Bytes, AnyValue)>)
    ensures DecodeAttrs(GetAll(AttrFields(attrs), 6)) == Some(WrappedAttrs(attrs))
  {
    hide DecodeKeyValue, KeyValue, Wrapped;
    if attrs != [] {
      AttrsRoundTrip(attrs[1..]);
      KeyValueRoundTrip(attrs[0].0, attrs[0].1);
      var kv := KeyValue(attrs[0].0, attrs[0].1);
      var fs := AttrFields(attrs);
      assert fs[0] == LenField(6, kv) && fs[1..] == AttrFields(attrs[1..]);
      assert GetAll(fs, 6) == [kv] + GetAll(fs[1..], 6);
      assert GetAll(fs, 6)[1..] == GetAll(fs[1..], 6);
      assert WrappedAttrs(attrs) == [(attrs[0].0, Wrapped(attrs[0].1))] + WrappedAttrs(attrs[1..]);
    }
  }

  // Attribute fields are all numbered 6.
  lemma {:induction false} AttrNumbers(attrs: seq<(Bytes, AnyValue)>, num: nat)
    ensures num != 6 ==> Get(AttrFields(attrs), num).None?
    ensures forall i :: 0 <= i < |AttrFields(attrs)| ==> InRange(AttrFields(attrs)[i])
  {
    hide KeyValue;
    if attrs != [] {
      AttrNumbers(attrs[1..], num);
      assert AttrFields(attrs)[1..] == AttrFields(attrs[1..]);
    }
  }

  lemma Lookup2(f: Field, g: Field, num: nat)
    ensures Get([f, g], num) == if g.num == num then Some(g) else if f.num == num then Some(f) else None
    ensures GetAll([f, g], num) == Payload(f, num) + Payload(g, num)
  {
    hide Get, GetAll, Payload;
    GetEmpty(num);
    assert [f, g] == ([] + [f]) + [g];
    GetLast([], f, num);
    GetLast([] + [f], g, num);
  }

  lemma HeadLookup(row: Row, num: nat)
    ensures Get(HeadFields(row), num) ==
            if num == 1 then Some(FixedField(1, row.ts))
            else if num == 2 then Some(VarintField(2, row.sev))
            else if num == 3 then Some(LenField(3, row.text))
            else if num == 5 then Some(LenField(5, EncodeAny(row.body))) else None
    ensures GetAll(HeadFields(row), 6) == []
  {
    hide Get, GetAll, EncodeAny;
    var fs := HeadFields(row);
    assert fs == [fs[0], fs[1]] + [fs[2], fs[3]];
    GetConcat([fs[0], fs[1]], [fs[2], fs[3]], num);
    Lookup2(fs[0], fs[1], num);
    Lookup2(fs[2], fs[3], num);
    GetAllConcat([fs[0], fs[1]], [fs[2], fs[3]], 6);
    Lookup2(fs[0], fs[1], 6);
    Lookup2(fs[2], fs[3], 6);
  }

  lemma IdLookup(ids: Option<(Bytes, Bytes)>, num: nat)
    ensures Get(IdFields(ids), num) ==
            if ids.Some? && num == 9 then Some(LenField(9, ids.value.0))
            else if ids.Some? && num == 10 then Some(LenField(10, ids.value.1)) else None
    ensures GetAll(IdFields(ids), 6) == []
  {
    hide Get, GetAll;
    GetEmpty(num);
    GetEmpty(6);
    if ids.Some? {
      Lookup2(IdFields(ids)[0], IdFields(ids)[1], num);
      Lookup2(IdFields(ids)[0], IdFields(ids)[1], 6);
    }
  }

  // Looking a number up in a whole record.
  lemma RecordLookup(row: Row, num: nat)
    requires num !in {6, 11}
    ensures Get(RecordFields(row), num) ==
            if Get(IdFields(row.ids), num).Some? then Get(IdFields(row.ids), num) else Get(HeadFields(row), num)
  {
    hide Get, HeadFields, AttrFields, IdFields;
    var h, at, id := HeadFields(row), AttrFields(Sort(row.attrs, ByKey)), IdFields(row.ids);
    GetLast(h + at + id, FixedField(11, row.ts), num);
    GetConcat(h + at, id, num);
    GetConcat(h, at, num);
    AttrNumbers(Sort(row.attrs, ByKey), num);
  }

  lemma RecordAttrs(row: Row)
    ensures GetAll(RecordFields(row), 6) == GetAll(AttrFields(Sort(row.attrs, ByKey)), 6)
  {
    hide GetAll, HeadFields, AttrFields, IdFields;
    var h, at, id := HeadFields(row), AttrFields(Sort(row.attrs, ByKey)), IdFields(row.ids);
    GetLast(h + at + id, FixedField(11, row.ts), 6);
    GetAllConcat(h + at, id, 6);
    GetAllConcat(h, at, 6);
    HeadLookup(row, 6);
    IdLookup(row.ids, 6);
  }

  lemma RecordInRange(row: Row)
    requires row.ts < U64
    ensures forall i :: 0 <= i < |RecordFields(row)| ==> InRange(RecordFields(row)[i])
  {
    hide AttrFields;
    AttrNumbers(Sort(row.attrs, ByKey), 0);
  }

  // A record is read back as the row the wire keeps. A time of 64 bits is what the
  // eight-byte packing demands.
  lemma RecordRoundTrip(row: Row, service: Bytes)
    requires row.ts < U64
    ensures DecodeRecord(EncodeRecord(row), service) == Some(Canonical(row).(service := service))
  {
    hide Get, GetAll, HeadFields, AttrFields, IdFields, RecordFields, EncodeFields, ReadFields, DecodeAny, EncodeAny,
         Wrapped, DecodeAttrs;
    RecordInRange(row);
    FieldsRoundTrip(RecordFields(row));
    forall num: nat | num in {1, 2, 3, 5, 9, 10}
      ensures Get(RecordFields(row), num) ==
              if num == 9 || num == 10 then Get(IdFields(row.ids), num) else Get(HeadFields(row), num)
    {
      RecordLookup(row, num);
      IdLookup(row.ids, num);
      HeadLookup(row, num);
    }
    IdLookup(row.ids, 9);
    IdLookup(row.ids, 10);
    HeadLookup(row, 1);
    HeadLookup(row, 2);
    HeadLookup(row, 3);
    HeadLookup(row, 5);
    RecordAttrs(row);
    AttrsRoundTrip(Sort(row.attrs, ByKey));
    AnyRoundTrip(row.body);
  }

  // --- the request -----------------------------------------------------------

  function Ascii(s: string): (r: Bytes)
    requires forall i :: 0 <= i < |s| ==> s[i] < '\U{80}'
    ensures |r| == |s|
  {
    if s == "" then [] else [s[0] as int] + Ascii(s[1..])
  }

  const SERVICE_NAME: Bytes := Ascii("service.name")
  const INSTANCE_ID: Bytes := Ascii("service.instance.id")
  const INSTANCE_SUFFIX: Bytes := Ascii("-0")
  const SCOPE_NAME: Bytes := Ascii("ravel-mcp-eval")
  const SCOPE_VERSION: Bytes := Ascii("1385")

  // The rows of one service, in order.
  function OfService(rows: seq<Row>, service: Bytes): seq<Row> {
    if rows == [] then []
    else
      var n := |rows| - 1;
      OfService(rows[..n], service) + if rows[n].service == service then [rows[n]] else []
  }

  function Records(rows: seq<Row>): (r: seq<Bytes>)
    ensures |r| == |rows| && forall i :: 0 <= i < |rows| ==> r[i] == EncodeRecord(rows[i])
  {
    seq(|rows|, i requires 0 <= i < |rows| => EncodeRecord(rows[i]))
  }

  function LenFields(num: nat, payloads: seq<Bytes>): (r: seq<Field>)
    ensures |r| == |payloads| && forall i :: 0 <= i < |payloads| ==> r[i] == LenField(num, payloads[i])
  {
    seq(|payloads|, i requires 0 <= i < |payloads| => LenField(num, payloads[i]))
  }

  function Resource(service: Bytes): Bytes {
    EncodeFields([LenField(1, KeyValue(SERVICE_NAME, StrValue(service))),
                  LenField(1, KeyValue(INSTANCE_ID, StrValue(service + INSTANCE_SUFFIX)))])
  }

  const SCOPE: Bytes := EncodeFields([LenField(1, SCOPE_NAME), LenField(2, SCOPE_VERSION)])

  function ScopeLogs(records: seq<Bytes>): Bytes {
    EncodeFields([LenField(1, SCOPE)] + LenFields(2, records))
  }

  function Group(service: Bytes, records: seq<Bytes>): Bytes {
    EncodeFields([LenField(1, Resource(service)), LenField(2, ScopeLogs(records))])
  }

  // One group per listed service that has rows, in listed order.
  function Groups(rows: seq<Row>, services: seq<Bytes>): seq<Bytes> {
    if services == [] then []
    else
      var n := |services| - 1;
      var mine := OfService(rows, services[n]);
      Groups(rows, services[..n]) + if mine == [] then [] else [Group(services[n], Records(mine))]
  }

  function EncodeLogs(rows: seq<Row>, services: seq<Bytes>): Bytes {
    EncodeFields(LenFields(1, Groups(rows, services)))
  }

  lemma {:induction false} EncodeConcat(a: seq<Field>, b: seq<Field>)
    ensures EncodeFields(a + b) == EncodeFields(a) + EncodeFields(b)
  {
    hide EncodeField;
    if a == [] {
      assert a + b == b;
    } else {
      EncodeConcat(a[1..], b);
      assert (a + b)[0] == a[0] && (a + b)[1..] == a[1..] + b;
      var e := EncodeField(a[0]);
      assert e + (EncodeFields(a[1..]) + EncodeFields(b)) == (e + EncodeFields(a[1..])) + EncodeFields(b);
    }
  }

  lemma EncodeAppend(num: nat, payloads: seq<Bytes>, p: Bytes)
    ensures EncodeFields(LenFields(num, payloads + [p]))
            == EncodeFields(LenFields(num, payloads)) + EncodeField(LenField(num, p))
  {
    hide EncodeField;
    assert LenFields(num, payloads + [p]) == LenFields(num, payloads) + [LenField(num, p)];
    EncodeConcat(LenFields(num, payloads), [LenField(num, p)]);
    assert EncodeFields([LenField(num, p)]) == EncodeField(LenField(num, p)) + EncodeFields([]);
  }

  // Records are filed under their service as they come; then the listed services are
  // written in order.
  method EncodeLogsRows(rows: seq<Row>, services: seq<Bytes>) returns (body: Bytes)
    ensures body == EncodeLogs(rows, services)
  {
    hide EncodeRecord, Group, EncodeFields;
    var byService: map<Bytes, seq<Bytes>> := map[];
    for i := 0 to |rows|
      invariant Filed(byService, rows[..i])
    {
      var row := rows[i];
      var before := if row.service in byService then byService[row.service] else [];
      FileStep(byService, rows[..i], row);
      byService := byService[row.service := before + [EncodeRecord(row)]];
      assert rows[..i + 1] == rows[..i] + [row];
    }
    assert rows[..|rows|] == rows;
    body := EncodeFields([]);
    NoGroups(rows);
    for k := 0 to |services|
      invariant body == EncodeLogs(rows, services[..k])
    {
      var svc := services[k];
      assert services[..k + 1][..k] == services[..k];
      if svc in byService {
        var group := Group(svc, byService[svc]);
        EncodeAppend(1, Groups(rows, services[..k]), group);
        body := body + EncodeField(LenField(1, group));
      } else {
        assert Groups(rows, services[..k + 1]) == Groups(rows, services[..k]);
      }
    }
    assert services[..|services|] == services;
  }

  lemma NoGroups(rows: seq<Row>)
    ensures EncodeFields([]) == EncodeLogs(rows, [])
  {
    assert LenFields(1, []) == [];
  }

  // What is filed: the records of each service that has rows.
  ghost predicate Filed(m: map<Bytes, seq<Bytes>>, rows: seq<Row>) {
    forall svc: Bytes :: (svc in m <==> OfService(rows, svc) != [])
                         && (svc in m ==> m[svc] == Records(OfService(rows, svc)))
  }

  lemma FileStep(m: map<Bytes, seq<Bytes>>, rows: seq<Row>, row: Row)
    requires Filed(m, rows)
    ensures var before := if row.service in m then m[row.service] else [];
            Filed(m[row.service := before + [EncodeRecord(row)]], rows + [row])
  {
    hide EncodeRecord;
    var all := rows + [row];
    assert all[..|rows|] == rows;
    var m' := m[row.service := (if row.service in m then m[row.service] else []) + [EncodeRecord(row)]];
    forall svc: Bytes
      ensures (svc in m' <==> OfService(all, svc) != []) && (svc in m' ==> m'[svc] == Records(OfService(all, svc)))
    {
      if svc == row.service {
        assert OfService(all, svc) == OfService(rows, svc) + [row];
      } else {
        assert OfService(all, svc) == OfService(rows, svc);
      }
    }
  }

  // --- reading the request ---------------------------------------------------

  function DecodeRecords(bs: seq<Bytes>, service: Bytes): Option<seq<Row>> {
    if bs == [] then Some([])
    else
      var n := |bs| - 1;
      match (DecodeRecords(bs[..n], service), DecodeRecord(bs[n], service))
      case (Some(rows), Some(row)) => Some(rows + [row])
      case _ => None
  }

  function DecodeScopes(bs: seq<Bytes>, service: Bytes): Option<seq<Row>> {
    if bs == [] then Some([])
    else
      match (ReadFields(bs[0]), DecodeScopes(bs[1..], service))
      case (Some(fs), Some(rest)) =>
        (match DecodeRecords(GetAll(fs, 2), service) case None => None case Some(rows) => Some(rows + rest))
      case _ => None
  }

  // The string under a key of a resource.
  function StringAt(kvs: seq<(Bytes, AnyValue)>, key: Bytes): Option<Bytes> {
    if kvs == [] then None
    else if kvs[0].0 == key && kvs[0].1.StrValue? then Some(kvs[0].1.s)
    else StringAt(kvs[1..], key)
  }

  function DecodeService(b: Bytes): Option<Bytes> {
    match ReadFields(b)
    case None => None
    case Some(fs) => match DecodeAttrs(GetAll(fs, 1)) case None => None case Some(kvs) => StringAt(kvs, SERVICE_NAME)
  }

  function DecodeGroup(b: Bytes): Option<(Bytes, seq<Row>)> {
    match ReadFields(b)
    case None => None
    case Some(fs) =>
      match Get(fs, 1)
      case Some(LenField(_, resource)) =>
        (match DecodeService(resource)
         case None => None
         case Some(service) =>
           match DecodeScopes(GetAll(fs, 2), service) case None => None case Some(rows) => Some((service, rows)))
      case _ => None
  }

  function DecodeGroups(bs: seq<Bytes>): Option<seq<(Bytes, seq<Row>)>> {
    if bs == [] then Some([])
    else
      var n := |bs| - 1;
      match (DecodeGroups(bs[..n]), DecodeGroup(bs[n]))
      case (Some(groups), Some(group)) => Some(groups + [group])
      case _ => None
  }

  function DecodeLogs(b: Bytes): Option<seq<(Bytes, seq<Row>)>> {
    match ReadFields(b) case None => None case Some(fs) => DecodeGroups(GetAll(fs, 1))
  }

  lemma {:induction false} GetAllLen(num: nat, payloads: seq<Bytes>)
    ensures GetAll(LenFields(num, payloads), num) == payloads
  {
    if payloads != [] {
      GetAllLen(num, payloads[1..]);
      assert LenFields(num, payloads)[1..] == LenFields(num, payloads[1..]);
      assert payloads == [payloads[0]] + payloads[1..];
    }
  }

  // The rows as the wire keeps them, under one service.
  function Kept(rows: seq<Row>, service: Bytes): (r: seq<Row>)
    ensures |r| == |rows| && forall i :: 0 <= i < |rows| ==> r[i] == Canonical(rows[i]).(service := service)
  {
    seq(|rows|, i requires 0 <= i < |rows| => Canonical(rows[i]).(service := service))
  }

  ghost predicate Timed(rows: seq<Row>) {
    forall i :: 0 <= i < |rows| ==> rows[i].ts < U64
  }

  lemma {:induction false} RecordsRoundTrip(rows: seq<Row>, service: Bytes)
    requires Timed(rows)
    ensures DecodeRecords(Records(rows), service) == Some(Kept(rows, service))
  {
    hide DecodeRecord, EncodeRecord, Canonical;
    if rows != [] {
      var n := |rows| - 1;
      RecordsRoundTrip(rows[..n], service);
      RecordRoundTrip(rows[n], service);
      assert Records(rows)[..n] == Records(rows[..n]);
      assert Kept(rows, service) == Kept(rows[..n], service) + [Canonical(rows[n]).(service := service)];
    }
  }

  lemma DecodeTwo(a: Bytes, b: Bytes, x: (Bytes, AnyValue), y: (Bytes, AnyValue))
    requires DecodeKeyValue(a) == Some(x) && DecodeKeyValue(b) == Some(y)
    ensures DecodeAttrs([a, b]) == Some([x, y])
  {
    hide DecodeKeyValue;
    var all: seq<Bytes> := [a, b];
    assert all[1..] == [b];
    var none: seq<Bytes> := [];
    assert [b][1..] == none;
    assert DecodeAttrs(none) == Some([]);
    assert DecodeAttrs([b]) == Some([y]) by { assert [y] + [] == [y]; }
    assert [x] + [y] == [x, y];
  }

  lemma ServiceRoundTrip(service: Bytes)
    ensures DecodeService(Resource(service)) == Some(service)
  {
    hide GetAll, KeyValue, DecodeKeyValue, EncodeFields, ReadFields, Ascii, DecodeAttrs;
    var id := StrValue(service + INSTANCE_SUFFIX);
    var a, b := KeyValue(SERVICE_NAME, StrValue(service)), KeyValue(INSTANCE_ID, id);
    FieldsRoundTrip([LenField(1, a), LenField(1, b)]);
    Lookup2(LenField(1, a), LenField(1, b), 1);
    KeyValueRoundTrip(SERVICE_NAME, StrValue(service));
    KeyValueRoundTrip(INSTANCE_ID, id);
    assert GetAll([LenField(1, a), LenField(1, b)], 1) == [a, b];
    DecodeTwo(a, b, (SERVICE_NAME, StrValue(service)), (INSTANCE_ID, id));
  }

  lemma RecordPayloads(scope: Bytes, records: seq<Bytes>)
    ensures GetAll([LenField(1, scope)] + LenFields(2, records), 2) == records
  {
    hide GetAll;
    GetAllConcat([LenField(1, scope)], LenFields(2, records), 2);
    GetAllLen(2, records);
    GetEmpty(2);
    GetLast([], LenField(1, scope), 2);
    assert [] + [LenField(1, scope)] == [LenField(1, scope)];
  }

  lemma OneScope(b: Bytes, fs: seq<Field>, service: Bytes, rows: seq<Row>)
    requires ReadFields(b) == Some(fs) && DecodeRecords(GetAll(fs, 2), service) == Some(rows)
    ensures DecodeScopes([b], service) == Some(rows)
  {
    hide DecodeRecords, GetAll, ReadFields;
    var bs: seq<Bytes> := [b];
    assert |bs[1..]| == 0 && rows + [] == rows;
  }

  lemma AnyScope(scope: Bytes, rows: seq<Row>, service: Bytes)
    requires Timed(rows)
    ensures DecodeScopes([EncodeFields([LenField(1, scope)] + LenFields(2, Records(rows)))], service)
            == Some(Kept(rows, service))
  {
    hide DecodeRecords, GetAll, EncodeFields, ReadFields, Records, Kept, DecodeScopes;
    var fs := [LenField(1, scope)] + LenFields(2, Records(rows));
    FieldsRoundTrip(fs);
    RecordPayloads(scope, Records(rows));
    RecordsRoundTrip(rows, service);
    OneScope(EncodeFields(fs), fs, service, Kept(rows, service));
  }

  lemma ScopeRoundTrip(rows: seq<Row>, service: Bytes)
    requires Timed(rows)
    ensures DecodeScopes([ScopeLogs(Records(rows))], service) == Some(Kept(rows, service))
  {
    hide EncodeFields, Records, Kept, DecodeScopes, LenFields;
    AnyScope(SCOPE, rows, service);
  }

  lemma GroupRoundTrip(rows: seq<Row>, service: Bytes)
    requires Timed(rows)
    ensures DecodeGroup(Group(service, Records(rows))) == Some((service, Kept(rows, service)))
  {
    hide Get, GetAll, EncodeFields, ReadFields, Records, Kept, DecodeScopes, ScopeLogs, Resource, DecodeService;
    var f, g := LenField(1, Resource(service)), LenField(2, ScopeLogs(Records(rows)));
    FieldsRoundTrip([f, g]);
    Lookup2(f, g, 1);
    Lookup2(f, g, 2);
    ServiceRoundTrip(service);
    ScopeRoundTrip(rows, service);
    assert [] + [g.payload] == [g.payload];
  }

  lemma {:induction false} OfServiceTimed(rows: seq<Row>, service: Bytes)
    requires Timed(rows)
    ensures Timed(OfService(rows, service))
  {
    if rows != [] { OfServiceTimed(rows[..|rows| - 1], service); }
  }

  // What decoding should give: per listed service with rows, its rows in order.
  function Expected(rows: seq<Row>, services: seq<Bytes>): seq<(Bytes, seq<Row>)> {
    if services == [] then []
    else
      var n := |services| - 1;
      var mine := OfService(rows, services[n]);
      Expected(rows, services[..n]) + if mine == [] then [] else [(services[n], Kept(mine, services[n]))]
  }

  lemma {:induction false} GroupsRoundTrip(rows: seq<Row>, services: seq<Bytes>)
    requires Timed(rows)
    ensures DecodeGroups(Groups(rows, services)) == Some(Expected(rows, services))
  {
    hide DecodeGroup, Group, OfService, Kept, Records;
    if services != [] {
      var n := |services| - 1;
      GroupsRoundTrip(rows, services[..n]);
      var mine := OfService(rows, services[n]);
      OfServiceTimed(rows, services[n]);
      if mine != [] {
        GroupRoundTrip(mine, services[n]);
        var before, group := Groups(rows, services[..n]), Group(services[n], Records(mine));
        assert Groups(rows, services) == before + [group] && (before + [group])[..|before|] == before;
        assert Expected(rows, services) == Expected(rows, services[..n]) + [(services[n], Kept(mine, services[n]))];
      } else {
        assert Groups(rows, services) == Groups(rows, services[..n]);
        assert Expected(rows, services) == Expected(rows, services[..n]);
      }
    }
  }

  // The whole request: every row of a listed service comes back once, in order within
  // its service.
  lemma LogsRoundTrip(rows: seq<Row>, services: seq<Bytes>)
    requires Timed(rows)
    ensures DecodeLogs(EncodeLogs(rows, services)) == Some(Expected(rows, services))
  {
    hide EncodeFields, ReadFields, Groups, DecodeGroups;
    var gs := Groups(rows, services);
    FieldsRoundTrip(LenFields(1, gs));
    GetAllLen(1, gs);
    GroupsRoundTrip(rows, services);
  }

  // --- conservation ----------------------------------------------------------

  function Total(groups: seq<(Bytes, seq<Row>)>): nat {
    if groups == [] then 0 else Total(groups[..|groups| - 1]) + |groups[|groups| - 1].1|
  }

  function Listed(rows: seq<Row>, services: seq<Bytes>): seq<Row> {
    if rows == [] then []
    else
      var n := |rows| - 1;
      Listed(rows[..n], services) + if rows[n].service in services then [rows[n]] else []
  }

  lemma {:induction false} ListedSplit(rows: seq<Row>, services: seq<Bytes>, svc: Bytes)
    requires svc !in services
    ensures |Listed(rows, services + [svc])| == |Listed(rows, services)| + |OfService(rows, svc)|
  {
    if rows != [] { ListedSplit(rows[..|rows| - 1], services, svc); }
  }

  lemma {:induction false} ListedNone(rows: seq<Row>)
    ensures Listed(rows, []) == []
  {
    if rows != [] { ListedNone(rows[..|rows| - 1]); }
  }

  // Rows decoded number rows of listed services; the others are dropped.
  lemma {:induction false} NothingElse(rows: seq<Row>, services: seq<Bytes>)
    requires forall i, j :: 0 <= i < j < |services| ==> services[i] != services[j]
    ensures Total(Expected(rows, services)) == |Listed(rows, services)|
  {
    hide OfService, Kept, Listed;
    if services == [] {
      ListedNone(rows);
    } else {
      var n := |services| - 1;
      NothingElse(rows, services[..n]);
      assert services == services[..n] + [services[n]];
      ListedSplit(rows, services[..n], services[n]);
      var mine := OfService(rows, services[n]);
      var before := Expected(rows, services[..n]);
      if mine != [] {
        var group := (services[n], Kept(mine, services[n]));
        assert (before + [group])[..|before|] == before;
      } else {
        assert Expected(rows, services) == before;
      }
    }
  }
}
