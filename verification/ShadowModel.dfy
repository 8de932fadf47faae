/**
 * The device shadow as a state machine whose steps are the server's API calls and cloud events. Next to the table and
 * the flags of the program, an attribute carries what the cloud last received for it.
 */
module ShadowModel {
  import opened AnswerCollection
  import opened CStrings
  import opened Decimal
  import opened NameOrder
  import opened Options

  const IOT_PROPERTY_INT32 := 1
  const IOT_PROPERTY_STRING := 2
  const INT_TEXT_LEN: nat := 32
  const ATTR_VALUE_MAX_LEN: nat := 256
  const DEFAULT_PERIOD := 20000

  /** "report_period" */
  const LOCAL_ATTR: Bytes := [114, 101, 112, 111, 114, 116, 95, 112, 101, 114, 105, 111, 100]

  /** An attribute's storage: a 32-bit integer, or the bytes of a string buffer. */
  datatype Cell = Num(i: int32) | Buf(data: Bytes)

  /** What a push sends of a cell. */
  datatype Reading = Number(i: int32) | Words(text: Bytes)

  /**
   * A table entry. `written` tells whether the cell was written since its creation, `pushed` is the last value a
   * successful push carried, and `lost` the value a failed bulk push carried since then.
   */
  datatype Attr = Attr(
    name: Bytes, isLocal: bool, cell: Cell, report: bool,
    written: bool, pushed: Option<Reading>, lost: Option<Reading>)
  {
    function Reading(): Reading {
      match cell
      case Num(i) => Number(i)
      case Buf(data) => Words(Text(data))
    }

    function Write(c: Cell): Attr {
      this.(cell := c, written := true)
    }

    function Carried(ok: bool): Attr {
      if ok then this.(report := false, pushed := Some(Reading()), lost := None)
      else this.(report := false, lost := Some(Reading()))
    }
  }

  datatype Shadow = Shadow(attrs: seq<Attr>, reportFlag: bool, forceReport: bool, connected: bool, period: nat)

  datatype Op =
    | Add(name: Bytes, propType: int, size: int)
    | Report(name: Bytes, val: Bytes, pushRet: int)
    | CloudSet(name: Bytes, cell: Cell)
    | Poll(ask: Bytes -> Audience)
    | Bulk(pushRet: int)
    | Connect

  /** The index of the entry with that name, or |attrs|. */
  function Find(attrs: seq<Attr>, name: Bytes): (i: nat)
    ensures i <= |attrs|
    ensures i < |attrs| ==> attrs[i].name == name
    ensures forall k :: 0 <= k < i ==> attrs[k].name != name
  {
    if attrs == [] || attrs[0].name == name then 0 else 1 + Find(attrs[1..], name)
  }

  /** Where an entry with that name goes. */
  function Place(attrs: seq<Attr>, name: Bytes): (i: nat)
    ensures i <= |attrs|
    ensures i < |attrs| ==> !Less(attrs[i].name, name)
    ensures forall k :: 0 <= k < i ==> Less(attrs[k].name, name)
  {
    if attrs == [] || !Less(attrs[0].name, name) then 0 else 1 + Place(attrs[1..], name)
  }

  predicate Sorted(attrs: seq<Attr>) {
    forall i, j :: 0 <= i < j < |attrs| ==> Less(attrs[i].name, attrs[j].name)
  }

  function NewAttr(name: Bytes, isLocal: bool, propType: int, size: nat): Attr {
    Attr(name, isLocal, if propType == IOT_PROPERTY_INT32 then Num(0) else Buf(seq(size, _ => 0)), false, false, None, None)
  }

  function Insert(attrs: seq<Attr>, a: Attr): seq<Attr> {
    var i := Place(attrs, a.name);
    attrs[..i] + [a] + attrs[i..]
  }

  /** The state a fresh server starts in; m_reportFlag is not initialized. */
  function Initial(reportFlag: bool): Shadow {
    Shadow([NewAttr(LOCAL_ATTR, true, IOT_PROPERTY_INT32, 4)], reportFlag, false, false, DEFAULT_PERIOD)
  }

  predicate ValidType(propType: int) {
    propType == IOT_PROPERTY_INT32 || propType == IOT_PROPERTY_STRING
  }

  /** A property as a client asks for it. */
  datatype PropertyInfo = PropertyInfo(key: Bytes, propType: int, size: int) {
    predicate Acceptable() {
      size > 0 && ValidType(propType)
    }
  }

  function AddStep(s: Shadow, name: Bytes, propType: int, size: int): Shadow {
    if size <= 0 || !ValidType(propType) || Find(s.attrs, name) < |s.attrs| then s
    else s.(attrs := Insert(s.attrs, NewAttr(name, false, propType, size)))
  }

  /** The cell after a client wrote the C string `val`. */
  function ClientWrite(c: Cell, val: Bytes): Cell
    requires c.Buf? ==> |val| <= |c.data|
  {
    match c
    case Num(_) => Num(Atoi(val))
    case Buf(data) => Buf(StrncpyResult(data, val, |val|))
  }

  function ReportAttr(a: Attr, val: Bytes, connected: bool, pushRet: int): Attr
    requires a.cell.Buf? ==> |val| <= |a.cell.data|
  {
    var b := a.Write(ClientWrite(a.cell, val)).(report := true);
    if connected && pushRet == 0 then b.Carried(true) else b
  }

  function ReportStep(s: Shadow, name: Bytes, val: Bytes, pushRet: int): Shadow
    requires Legal(s, Report(name, val, pushRet))
  {
    var i := Find(s.attrs, name);
    if i == |s.attrs| then s
    else s.(attrs := s.attrs[i := ReportAttr(s.attrs[i], val, s.connected, pushRet)], reportFlag := true)
  }

  /** The period callback: the local attribute's value is the period, and it is to be reported. */
  function PeriodStep(s: Shadow, t: nat): Shadow {
    var j := Find(s.attrs, LOCAL_ATTR);
    if j == |s.attrs| then s else s.(attrs := s.attrs[j := s.attrs[j].(report := true)], period := t)
  }

  /** The cloud's write and the callback after it, which forces a report of everything. */
  function CloudStep(s: Shadow, name: Bytes, cell: Cell): Shadow
    requires Legal(s, CloudSet(name, cell))
  {
    var i := Find(s.attrs, name);
    var t := s.(attrs := s.attrs[i := s.attrs[i].Write(cell)], forceReport := true);
    if s.attrs[i].isLocal then PeriodStep(t, cell.i % 0x1_0000_0000) else t
  }

  function PollSize(c: Cell): nat {
    if c.Num? then INT_TEXT_LEN else ATTR_VALUE_MAX_LEN
  }

  /** What the poll reads for an attribute: the return value and the buffer. */
  function Polled(a: Attr, audience: Audience): (o: Outcome) {
    GetOutcome(audience, Zeros(PollSize(a.cell)), PollSize(a.cell))
  }

  /** The poll finds a different value. */
  predicate PollMarks(a: Attr, audience: Audience) {
    var o := Polled(a, audience);
    && !a.isLocal
    && o.ret > 0
    && match a.cell
       case Num(i) => i != Atoi(Text(o.val))
       case Buf(data) => Text(data) != Text(o.val)
  }

  /** The answer leaves the poll's buffer terminated and fits the attribute. */
  predicate PollFits(a: Attr, audience: Audience) {
    var o := Polled(a, audience);
    !a.isLocal && o.ret > 0 ==>
      && Strlen(o.val) < |o.val|
      && (a.cell.Buf? ==> o.ret < |a.cell.data| && Strlen(a.cell.data) < |a.cell.data|)
  }

  function PollAttr(a: Attr, audience: Audience): Attr
    requires PollFits(a, audience)
  {
    if !PollMarks(a, audience) then a
    else
      var o := Polled(a, audience);
      a.Write(if a.cell.Num? then Num(Atoi(Text(o.val))) else Buf(StrncpyResult(a.cell.data, Text(o.val), o.ret)))
       .(report := true)
  }

  function PollStep(s: Shadow, ask: Bytes -> Audience): Shadow
    requires Legal(s, Poll(ask))
  {
    s.(attrs := seq(|s.attrs|, i requires 0 <= i < |s.attrs| => PollAttr(s.attrs[i], ask(s.attrs[i].name))),
       reportFlag := s.reportFlag || exists i :: 0 <= i < |s.attrs| && PollMarks(s.attrs[i], ask(s.attrs[i].name)))
  }

  predicate Due(s: Shadow) {
    s.reportFlag || s.forceReport
  }

  /** The attribute is taken into a bulk push. */
  predicate Selected(s: Shadow, a: Attr) {
    s.forceReport || a.report
  }

  /** The entries a bulk push lists. */
  function Payload(s: Shadow, n: nat): seq<(Bytes, Reading)>
    requires n <= |s.attrs|
  {
    if n == 0 then []
    else Payload(s, n - 1) + if Selected(s, s.attrs[n - 1]) then [(s.attrs[n - 1].name, s.attrs[n - 1].Reading())] else []
  }

  /** The payload of the bulk push in state `s`; empty when IOT_Shadow_Push is not called. */
  function BulkPayload(s: Shadow): seq<(Bytes, Reading)> {
    if Due(s) then Payload(s, |s.attrs|) else []
  }

  function BulkAttr(s: Shadow, a: Attr, pushRet: int): Attr {
    if Selected(s, a) then a.Carried(pushRet == 0) else a
  }

  function BulkStep(s: Shadow, pushRet: int): Shadow {
    if !Due(s) then s
    else
      s.(attrs := seq(|s.attrs|, i requires 0 <= i < |s.attrs| => BulkAttr(s, s.attrs[i], pushRet)),
         reportFlag := false, forceReport := false)
  }

  /** Values fit the storage they are written to, and the cloud writes known attributes with values of their type. */
  predicate Legal(s: Shadow, op: Op) {
    match op
    case Report(name, val, _) =>
      var i := Find(s.attrs, name);
      NulFree(val) && (i < |s.attrs| && s.attrs[i].cell.Buf? ==> |val| < |s.attrs[i].cell.data|)
    case CloudSet(name, cell) =>
      var i := Find(s.attrs, name);
      && i < |s.attrs|
      && cell.Num? == s.attrs[i].cell.Num?
      && (s.attrs[i].isLocal ==> cell.Num?)
      && (cell.Buf? ==> |cell.data| == |s.attrs[i].cell.data| && Strlen(cell.data) < |cell.data|)
    case Poll(ask) => forall i :: 0 <= i < |s.attrs| ==> PollFits(s.attrs[i], ask(s.attrs[i].name))
    case _ => true
  }

  function Step(s: Shadow, op: Op): Shadow
    requires Legal(s, op)
  {
    match op
    case Add(name, propType, size) => AddStep(s, name, propType, size)
    case Report(name, val, pushRet) => ReportStep(s, name, val, pushRet)
    case CloudSet(name, cell) => CloudStep(s, name, cell)
    case Poll(ask) => PollStep(s, ask)
    case Bulk(pushRet) => BulkStep(s, pushRet)
    case Connect => s.(connected := true)
  }

  predicate LegalRun(s: Shadow, ops: seq<Op>)
    decreases |ops|
  {
    ops == [] || (Legal(s, ops[0]) && LegalRun(Step(s, ops[0]), ops[1..]))
  }

  function Run(s: Shadow, ops: seq<Op>): Shadow
    requires LegalRun(s, ops)
    decreases |ops|
  {
    if ops == [] then s else Run(Step(s, ops[0]), ops[1..])
  }
}
