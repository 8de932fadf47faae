/** What the pushes carry, and what the cloud has received after any run. */
module ShadowPush {
  import opened AnswerCollection
  import opened CStrings
  import opened NameOrder
  import opened Options
  import opened ShadowAgreement
  import opened ShadowModel

  /** The value that was sent is what the cell holds: its integer, or the bytes in front of its buffer's first NUL. */
  predicate Shows(r: Reading, c: Cell) {
    match c
    case Num(i) => r == Number(i)
    case Buf(data) =>
      && r.Words? && NulFree(r.text) && |r.text| <= |data|
      && (forall k :: 0 <= k < |r.text| ==> r.text[k] == data[k])
      && (|r.text| < |data| ==> data[|r.text|] == 0)
  }

  lemma ReadingShows(a: Attr)
    ensures Shows(a.Reading(), a.cell)
  {
    if a.cell.Buf? {
      TextNulFree(a.cell.data);
    }
  }

  lemma SortedNamesDiffer(attrs: seq<Attr>, i: nat, j: nat)
    requires Sorted(attrs) && i < |attrs| && j < |attrs| && attrs[i].name == attrs[j].name
    ensures i == j
  {
    LessTrichotomy(attrs[i].name, attrs[j].name);
  }

  ghost predicate NamedBefore(s: Shadow, n: nat, name: Bytes)
    requires n <= |s.attrs|
  {
    exists i :: 0 <= i < n && s.attrs[i].name == name
  }

  /** The names of a payload stand in table order, so each once, and come from the entries walked so far. */
  lemma {:induction false} PayloadInTableOrder(s: Shadow, n: nat)
    requires Sorted(s.attrs) && n <= |s.attrs|
    ensures forall k :: 0 <= k < |Payload(s, n)| ==> NamedBefore(s, n, Payload(s, n)[k].0)
    ensures forall j, k :: 0 <= j < k < |Payload(s, n)| ==> Less(Payload(s, n)[j].0, Payload(s, n)[k].0)
  {
    if n > 0 {
      PayloadInTableOrder(s, n - 1);
      var p := Payload(s, n - 1);
      forall j | 0 <= j < |p|
        ensures Less(p[j].0, s.attrs[n - 1].name)
        ensures NamedBefore(s, n, p[j].0)
      {
        assert NamedBefore(s, n - 1, p[j].0);
        var i :| 0 <= i < n - 1 && s.attrs[i].name == p[j].0;
        assert s.attrs[i].name == p[j].0;
      }
      assert NamedBefore(s, n, s.attrs[n - 1].name);
    }
  }

  lemma {:induction false} PayloadMembers(s: Shadow, n: nat, entry: (Bytes, Reading))
    requires n <= |s.attrs|
    ensures entry in Payload(s, n) <==>
      exists i :: 0 <= i < n && Selected(s, s.attrs[i]) && entry == (s.attrs[i].name, s.attrs[i].Reading())
  {
    if n > 0 {
      PayloadMembers(s, n - 1, entry);
    }
  }

  /**
   * A bulk push that is due lists the selected attributes, each once, in table order, with their current values: all
   * of them when forced, otherwise exactly the marked ones. Afterwards nothing is marked and nothing is due.
   */
  lemma BulkPushExact(s: Shadow, pushRet: int)
    requires Agrees(s)
    ensures forall entry :: entry in BulkPayload(s) <==>
      exists i :: 0 <= i < |s.attrs| && Selected(s, s.attrs[i]) && entry == (s.attrs[i].name, s.attrs[i].Reading())
    ensures forall j, k :: 0 <= j < k < |BulkPayload(s)| ==> Less(BulkPayload(s)[j].0, BulkPayload(s)[k].0)
    ensures forall i :: 0 <= i < |s.attrs| ==> Shows(s.attrs[i].Reading(), s.attrs[i].cell)
    ensures var t := BulkStep(s, pushRet);
      !Due(t) && forall i :: 0 <= i < |t.attrs| ==> !t.attrs[i].report && t.attrs[i].cell == s.attrs[i].cell
  {
    forall i | 0 <= i < |s.attrs| {
      ReadingShows(s.attrs[i]);
    }
    assert !Due(s) ==> forall i :: 0 <= i < |s.attrs| ==> Accounted(s, s.attrs[i]);
    if Due(s) {
      PayloadInTableOrder(s, |s.attrs|);
    }
    forall entry
      ensures entry in BulkPayload(s) <==>
        exists i :: 0 <= i < |s.attrs| && Selected(s, s.attrs[i]) && entry == (s.attrs[i].name, s.attrs[i].Reading())
    {
      PayloadMembers(s, |s.attrs|, entry);
    }
  }

  /** A due push carries, for each selected attribute, what its cell holds, and nothing else. */
  lemma PayloadShowsCells(s: Shadow)
    requires Due(s)
    ensures forall i :: 0 <= i < |s.attrs| && Selected(s, s.attrs[i]) ==>
      match s.attrs[i].cell
      case Num(n) => (s.attrs[i].name, Number(n)) in BulkPayload(s)
      case Buf(data) => (s.attrs[i].name, Words(Text(data))) in BulkPayload(s)
    ensures forall entry :: entry in BulkPayload(s) ==>
      exists i :: 0 <= i < |s.attrs| && Selected(s, s.attrs[i]) && entry.0 == s.attrs[i].name && Shows(entry.1, s.attrs[i].cell)
  {
    forall i | 0 <= i < |s.attrs| && Selected(s, s.attrs[i])
      ensures (s.attrs[i].name, s.attrs[i].Reading()) in BulkPayload(s)
    {
      PayloadMembers(s, |s.attrs|, (s.attrs[i].name, s.attrs[i].Reading()));
    }
    forall entry | entry in BulkPayload(s)
      ensures exists i :: 0 <= i < |s.attrs| && Selected(s, s.attrs[i]) && entry.0 == s.attrs[i].name && Shows(entry.1, s.attrs[i].cell)
    {
      PayloadMembers(s, |s.attrs|, entry);
      var i :| 0 <= i < |s.attrs| && Selected(s, s.attrs[i]) && entry == (s.attrs[i].name, s.attrs[i].Reading());
      ReadingShows(s.attrs[i]);
    }
  }

  /** What a successful push of one step carries. */
  function Delivered(s: Shadow, op: Op): seq<(Bytes, Reading)>
    requires Legal(s, op)
  {
    match op
    case Report(name, val, pushRet) =>
      var i := Find(s.attrs, name);
      if i < |s.attrs| && s.connected && pushRet == 0 then [(name, ReportStep(s, name, val, pushRet).attrs[i].Reading())] else []
    case Bulk(pushRet) => if pushRet == 0 then BulkPayload(s) else []
    case _ => []
  }

  /** The cloud's copy after it received a payload. */
  function Receive(cloud: map<Bytes, Reading>, payload: seq<(Bytes, Reading)>): map<Bytes, Reading> {
    if payload == [] then cloud
    else
      var n := |payload| - 1;
      Receive(cloud, payload[..n])[payload[n].0 := payload[n].1]
  }

  /** The cloud's copy after a run. */
  function Cloud(s: Shadow, ops: seq<Op>, cloud: map<Bytes, Reading>): map<Bytes, Reading>
    requires LegalRun(s, ops)
    decreases |ops|
  {
    if ops == [] then cloud else Cloud(Step(s, ops[0]), ops[1..], Receive(cloud, Delivered(s, ops[0])))
  }

  function Lookup(cloud: map<Bytes, Reading>, name: Bytes): Option<Reading> {
    if name in cloud then Some(cloud[name]) else None
  }

  /** The bookkeeping in the table is about the cloud's copy. */
  ghost predicate Tracks(s: Shadow, cloud: map<Bytes, Reading>) {
    && (forall i :: 0 <= i < |s.attrs| ==> s.attrs[i].pushed == Lookup(cloud, s.attrs[i].name))
    && (forall name :: name in cloud ==> NamedBefore(s, |s.attrs|, name))
  }

  lemma ReceiveOneMore(cloud: map<Bytes, Reading>, payload: seq<(Bytes, Reading)>, name: Bytes, r: Reading, other: Bytes)
    ensures Lookup(Receive(cloud, payload + [(name, r)]), other)
         == if name == other then Some(r) else Lookup(Receive(cloud, payload), other)
  {
    assert (payload + [(name, r)])[..|payload|] == payload;
  }

  lemma {:induction false} ReceivePayload(cloud: map<Bytes, Reading>, s: Shadow, n: nat, i: nat)
    requires Sorted(s.attrs) && n <= |s.attrs| && i < |s.attrs|
    ensures Lookup(Receive(cloud, Payload(s, n)), s.attrs[i].name)
         == if i < n && Selected(s, s.attrs[i]) then Some(s.attrs[i].Reading()) else Lookup(cloud, s.attrs[i].name)
  {
    if n > 0 {
      ReceivePayload(cloud, s, n - 1, i);
      var a := s.attrs[n - 1];
      if Selected(s, a) {
        ReceiveOneMore(cloud, Payload(s, n - 1), a.name, a.Reading(), s.attrs[i].name);
        if a.name == s.attrs[i].name {
          SortedNamesDiffer(s.attrs, n - 1, i);
        }
      } else {
        assert Payload(s, n) == Payload(s, n - 1);
      }
    }
  }

  lemma {:induction false} ReceiveOnlyNames(cloud: map<Bytes, Reading>, payload: seq<(Bytes, Reading)>, name: Bytes)
    requires name in Receive(cloud, payload)
    ensures name in cloud || exists k :: 0 <= k < |payload| && payload[k].0 == name
  {
    if payload != [] && payload[|payload| - 1].0 != name {
      ReceiveOnlyNames(cloud, payload[..|payload| - 1], name);
    }
  }

  lemma NamesStay(s: Shadow, op: Op, name: Bytes)
    requires Legal(s, op) && NamedBefore(s, |s.attrs|, name)
    ensures var t := Step(s, op); NamedBefore(t, |t.attrs|, name)
  {
    var t := Step(s, op);
    var i :| 0 <= i < |s.attrs| && s.attrs[i].name == name;
    if op.Add? {
      if |t.attrs| > |s.attrs| {
        InsertShifts(s.attrs, NewAttr(op.name, false, op.propType, op.size), i);
        assert t.attrs[Shifted(s.attrs, op.name, i)].name == name;
      }
    } else {
      assert t.attrs[i].name == name;
    }
  }

  function Shifted(attrs: seq<Attr>, name: Bytes, i: nat): nat {
    if i < Place(attrs, name) then i else i + 1
  }

  lemma InsertShifts(attrs: seq<Attr>, a: Attr, i: nat)
    requires i < |attrs|
    ensures Insert(attrs, a)[Shifted(attrs, a.name, i)] == attrs[i]
  {
  }

  lemma DeliveredNames(s: Shadow, op: Op, name: Bytes, k: nat)
    requires Sorted(s.attrs) && Legal(s, op) && k < |Delivered(s, op)| && Delivered(s, op)[k].0 == name
    ensures NamedBefore(s, |s.attrs|, name)
  {
    if op.Report? {
      assert s.attrs[Find(s.attrs, op.name)].name == name;
    } else {
      PayloadInTableOrder(s, |s.attrs|);
    }
  }

  lemma ReceivedNames(s: Shadow, op: Op, cloud: map<Bytes, Reading>)
    requires Sorted(s.attrs) && Legal(s, op) && Tracks(s, cloud)
    ensures var t := Step(s, op); forall name :: name in Receive(cloud, Delivered(s, op)) ==> NamedBefore(t, |t.attrs|, name)
  {
    forall name | name in Receive(cloud, Delivered(s, op))
      ensures NamedBefore(Step(s, op), |Step(s, op).attrs|, name)
    {
      ReceiveOnlyNames(cloud, Delivered(s, op), name);
      if name !in cloud {
        var k :| 0 <= k < |Delivered(s, op)| && Delivered(s, op)[k].0 == name;
        DeliveredNames(s, op, name, k);
      }
      NamesStay(s, op, name);
    }
  }

  lemma AbsentIsUnnamed(s: Shadow, name: Bytes)
    requires Find(s.attrs, name) == |s.attrs|
    ensures !NamedBefore(s, |s.attrs|, name)
  {
  }

  lemma InsertTracks(s: Shadow, a: Attr, cloud: map<Bytes, Reading>, i: nat)
    requires Tracks(s, cloud) && a.name !in cloud && a.pushed == None && i <= |s.attrs|
    ensures Insert(s.attrs, a)[i].pushed == Lookup(cloud, Insert(s.attrs, a)[i].name)
  {
    var p := Place(s.attrs, a.name);
    assert Insert(s.attrs, a)[i] == if i < p then s.attrs[i] else if i == p then a else s.attrs[i - 1];
  }

  lemma AddTracks(s: Shadow, op: Op, cloud: map<Bytes, Reading>)
    requires op.Add? && Tracks(s, cloud)
    ensures var t := Step(s, op); forall i :: 0 <= i < |t.attrs| ==> t.attrs[i].pushed == Lookup(cloud, t.attrs[i].name)
  {
    if op.size > 0 && ValidType(op.propType) && Find(s.attrs, op.name) == |s.attrs| {
      AbsentIsUnnamed(s, op.name);
      forall i | 0 <= i <= |s.attrs| {
        InsertTracks(s, NewAttr(op.name, false, op.propType, op.size), cloud, i);
      }
    }
  }

  lemma ReportTracks(s: Shadow, op: Op, cloud: map<Bytes, Reading>, i: nat)
    requires Sorted(s.attrs) && op.Report? && Legal(s, op) && Tracks(s, cloud) && i < |s.attrs|
    ensures Step(s, op).attrs[i].pushed == Lookup(Receive(cloud, Delivered(s, op)), s.attrs[i].name)
  {
    var f := Find(s.attrs, op.name);
    var d := Delivered(s, op);
    assert d != [] ==> d[..0] == [];
    if f < |s.attrs| && s.attrs[i].name == op.name {
      SortedNamesDiffer(s.attrs, i, f);
    }
  }

  lemma BulkTracks(s: Shadow, op: Op, cloud: map<Bytes, Reading>, i: nat)
    requires Sorted(s.attrs) && op.Bulk? && Tracks(s, cloud) && i < |s.attrs|
    ensures Step(s, op).attrs[i].pushed == Lookup(Receive(cloud, Delivered(s, op)), s.attrs[i].name)
  {
    ReceivePayload(cloud, s, |s.attrs|, i);
  }

  lemma PushesNothing(s: Shadow, op: Op)
    requires Legal(s, op) && (op.CloudSet? || op.Poll? || op.Connect?)
    ensures Delivered(s, op) == [] && |Step(s, op).attrs| == |s.attrs|
    ensures forall i :: 0 <= i < |s.attrs| ==>
      var a := Step(s, op).attrs[i];
      a.name == s.attrs[i].name && a.pushed == s.attrs[i].pushed && a.lost == s.attrs[i].lost
  {
  }

  lemma StepTracks(s: Shadow, op: Op, cloud: map<Bytes, Reading>)
    requires Agrees(s) && Legal(s, op) && Tracks(s, cloud)
    ensures Tracks(Step(s, op), Receive(cloud, Delivered(s, op)))
  {
    ReceivedNames(s, op, cloud);
    if op.Add? {
      AddTracks(s, op, cloud);
    } else if op.Report? {
      forall i | 0 <= i < |s.attrs| {
        ReportTracks(s, op, cloud, i);
      }
    } else if op.Bulk? {
      forall i | 0 <= i < |s.attrs| {
        BulkTracks(s, op, cloud, i);
      }
    } else {
      PushesNothing(s, op);
    }
  }

  lemma {:induction false} RunTracks(s: Shadow, ops: seq<Op>, cloud: map<Bytes, Reading>)
    requires Agrees(s) && LegalRun(s, ops) && Tracks(s, cloud)
    ensures Tracks(Run(s, ops), Cloud(s, ops, cloud))
    decreases |ops|
  {
    if ops != [] {
      StepKeeps(s, ops[0]);
      StepTracks(s, ops[0], cloud);
      RunTracks(Step(s, ops[0]), ops[1..], Receive(cloud, Delivered(s, ops[0])));
    }
  }

  /** No step of the run delivers a value of the attribute. */
  ghost predicate NoneDelivered(s: Shadow, ops: seq<Op>, name: Bytes)
    requires LegalRun(s, ops)
    decreases |ops|
  {
    ops == [] || ((forall r :: (name, r) !in Delivered(s, ops[0])) && NoneDelivered(Step(s, ops[0]), ops[1..], name))
  }

  /** The step is a bulk push that fails and carries this value of the attribute. */
  predicate FailsToDeliver(s: Shadow, op: Op, name: Bytes, r: Reading) {
    op.Bulk? && op.pushRet != 0 && (name, r) in BulkPayload(s)
  }

  /** Some bulk push of the run carried the value and failed, and nothing of the attribute was delivered after it. */
  ghost predicate LostInPush(s: Shadow, ops: seq<Op>, name: Bytes, r: Reading)
    requires LegalRun(s, ops)
    decreases |ops|
  {
    && ops != []
    && var t := Step(s, ops[0]);
       LostInPush(t, ops[1..], name, r) || (FailsToDeliver(s, ops[0], name, r) && NoneDelivered(t, ops[1..], name))
  }

  /** The attribute's bookkeeping says that this value was lost. */
  ghost predicate MarkedLost(s: Shadow, name: Bytes, r: Reading) {
    exists i :: 0 <= i < |s.attrs| && s.attrs[i].name == name && s.attrs[i].lost == Some(r)
  }

  lemma AddLosesNothing(s: Shadow, op: Op, name: Bytes, r: Reading)
    requires op.Add? && MarkedLost(Step(s, op), name, r)
    ensures MarkedLost(s, name, r)
  {
    var t := Step(s, op);
    if |t.attrs| > |s.attrs| {
      var a := NewAttr(op.name, false, op.propType, op.size);
      var p := Place(s.attrs, a.name);
      var i :| 0 <= i < |t.attrs| && t.attrs[i].name == name && t.attrs[i].lost == Some(r);
      assert t.attrs[i] == if i < p then s.attrs[i] else if i == p then a else s.attrs[i - 1];
    }
  }

  lemma ReportLosesNothing(s: Shadow, op: Op, name: Bytes, r: Reading)
    requires Sorted(s.attrs) && op.Report? && Legal(s, op) && MarkedLost(Step(s, op), name, r)
    ensures MarkedLost(s, name, r) && forall q :: (name, q) !in Delivered(s, op)
  {
    var t := Step(s, op);
    var i :| 0 <= i < |t.attrs| && t.attrs[i].name == name && t.attrs[i].lost == Some(r);
    assert s.attrs[i].name == name && s.attrs[i].lost == Some(r);
    if op.name == name {
      FindUnique(s.attrs, i);
    }
  }

  lemma BulkLoses(s: Shadow, op: Op, name: Bytes, r: Reading)
    requires Sorted(s.attrs) && op.Bulk? && MarkedLost(Step(s, op), name, r)
    ensures FailsToDeliver(s, op, name, r) || (MarkedLost(s, name, r) && forall q :: (name, q) !in Delivered(s, op))
  {
    var t := Step(s, op);
    var i :| 0 <= i < |t.attrs| && t.attrs[i].name == name && t.attrs[i].lost == Some(r);
    if Due(s) {
      assert t.attrs[i] == BulkAttr(s, s.attrs[i], op.pushRet);
      PayloadMembers(s, |s.attrs|, (name, r));
      if !Selected(s, s.attrs[i]) {
        NotSelectedNotNamed(s, i);
      }
    }
  }

  lemma NotSelectedNotNamed(s: Shadow, i: nat)
    requires Sorted(s.attrs) && i < |s.attrs| && !Selected(s, s.attrs[i])
    ensures forall q :: (s.attrs[i].name, q) !in BulkPayload(s)
  {
    forall q
      ensures (s.attrs[i].name, q) !in BulkPayload(s)
    {
      PayloadMembers(s, |s.attrs|, (s.attrs[i].name, q));
      forall j | 0 <= j < |s.attrs| && s.attrs[j].name == s.attrs[i].name
        ensures j == i
      {
        SortedNamesDiffer(s.attrs, j, i);
      }
    }
  }

  lemma OtherLosesNothing(s: Shadow, op: Op, name: Bytes, r: Reading)
    requires Legal(s, op) && (op.CloudSet? || op.Poll? || op.Connect?) && MarkedLost(Step(s, op), name, r)
    ensures MarkedLost(s, name, r) && Delivered(s, op) == []
  {
    PushesNothing(s, op);
  }

  /** A loss that the table shows after a step was shown before it, and nothing was delivered; or the step made it. */
  lemma StepLoses(s: Shadow, op: Op, name: Bytes, r: Reading)
    requires Agrees(s) && Legal(s, op) && MarkedLost(Step(s, op), name, r)
    ensures FailsToDeliver(s, op, name, r) || (MarkedLost(s, name, r) && forall q :: (name, q) !in Delivered(s, op))
  {
    if op.Add? {
      AddLosesNothing(s, op, name, r);
    } else if op.Report? {
      ReportLosesNothing(s, op, name, r);
    } else if op.Bulk? {
      BulkLoses(s, op, name, r);
    } else {
      OtherLosesNothing(s, op, name, r);
    }
  }

  /** What the table shows as lost was carried by a bulk push of the run that failed, and nothing was delivered since. */
  lemma {:induction false} LostWasCarried(s: Shadow, ops: seq<Op>, name: Bytes, r: Reading)
    requires Agrees(s) && LegalRun(s, ops) && MarkedLost(Run(s, ops), name, r)
    ensures LostInPush(s, ops, name, r) || (MarkedLost(s, name, r) && NoneDelivered(s, ops, name))
    decreases |ops|
  {
    if ops != [] {
      StepKeeps(s, ops[0]);
      LostWasCarried(Step(s, ops[0]), ops[1..], name, r);
      if !LostInPush(s, ops, name, r) {
        StepLoses(s, ops[0], name, r);
      }
    }
  }

  lemma {:induction false} NoLossWithoutFailure(s: Shadow, ops: seq<Op>, name: Bytes, r: Reading)
    requires LegalRun(s, ops) && BulksSucceed(ops)
    ensures !LostInPush(s, ops, name, r)
    decreases |ops|
  {
    if ops != [] {
      NoLossWithoutFailure(Step(s, ops[0]), ops[1..], name, r);
    }
  }

  /** The value of a written attribute that will not be sent was delivered last, or was carried by a failed push. */
  ghost predicate Reported(reportFlag: bool, ops: seq<Op>, a: Attr)
    requires LegalRun(Initial(reportFlag), ops)
  {
    a.written && !a.report && !Run(Initial(reportFlag), ops).forceReport ==>
      a.pushed == Some(a.Reading()) || LostInPush(Initial(reportFlag), ops, a.name, a.Reading())
  }

  /**
   * Shadow agreement over whole runs from a fresh server, whatever the initial value of m_reportFlag and however the
   * pushes end: the table is sorted, a mark is never stranded without a flag, and the value of a written attribute that
   * is neither marked nor forced was the last one delivered for it, or was carried by a bulk push that failed, with
   * nothing of the attribute delivered since. When the bulk pushes succeed nothing is lost.
   */
  lemma Agreement(reportFlag: bool, ops: seq<Op>)
    requires LegalRun(Initial(reportFlag), ops)
    ensures var s := Run(Initial(reportFlag), ops);
      && Agrees(s)
      && (forall i :: 0 <= i < |s.attrs| ==> Reported(reportFlag, ops, s.attrs[i]))
      && (BulksSucceed(ops) ==> NothingLost(s))
  {
    var s := Run(Initial(reportFlag), ops);
    RunKeeps(Initial(reportFlag), ops);
    if BulksSucceed(ops) {
      RunLosesNothing(Initial(reportFlag), ops);
    }
    forall i | 0 <= i < |s.attrs|
      ensures Reported(reportFlag, ops, s.attrs[i])
    {
      var a := s.attrs[i];
      assert Accounted(s, a);
      if a.lost == Some(a.Reading()) {
        assert MarkedLost(s, a.name, a.Reading());
        LostWasCarried(Initial(reportFlag), ops, a.name, a.Reading());
      }
    }
  }

  /**
   * Agreement with the cloud itself: after any run from a fresh server, an attribute that was written and will not be
   * sent holds the value the cloud received last for it, or the value a failed bulk push carried, with nothing of the
   * attribute delivered since. When the bulk pushes succeed it is always the former.
   */
  lemma CloudAgreement(reportFlag: bool, ops: seq<Op>, i: nat)
    requires LegalRun(Initial(reportFlag), ops) && i < |Run(Initial(reportFlag), ops).attrs|
    ensures var s := Run(Initial(reportFlag), ops);
      var a := s.attrs[i];
      && Shows(a.Reading(), a.cell)
      && (a.written && !a.report && !s.forceReport ==>
           || Lookup(Cloud(Initial(reportFlag), ops, map[]), a.name) == Some(a.Reading())
           || (!BulksSucceed(ops) && LostInPush(Initial(reportFlag), ops, a.name, a.Reading())))
  {
    var a := Run(Initial(reportFlag), ops).attrs[i];
    ReadingShows(a);
    Agreement(reportFlag, ops);
    assert Reported(reportFlag, ops, a);
    RunTracks(Initial(reportFlag), ops, map[]);
    if BulksSucceed(ops) {
      NoLossWithoutFailure(Initial(reportFlag), ops, a.name, a.Reading());
    }
  }

  /** The attribute's current value has reached the cloud, or a due bulk push will carry it. */
  ghost predicate Pending(s: Shadow, name: Bytes) {
    var i := Find(s.attrs, name);
    && i < |s.attrs|
    && (s.attrs[i].pushed == Some(s.attrs[i].Reading()) || (Due(s) && Selected(s, s.attrs[i])))
  }

  lemma FindAfterInsert(attrs: seq<Attr>, a: Attr, name: Bytes)
    requires Sorted(attrs) && Sorted(Insert(attrs, a)) && Find(attrs, name) < |attrs|
    ensures var i := Find(Insert(attrs, a), name);
      i <= |attrs| && Insert(attrs, a)[i] == attrs[Find(attrs, name)]
  {
    var i := Find(attrs, name);
    InsertShifts(attrs, a, i);
    FindUnique(Insert(attrs, a), Shifted(attrs, a.name, i));
  }

  lemma FindUnique(attrs: seq<Attr>, i: nat)
    requires Sorted(attrs) && i < |attrs|
    ensures Find(attrs, attrs[i].name) == i
  {
    SortedNamesDiffer(attrs, Find(attrs, attrs[i].name), i);
  }

  lemma FindByNames(attrs: seq<Attr>, bttrs: seq<Attr>, name: Bytes)
    requires |attrs| == |bttrs| && forall k :: 0 <= k < |attrs| ==> attrs[k].name == bttrs[k].name
    ensures Find(attrs, name) == Find(bttrs, name)
  {
  }

  lemma CloudStepNames(s: Shadow, name: Bytes, cell: Cell)
    requires Legal(s, CloudSet(name, cell))
    ensures var t := CloudStep(s, name, cell);
      t.forceReport && |t.attrs| == |s.attrs| && forall k :: 0 <= k < |s.attrs| ==> s.attrs[k].name == t.attrs[k].name
  {
  }

  lemma StepNames(s: Shadow, op: Op)
    requires Legal(s, op) && !op.Add?
    ensures var t := Step(s, op);
      |t.attrs| == |s.attrs| && forall k :: 0 <= k < |s.attrs| ==> s.attrs[k].name == t.attrs[k].name
  {
    if op.CloudSet? {
      CloudStepNames(s, op.name, op.cell);
    }
  }

  lemma AddFinds(s: Shadow, op: Op, name: Bytes)
    requires Agrees(s) && op.Add? && Find(s.attrs, name) < |s.attrs|
    ensures var t := Step(s, op);
      Find(t.attrs, name) < |t.attrs| && t.attrs[Find(t.attrs, name)] == s.attrs[Find(s.attrs, name)]
  {
    AddKeeps(s, op.name, op.propType, op.size);
    if |Step(s, op).attrs| > |s.attrs| {
      FindAfterInsert(s.attrs, NewAttr(op.name, false, op.propType, op.size), name);
    }
  }

  lemma StepFinds(s: Shadow, op: Op, name: Bytes)
    requires Agrees(s) && Legal(s, op) && Find(s.attrs, name) < |s.attrs|
    ensures var t := Step(s, op);
      var i, j := Find(s.attrs, name), Find(t.attrs, name);
      && j < |t.attrs|
      && (op.Add? ==> t.attrs[j] == s.attrs[i])
      && (!op.Add? ==> i == j)
  {
    if op.Add? {
      AddFinds(s, op, name);
    } else {
      StepNames(s, op);
      FindByNames(s.attrs, Step(s, op).attrs, name);
    }
  }

  lemma PendingStays(s: Shadow, op: Op, name: Bytes)
    requires Agrees(s) && Legal(s, op) && !op.Bulk? && Pending(s, name)
    ensures Pending(Step(s, op), name)
  {
    StepFinds(s, op, name);
    if op.CloudSet? {
      CloudStepNames(s, op.name, op.cell);
    }
  }

  lemma {:induction false} PendingThroughout(s: Shadow, ops: seq<Op>, name: Bytes)
    requires Agrees(s) && LegalRun(s, ops) && Pending(s, name)
    requires forall k :: 0 <= k < |ops| ==> !ops[k].Bulk?
    ensures Pending(Run(s, ops), name) && Agrees(Run(s, ops))
    decreases |ops|
  {
    if ops != [] {
      StepKeeps(s, ops[0]);
      PendingStays(s, ops[0], name);
      PendingThroughout(Step(s, ops[0]), ops[1..], name);
    }
  }

  /**
   * A failed urgent report is not forgotten: whatever happens until the next bulk push, that push carries the
   * attribute's then current value, unless a push has carried this value already.
   */
  lemma FailedReportIsRetried(s: Shadow, name: Bytes, val: Bytes, pushRet: int, ops: seq<Op>)
    requires Agrees(s) && Legal(s, Report(name, val, pushRet)) && Find(s.attrs, name) < |s.attrs|
    requires !s.connected || pushRet != 0
    requires LegalRun(ReportStep(s, name, val, pushRet), ops) && forall k :: 0 <= k < |ops| ==> !ops[k].Bulk?
    ensures var t := Run(ReportStep(s, name, val, pushRet), ops);
      var i := Find(t.attrs, name);
      && i < |t.attrs|
      && ((name, t.attrs[i].Reading()) in BulkPayload(t) || t.attrs[i].pushed == Some(t.attrs[i].Reading()))
  {
    var r := ReportStep(s, name, val, pushRet);
    ReportKeeps(s, name, val, pushRet);
    FindByNames(s.attrs, r.attrs, name);
    PendingThroughout(r, ops, name);
    var t := Run(r, ops);
    PayloadMembers(t, |t.attrs|, (name, t.attrs[Find(t.attrs, name)].Reading()));
  }

  /** The exception is real: a later report that gets through takes the attribute out of the next bulk push. */
  lemma SupersededReportIsNotRetried(s: Shadow, name: Bytes, val: Bytes, later: Bytes)
    requires Agrees(s) && s.connected && !s.forceReport && Find(s.attrs, name) < |s.attrs|
    requires Legal(s, Report(name, val, -1)) && Legal(ReportStep(s, name, val, -1), Report(name, later, 0))
    ensures var t := ReportStep(ReportStep(s, name, val, -1), name, later, 0);
      forall r :: (name, r) !in BulkPayload(t)
  {
    var u := ReportStep(s, name, val, -1);
    var t := ReportStep(u, name, later, 0);
    ReportKeeps(s, name, val, -1);
    ReportKeeps(u, name, later, 0);
    FindByNames(s.attrs, u.attrs, name);
    FindByNames(u.attrs, t.attrs, name);
    forall r
      ensures (name, r) !in BulkPayload(t)
    {
      PayloadMembers(t, |t.attrs|, (name, r));
      forall i | 0 <= i < |t.attrs| && t.attrs[i].name == name
        ensures !Selected(t, t.attrs[i])
      {
        FindUnique(t.attrs, i);
      }
    }
  }

  /** A run that shows it: the first report of "1" fails, the report of "2" gets through, and nothing is left to push. */
  lemma FailedReportDropped()
    ensures var s := Initial(false).(connected := true);
      var ops := [Report(LOCAL_ATTR, [49], -1), Report(LOCAL_ATTR, [50], 0)];
      LegalRun(s, ops) && BulkPayload(Run(s, ops)) == []
  {
    var s := Initial(false).(connected := true);
    var first, second := Report(LOCAL_ATTR, [49], -1), Report(LOCAL_ATTR, [50], 0);
    var ops := [first, second];
    assert ops[1..] == [second];
    assert Find(s.attrs, LOCAL_ATTR) == 0 && Legal(s, first);
    var t := Step(s, first);
    assert Find(t.attrs, LOCAL_ATTR) == 0 && Legal(t, second);
    var u := Step(t, second);
    assert |u.attrs| == 1 && !u.attrs[0].report && !u.forceReport;
    assert LegalRun(u, []) && Run(u, []) == u;
    assert [second][1..] == [] && LegalRun(t, [second]) && Run(t, [second]) == u;
    assert LegalRun(s, ops) && Run(s, ops) == Run(t, ops[1..]);
    assert Payload(u, 1) == [];
  }

  /** An urgent report of the attribute that gets through, which clears its mark. */
  predicate Delivers(s: Shadow, op: Op, name: Bytes) {
    op.Report? && op.name == name && s.connected && op.pushRet == 0
  }

  /** The step marks the attribute: a report that is not delivered, a poll that finds another value, a new period. */
  predicate Marks(s: Shadow, op: Op, name: Bytes)
    requires Legal(s, op)
  {
    var i := Find(s.attrs, name);
    match op
    case Report(n, _, pushRet) => n == name && !(s.connected && pushRet == 0)
    case Poll(ask) => i < |s.attrs| && PollMarks(s.attrs[i], ask(name))
    case CloudSet(n, _) => name == LOCAL_ATTR && s.attrs[Find(s.attrs, n)].isLocal
    case _ => false
  }

  /** After the run, no delivered report came after what marked the attribute last. */
  predicate Outstanding(s: Shadow, ops: seq<Op>, name: Bytes, marked: bool)
    requires LegalRun(s, ops)
    decreases |ops|
  {
    if ops == [] then marked
    else Outstanding(Step(s, ops[0]), ops[1..], name, !Delivers(s, ops[0], name) && (marked || Marks(s, ops[0], name)))
  }

  predicate AnyCloudSet(ops: seq<Op>) {
    exists k :: 0 <= k < |ops| && ops[k].CloudSet?
  }

  lemma CloudStepMarks(s: Shadow, op: Op, i: nat)
    requires Sorted(s.attrs) && op.CloudSet? && Legal(s, op) && i < |s.attrs|
    ensures Step(s, op).attrs[i].report <==> s.attrs[i].report || Marks(s, op, s.attrs[i].name)
  {
    var j := Find(s.attrs, op.name);
    var w := s.attrs[j := s.attrs[j].Write(op.cell)];
    FindByNames(s.attrs, w, LOCAL_ATTR);
    FindUnique(s.attrs, i);
  }

  lemma StepMarks(s: Shadow, op: Op, name: Bytes)
    requires Agrees(s) && Legal(s, op) && !op.Bulk? && Find(s.attrs, name) < |s.attrs|
    ensures var t := Step(s, op);
      var i, j := Find(s.attrs, name), Find(t.attrs, name);
      && j < |t.attrs|
      && (t.attrs[j].report <==> !Delivers(s, op, name) && (s.attrs[i].report || Marks(s, op, name)))
      && (t.forceReport <==> s.forceReport || op.CloudSet?)
  {
    StepFinds(s, op, name);
    if op.CloudSet? {
      CloudStepNames(s, op.name, op.cell);
      CloudStepMarks(s, op, Find(s.attrs, name));
    }
  }

  lemma {:induction false} OutstandingIsMarked(s: Shadow, ops: seq<Op>, name: Bytes)
    requires Agrees(s) && LegalRun(s, ops) && Find(s.attrs, name) < |s.attrs|
    requires forall k :: 0 <= k < |ops| ==> !ops[k].Bulk?
    ensures var t := Run(s, ops);
      var i := Find(t.attrs, name);
      && Agrees(t) && i < |t.attrs|
      && (t.attrs[i].report <==> Outstanding(s, ops, name, s.attrs[Find(s.attrs, name)].report))
      && (t.forceReport <==> s.forceReport || AnyCloudSet(ops))
    decreases |ops|
  {
    if ops != [] {
      StepKeeps(s, ops[0]);
      StepMarks(s, ops[0], name);
      OutstandingIsMarked(Step(s, ops[0]), ops[1..], name);
      assert AnyCloudSet(ops) <==> ops[0].CloudSet? || AnyCloudSet(ops[1..]) by {
        assert forall k :: 0 <= k < |ops[1..]| ==> ops[1..][k] == ops[k + 1];
      }
    }
  }

  /** The state before step `k` of the run. */
  function StateBefore(s: Shadow, ops: seq<Op>, k: nat): (t: Shadow)
    requires LegalRun(s, ops) && k <= |ops|
    ensures k < |ops| ==> Legal(t, ops[k])
    decreases |ops|
  {
    if k == 0 then s else StateBefore(Step(s, ops[0]), ops[1..], k - 1)
  }

  predicate DeliversAt(s: Shadow, ops: seq<Op>, name: Bytes, k: nat)
    requires LegalRun(s, ops) && k < |ops|
  {
    Delivers(StateBefore(s, ops, k), ops[k], name)
  }

  predicate MarksAt(s: Shadow, ops: seq<Op>, name: Bytes, k: nat)
    requires LegalRun(s, ops) && k < |ops|
  {
    Marks(StateBefore(s, ops, k), ops[k], name)
  }

  /** Step `k` of the run is followed by one that marks the attribute. */
  predicate MarkedAfter(s: Shadow, ops: seq<Op>, name: Bytes, k: int)
    requires LegalRun(s, ops)
  {
    exists m: nat :: k < m < |ops| && MarksAt(s, ops, name, m)
  }

  /** Every delivered report of the attribute is followed by a step that marks it again. */
  predicate Remarked(s: Shadow, ops: seq<Op>, name: Bytes)
    requires LegalRun(s, ops)
  {
    forall k: nat :: k < |ops| && DeliversAt(s, ops, name, k) ==> MarkedAfter(s, ops, name, k)
  }

  lemma MarkedAfterShifts(s: Shadow, ops: seq<Op>, name: Bytes, k: int)
    requires LegalRun(s, ops) && ops != [] && k >= 0
    ensures MarkedAfter(s, ops, name, k) <==> MarkedAfter(Step(s, ops[0]), ops[1..], name, k - 1)
  {
    var t, rest := Step(s, ops[0]), ops[1..];
    if m: nat :| k < m < |ops| && MarksAt(s, ops, name, m) {
      assert MarksAt(t, rest, name, m - 1);
    }
    if m: nat :| k - 1 < m < |rest| && MarksAt(t, rest, name, m) {
      assert MarksAt(s, ops, name, m + 1);
    }
  }

  lemma RemarkedUnfolds(s: Shadow, ops: seq<Op>, name: Bytes)
    requires LegalRun(s, ops) && ops != []
    ensures Remarked(s, ops, name) <==>
      && (Delivers(s, ops[0], name) ==> MarkedAfter(s, ops, name, 0))
      && Remarked(Step(s, ops[0]), ops[1..], name)
  {
    var t, rest := Step(s, ops[0]), ops[1..];
    forall k: nat | k < |rest|
      ensures DeliversAt(t, rest, name, k) <==> DeliversAt(s, ops, name, k + 1)
      ensures MarkedAfter(t, rest, name, k) <==> MarkedAfter(s, ops, name, k + 1)
    {
      MarkedAfterShifts(s, ops, name, k + 1);
    }
    assert DeliversAt(s, ops, name, 0) <==> Delivers(s, ops[0], name);
    if Remarked(s, ops, name) {
      forall k: nat | k < |rest| && DeliversAt(t, rest, name, k)
        ensures MarkedAfter(t, rest, name, k)
      {
        assert DeliversAt(s, ops, name, k + 1);
      }
    }
    if Remarked(t, rest, name) && (Delivers(s, ops[0], name) ==> MarkedAfter(s, ops, name, 0)) {
      forall k: nat | k < |ops| && DeliversAt(s, ops, name, k)
        ensures MarkedAfter(s, ops, name, k)
      {
        if k > 0 {
          assert DeliversAt(t, rest, name, k - 1);
        }
      }
    }
  }

  lemma FirstMark(s: Shadow, ops: seq<Op>, name: Bytes)
    requires LegalRun(s, ops) && ops != []
    ensures MarkedAfter(s, ops, name, -1) <==> Marks(s, ops[0], name) || MarkedAfter(s, ops, name, 0)
  {
    assert MarksAt(s, ops, name, 0) <==> Marks(s, ops[0], name);
  }

  /** The mark that is left, read off the positions of the calls. */
  lemma {:induction false} OutstandingIff(s: Shadow, ops: seq<Op>, name: Bytes, marked: bool)
    requires LegalRun(s, ops)
    ensures Outstanding(s, ops, name, marked) <==> Remarked(s, ops, name) && (marked || MarkedAfter(s, ops, name, -1))
    decreases |ops|
  {
    if ops != [] {
      OutstandingIff(Step(s, ops[0]), ops[1..], name, !Delivers(s, ops[0], name) && (marked || Marks(s, ops[0], name)));
      RemarkedUnfolds(s, ops, name);
      MarkedAfterShifts(s, ops, name, 0);
      FirstMark(s, ops, name);
    }
  }

  /**
   * When a failed urgent report is part of the next bulk push: exactly when that push is forced, or every report of the
   * attribute that was delivered in between is followed by a step that marks the attribute again.
   */
  lemma FailedReportIsPushedIff(s: Shadow, name: Bytes, val: Bytes, pushRet: int, ops: seq<Op>)
    requires Agrees(s) && Legal(s, Report(name, val, pushRet)) && Find(s.attrs, name) < |s.attrs|
    requires !s.connected || pushRet != 0
    requires LegalRun(ReportStep(s, name, val, pushRet), ops) && forall k :: 0 <= k < |ops| ==> !ops[k].Bulk?
    ensures var r := ReportStep(s, name, val, pushRet);
      (exists reading :: (name, reading) in BulkPayload(Run(r, ops)))
      <==> s.forceReport || AnyCloudSet(ops) || Remarked(r, ops, name)
  {
    var r := ReportStep(s, name, val, pushRet);
    ReportKeeps(s, name, val, pushRet);
    FindByNames(s.attrs, r.attrs, name);
    OutstandingIsMarked(r, ops, name);
    OutstandingIff(r, ops, name, true);
    NamedIffSelected(Run(r, ops), name);
  }

  /** As long as no later report of the attribute is acknowledged, a failed one is always in the next bulk push. */
  lemma FailedReportIsPushed(s: Shadow, name: Bytes, val: Bytes, pushRet: int, ops: seq<Op>)
    requires Agrees(s) && Legal(s, Report(name, val, pushRet)) && Find(s.attrs, name) < |s.attrs|
    requires !s.connected || pushRet != 0
    requires LegalRun(ReportStep(s, name, val, pushRet), ops) && forall k :: 0 <= k < |ops| ==> !ops[k].Bulk?
    requires forall k :: 0 <= k < |ops| && ops[k].Report? && ops[k].name == name ==> ops[k].pushRet != 0
    ensures exists reading :: (name, reading) in BulkPayload(Run(ReportStep(s, name, val, pushRet), ops))
  {
    FailedReportIsPushedIff(s, name, val, pushRet, ops);
  }

  /** A bulk push names an attribute iff it selects it. */
  lemma NamedIffSelected(t: Shadow, name: Bytes)
    requires Agrees(t) && Find(t.attrs, name) < |t.attrs|
    ensures (exists reading :: (name, reading) in BulkPayload(t)) <==> Selected(t, t.attrs[Find(t.attrs, name)])
  {
    var i := Find(t.attrs, name);
    assert Accounted(t, t.attrs[i]);
    PayloadMembers(t, |t.attrs|, (name, t.attrs[i].Reading()));
    if reading :| (name, reading) in BulkPayload(t) {
      PayloadMembers(t, |t.attrs|, (name, reading));
      var j :| 0 <= j < |t.attrs| && Selected(t, t.attrs[j]) && (name, reading) == (t.attrs[j].name, t.attrs[j].Reading());
      FindUnique(t.attrs, j);
    }
  }

  /** What a poll marks is in the bulk push that follows it, with the value the poll stored. */
  lemma PollThenPush(s: Shadow, ask: Bytes -> Audience, i: nat)
    requires Legal(s, Poll(ask)) && i < |s.attrs| && PollMarks(s.attrs[i], ask(s.attrs[i].name))
    ensures var t := PollStep(s, ask);
      && (s.attrs[i].name, t.attrs[i].Reading()) in BulkPayload(t)
      && t.attrs[i] == PollAttr(s.attrs[i], ask(s.attrs[i].name)) && Shows(t.attrs[i].Reading(), t.attrs[i].cell)
  {
    var t := PollStep(s, ask);
    ReadingShows(t.attrs[i]);
    assert t.attrs[i] == PollAttr(s.attrs[i], ask(s.attrs[i].name));
    PayloadMembers(t, |t.attrs|, (s.attrs[i].name, t.attrs[i].Reading()));
  }
}
