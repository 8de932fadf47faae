/** The device shadow object: its attribute table on the heap, the two flags, the passes over the table, the callbacks. */
module DeviceShadow {
  import opened AnswerCollection
  import opened CommandScanner
  import opened CStrings
  import opened Decimal
  import opened FollowRegistry
  import opened NameOrder
  import opened Options
  import PollClock
  import opened Service
  import opened ShadowAgreement
  import opened ShadowModel
  import opened ShadowPoll
  import opened ShadowPush

  /** A table entry with the attribute's storage. The ghost fields are the model's bookkeeping. */
  class Entry {
    const name: Bytes
    const isLocal: bool
    const isInt: bool
    const data: array<byte>
    var num: int32
    var report: bool
    ghost var written: bool
    ghost var pushed: Option<Reading>
    ghost var lost: Option<Reading>

    ghost function State(): Attr
      reads this, data
    {
      Attr(name, isLocal, if isInt then Num(num) else Buf(data[..]), report, written, pushed, lost)
    }

    constructor (name: Bytes, isLocal: bool, propType: int, size: nat)
      requires ValidType(propType)
      ensures State() == NewAttr(name, isLocal, propType, size)
      ensures fresh(data)
    {
      this.name := name;
      this.isLocal := isLocal;
      this.isInt := propType == IOT_PROPERTY_INT32;
      this.data := new byte[size](_ => 0);
      this.num := 0;
      this.report := false;
      this.written, this.pushed, this.lost := false, None, None;
      new;
      assert data[..] == Zeros(size);
    }

    /** What a push sends of the entry. */
    function Current(): (r: Reading)
      reads this, data
      ensures r == State().Reading()
    {
      if isInt then Number(num) else Words(Text(data[..]))
    }

    method WriteInt(i: int32)
      requires isInt
      modifies this`num, this`written
      ensures State() == old(State()).Write(Num(i))
    {
      num := i;
      written := true;
    }

    method WriteText(src: Bytes, n: nat)
      requires !isInt && n <= data.Length
      modifies this`written, data
      ensures State() == old(State()).Write(Buf(StrncpyResult(old(data[..]), src, n)))
    {
      Strncpy(data, src, n);
      written := true;
    }

    /** The write of a reported value. */
    method ClientWriteText(val: Bytes)
      requires NulFree(val) && (isInt || |val| < data.Length)
      modifies this`num, this`written, data
      ensures State() == old(State()).Write(ClientWrite(old(State()).cell, val))
    {
      if isInt {
        WriteInt(Atoi(val));
      } else {
        WriteText(val, |val|);
      }
    }

    method Overwrite(bytes: Bytes)
      requires !isInt && |bytes| == data.Length
      modifies this`written, data
      ensures State() == old(State()).Write(Buf(bytes))
    {
      Memcpy(data, bytes, |bytes|);
      assert data[..] == bytes;
      written := true;
    }

    method Mark()
      modifies this`report
      ensures State() == old(State()).(report := true)
    {
      report := true;
    }

    /** The entry was put into a push: the mark is cleared; the bookkeeping notes how the push ended. */
    method TakeInto(ghost ok: bool)
      modifies this`report, this`pushed, this`lost
      ensures State() == old(State()).Carried(ok)
    {
      report := false;
      if ok {
        pushed, lost := Some(Current()), None;
      } else {
        lost := Some(Current());
      }
    }
  }

  /** The entries and their buffers are separate objects. */
  ghost predicate Distinct(entries: seq<Entry>) {
    forall i, j :: 0 <= i < j < |entries| ==> entries[i] != entries[j] && entries[i].data != entries[j].data
  }

  ghost function BuffersOf(entries: seq<Entry>): set<array<byte>> {
    set e | e in entries :: e.data
  }

  ghost function StatesOf(entries: seq<Entry>): seq<Attr>
    reads entries, BuffersOf(entries)
  {
    seq(|entries|, i requires 0 <= i < |entries| reads entries, BuffersOf(entries) => entries[i].State())
  }

  function With(entries: seq<Entry>, p: nat, e: Entry): seq<Entry>
    requires p <= |entries|
  {
    entries[..p] + [e] + entries[p..]
  }

  lemma DistinctWith(entries: seq<Entry>, p: nat, e: Entry)
    requires Distinct(entries) && p <= |entries| && e !in entries && e.data !in BuffersOf(entries)
    ensures Distinct(With(entries, p, e))
  {
    assert forall k :: 0 <= k < |entries| ==> entries[k].data in BuffersOf(entries);
  }

  lemma StatesWith(entries: seq<Entry>, p: nat, e: Entry)
    requires Sorted(StatesOf(entries)) && Find(StatesOf(entries), e.name) == |entries|
    requires p == Place(StatesOf(entries), e.name)
    ensures p <= |entries|
    ensures StatesOf(With(entries, p, e)) == Insert(StatesOf(entries), e.State())
    ensures Sorted(StatesOf(With(entries, p, e)))
  {
    assert StatesOf(With(entries, p, e)) == Insert(StatesOf(entries), e.State());
    InsertSorted(StatesOf(entries), e.State());
  }

  class DeviceShadow {
    const service: IOTService
    var iotAttrs: seq<Entry>
    var reportFlag: bool
    var forceReport: bool
    var connected: bool
    var reportPeriod: nat

    ghost function Buffers(): set<array<byte>>
      reads this
    {
      BuffersOf(iotAttrs)
    }

    ghost function States(): seq<Attr>
      reads this, iotAttrs, Buffers()
    {
      StatesOf(iotAttrs)
    }

    ghost function View(): Shadow
      reads this, iotAttrs, Buffers()
    {
      Shadow(States(), reportFlag, forceReport, connected, reportPeriod)
    }

    /** The table's objects are separate, and it is sorted by name. */
    ghost predicate Valid()
      reads this, iotAttrs, Buffers()
    {
      Distinct(iotAttrs) && Sorted(States())
    }

    /** m_reportFlag keeps whatever the memory held. */
    constructor (service: IOTService, memory: bool)
      ensures Valid() && this.service == service
      ensures View() == Initial(memory)
      ensures fresh(iotAttrs) && fresh(Buffers())
    {
      this.service := service;
      reportFlag, forceReport, connected, reportPeriod := memory, false, false, DEFAULT_PERIOD;
      iotAttrs := [];
      new;
      var e := new Entry(LOCAL_ATTR, true, IOT_PROPERTY_INT32, 4);
      iotAttrs := [e];
    }

    /** The connection is there: m_shadow is published. */
    method SetupShadow()
      modifies `connected
      ensures View() == Step(old(View()), ShadowModel.Connect)
    {
      ghost var before := States();
      connected := true;
      assert States() == before;
    }

    /** m_iotAttrs.find */
    method Lookup(name: Bytes) returns (i: nat)
      ensures i == Find(old(States()), name) && States() == old(States())
    {
      i := 0;
      ghost var states := States();
      while i < |iotAttrs| && iotAttrs[i].name != name
        invariant i <= |iotAttrs| && i + Find(states[i..], name) == Find(states, name)
      {
        assert states[i..][1..] == states[i + 1..];
        assert states[i].name == iotAttrs[i].name;
        i := i + 1;
      }
      assert i < |iotAttrs| ==> states[i].name == name;
    }

    /** Where m_iotAttrs.insert puts a new name. */
    method LookupPlace(name: Bytes) returns (i: nat)
      ensures i == Place(old(States()), name) && States() == old(States())
    {
      i := 0;
      ghost var states := States();
      while i < |iotAttrs| && Less(iotAttrs[i].name, name)
        invariant i <= |iotAttrs| && i + Place(states[i..], name) == Place(states, name)
      {
        assert states[i..][1..] == states[i + 1..];
        assert states[i].name == iotAttrs[i].name;
        i := i + 1;
      }
      assert i < |iotAttrs| ==> states[i].name == iotAttrs[i].name;
    }

    /** m_iotAttrs.insert */
    method InsertEntry(name: Bytes, propType: int, size: nat, p: nat) returns (e: Entry)
      requires Valid() && ValidType(propType)
      requires Find(States(), name) == |iotAttrs| && p == Place(States(), name)
      modifies `iotAttrs
      ensures Distinct(iotAttrs) && Sorted(States())
      ensures States() == Insert(old(States()), NewAttr(name, false, propType, size))
      ensures fresh(e) && fresh(e.data) && p <= |old(iotAttrs)| && iotAttrs == With(old(iotAttrs), p, e)
    {
      ghost var before := States();
      e := new Entry(name, false, propType, size);
      assert States() == before;
      StatesWith(iotAttrs, p, e);
      DistinctWith(iotAttrs, p, e);
      ghost var after := StatesOf(With(iotAttrs, p, e));
      iotAttrs := With(iotAttrs, p, e);
      assert States() == after;
    }

    /** The new entry, when there was none with that name. */
    method AddEntry(name: Bytes, propType: int, size: nat) returns (added: Option<Entry>)
      requires Valid() && size > 0 && ValidType(propType)
      modifies `iotAttrs
      ensures Valid() && View() == AddStep(old(View()), name, propType, size)
      ensures added.None? ==> iotAttrs == old(iotAttrs)
      ensures added.Some? ==>
        && fresh(added.value) && fresh(added.value.data)
        && exists p :: 0 <= p <= |old(iotAttrs)| && iotAttrs == With(old(iotAttrs), p, added.value)
    {
      ghost var before := States();
      var i := Lookup(name);
      assert States() == before;
      if i < |iotAttrs| {
        return None;
      }
      var p := LookupPlace(name);
      assert States() == before;
      var e := InsertEntry(name, propType, size, p);
      return Some(e);
    }

    /** `registered` tells whether the new attribute was registered with the SDK here. */
    method DoAddProperty(name: Bytes, propType: int, size: int) returns (ret: int, registered: bool)
      requires Valid()
      modifies `iotAttrs
      ensures Valid() && View() == AddStep(old(View()), name, propType, size)
      ensures forall e :: e in iotAttrs && e !in old(iotAttrs) ==> fresh(e) && fresh(e.data)
      ensures ret == if size > 0 && ValidType(propType) then 0 else -1
      ensures registered <==> connected && |iotAttrs| > |old(iotAttrs)|
    {
      registered := false;
      if size <= 0 {
        return -1, false;
      }
      if propType != IOT_PROPERTY_INT32 && propType != IOT_PROPERTY_STRING {
        return -1, false;
      }
      var attr := AddEntry(name, propType, size);
      if attr.Some? && connected {
        registered := true;
      }
      return 0, registered;
    }

    /** A new session leaves the attribute table alone. */
    method CreateClient(name: Bytes) returns (client: Option<IOTClient>)
      requires Valid() && service.Valid()
      modifies service
      ensures Valid() && View() == old(View())
      ensures service.Valid() && service.Vectors() == old(service.Vectors())
      ensures client.Some? <==> |old(service.clients)| < MAX_CLINETS
      ensures client.Some? ==> fresh(client.value) && client.value.command == client.value.property == None
      ensures service.history == old(service.history) + if client.Some? then [Created(client.value)] else []
    {
      ghost var before := States();
      client := service.CreateClient(name);
      assert States() == before;
    }

    /** A follow in the registry leaves the attribute table alone. */
    method AddFollowing(kind: Kind, val: Bytes, session: IOTClient) returns (ret: int)
      requires Valid() && service.Valid()
      modifies service, service.Vectors()
      ensures Valid() && View() == old(View())
      ensures service.Valid() && fresh(service.Vectors() - old(service.Vectors()))
      ensures service.clients == old(service.clients)
      ensures service.history == old(service.history) + [Followed(kind, val, session)]
      ensures ret == 0
    {
      ghost var before := States();
      ret := service.AddFollowing(if kind == Property then FOLLOW_TYPE_PROPERTY else FOLLOW_TYPE_COMMAND, val, session);
      assert States() == before;
    }

    /** A session's followProperty: the registry first, then the attribute table. */
    method FollowProperty(session: IOTClient, key: Bytes, propType: int, size: int) returns (ret: int)
      requires Valid() && service.Valid()
      modifies `iotAttrs, service, service.Vectors()
      ensures Valid() && service.Valid() && fresh(service.Vectors() - old(service.Vectors()))
      ensures service.clients == old(service.clients)
      ensures service.history == old(service.history) + [Followed(Property, key, session)]
      ensures View() == AddStep(old(View()), key, propType, size)
      ensures ret == if size > 0 && ValidType(propType) then 0 else -1
    {
      ret := AddFollowing(Property, key, session);
      if ret != 0 {
        return -1;
      }
      var registered;
      ret, registered := DoAddProperty(key, propType, size);
    }

    /** A session's followCommand. */
    method FollowCommand(session: IOTClient, cmd: Bytes) returns (ret: int)
      requires Valid() && service.Valid()
      modifies service, service.Vectors()
      ensures Valid() && View() == old(View())
      ensures service.Valid() && fresh(service.Vectors() - old(service.Vectors()))
      ensures service.clients == old(service.clients)
      ensures service.history == old(service.history) + [Followed(Command, cmd, session)]
      ensures ret == 0
    {
      ret := AddFollowing(Command, cmd, session);
      if ret != 0 {
        return -1;
      }
    }

    /** The part of a report that concerns the entry; `sent` is what the urgent push carried. */
    method ReportEntry(a: Entry, val: Bytes, pushRet: int) returns (sent: Option<(Bytes, Reading)>)
      requires NulFree(val) && (a.isInt || |val| < a.data.Length)
      modifies `reportFlag, a, a.data
      ensures reportFlag
      ensures a.State() == ReportAttr(old(a.State()), val, connected, pushRet)
      ensures sent == if connected then Some((a.name, a.State().Reading())) else None
      ensures sent.Some? ==> Shows(sent.value.1, a.State().cell)
    {
      a.Mark();
      a.ClientWriteText(val);
      reportFlag := true;
      sent := None;
      if connected {
        sent := Some((a.name, a.Current()));
        ReadingShows(a.State());
        if pushRet == 0 {
          a.TakeInto(true);
        }
      }
    }

    method DoReportProperty(key: Bytes, val: Bytes, pushRet: int) returns (ret: int, sent: Option<(Bytes, Reading)>)
      requires Valid() && Legal(View(), Report(key, val, pushRet))
      modifies `reportFlag, iotAttrs, Buffers()
      ensures Valid() && iotAttrs == old(iotAttrs)
      ensures View() == ReportStep(old(View()), key, val, pushRet)
      ensures var i := Find(old(States()), key);
        if i == |iotAttrs| then ret == -1 && sent == None
        else ret == 0 && (sent == if connected then Some((key, States()[i].Reading())) else None)
             && (sent.Some? ==> Shows(sent.value.1, States()[i].cell))
    {
      ghost var before := States();
      var i := Lookup(key);
      assert States() == before;
      if i == |iotAttrs| {
        return -1, None;
      }
      assert before[i] == iotAttrs[i].State();
      sent := ReportEntry(iotAttrs[i], val, pushRet);
      OneChanged(before, iotAttrs, i);
      return 0, sent;
    }

    /** The walk of a bulk push: selected entries go into the payload and lose their mark. */
    method CollectSelected(ghost pushRet: int, ghost before: Shadow, ghost done: seq<Attr>) returns (payload: seq<(Bytes, Reading)>)
      requires Distinct(iotAttrs) && before == View() && |done| == |iotAttrs|
      requires forall i :: 0 <= i < |done| ==> done[i] == BulkAttr(before, before.attrs[i], pushRet)
      modifies iotAttrs
      ensures payload == Payload(before, |iotAttrs|)
      ensures States() == done
    {
      payload := [];
      for i := 0 to |iotAttrs|
        invariant payload == Payload(before, i)
        invariant WalkedTo(iotAttrs, i, done, before.attrs)
      {
        var entries := CollectAt(i, pushRet, before, done);
        payload := payload + entries;
      }
      WalkedThrough(iotAttrs, done, before.attrs);
    }

    /** One step of the walk: what it adds to the payload. */
    method CollectAt(i: nat, ghost pushRet: int, ghost before: Shadow, ghost done: seq<Attr>) returns (entries: seq<(Bytes, Reading)>)
      requires Distinct(iotAttrs) && i < |iotAttrs| && WalkedTo(iotAttrs, i, done, before.attrs)
      requires forceReport == before.forceReport && done[i] == BulkAttr(before, before.attrs[i], pushRet)
      modifies iotAttrs[i]
      ensures WalkedTo(iotAttrs, i + 1, done, before.attrs)
      ensures entries == if Selected(before, before.attrs[i]) then [(before.attrs[i].name, before.attrs[i].Reading())] else []
    {
      var a := iotAttrs[i];
      assert a.State() == before.attrs[i];
      entries := [];
      if forceReport || a.report {
        entries := [(a.name, a.Current())];
        a.TakeInto(pushRet == 0);
      }
    }

    /** `sent` is what IOT_Shadow_Push was called with, if it was called. */
    method PushProperties(pushRet: int) returns (ret: int, sent: Option<seq<(Bytes, Reading)>>)
      requires Valid()
      modifies `reportFlag, `forceReport, iotAttrs
      ensures Valid() && iotAttrs == old(iotAttrs)
      ensures View() == BulkStep(old(View()), pushRet)
      ensures sent == if BulkPayload(old(View())) == [] then None else Some(BulkPayload(old(View())))
      ensures ret == if sent.Some? then pushRet else 0
    {
      if !reportFlag {
        if !forceReport {
          return 0, None;
        }
      }
      ret, sent := PushSelected(pushRet);
    }

    /** The push itself; both flags are cleared whether it succeeds or not. */
    method PushSelected(pushRet: int) returns (ret: int, sent: Option<seq<(Bytes, Reading)>>)
      requires Valid() && Due(View())
      modifies `reportFlag, `forceReport, iotAttrs
      ensures Valid() && iotAttrs == old(iotAttrs)
      ensures View() == BulkStep(old(View()), pushRet)
      ensures sent == if BulkPayload(old(View())) == [] then None else Some(BulkPayload(old(View())))
      ensures ret == if sent.Some? then pushRet else 0
    {
      ghost var before := View();
      ghost var done := BulkDone(before, pushRet);
      ret, sent := 0, None;
      var payload := CollectSelected(pushRet, before, done);
      if payload != [] {
        sent := Some(payload);
        ret := pushRet;
      }
      ClearFlags();
    }

    method ClearFlags()
      modifies `reportFlag, `forceReport
      ensures View() == old(View()).(reportFlag := false, forceReport := false)
    {
      ghost var before := States();
      reportFlag := false;
      forceReport := false;
      assert States() == before;
    }

    /** Asks the clients with a zeroed buffer of the given size. */
    method AskClients(name: Bytes, size: nat, answers: IOTClient -> RemoteAnswer) returns (ret: int, value: Bytes)
      requires service.Valid() && size > 0
      ensures Outcome(ret, value) == GetOutcome(service.Asked(name, answers), Zeros(size), size)
    {
      var buffer := new byte[size](_ => 0);
      assert buffer[..size] == Zeros(size);
      ret := service.CallPropertyGet(name, buffer, size, answers);
      value := buffer[..size];
    }

    /** The poll of an integer. */
    method PollInt(a: Entry, answers: IOTClient -> RemoteAnswer, ghost audience: Audience)
      requires service.Valid() && audience == service.Asked(a.name, answers) && a.isInt && !a.isLocal
      requires PollFits(a.State(), audience)
      modifies `reportFlag, a
      ensures a.State() == PollAttr(old(a.State()), audience)
      ensures reportFlag <==> old(reportFlag) || PollMarks(old(a.State()), audience)
    {
      var ret, value := AskClients(a.name, INT_TEXT_LEN, answers);
      if ret > 0 {
        var tnew := Atoi(Text(value));
        if a.num != tnew {
          a.Mark();
          reportFlag := true;
          a.WriteInt(tnew);
        }
      }
    }

    /** The poll of a string: the comparison is on the whole text, the copy on the returned length. */
    method PollString(a: Entry, answers: IOTClient -> RemoteAnswer, ghost audience: Audience)
      requires service.Valid() && audience == service.Asked(a.name, answers) && !a.isInt && !a.isLocal
      requires PollFits(a.State(), audience)
      modifies `reportFlag, a, a.data
      ensures a.State() == PollAttr(old(a.State()), audience)
      ensures reportFlag <==> old(reportFlag) || PollMarks(old(a.State()), audience)
    {
      var ret, value := AskClients(a.name, ATTR_VALUE_MAX_LEN, answers);
      if ret > 0 {
        var tnew := Text(value);
        if Text(a.data[..]) != tnew {
          a.Mark();
          reportFlag := true;
          a.WriteText(tnew, ret);
        }
      }
    }

    /** One entry's part of the poll. */
    method PollEntry(a: Entry, answers: IOTClient -> RemoteAnswer, ghost audience: Audience)
      requires service.Valid() && audience == service.Asked(a.name, answers)
      requires PollFits(a.State(), audience)
      modifies `reportFlag, a, a.data
      ensures a.State() == PollAttr(old(a.State()), audience)
      ensures reportFlag <==> old(reportFlag) || PollMarks(old(a.State()), audience)
    {
      if a.isLocal {
      } else if a.isInt {
        PollInt(a, answers, audience);
      } else {
        PollString(a, answers, audience);
      }
    }

    /** `ask` says whom the service asks for the entries, and what it is answered. */
    ghost predicate AsksAs(entries: seq<Entry>, answers: Bytes -> IOTClient -> RemoteAnswer, ask: Bytes -> Audience)
      reads service, service.keyFollow.Values, service.cmdFollow.Values, service.Footprint()
    {
      && service.Valid()
      && forall i :: 0 <= i < |entries| ==> ask(entries[i].name) == service.Asked(entries[i].name, answers(entries[i].name))
    }

    /** The poll. `answers` gives the answer of each client for each name. */
    method UpdateProperties(answers: Bytes -> IOTClient -> RemoteAnswer, ghost ask: Bytes -> Audience) returns (ret: int)
      requires Valid() && AsksAs(iotAttrs, answers, ask) && Legal(View(), Poll(ask))
      modifies `reportFlag, iotAttrs, Buffers()
      ensures Valid() && iotAttrs == old(iotAttrs) && ret == 0
      ensures View() == PollStep(old(View()), ask)
    {
      ghost var done := PollDone(View(), ask);
      PollTable(done, answers, ask);
      return 0;
    }

    /** The walk of the poll. */
    method PollTable(ghost done: seq<Attr>, answers: Bytes -> IOTClient -> RemoteAnswer, ghost ask: Bytes -> Audience)
      requires Valid() && AsksAs(iotAttrs, answers, ask) && PolledOver(View(), ask, done) && Sorted(done)
      modifies `reportFlag, iotAttrs, Buffers()
      ensures Valid() && iotAttrs == old(iotAttrs)
      ensures var s := old(View());
        View() == s.(attrs := done, reportFlag := s.reportFlag || MarkedBefore(s, ask, |s.attrs|))
    {
      ghost var before := View();
      PollAll(before, done, answers, ask);
      WalkedThrough(iotAttrs, done, before.attrs);
    }

    /** The poll has been through the entries below `i`. */
    ghost predicate PolledTo(i: nat, before: Shadow, done: seq<Attr>, answers: Bytes -> IOTClient -> RemoteAnswer, ask: Bytes -> Audience)
      reads this, iotAttrs, Buffers(), service, service.keyFollow.Values, service.cmdFollow.Values, service.Footprint()
    {
      && i <= |iotAttrs| && WalkedTo(iotAttrs, i, done, before.attrs)
      && (reportFlag <==> before.reportFlag || MarkedBefore(before, ask, i))
      && AsksAs(iotAttrs, answers, ask)
    }

    method PollAll(ghost before: Shadow, ghost done: seq<Attr>, answers: Bytes -> IOTClient -> RemoteAnswer, ghost ask: Bytes -> Audience)
      requires Distinct(iotAttrs) && before == View() && AsksAs(iotAttrs, answers, ask)
      requires PolledOver(before, ask, done)
      modifies `reportFlag, iotAttrs, Buffers()
      ensures WalkedTo(iotAttrs, |iotAttrs|, done, before.attrs)
      ensures reportFlag <==> before.reportFlag || MarkedBefore(before, ask, |iotAttrs|)
    {
      for i := 0 to |iotAttrs|
        invariant PolledTo(i, before, done, answers, ask)
      {
        PollAt(i, before, done, answers, ask);
      }
    }

    /** The poll of the entry at `i` changes nothing the service looks at. */
    method PollIndex(i: nat, answers: Bytes -> IOTClient -> RemoteAnswer, ghost ask: Bytes -> Audience)
      requires i < |iotAttrs| && AsksAs(iotAttrs, answers, ask) && PollFits(iotAttrs[i].State(), ask(iotAttrs[i].name))
      modifies `reportFlag, iotAttrs[i], iotAttrs[i].data
      ensures AsksAs(iotAttrs, answers, ask)
      ensures iotAttrs[i].State() == PollAttr(old(iotAttrs[i].State()), ask(iotAttrs[i].name))
      ensures reportFlag <==> old(reportFlag) || PollMarks(old(iotAttrs[i].State()), ask(iotAttrs[i].name))
    {
      PollEntry(iotAttrs[i], answers(iotAttrs[i].name), ask(iotAttrs[i].name));
    }

    /** One step of the walk. */
    method PollAt(i: nat, ghost before: Shadow, ghost done: seq<Attr>, answers: Bytes -> IOTClient -> RemoteAnswer,
                  ghost ask: Bytes -> Audience)
      requires Distinct(iotAttrs) && i < |iotAttrs| && WalkedTo(iotAttrs, i, done, before.attrs) && AsksAs(iotAttrs, answers, ask)
      requires var a := before.attrs[i]; PollFits(a, ask(a.name)) && done[i] == PollAttr(a, ask(a.name))
      modifies `reportFlag, iotAttrs[i], iotAttrs[i].data
      ensures WalkedTo(iotAttrs, i + 1, done, before.attrs) && AsksAs(iotAttrs, answers, ask)
      ensures reportFlag <==> old(reportFlag) || PollMarks(before.attrs[i], ask(before.attrs[i].name))
    {
      assert iotAttrs[i].State() == before.attrs[i];
      PollIndex(i, answers, ask);
    }

    /** The period changes, and is to be reported. */
    method UpdateReportPeriod(t: nat)
      requires Valid()
      modifies `reportPeriod, iotAttrs
      ensures Valid() && iotAttrs == old(iotAttrs)
      ensures View() == PeriodStep(old(View()), t)
    {
      ghost var before := States();
      var i := Lookup(LOCAL_ATTR);
      assert States() == before;
      if i < |iotAttrs| {
        SetPeriod(i, t);
      }
    }

    method SetPeriod(i: nat, t: nat)
      requires Valid() && i < |iotAttrs|
      modifies `reportPeriod, iotAttrs[i]
      ensures Valid() && reportPeriod == t
      ensures States() == old(States())[i := old(States())[i].(report := true)]
    {
      ghost var before := States();
      assert before[i] == iotAttrs[i].State();
      reportPeriod := t;
      iotAttrs[i].Mark();
      OneChanged(before, iotAttrs, i);
      NamesSorted(before, States());
    }

    /** The write of a value the cloud set, which the SDK makes. */
    method CloudWrite(name: Bytes, cell: Cell) returns (i: nat)
      requires Valid() && Legal(View(), CloudSet(name, cell))
      modifies iotAttrs, Buffers()
      ensures Valid() && iotAttrs == old(iotAttrs) && i == Find(old(States()), name)
      ensures States() == old(States())[i := old(States())[i].Write(cell)]
    {
      ghost var before := States();
      i := Lookup(name);
      assert States() == before;
      assert before[i] == iotAttrs[i].State();
      WriteCell(iotAttrs[i], cell);
      OneChanged(before, iotAttrs, i);
      NamesSorted(before, States());
    }

    method WriteCell(a: Entry, cell: Cell)
      requires cell.Num? == a.isInt && (cell.Buf? ==> |cell.data| == a.data.Length)
      modifies a, a.data
      ensures a.State() == old(a.State()).Write(cell)
    {
      if a.isInt {
        a.WriteInt(cell.i);
      } else {
        a.Overwrite(cell.data);
      }
    }

    /** The default callback: the value goes to the followers as text. */
    method DefaultPropertyCB(name: Bytes, cell: Cell) returns (calls: seq<Delivery>)
      requires service.Valid()
      modifies `forceReport
      ensures forceReport && service.Valid()
      ensures calls == Deliveries(service.Addressees(Property, name), Property, name, ForwardedText(cell))
    {
      var value := if cell.Num? then FormatInt(cell.i) else SnprintfText(Text(cell.data), ATTR_VALUE_MAX_LEN);
      forceReport := true;
      var ret;
      ret, calls := service.CallPropertySet(name, value);
    }

    /** The callback of the local attribute: its value, read without a sign, is the period. */
    method PeriodPropertyCB(i: int32)
      requires Valid()
      modifies `forceReport, `reportPeriod, iotAttrs
      ensures Valid() && iotAttrs == old(iotAttrs)
      ensures View() == PeriodStep(old(View()).(forceReport := true), i % 0x1_0000_0000)
    {
      ghost var before := States();
      forceReport := true;
      assert States() == before;
      UpdateReportPeriod(i % 0x1_0000_0000);
    }

    /** The callback of the entry at `i`. */
    method Callback(i: nat, cell: Cell) returns (calls: seq<Delivery>)
      requires Valid() && service.Valid() && i < |iotAttrs| && (iotAttrs[i].isLocal ==> cell.Num?)
      modifies `forceReport, `reportPeriod, iotAttrs
      ensures Valid() && iotAttrs == old(iotAttrs) && service.Valid()
      ensures var t := old(View()).(forceReport := true);
        View() == if iotAttrs[i].isLocal then PeriodStep(t, cell.i % 0x1_0000_0000) else t
      ensures calls ==
        if iotAttrs[i].isLocal then []
        else Deliveries(service.Addressees(Property, iotAttrs[i].name), Property, iotAttrs[i].name, ForwardedText(cell))
    {
      if iotAttrs[i].isLocal {
        PeriodPropertyCB(cell.i);
        calls := [];
      } else {
        ghost var before := States();
        calls := DefaultPropertyCB(iotAttrs[i].name, cell);
        assert States() == before;
      }
    }

    /** The cloud sets a value: the SDK writes it and calls the attribute's callback. */
    method OnCloudSet(name: Bytes, cell: Cell) returns (calls: seq<Delivery>)
      requires Valid() && service.Valid() && Legal(View(), CloudSet(name, cell))
      modifies `forceReport, `reportPeriod, iotAttrs, Buffers()
      ensures Valid() && iotAttrs == old(iotAttrs) && service.Valid()
      ensures View() == CloudStep(old(View()), name, cell)
      ensures calls == CloudCalls(service, old(View()), name, cell)
    {
      ghost var before := States();
      var i := CloudWrite(name, cell);
      assert before[i].name == name && States()[i] == iotAttrs[i].State();
      calls := Callback(i, cell);
    }

    /** The command callback: an accepted message goes to the followers of the scanned name, any other to nobody. */
    method OnCommand(data: Bytes) returns (calls: seq<Delivery>)
      requires service.Valid() && NulFree(data)
      ensures ScannedName(data).None? ==> calls == []
      ensures ScannedName(data).Some? ==>
        calls == Deliveries(service.Addressees(Command, ScannedName(data).value), Command, ScannedName(data).value, data)
    {
      var name := ScanCommand(data);
      if name == None {
        return [];
      }
      var ret;
      ret, calls := service.CallCommandCB(name.value, data);
    }

    /** A round of the thread loop after the yield: the poll when the period is over, then the push. */
    method LoopRound(started: nat, now: nat, afterPoll: nat, answers: Bytes -> IOTClient -> RemoteAnswer,
                     ghost ask: Bytes -> Audience, pushRet: int)
      returns (restarted: nat, sent: Option<seq<(Bytes, Reading)>>)
      requires Valid() && AsksAs(iotAttrs, answers, ask) && started <= now <= afterPoll
      requires PeriodOver(View(), started, now) ==> Legal(View(), Poll(ask))
      modifies `reportFlag, `forceReport, iotAttrs, Buffers()
      ensures Valid() && iotAttrs == old(iotAttrs)
      ensures RoundDone(old(View()), started, PollClock.Round(now, afterPoll), ask, pushRet, View(), restarted)
      ensures var polled := PolledFirst(old(View()), started, now, ask);
        sent == if BulkPayload(polled) == [] then None else Some(BulkPayload(polled))
    {
      restarted := started;
      if reportPeriod < now - started {
        var ret := UpdateProperties(answers, ask);
        restarted := afterPoll;
      }
      var ret;
      ret, sent := PushProperties(pushRet);
    }
  }

  /**
   * What one round of the thread loop does, `started` being where its period began: it polls iff the check finds the
   * period over, and then pushes.
   */
  ghost predicate RoundDone(s: Shadow, started: nat, r: PollClock.Round, ask: Bytes -> Audience, pushRet: int,
                            t: Shadow, restarted: nat)
  {
    && (PeriodOver(s, started, r.check) ==> Legal(s, Poll(ask)))
    && t == BulkStep(PolledFirst(s, started, r.check, ask), pushRet)
    && restarted == if PeriodOver(s, started, r.check) then r.afterPoll else started
  }

  /**
   * The rounds of the thread loop, whatever the cloud and the clients do between them as long as the period stays: they
   * poll exactly when the clock's loop does, so its spacing is that of the server's polls.
   */
  lemma {:induction false} RoundsPollByClock(start: nat, rounds: seq<PollClock.Round>, period: nat, before: seq<Shadow>,
                                             after: seq<Shadow>, starts: seq<nat>, asks: seq<Bytes -> Audience>,
                                             pushRets: seq<int>, n: nat)
    requires n < |rounds| == |before| == |after| == |asks| == |pushRets| == |starts| - 1
    requires starts[0] == start
    requires forall k :: 0 <= k < |rounds| ==>
      before[k].period == period && RoundDone(before[k], starts[k], rounds[k], asks[k], pushRets[k], after[k], starts[k + 1])
    ensures starts[n] == PollClock.PeriodStart(start, PollClock.Polls(start, rounds, period, n))
    ensures PollClock.Polls(start, rounds, period, n + 1) == PollClock.Polls(start, rounds, period, n) +
      if PeriodOver(before[n], starts[n], rounds[n].check) then [PollClock.Poll(rounds[n].check, rounds[n].afterPoll)] else []
  {
    assert RoundDone(before[n], starts[n], rounds[n], asks[n], pushRets[n], after[n], starts[n + 1]);
    if n > 0 {
      RoundsPollByClock(start, rounds, period, before, after, starts, asks, pushRets, n - 1);
      var m := n - 1;
      assert RoundDone(before[m], starts[m], rounds[m], asks[m], pushRets[m], after[m], starts[m + 1]);
    }
  }

  lemma {:induction false} AnswersNeedHolder(v: seq<IOTClient>, answers: IOTClient -> RemoteAnswer)
    requires AnswersOf(v, answers) != []
    ensures exists c :: c in v && HasCallback(c, Property)
  {
    if !HasCallback(v[|v| - 1], Property) {
      AnswersNeedHolder(v[..|v| - 1], answers);
    }
  }

  /**
   * Polling marks an attribute only for a client that followed it, was not removed since, and holds a callback: never
   * a local one, never through the first client that stands in for followers, never when the followers have gone.
   */
  lemma MarkedHasFollower(service: IOTService, a: Attr, answers: IOTClient -> RemoteAnswer)
    requires service.Valid() && PollMarks(a, service.Asked(a.name, answers))
    ensures !a.isLocal && exists c :: Follows(service.history, Property, a.name, c) && HasCallback(c, Property)
  {
    var v := service.keyFollow[a.name].items;
    AnswersNeedHolder(v, answers);
    var c :| c in v && HasCallback(c, Property);
    assert c in service.View().Followers(Property, a.name);
    ListedIffFollows(service.history, Property, a.name, c);
  }

  /** The calls made when the cloud sets a value: its text goes to each addressed client that holds a callback. */
  ghost function CloudCalls(service: IOTService, s: Shadow, name: Bytes, cell: Cell): seq<Delivery>
    requires Legal(s, CloudSet(name, cell))
    reads service, service.keyFollow.Values, service.cmdFollow.Values, service.Addressees(Property, name)
  {
    if s.attrs[Find(s.attrs, name)].isLocal then []
    else Deliveries(service.Addressees(Property, name), Property, name, ForwardedText(cell))
  }

  predicate PeriodOver(s: Shadow, started: nat, now: nat) {
    s.period < now - started
  }

  /** The state a round pushes from. */
  function PolledFirst(s: Shadow, started: nat, now: nat, ask: Bytes -> Audience): Shadow
    requires PeriodOver(s, started, now) ==> Legal(s, Poll(ask))
  {
    if PeriodOver(s, started, now) then PollStep(s, ask) else s
  }

  /** The poll marks one of the first `n` entries. */
  predicate MarkedBefore(s: Shadow, ask: Bytes -> Audience, n: nat)
    requires n <= |s.attrs|
  {
    n > 0 && (MarkedBefore(s, ask, n - 1) || PollMarks(s.attrs[n - 1], ask(s.attrs[n - 1].name)))
  }

  lemma {:induction false} MarkedBeforeIff(s: Shadow, ask: Bytes -> Audience, n: nat)
    requires n <= |s.attrs|
    ensures MarkedBefore(s, ask, n) <==> exists k :: 0 <= k < n && PollMarks(s.attrs[k], ask(s.attrs[k].name))
  {
    if n > 0 {
      MarkedBeforeIff(s, ask, n - 1);
    }
  }

  /** The walk over the table has turned the first `i` states of `rest` into those of `done`. */
  ghost predicate WalkedTo(entries: seq<Entry>, i: nat, done: seq<Attr>, rest: seq<Attr>)
    reads entries, BuffersOf(entries)
  {
    && |done| == |rest| == |entries|
    && (forall k :: 0 <= k < i && k < |entries| ==> entries[k].State() == done[k])
    && (forall k :: i <= k < |entries| ==> entries[k].State() == rest[k])
  }

  lemma WalkedThrough(entries: seq<Entry>, done: seq<Attr>, rest: seq<Attr>)
    requires WalkedTo(entries, |entries|, done, rest)
    ensures StatesOf(entries) == done
  {
  }

  /** The table after a bulk push, entry by entry. */
  lemma BulkDone(s: Shadow, pushRet: int) returns (done: seq<Attr>)
    requires Sorted(s.attrs) && Due(s)
    ensures |done| == |s.attrs| && Sorted(done)
    ensures forall i :: 0 <= i < |done| ==> done[i] == BulkAttr(s, s.attrs[i], pushRet)
    ensures BulkStep(s, pushRet) == s.(attrs := done, reportFlag := false, forceReport := false)
  {
    done := BulkStep(s, pushRet).attrs;
    StepNames(s, Bulk(pushRet));
    NamesSorted(s.attrs, done);
  }

  ghost predicate PolledOver(s: Shadow, ask: Bytes -> Audience, done: seq<Attr>) {
    |done| == |s.attrs| && forall i :: 0 <= i < |done| ==>
      PollFits(s.attrs[i], ask(s.attrs[i].name)) && done[i] == PollAttr(s.attrs[i], ask(s.attrs[i].name))
  }

  /** The table after a poll, entry by entry. */
  lemma PollDone(s: Shadow, ask: Bytes -> Audience) returns (done: seq<Attr>)
    requires Sorted(s.attrs) && Legal(s, Poll(ask))
    ensures PolledOver(s, ask, done) && Sorted(done)
    ensures PollStep(s, ask) == s.(attrs := done, reportFlag := s.reportFlag || MarkedBefore(s, ask, |s.attrs|))
  {
    done := PollStep(s, ask).attrs;
    MarkedBeforeIff(s, ask, |s.attrs|);
    StepNames(s, Poll(ask));
    NamesSorted(s.attrs, done);
  }

  /** When only one entry changed, the table's states changed only there. */
  lemma OneChanged(before: seq<Attr>, entries: seq<Entry>, i: nat)
    requires |before| == |entries| && i < |entries|
    requires forall k :: 0 <= k < |entries| && k != i ==> entries[k].State() == before[k]
    ensures StatesOf(entries) == before[i := entries[i].State()]
  {
  }
}
