/** What a single step of the device shadow does to the table, and that nothing else changes. */
module ShadowEffects {
  import opened AnswerCollection
  import opened CStrings
  import opened Decimal
  import opened NameOrder
  import opened ShadowAgreement
  import opened ShadowModel
  import opened ShadowPoll
  import opened ShadowPush

  /** A cell that nobody wrote: zero, or all zeros. */
  predicate Blank(c: Cell) {
    match c
    case Num(i) => i == 0
    case Buf(data) => forall k :: 0 <= k < |data| ==> data[k] == 0
  }

  lemma InsertedIsFound(attrs: seq<Attr>, a: Attr)
    requires Sorted(attrs) && Find(attrs, a.name) == |attrs|
    ensures var t := Insert(attrs, a); Sorted(t) && Find(t, a.name) < |t| && t[Find(t, a.name)] == a
  {
    InsertSorted(attrs, a);
    assert Insert(attrs, a)[Place(attrs, a.name)] == a;
    FindUnique(Insert(attrs, a), Place(attrs, a.name));
  }

  /**
   * An attribute of a valid type and a positive size is in the table afterwards, blank and of its type if it was not
   * there before; every entry that was there stays as it was. Anything else changes nothing.
   */
  lemma AddedIsFound(s: Shadow, name: Bytes, propType: int, size: int)
    requires Sorted(s.attrs)
    ensures var t := AddStep(s, name, propType, size);
      var i, j := Find(s.attrs, name), Find(t.attrs, name);
      && Sorted(t.attrs) && t == s.(attrs := t.attrs)
      && (size > 0 && (propType == IOT_PROPERTY_INT32 || propType == IOT_PROPERTY_STRING) ==> j < |t.attrs|)
      && (size <= 0 || (propType != IOT_PROPERTY_INT32 && propType != IOT_PROPERTY_STRING) || i < |s.attrs| ==> t == s)
      && (i == |s.attrs| && j < |t.attrs| ==>
           && |t.attrs| == |s.attrs| + 1
           && var a := t.attrs[j];
              && Blank(a.cell) && !a.isLocal && !a.report && !a.written
              && (propType == IOT_PROPERTY_INT32 ==> a.cell.Num?)
              && (propType == IOT_PROPERTY_STRING ==> a.cell.Buf? && |a.cell.data| == size))
  {
    if size > 0 && ValidType(propType) && Find(s.attrs, name) == |s.attrs| {
      InsertedIsFound(s.attrs, NewAttr(name, false, propType, size));
    }
  }

  lemma BetweenAt<T>(v: seq<T>, p: nat, x: T, i: nat)
    requires p <= |v| && i <= |v|
    ensures (v[..p] + [x] + v[p..])[i] == if i < p then v[i] else if i == p then x else v[i - 1]
  {
  }

  lemma InsertAt(attrs: seq<Attr>, a: Attr, i: nat)
    requires i <= |attrs|
    ensures var p := Place(attrs, a.name);
      Insert(attrs, a)[i] == if i < p then attrs[i] else if i == p then a else attrs[i - 1]
  {
    BetweenAt(attrs, Place(attrs, a.name), a, i);
  }

  /** No other name comes into the table. */
  lemma AddNamesOnly(s: Shadow, name: Bytes, propType: int, size: int, other: Bytes)
    requires name != other && Find(s.attrs, other) == |s.attrs|
    ensures Find(AddStep(s, name, propType, size).attrs, other) == |AddStep(s, name, propType, size).attrs|
  {
    if size > 0 && ValidType(propType) && Find(s.attrs, name) == |s.attrs| {
      var a := NewAttr(name, false, propType, size);
      forall i | 0 <= i <= |s.attrs|
        ensures Insert(s.attrs, a)[i].name != other
      {
        InsertAt(s.attrs, a, i);
      }
    }
  }

  lemma AddKeepsEntry(s: Shadow, name: Bytes, propType: int, size: int, other: Bytes)
    requires Sorted(s.attrs) && Find(s.attrs, other) < |s.attrs|
    ensures var t := AddStep(s, name, propType, size);
      Find(t.attrs, other) < |t.attrs| && t.attrs[Find(t.attrs, other)] == s.attrs[Find(s.attrs, other)]
  {
    if size > 0 && ValidType(propType) && Find(s.attrs, name) == |s.attrs| {
      var a := NewAttr(name, false, propType, size);
      InsertSorted(s.attrs, a);
      FindAfterInsert(s.attrs, a, other);
    }
  }

  /**
   * A report stores its value in the attribute's own storage: the number `atoi` reads, or the text in front of what
   * stands behind it. The attribute is marked unless the urgent push delivered it, and nothing else changes.
   */
  lemma ReportStores(s: Shadow, name: Bytes, val: Bytes, pushRet: int)
    requires Legal(s, Report(name, val, pushRet)) && Find(s.attrs, name) < |s.attrs|
    ensures var t := ReportStep(s, name, val, pushRet);
      var i := Find(s.attrs, name);
      && t == s.(attrs := t.attrs, reportFlag := true) && |t.attrs| == |s.attrs|
      && (forall k :: 0 <= k < |s.attrs| && k != i ==> t.attrs[k] == s.attrs[k])
      && var a, b := s.attrs[i], t.attrs[i];
      && b.name == name && b.isLocal == a.isLocal && b.written
      && (b.report <==> !(s.connected && pushRet == 0))
      && (a.cell.Num? ==> b.cell == Num(Atoi(val)))
      && (a.cell.Buf? ==> b.cell == Buf(val + a.cell.data[|val|..]))
  {
    var a := s.attrs[Find(s.attrs, name)];
    if a.cell.Buf? {
      StrncpyFronts(a.cell.data, val);
    }
  }

  /** A report of an unknown name changes nothing. */
  lemma UnknownReport(s: Shadow, name: Bytes, val: Bytes, pushRet: int)
    requires Legal(s, Report(name, val, pushRet)) && Find(s.attrs, name) == |s.attrs|
    ensures ReportStep(s, name, val, pushRet) == s
  {
  }

  /** A reported integer is stored: what `%d` prints of it, also with blanks in front and other text behind. */
  lemma ReportedIntegerIsStored(s: Shadow, name: Bytes, blanks: Bytes, i: int32, rest: Bytes, pushRet: int)
    requires forall k :: 0 <= k < |blanks| ==> blanks[k] == 32 || 9 <= blanks[k] <= 13
    requires rest != [] ==> !(48 <= rest[0] <= 57)
    requires var val := blanks + FormatInt(i) + rest;
      && Find(s.attrs, name) < |s.attrs| && s.attrs[Find(s.attrs, name)].cell.Num?
      && Legal(s, Report(name, val, pushRet))
    ensures ReportStep(s, name, blanks + FormatInt(i) + rest, pushRet).attrs[Find(s.attrs, name)].cell == Num(i)
  {
    AtoiOfPadded(blanks, i, rest);
    ReportStores(s, name, blanks + FormatInt(i) + rest, pushRet);
  }

  /** What a poll reads of followers that all answer with the same C string. */
  lemma SameAnswerPolled(a: Attr, answers: seq<RemoteAnswer>, text: Bytes)
    requires answers != [] && forall k :: 0 <= k < |answers| ==> answers[k] == Returned(text)
    requires NulFree(text) && |text| < (if a.cell.Num? then 32 else 256)
    ensures var o := Polled(a, Consulted(answers));
      o.ret == |text| && Text(o.val) == text && Strlen(o.val) == |text| < |o.val|
  {
    AgreeingAnswers(answers, Zeros(PollSize(a.cell)), PollSize(a.cell), text);
    OverlayZeros(text, PollSize(a.cell));
  }

  /**
   * An integer is polled: the number the followers answer with is stored, and the attribute is marked iff it is another
   * one than before.
   */
  lemma IntegerIsPolled(a: Attr, answers: seq<RemoteAnswer>, text: Bytes)
    requires a.cell.Num? && !a.isLocal
    requires answers != [] && forall k :: 0 <= k < |answers| ==> answers[k] == Returned(text)
    requires NulFree(text) && 0 < |text| < 32
    ensures PollFits(a, Consulted(answers))
    ensures PollMarks(a, Consulted(answers)) <==> a.cell.i != Atoi(text)
    ensures var b := PollAttr(a, Consulted(answers));
      && b.cell == Num(Atoi(text)) && b == a.(cell := b.cell, report := b.report, written := b.written)
      && (b.report <==> a.report || a.cell.i != Atoi(text))
      && (b.written <==> a.written || a.cell.i != Atoi(text))
  {
    SameAnswerPolled(a, answers, text);
  }

  /** In particular, a printed integer is stored as it is. */
  lemma PrintedIntegerIsPolled(a: Attr, answers: seq<RemoteAnswer>, i: int32)
    requires a.cell.Num? && !a.isLocal
    requires answers != [] && forall k :: 0 <= k < |answers| ==> answers[k] == Returned(FormatInt(i))
    ensures PollFits(a, Consulted(answers))
    ensures PollMarks(a, Consulted(answers)) <==> a.cell != Num(i)
    ensures PollAttr(a, Consulted(answers)).cell == Num(i)
    ensures PollAttr(a, Consulted(answers)).report <==> a.report || a.cell != Num(i)
  {
    AtoiOfFormatInt(i);
    FormatIntLength(i);
    IntegerIsPolled(a, answers, FormatInt(i));
  }

  /**
   * A string is polled: it is marked iff the followers' answer is another text than the stored one, and then the answer
   * is copied in front of what stands behind it.
   */
  lemma StringIsPolled(a: Attr, answers: seq<RemoteAnswer>, text: Bytes)
    requires a.cell.Buf? && !a.isLocal && Strlen(a.cell.data) < |a.cell.data|
    requires answers != [] && forall k :: 0 <= k < |answers| ==> answers[k] == Returned(text)
    requires NulFree(text) && 0 < |text| < 256 && |text| < |a.cell.data|
    ensures PollFits(a, Consulted(answers))
    ensures PollMarks(a, Consulted(answers)) <==> Text(a.cell.data) != text
    ensures var b := PollAttr(a, Consulted(answers));
      && b == a.(cell := b.cell, report := b.report, written := b.written)
      && (b.report <==> a.report || Text(a.cell.data) != text)
      && b.cell == if Text(a.cell.data) != text then Buf(text + a.cell.data[|text|..]) else a.cell
  {
    SameAnswerPolled(a, answers, text);
    StrncpyFronts(a.cell.data, text);
  }

  /** Nobody asked, no callback, or an empty last answer: a poll changes nothing. */
  lemma SilentPoll(a: Attr, audience: Audience)
    requires a.isLocal || Polled(a, audience).ret <= 0
    ensures PollFits(a, audience) && !PollMarks(a, audience) && PollAttr(a, audience) == a
  {
  }

  /** The poll treats every entry by itself, and sets the flag iff it marked one. */
  lemma PollEffects(s: Shadow, ask: Bytes -> Audience)
    requires Legal(s, Poll(ask))
    ensures var t := PollStep(s, ask);
      && t == s.(attrs := t.attrs, reportFlag := t.reportFlag) && |t.attrs| == |s.attrs|
      && (forall i :: 0 <= i < |s.attrs| ==> t.attrs[i] == PollAttr(s.attrs[i], ask(s.attrs[i].name)))
      && (forall i :: 0 <= i < |s.attrs| && !PollMarks(s.attrs[i], ask(s.attrs[i].name)) ==> t.attrs[i] == s.attrs[i])
      && (forall i :: 0 <= i < |s.attrs| && PollMarks(s.attrs[i], ask(s.attrs[i].name)) ==> t.attrs[i].report)
      && (t.reportFlag <==> s.reportFlag || exists i :: 0 <= i < |s.attrs| && PollMarks(s.attrs[i], ask(s.attrs[i].name)))
  {
  }

  lemma PeriodStepMarks(s: Shadow, t: nat)
    ensures var u := PeriodStep(s, t);
      && u == s.(attrs := u.attrs, period := u.period) && |u.attrs| == |s.attrs|
      && forall k :: 0 <= k < |s.attrs| ==> u.attrs[k] == s.attrs[k] || u.attrs[k] == s.attrs[k].(report := true)
  {
  }

  /** The state after the write, before the callback. */
  function CloudWritten(s: Shadow, name: Bytes, cell: Cell): Shadow
    requires Legal(s, CloudSet(name, cell))
  {
    var i := Find(s.attrs, name);
    s.(attrs := s.attrs[i := s.attrs[i].Write(cell)], forceReport := true)
  }

  lemma CallbackMarks(s: Shadow, name: Bytes, cell: Cell)
    requires Legal(s, CloudSet(name, cell))
    ensures var w, t := CloudWritten(s, name, cell), CloudStep(s, name, cell);
      && t == w.(attrs := t.attrs, period := t.period) && |t.attrs| == |w.attrs|
      && forall k :: 0 <= k < |w.attrs| ==> t.attrs[k] == w.attrs[k] || t.attrs[k] == w.attrs[k].(report := true)
  {
    if s.attrs[Find(s.attrs, name)].isLocal {
      PeriodStepMarks(CloudWritten(s, name, cell), cell.i % 0x1_0000_0000);
    }
  }

  /** A cloud write stores the value and forces a report of everything. Other values stay. */
  lemma CloudStores(s: Shadow, name: Bytes, cell: Cell)
    requires Legal(s, CloudSet(name, cell))
    ensures var t := CloudStep(s, name, cell);
      var i := Find(s.attrs, name);
      && t.forceReport && t.reportFlag == s.reportFlag && t.connected == s.connected && |t.attrs| == |s.attrs|
      && t.attrs[i].cell == cell && t.attrs[i].written
      && (forall k :: 0 <= k < |s.attrs| && k != i ==> t.attrs[k].cell == s.attrs[k].cell)
      && (forall k :: 0 <= k < |s.attrs| ==> t.attrs[k].name == s.attrs[k].name && t.attrs[k].isLocal == s.attrs[k].isLocal)
  {
    CallbackMarks(s, name, cell);
  }

  /** Unless the attribute is local, marks and period stay, too. */
  lemma CloudKeepsMarks(s: Shadow, name: Bytes, cell: Cell)
    requires Legal(s, CloudSet(name, cell)) && !s.attrs[Find(s.attrs, name)].isLocal
    ensures var t := CloudStep(s, name, cell);
      && t.period == s.period && |t.attrs| == |s.attrs|
      && (forall k :: 0 <= k < |s.attrs| ==> t.attrs[k].report == s.attrs[k].report)
      && (forall k :: 0 <= k < |s.attrs| && k != Find(s.attrs, name) ==> t.attrs[k] == s.attrs[k])
  {
  }

  /** The local attribute's value, read without a sign, becomes the period, and only this attribute is marked. */
  lemma PeriodIsSet(s: Shadow, i: int32)
    requires Sorted(s.attrs) && Legal(s, CloudSet(LOCAL_ATTR, Num(i))) && s.attrs[Find(s.attrs, LOCAL_ATTR)].isLocal
    ensures var t := CloudStep(s, LOCAL_ATTR, Num(i));
      && t.period == (if i >= 0 then i else i + 0x1_0000_0000)
      && t.attrs[Find(s.attrs, LOCAL_ATTR)].report && t.attrs[Find(s.attrs, LOCAL_ATTR)].cell == Num(i)
      && forall k :: 0 <= k < |s.attrs| && k != Find(s.attrs, LOCAL_ATTR) ==> t.attrs[k] == s.attrs[k]
  {
    var j := Find(s.attrs, LOCAL_ATTR);
    var w := s.attrs[j := s.attrs[j].Write(Num(i))];
    FindByNames(s.attrs, w, LOCAL_ATTR);
  }

  /** A bulk push changes marks and flags only. */
  lemma BulkEffects(s: Shadow, pushRet: int)
    ensures var t := BulkStep(s, pushRet);
      && t.connected == s.connected && t.period == s.period && |t.attrs| == |s.attrs|
      && forall i :: 0 <= i < |s.attrs| ==>
           && t.attrs[i].name == s.attrs[i].name && t.attrs[i].isLocal == s.attrs[i].isLocal
           && t.attrs[i].cell == s.attrs[i].cell && t.attrs[i].written == s.attrs[i].written
  {
  }

  /** An attribute that is not noted as written is blank. */
  predicate BlankUnlessWritten(s: Shadow) {
    forall i :: 0 <= i < |s.attrs| && !s.attrs[i].written ==> Blank(s.attrs[i].cell)
  }

  lemma AddStaysBlank(s: Shadow, op: Op)
    requires op.Add? && BlankUnlessWritten(s)
    ensures BlankUnlessWritten(Step(s, op))
  {
    var t := Step(s, op);
    if |t.attrs| > |s.attrs| {
      var a := NewAttr(op.name, false, op.propType, op.size);
      var p := Place(s.attrs, a.name);
      forall i | 0 <= i < |t.attrs| && !t.attrs[i].written
        ensures Blank(t.attrs[i].cell)
      {
        assert t.attrs[i] == if i < p then s.attrs[i] else if i == p then a else s.attrs[i - 1];
      }
    }
  }

  lemma StepStaysBlank(s: Shadow, op: Op)
    requires Legal(s, op) && BlankUnlessWritten(s)
    ensures BlankUnlessWritten(Step(s, op))
  {
    if op.Add? {
      AddStaysBlank(s, op);
    } else {
      var t := Step(s, op);
      forall i | 0 <= i < |t.attrs| && !t.attrs[i].written
        ensures Blank(t.attrs[i].cell)
      {
        assert !s.attrs[i].written && t.attrs[i].cell == s.attrs[i].cell;
      }
    }
  }

  /** So the agreement with the cloud leaves out only attributes that still have the value they were created with. */
  lemma {:induction false} UnwrittenIsBlank(s: Shadow, ops: seq<Op>)
    requires LegalRun(s, ops) && BlankUnlessWritten(s)
    ensures BlankUnlessWritten(Run(s, ops))
    decreases |ops|
  {
    if ops != [] {
      StepStaysBlank(s, ops[0]);
      UnwrittenIsBlank(Step(s, ops[0]), ops[1..]);
    }
  }

  lemma UnwrittenIsBlankFromStart(reportFlag: bool, ops: seq<Op>)
    requires LegalRun(Initial(reportFlag), ops)
    ensures BlankUnlessWritten(Run(Initial(reportFlag), ops))
  {
    UnwrittenIsBlank(Initial(reportFlag), ops);
  }

  /** A fresh server knows the attribute "report_period" only, is not connected, and polls every 20 seconds. */
  lemma FreshShadow(reportFlag: bool)
    ensures var s := Initial(reportFlag);
      && s.period == 20000 && !s.connected && !s.forceReport && s.reportFlag == reportFlag
      && |s.attrs| == 1 && s.attrs[0].isLocal && s.attrs[0].cell == Num(0) && !s.attrs[0].report
      && |s.attrs[0].name| == |"report_period"|
      && forall k :: 0 <= k < |s.attrs[0].name| ==> s.attrs[0].name[k] == "report_period"[k] as int
  {
    assert forall k :: 0 <= k < 13 ==> LOCAL_ATTR[k] == "report_period"[k] as int;
  }
}
