/** What every run of the shadow keeps: the table stays sorted, and no change is lost on its way to the cloud. */
module ShadowAgreement {
  import opened CStrings
  import opened NameOrder
  import opened Options
  import opened ShadowModel

  /**
   * The cloud knows the attribute's value, or it will be sent: it is marked, everything will be sent, it was never
   * written, or it is the value a failed bulk push carried. A mark is never stranded without a flag.
   */
  ghost predicate Accounted(s: Shadow, a: Attr) {
    && (a.report || s.forceReport || !a.written || a.pushed == Some(a.Reading()) || a.lost == Some(a.Reading()))
    && (a.report ==> Due(s))
  }

  ghost predicate Agrees(s: Shadow) {
    && Sorted(s.attrs)
    && forall i :: 0 <= i < |s.attrs| ==> Accounted(s, s.attrs[i])
  }

  lemma InsertSorted(attrs: seq<Attr>, a: Attr)
    requires Sorted(attrs) && Find(attrs, a.name) == |attrs|
    ensures Sorted(Insert(attrs, a))
  {
    forall k | Place(attrs, a.name) <= k < |attrs|
      ensures Less(a.name, attrs[k].name)
    {
      LessAfterPlace(attrs, a.name, k);
    }
    BetweenSorted(attrs, a, Place(attrs, a.name));
  }

  lemma BetweenSorted(attrs: seq<Attr>, a: Attr, p: nat)
    requires Sorted(attrs) && p <= |attrs|
    requires forall k :: 0 <= k < p ==> Less(attrs[k].name, a.name)
    requires forall k :: p <= k < |attrs| ==> Less(a.name, attrs[k].name)
    ensures Sorted(attrs[..p] + [a] + attrs[p..])
  {
  }

  lemma LessAfterPlace(attrs: seq<Attr>, name: Bytes, k: nat)
    requires Sorted(attrs) && Find(attrs, name) == |attrs| && Place(attrs, name) <= k < |attrs|
    ensures Less(name, attrs[k].name)
  {
    var p := Place(attrs, name);
    LessTrichotomy(name, attrs[p].name);
    if p < k {
      LessTransitive(name, attrs[p].name, attrs[k].name);
    }
  }

  lemma AddKeeps(s: Shadow, name: Bytes, propType: int, size: int)
    requires Agrees(s)
    ensures Agrees(AddStep(s, name, propType, size))
  {
    if size > 0 && Find(s.attrs, name) == |s.attrs| {
      var a := NewAttr(name, false, propType, size);
      InsertSorted(s.attrs, a);
    }
  }

  lemma ReportKeeps(s: Shadow, name: Bytes, val: Bytes, pushRet: int)
    requires Agrees(s) && Legal(s, Report(name, val, pushRet))
    ensures Agrees(ReportStep(s, name, val, pushRet))
  {
  }

  lemma CloudKeeps(s: Shadow, name: Bytes, cell: Cell)
    requires Agrees(s) && Legal(s, CloudSet(name, cell))
    ensures Agrees(CloudStep(s, name, cell))
  {
    var t := CloudStep(s, name, cell);
    assert t.forceReport && |t.attrs| == |s.attrs|;
    assert forall i :: 0 <= i < |s.attrs| ==> t.attrs[i].name == s.attrs[i].name;
    NamesSorted(s.attrs, t.attrs);
  }

  lemma NamesSorted(attrs: seq<Attr>, bttrs: seq<Attr>)
    requires Sorted(attrs) && |attrs| == |bttrs| && forall k :: 0 <= k < |attrs| ==> bttrs[k].name == attrs[k].name
    ensures Sorted(bttrs)
  {
  }

  lemma PollKeeps(s: Shadow, op: Op)
    requires Agrees(s) && op.Poll? && Legal(s, op)
    ensures Agrees(PollStep(s, op.ask))
  {
    var t := PollStep(s, op.ask);
    forall i | 0 <= i < |s.attrs|
      ensures Accounted(t, t.attrs[i])
    {
      assert Accounted(s, s.attrs[i]);
      assert t.attrs[i] == PollAttr(s.attrs[i], op.ask(s.attrs[i].name));
    }
    assert forall i :: 0 <= i < |s.attrs| ==> t.attrs[i].name == s.attrs[i].name;
  }

  lemma BulkKeeps(s: Shadow, pushRet: int)
    requires Agrees(s)
    ensures Agrees(BulkStep(s, pushRet))
  {
    var t := BulkStep(s, pushRet);
    forall i | 0 <= i < |s.attrs|
      ensures Accounted(t, t.attrs[i])
    {
      assert Accounted(s, s.attrs[i]);
      assert Due(s) ==> t.attrs[i] == BulkAttr(s, s.attrs[i], pushRet);
    }
    assert forall i :: 0 <= i < |s.attrs| ==> t.attrs[i].name == s.attrs[i].name;
  }

  lemma StepKeeps(s: Shadow, op: Op)
    requires Agrees(s) && Legal(s, op)
    ensures Agrees(Step(s, op))
  {
    match op
    case Add(name, propType, size) => AddKeeps(s, name, propType, size);
    case Report(name, val, pushRet) => ReportKeeps(s, name, val, pushRet);
    case CloudSet(name, cell) => CloudKeeps(s, name, cell);
    case Poll(_) => PollKeeps(s, op);
    case Bulk(pushRet) => BulkKeeps(s, pushRet);
    case Connect =>
      assert forall i :: 0 <= i < |s.attrs| ==> Accounted(s, s.attrs[i]) ==> Accounted(Step(s, op), s.attrs[i]);
  }

  lemma {:induction false} RunKeeps(s: Shadow, ops: seq<Op>)
    requires Agrees(s) && LegalRun(s, ops)
    ensures Agrees(Run(s, ops))
    decreases |ops|
  {
    if ops != [] {
      StepKeeps(s, ops[0]);
      RunKeeps(Step(s, ops[0]), ops[1..]);
    }
  }

  /** Every bulk push of the run succeeds. */
  predicate BulksSucceed(ops: seq<Op>) {
    forall k :: 0 <= k < |ops| && ops[k].Bulk? ==> ops[k].pushRet == 0
  }

  predicate NothingLost(s: Shadow) {
    forall i :: 0 <= i < |s.attrs| ==> s.attrs[i].lost == None
  }

  lemma StepLosesNothing(s: Shadow, op: Op)
    requires Legal(s, op) && NothingLost(s) && (op.Bulk? ==> op.pushRet == 0)
    ensures NothingLost(Step(s, op))
  {
  }

  lemma {:induction false} RunLosesNothing(s: Shadow, ops: seq<Op>)
    requires LegalRun(s, ops) && NothingLost(s) && BulksSucceed(ops)
    ensures NothingLost(Run(s, ops))
    decreases |ops|
  {
    if ops != [] {
      StepLosesNothing(s, ops[0]);
      RunLosesNothing(Step(s, ops[0]), ops[1..]);
    }
  }
}
