/** Polling: when it settles, when it does not, and that it does not echo what the cloud set. */
module ShadowPoll {
  import opened AnswerCollection
  import opened CStrings
  import opened Decimal
  import opened NameOrder
  import opened ShadowModel
  import opened ShadowPush

  function Tail(s: Bytes, n: nat): Bytes {
    if n < |s| then s[n..] else []
  }

  /** Local attributes, and those nobody follows, are never marked by polling. */
  lemma UnfollowedIsNotMarked(a: Attr, audience: Audience)
    requires a.isLocal || !audience.Consulted?
    ensures !PollMarks(a, audience)
  {
  }

  /** While the answers stay the same, an integer is marked at most by the first poll. */
  lemma IntegerSettles(a: Attr, audience: Audience)
    requires a.cell.Num? && PollFits(a, audience)
    ensures !PollMarks(PollAttr(a, audience), audience)
  {
  }

  lemma CollectedFront(answers: seq<RemoteAnswer>, val: Bytes, size: nat)
    requires |val| == size
    ensures CollectedLength(answers, size) <= size
    ensures Collected(answers, val, size)[..CollectedLength(answers, size)] == Truncated(Carried(answers), size)
  {
  }

  /** What the poll reads into its buffer begins with the last answer, which the copied length is the length of. */
  lemma PolledFront(a: Attr, answers: seq<RemoteAnswer>)
    requires NulFreeAnswers(Consulted(answers))
    ensures var o := Polled(a, Consulted(answers));
      && 0 <= o.ret <= |Text(o.val)|
      && Text(o.val)[..o.ret] == Truncated(Carried(answers), PollSize(a.cell))
      && NulFree(Text(o.val)[..o.ret])
  {
    var o := Polled(a, Consulted(answers));
    CollectedFront(answers, Zeros(PollSize(a.cell)), PollSize(a.cell));
    CarriedNulFree(answers);
    var front := Truncated(Carried(answers), PollSize(a.cell));
    assert o.val[..o.ret] == front;
    assert forall k :: 0 <= k < o.ret ==> o.val[k] == front[k];
    assert NulFree(front);
    assert o.ret <= Strlen(o.val);
    assert Text(o.val)[..o.ret] == o.val[..o.ret];
  }

  lemma StrncpyOfLonger(dst: Bytes, src: Bytes, n: nat)
    requires n <= |dst| && n <= |src|
    ensures StrncpyResult(dst, src, n) == StrncpyResult(dst, src[..n], n)
  {
  }

  /**
   * A string the poll marks becomes the last answer, followed by the text that stands in the buffer after the copied
   * bytes. When there are only zeros after the stored text, that is the answer laid over it.
   */
  lemma PollOverlays(a: Attr, answers: seq<RemoteAnswer>)
    requires a.cell.Buf? && NulFreeAnswers(Consulted(answers))
    requires PollFits(a, Consulted(answers)) && PollMarks(a, Consulted(answers))
    ensures var o := Polled(a, Consulted(answers));
      var b := PollAttr(a, Consulted(answers));
      && 0 < o.ret <= |Text(o.val)|
      && b.cell == Buf(Text(o.val)[..o.ret] + a.cell.data[o.ret..])
      && Text(b.cell.data) == Text(o.val)[..o.ret] + Text(a.cell.data[o.ret..])
      && (ZeroTailed(a.cell.data) ==>
            ZeroTailed(b.cell.data) && Text(b.cell.data) == Overlay(Text(o.val)[..o.ret], Text(a.cell.data)))
  {
    var o := Polled(a, Consulted(answers));
    PolledFront(a, answers);
    StrncpyOfLonger(a.cell.data, Text(o.val), o.ret);
    StrncpyFronts(a.cell.data, Text(o.val)[..o.ret]);
    if ZeroTailed(a.cell.data) {
      StrncpyOverlays(a.cell.data, Text(o.val)[..o.ret]);
    }
  }

  lemma SameFrontDiffer(v: Bytes, n: nat, t: Bytes)
    requires n <= |v|
    ensures v[..n] + t == v <==> t == Tail(v, n)
  {
    assert v == v[..n] + Tail(v, n);
    if v[..n] + t == v {
      assert (v[..n] + t)[n..] == t;
    }
  }

  /** The copy of a marked string leaves the buffer terminated. */
  predicate StaysTerminated(a: Attr, audience: Audience)
    requires PollFits(a, audience)
  {
    PollMarks(a, audience) && a.cell.Buf? ==> 0 in a.cell.data[Polled(a, audience).ret..]
  }

  /** What stands in the buffer after the copied bytes is not what the answers leave beyond the last answer. */
  predicate Unsettled(a: Attr, audience: Audience) {
    var o := Polled(a, audience);
    && !a.isLocal && a.cell.Buf? && audience.Consulted? && 0 < o.ret <= |a.cell.data|
    && Text(a.cell.data[o.ret..]) != Tail(Text(o.val), o.ret)
  }

  /** A string that is not marked is settled: its text is what the answers leave. */
  lemma UnmarkedIsSettled(a: Attr, answers: seq<RemoteAnswer>)
    requires a.cell.Buf? && !a.isLocal && NulFreeAnswers(Consulted(answers)) && PollFits(a, Consulted(answers))
    requires Polled(a, Consulted(answers)).ret > 0 && !PollMarks(a, Consulted(answers))
    ensures !Unsettled(a, Consulted(answers))
  {
    var data, n := a.cell.data, Polled(a, Consulted(answers)).ret;
    PolledFront(a, answers);
    assert data[..n] == Text(data)[..n] && data[..n] + data[n..] == data;
    TextOfFront(data[..n], data[n..]);
    SameFrontDiffer(Text(data), n, Text(data[n..]));
  }

  /**
   * When a string settles. With the answers unchanged, the poll after this one marks the string iff what stands in its
   * buffer after the last answer's length is not what the answers leave there: residue of a longer answer on one side,
   * of a longer text or of a cloud write on the other. The poll leaves these bytes alone, so an unsettled string is
   * marked by every poll.
   */
  lemma StringSettlesIff(a: Attr, answers: seq<RemoteAnswer>)
    requires a.cell.Buf? && !a.isLocal && NulFreeAnswers(Consulted(answers))
    requires PollFits(a, Consulted(answers)) && Polled(a, Consulted(answers)).ret > 0
    ensures var o := Polled(a, Consulted(answers));
      var b := PollAttr(a, Consulted(answers));
      && b.cell.Buf? && !b.isLocal && Polled(b, Consulted(answers)) == o
      && |b.cell.data| == |a.cell.data| && b.cell.data[o.ret..] == a.cell.data[o.ret..]
      && (ZeroTailed(a.cell.data) ==> ZeroTailed(b.cell.data))
      && (PollFits(b, Consulted(answers)) <==> StaysTerminated(a, Consulted(answers)))
      && (PollMarks(b, Consulted(answers)) <==> Unsettled(a, Consulted(answers)))
  {
    var o := Polled(a, Consulted(answers));
    if PollMarks(a, Consulted(answers)) {
      PollOverlays(a, answers);
      var front, rest := Text(o.val)[..o.ret], a.cell.data[o.ret..];
      PolledFront(a, answers);
      TextOfFront(front, rest);
      TerminatedIff(rest);
      SameFrontDiffer(Text(o.val), o.ret, Text(rest));
    } else {
      UnmarkedIsSettled(a, answers);
    }
  }

  /**
   * With the answers unchanged, the second poll marks exactly the unsettled attributes, so no integer. It may read the
   * buffer iff the first one left it terminated.
   */
  lemma SecondPollMarksIff(a: Attr, audience: Audience)
    requires PollFits(a, audience) && NulFreeAnswers(audience)
    ensures PollFits(PollAttr(a, audience), audience) <==> StaysTerminated(a, audience)
    ensures PollMarks(PollAttr(a, audience), audience) <==> Unsettled(a, audience)
  {
    if a.isLocal || !audience.Consulted? {
      UnfollowedIsNotMarked(a, audience);
    } else if a.cell.Num? {
      IntegerSettles(a, audience);
    } else if Polled(a, audience).ret > 0 {
      StringSettlesIff(a, audience.answers);
    }
  }

  /** Where there are only zeros after the stored text, the texts decide, and the copy leaves the buffer terminated. */
  lemma ZeroTailedUnsettledIff(a: Attr, audience: Audience)
    requires a.cell.Buf? && ZeroTailed(a.cell.data) && PollFits(a, audience)
    ensures StaysTerminated(a, audience)
    ensures Unsettled(a, audience) <==>
      var o := Polled(a, audience);
      && !a.isLocal && audience.Consulted? && o.ret > 0
      && Tail(Text(a.cell.data), o.ret) != Tail(Text(o.val), o.ret)
  {
    var n := Polled(a, audience).ret;
    if !a.isLocal && n > 0 {
      ZeroTailedRest(a.cell.data, n);
    }
  }

  /** When no longer answer left residue, a string is settled iff a NUL stands where the last answer ends. */
  lemma CleanAnswerSettlesIff(a: Attr, audience: Audience)
    requires a.cell.Buf? && !a.isLocal && audience.Consulted? && PollFits(a, audience)
    requires 0 < Polled(a, audience).ret == |Text(Polled(a, audience).val)|
    ensures !Unsettled(a, audience) <==> a.cell.data[Polled(a, audience).ret] == 0
  {
    assert a.cell.data[Polled(a, audience).ret..][0] == a.cell.data[Polled(a, audience).ret];
  }

  /** So it settles when the stored text was no longer than the last answer, with zeros after it. */
  lemma CleanAnswerSettles(a: Attr, audience: Audience)
    requires a.cell.Buf? && ZeroTailed(a.cell.data) && PollFits(a, audience)
    requires |Text(a.cell.data)| <= Polled(a, audience).ret == |Text(Polled(a, audience).val)|
    ensures !Unsettled(a, audience)
  {
    ZeroTailedUnsettledIff(a, audience);
  }

  /** Where "s" goes in a fresh table: after the local attribute. */
  lemma AddedToFresh(reportFlag: bool)
    ensures var s := Initial(reportFlag);
      AddStep(s, [115], IOT_PROPERTY_STRING, 6).attrs == [s.attrs[0], NewAttr([115], false, IOT_PROPERTY_STRING, 6)]
  {
    var attrs := Initial(reportFlag).attrs;
    assert attrs[1..] == [];
    assert Less(LOCAL_ATTR, [115]);
    assert Place(attrs, [115]) == 1 && Find(attrs, [115]) == 1;
  }

  lemma CloudSetOnFresh(reportFlag: bool, data: Bytes)
    requires |data| == 6 && Strlen(data) < 6
    ensures var t := AddStep(Initial(reportFlag), [115], IOT_PROPERTY_STRING, 6);
      && Legal(t, CloudSet([115], Buf(data)))
      && |CloudStep(t, [115], Buf(data)).attrs| == 2
      && CloudStep(t, [115], Buf(data)).attrs[1] == NewAttr([115], false, IOT_PROPERTY_STRING, 6).Write(Buf(data))
  {
    AddedToFresh(reportFlag);
    var t := AddStep(Initial(reportFlag), [115], IOT_PROPERTY_STRING, 6);
    assert t.attrs[0].name != [115] && t.attrs[1].name == [115];
    assert t.attrs[1..][0] == t.attrs[1];
    assert Find(t.attrs, [115]) == 1;
  }

  /** The table after the cloud set a new attribute "s" to "a", with "bc" in the buffer behind it. */
  function WithResidue(reportFlag: bool): Shadow
    requires LegalRun(Initial(reportFlag), [Add([115], IOT_PROPERTY_STRING, 6), CloudSet([115], Buf([97, 0, 98, 99, 0, 0]))])
  {
    Run(Initial(reportFlag), [Add([115], IOT_PROPERTY_STRING, 6), CloudSet([115], Buf([97, 0, 98, 99, 0, 0]))])
  }

  /**
   * The zeros after the text matter: in this reachable state the stored text "a" is shorter than the only answer, "xy",
   * yet the poll makes it "xybc", so it is unsettled.
   */
  lemma CloudResidueIsUnsettled(reportFlag: bool)
    ensures LegalRun(Initial(reportFlag), [Add([115], IOT_PROPERTY_STRING, 6), CloudSet([115], Buf([97, 0, 98, 99, 0, 0]))])
    ensures |WithResidue(reportFlag).attrs| == 2
    ensures var a, audience := WithResidue(reportFlag).attrs[1], Consulted([Returned([120, 121])]);
      && a.cell == Buf([97, 0, 98, 99, 0, 0])
      && PollFits(a, audience) && StaysTerminated(a, audience)
      && |Text(a.cell.data)| < Polled(a, audience).ret == |Text(Polled(a, audience).val)|
      && Text(PollAttr(a, audience).cell.data) == [120, 121, 98, 99]
      && Unsettled(a, audience)
  {
    var data: Bytes := [97, 0, 98, 99, 0, 0];
    StrlenUnique(data, 1);
    CloudSetOnFresh(reportFlag, data);
    var s := Initial(reportFlag);
    var add, cloudSet := Add([115], IOT_PROPERTY_STRING, 6), CloudSet([115], Buf(data));
    var t := Step(s, add);
    var u := Step(t, cloudSet);
    assert [add, cloudSet][1..] == [cloudSet] && [cloudSet][1..] == [];
    assert LegalRun(u, []) && Run(u, []) == u;
    assert LegalRun(t, [cloudSet]) && Run(t, [cloudSet]) == u;
    ResidueIsUnsettled(u.attrs[1]);
  }

  lemma OneAnswerPolled(a: Attr)
    requires a.cell.Buf?
    ensures var o := Polled(a, Consulted([Returned([120, 121])]));
      o.ret == 2 && Text(o.val) == [120, 121] && Strlen(o.val) == 2 && |o.val| == ATTR_VALUE_MAX_LEN
  {
    AgreeingAnswers([Returned([120, 121])], Zeros(ATTR_VALUE_MAX_LEN), ATTR_VALUE_MAX_LEN, [120, 121]);
    OverlayZeros([120, 121], ATTR_VALUE_MAX_LEN);
  }

  lemma ResidueIsUnsettled(a: Attr)
    requires a.cell == Buf([97, 0, 98, 99, 0, 0]) && !a.isLocal
    ensures var audience := Consulted([Returned([120, 121])]);
      && PollFits(a, audience) && StaysTerminated(a, audience)
      && |Text(a.cell.data)| < Polled(a, audience).ret == |Text(Polled(a, audience).val)|
      && Text(PollAttr(a, audience).cell.data) == [120, 121, 98, 99]
      && Unsettled(a, audience)
  {
    var answers := [Returned([120, 121])];
    var data := a.cell.data;
    StrlenUnique(data, 1);
    OneAnswerPolled(a);
    assert [120, 121][..2] == [120, 121];
    assert data[2..] == [98, 99, 0, 0];
    StrlenUnique(data[2..], 2);
    PollOverlays(a, answers);
  }

  /** A push changes nothing the poll looks at. */
  lemma PushedPollsAlike(s: Shadow, a: Attr, pushRet: int, audience: Audience)
    ensures var b := BulkAttr(s, a, pushRet);
      && b.name == a.name
      && PollFits(b, audience) == PollFits(a, audience)
      && PollMarks(b, audience) == PollMarks(a, audience)
  {
    var b := BulkAttr(s, a, pushRet);
    assert b.cell == a.cell && b.isLocal == a.isLocal;
    assert Polled(b, audience) == Polled(a, audience);
  }

  /**
   * Quiescence of the thread loop: after a round that polls and pushes, a poll that finds the same answers makes
   * another push due iff some attribute was unsettled before the round. It may read the buffers iff the first poll left
   * all of them terminated.
   */
  lemma NextRoundIsQuietIff(s: Shadow, ask: Bytes -> Audience, pushRet: int)
    requires Legal(s, Poll(ask)) && forall name: Bytes :: NulFreeAnswers(ask(name))
    ensures var u := BulkStep(PollStep(s, ask), pushRet);
      && !Due(u)
      && (Legal(u, Poll(ask)) <==> forall i :: 0 <= i < |s.attrs| ==> StaysTerminated(s.attrs[i], ask(s.attrs[i].name)))
      && (Legal(u, Poll(ask)) ==>
           (Due(PollStep(u, ask)) <==> exists i :: 0 <= i < |s.attrs| && Unsettled(s.attrs[i], ask(s.attrs[i].name))))
  {
    var t := PollStep(s, ask);
    var u := BulkStep(t, pushRet);
    forall i | 0 <= i < |s.attrs|
      ensures u.attrs[i].name == s.attrs[i].name
      ensures PollFits(u.attrs[i], ask(u.attrs[i].name)) <==> StaysTerminated(s.attrs[i], ask(s.attrs[i].name))
      ensures PollMarks(u.attrs[i], ask(u.attrs[i].name)) <==> Unsettled(s.attrs[i], ask(s.attrs[i].name))
    {
      var a := s.attrs[i];
      SecondPollMarksIff(a, ask(a.name));
      assert t.attrs[i] == PollAttr(a, ask(a.name));
      assert u.attrs[i] == if Due(t) then BulkAttr(t, t.attrs[i], pushRet) else t.attrs[i];
      PushedPollsAlike(t, t.attrs[i], pushRet, ask(a.name));
    }
  }

  /** The attribute after `n` polls with the same answers. */
  function Repolled(a: Attr, audience: Audience, n: nat): Attr {
    if n == 0 then a
    else
      var b := Repolled(a, audience, n - 1);
      if PollFits(b, audience) then PollAttr(b, audience) else b
  }

  /** With the answers unchanged, either every later poll marks the string or none does. */
  lemma {:induction false} MarkedForeverOrNever(a: Attr, answers: seq<RemoteAnswer>, n: nat)
    requires a.cell.Buf? && !a.isLocal && NulFreeAnswers(Consulted(answers))
    requires PollFits(a, Consulted(answers)) && StaysTerminated(a, Consulted(answers)) && Polled(a, Consulted(answers)).ret > 0
    ensures var b := Repolled(a, Consulted(answers), n);
      && b.cell.Buf? && !b.isLocal && PollFits(b, Consulted(answers)) && StaysTerminated(b, Consulted(answers))
      && (ZeroTailed(a.cell.data) ==> ZeroTailed(b.cell.data))
      && Polled(b, Consulted(answers)) == Polled(a, Consulted(answers))
      && var o := Polled(a, Consulted(answers));
      && |b.cell.data| == |a.cell.data| && b.cell.data[o.ret..] == a.cell.data[o.ret..]
      && (n > 0 ==> (PollMarks(b, Consulted(answers)) <==> Unsettled(a, Consulted(answers))))
  {
    if n > 0 {
      MarkedForeverOrNever(a, answers, n - 1);
      StringSettlesIff(Repolled(a, Consulted(answers), n - 1), answers);
    }
  }

  /** A zeroed buffer and the answers "12" and "3": the poll copies "3" and compares with "32", again and again. */
  lemma MarkedForever(name: Bytes, n: nat)
    ensures var a := NewAttr(name, false, IOT_PROPERTY_STRING, 8);
      var answers := [Returned([49, 50]), Returned([51])];
      && PollFits(a, Consulted(answers)) && PollMarks(a, Consulted(answers)) && Unsettled(a, Consulted(answers))
      && PollMarks(Repolled(a, Consulted(answers), n), Consulted(answers))
  {
    var a := NewAttr(name, false, IOT_PROPERTY_STRING, 8);
    var answers := [Returned([49, 50]), Returned([51])];
    var data := a.cell.data;
    ZeroTailedRest(data, 1);
    TwoAnswersPolled(a);
    assert Polled(a, Consulted(answers)).ret == 1 && Text(Polled(a, Consulted(answers)).val) == [51, 50];
    assert Text(data) == [] && Tail([51, 50], 1) == [50];
    if n > 0 {
      MarkedForeverOrNever(a, answers, n);
    }
  }

  lemma TwoAnswersPolled(a: Attr)
    requires a.cell.Buf?
    ensures var o := Polled(a, Consulted([Returned([49, 50]), Returned([51])]));
      o.ret == 1 && Text(o.val) == [51, 50] && Strlen(o.val) == 2 && |o.val| == ATTR_VALUE_MAX_LEN
  {
    var first, second := Returned([49, 50]), Returned([51]);
    assert [first, second][..1] == [first] && [first][..0] == [];
    var one := Overlay([49, 50], Zeros(ATTR_VALUE_MAX_LEN));
    assert Collected([first], Zeros(ATTR_VALUE_MAX_LEN), ATTR_VALUE_MAX_LEN) == one;
    var two := Overlay([51], one);
    assert Collected([first, second], Zeros(ATTR_VALUE_MAX_LEN), ATTR_VALUE_MAX_LEN) == two;
    StrlenUnique(two, 2);
  }

  /** The text the default callback forwards for a value the cloud set. */
  function ForwardedText(c: Cell): Bytes {
    match c
    case Num(i) => FormatInt(i)
    case Buf(data) => SnprintfText(Text(data), ATTR_VALUE_MAX_LEN)
  }

  /** The forwarded text is the integer in decimal, or the stored text, of which 255 bytes fit. */
  lemma ForwardedTextShows(c: Cell)
    ensures c.Num? ==> ForwardedText(c) == FormatInt(c.i) && Atoi(ForwardedText(c)) == c.i
    ensures c.Buf? ==> ForwardedText(c) == Text(c.data)[..if |Text(c.data)| < 256 then |Text(c.data)| else 255]
  {
    match c
    case Num(i) => AtoiOfFormatInt(i);
    case Buf(data) => SnprintfKeepsFront(Text(data), ATTR_VALUE_MAX_LEN);
  }

  lemma OverlayZeros(t: Bytes, size: nat)
    requires NulFree(t) && |t| < size
    ensures Text(Overlay(t, Zeros(size))) == t
    ensures Strlen(Overlay(t, Zeros(size))) == |t|
  {
    assert Overlay(t, Zeros(size))[..|t|] == t;
    StrlenUnique(Overlay(t, Zeros(size)), |t|);
  }

  lemma ForwardedTextFits(c: Cell)
    ensures NulFree(ForwardedText(c)) && |ForwardedText(c)| < PollSize(c)
  {
    match c
    case Num(i) =>
      AtoiOfFormatInt(i);
      FormatIntLength(i);
    case Buf(data) =>
      TextNulFree(data);
  }

  /** What the poll reads when every follower answers with the forwarded text. */
  lemma EchoedText(a: Attr, answers: seq<RemoteAnswer>)
    requires answers != [] && forall k :: 0 <= k < |answers| ==> answers[k] == Returned(ForwardedText(a.cell))
    ensures Text(Polled(a, Consulted(answers)).val) == ForwardedText(a.cell)
    ensures Strlen(Polled(a, Consulted(answers)).val) < PollSize(a.cell)
    ensures Polled(a, Consulted(answers)).ret == |ForwardedText(a.cell)|
  {
    ForwardedTextFits(a.cell);
    AgreeingAnswers(answers, Zeros(PollSize(a.cell)), PollSize(a.cell), ForwardedText(a.cell));
    OverlayZeros(ForwardedText(a.cell), PollSize(a.cell));
  }

  /** No integer is echoed: if the followers answer with the text they were given, the poll sees no change. */
  lemma IntegerIsNotEchoed(a: Attr, answers: seq<RemoteAnswer>)
    requires a.cell.Num?
    requires forall k :: 0 <= k < |answers| ==> answers[k] == Returned(ForwardedText(a.cell))
    ensures PollFits(a, Consulted(answers)) && !PollMarks(a, Consulted(answers))
  {
    if answers != [] {
      EchoedText(a, answers);
      AtoiOfFormatInt(a.cell.i);
    }
  }

  /**
   * A string is echoed iff somebody answers and the text is too long for the forwarding buffer; then it is unsettled, so
   * every later poll with these answers marks it again.
   */
  lemma StringIsEchoedIff(a: Attr, answers: seq<RemoteAnswer>)
    requires a.cell.Buf? && !a.isLocal
    requires forall k :: 0 <= k < |answers| ==> answers[k] == Returned(ForwardedText(a.cell))
    ensures PollMarks(a, Consulted(answers)) <==> answers != [] && |Text(a.cell.data)| >= ATTR_VALUE_MAX_LEN
    ensures Strlen(a.cell.data) < |a.cell.data| ==>
      && PollFits(a, Consulted(answers)) && StaysTerminated(a, Consulted(answers))
      && (Unsettled(a, Consulted(answers)) <==> PollMarks(a, Consulted(answers)))
  {
    if answers != [] {
      EchoedText(a, answers);
    }
    if answers != [] && Strlen(a.cell.data) < |a.cell.data| {
      var n := |ForwardedText(a.cell)|;
      RestOfText(a.cell.data, n);
      assert Tail(ForwardedText(a.cell), n) == [];
    }
  }

  /** 256 characters and 44 zeros: answered with the 255 that were forwarded, the string is marked on every pass. */
  lemma LongStringIsEchoed(name: Bytes)
    ensures var a := NewAttr(name, false, IOT_PROPERTY_STRING, 300).Write(Buf(LongText()));
      var answers := [Returned(ForwardedText(a.cell))];
      && PollFits(a, Consulted(answers)) && PollMarks(a, Consulted(answers)) && Unsettled(a, Consulted(answers))
  {
    var data := LongText();
    assert forall k :: 0 <= k < 256 ==> data[k] == 120;
    StrlenUnique(data, 256);
    StringIsEchoedIff(NewAttr(name, false, IOT_PROPERTY_STRING, 300).Write(Buf(data)), [Returned(ForwardedText(Buf(data)))]);
  }

  function LongText(): Bytes {
    seq(300, i => if i < 256 then 120 else 0)
  }

  /**
   * A client's write puts the new text in front of what stands in the buffer after it, so it shows the value iff a NUL
   * stands where the value ends. Where there are only zeros after the old text, the new one is laid over it, and shows
   * the value iff the old text was no longer.
   */
  lemma ClientWriteOverlays(c: Cell, val: Bytes)
    requires c.Buf? && NulFree(val) && |val| < |c.data|
    ensures var d := ClientWrite(c, val);
      && d == Buf(val + c.data[|val|..])
      && Text(d.data) == val + Text(c.data[|val|..])
      && (Text(d.data) == val <==> c.data[|val|] == 0)
      && (ZeroTailed(c.data) ==>
           && ZeroTailed(d.data)
           && Text(d.data) == Overlay(val, Text(c.data))
           && |Text(d.data)| >= |Text(c.data)|
           && (Text(d.data) == val <==> |val| >= |Text(c.data)|))
  {
    StrncpyFronts(c.data, val);
    assert c.data[|val|..][0] == c.data[|val|];
    if ZeroTailed(c.data) {
      StrncpyOverlays(c.data, val);
    }
  }

  /** A step that is not a cloud write, with C strings for answers. */
  ghost predicate ByClients(op: Op) {
    match op
    case CloudSet(_, _) => false
    case Poll(ask) => forall name: Bytes :: NulFreeAnswers(ask(name))
    case _ => true
  }

  predicate ZeroTails(s: Shadow) {
    forall i :: 0 <= i < |s.attrs| && s.attrs[i].cell.Buf? ==> ZeroTailed(s.attrs[i].cell.data)
  }

  /** The entry keeps its name and kind, and its text does not get shorter. */
  predicate Grows(a: Attr, b: Attr) {
    && a.name == b.name && a.cell.Num? == b.cell.Num?
    && (a.cell.Buf? ==> |a.cell.data| == |b.cell.data| && |Text(a.cell.data)| <= |Text(b.cell.data)|)
  }

  lemma ZerosAreZeroTailed(n: nat)
    requires n > 0
    ensures ZeroTailed(Zeros(n))
  {
  }

  predicate EntryTailed(a: Attr) {
    a.cell.Buf? ==> ZeroTailed(a.cell.data)
  }

  lemma PollGrows(a: Attr, audience: Audience)
    requires PollFits(a, audience) && NulFreeAnswers(audience) && EntryTailed(a)
    ensures Grows(a, PollAttr(a, audience)) && EntryTailed(PollAttr(a, audience))
  {
    if PollMarks(a, audience) && a.cell.Buf? {
      PollOverlays(a, audience.answers);
    }
  }

  lemma ReportGrows(a: Attr, val: Bytes, connected: bool, pushRet: int)
    requires EntryTailed(a) && NulFree(val) && (a.cell.Buf? ==> |val| < |a.cell.data|)
    ensures var b := ReportAttr(a, val, connected, pushRet); Grows(a, b) && EntryTailed(b)
  {
    if a.cell.Buf? {
      ClientWriteOverlays(a.cell, val);
    }
  }

  /** Every entry of `s` is still in `t`, with a text at least as long. */
  ghost predicate AllGrow(s: Shadow, t: Shadow) {
    forall i :: 0 <= i < |s.attrs| ==> GrowsIn(s.attrs[i], t)
  }

  ghost predicate GrowsIn(a: Attr, t: Shadow) {
    exists j :: 0 <= j < |t.attrs| && Grows(a, t.attrs[j])
  }

  lemma AddGrows(s: Shadow, op: Op)
    requires op.Add? && ZeroTails(s)
    ensures ZeroTails(Step(s, op)) && AllGrow(s, Step(s, op))
  {
    var t := Step(s, op);
    if |t.attrs| == |s.attrs| {
      assert forall i :: 0 <= i < |s.attrs| ==> Grows(s.attrs[i], t.attrs[i]);
    } else {
      var a := NewAttr(op.name, false, op.propType, op.size);
      forall i | 0 <= i < |s.attrs|
        ensures GrowsIn(s.attrs[i], t)
      {
        InsertShifts(s.attrs, a, i);
        assert Grows(s.attrs[i], t.attrs[Shifted(s.attrs, op.name, i)]);
      }
      ZerosAreZeroTailed(op.size);
      InsertTails(s.attrs, a);
    }
  }

  lemma InsertTails(attrs: seq<Attr>, a: Attr)
    requires forall i :: 0 <= i < |attrs| ==> EntryTailed(attrs[i])
    requires EntryTailed(a)
    ensures forall i :: 0 <= i <= |attrs| ==> EntryTailed(Insert(attrs, a)[i])
  {
  }

  /** No client call shortens a text or leaves bytes after its end. */
  lemma StepGrows(s: Shadow, op: Op)
    requires Legal(s, op) && ByClients(op) && ZeroTails(s)
    ensures ZeroTails(Step(s, op)) && AllGrow(s, Step(s, op))
  {
    if op.Add? {
      AddGrows(s, op);
    } else {
      var t := Step(s, op);
      forall i | 0 <= i < |s.attrs|
        ensures Grows(s.attrs[i], t.attrs[i]) && EntryTailed(t.attrs[i])
      {
        assert EntryTailed(s.attrs[i]);
        if op.Report? && Find(s.attrs, op.name) == i {
          ReportGrows(s.attrs[i], op.val, s.connected, op.pushRet);
        } else if op.Poll? {
          PollGrows(s.attrs[i], op.ask(s.attrs[i].name));
        }
      }
      assert forall i :: 0 <= i < |s.attrs| ==> GrowsIn(s.attrs[i], t);
    }
  }

  lemma AllGrowTransitive(s: Shadow, t: Shadow, u: Shadow)
    requires AllGrow(s, t) && AllGrow(t, u)
    ensures AllGrow(s, u)
  {
    forall i | 0 <= i < |s.attrs|
      ensures GrowsIn(s.attrs[i], u)
    {
      assert GrowsIn(s.attrs[i], t);
      var j :| 0 <= j < |t.attrs| && Grows(s.attrs[i], t.attrs[j]);
      assert GrowsIn(t.attrs[j], u);
      var k :| 0 <= k < |u.attrs| && Grows(t.attrs[j], u.attrs[k]);
      assert Grows(s.attrs[i], u.attrs[k]);
    }
  }

  /** Over any run of client calls the string buffers stay text and zeros, and no text gets shorter. */
  lemma {:induction false} RunGrows(s: Shadow, ops: seq<Op>)
    requires LegalRun(s, ops) && ZeroTails(s) && forall k :: 0 <= k < |ops| ==> ByClients(ops[k])
    ensures ZeroTails(Run(s, ops)) && AllGrow(s, Run(s, ops))
    decreases |ops|
  {
    if ops == [] {
      assert forall i :: 0 <= i < |s.attrs| ==> Grows(s.attrs[i], s.attrs[i]);
    } else {
      StepGrows(s, ops[0]);
      RunGrows(Step(s, ops[0]), ops[1..]);
      AllGrowTransitive(s, Step(s, ops[0]), Run(s, ops));
    }
  }
}
