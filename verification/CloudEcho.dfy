/** A value the cloud sets, from the calls that tell the followers to the poll that asks them for it. */
module CloudEcho {
  import opened AnswerCollection
  import opened CStrings
  import opened Decimal
  import opened DeviceShadow
  import opened FollowRegistry
  import opened Options
  import opened Service
  import opened ShadowModel
  import opened ShadowPoll

  /** Every client that was called answers a `get` with the text it was given. */
  ghost predicate AnswersAsTold(calls: seq<Delivery>, answers: IOTClient -> RemoteAnswer) {
    forall d :: d in calls ==> answers(d.client) == Returned(d.arg)
  }

  /** Those who were told are those who are asked, so all answers are the text. */
  lemma {:induction false} AnswersAreText(v: seq<IOTClient>, name: Bytes, text: Bytes, answers: IOTClient -> RemoteAnswer)
    requires AnswersAsTold(Deliveries(v, Property, name, text), answers)
    ensures forall k :: 0 <= k < |AnswersOf(v, answers)| ==> AnswersOf(v, answers)[k] == Returned(text)
  {
    if v != [] {
      var n := |v| - 1;
      var front := Deliveries(v[..n], Property, name, text);
      assert forall d :: d in front ==> d in Deliveries(v, Property, name, text);
      AnswersAreText(v[..n], name, text, answers);
      if HasCallback(v[n], Property) {
        assert Delivery(v[n], CallbackOf(v[n], Property), name, text) in Deliveries(v, Property, name, text);
      }
    }
  }

  lemma {:induction false} HolderAnswers(v: seq<IOTClient>, answers: IOTClient -> RemoteAnswer, c: IOTClient)
    requires c in v && HasCallback(c, Property)
    ensures AnswersOf(v, answers) != []
  {
    var n := |v| - 1;
    if !HasCallback(v[n], Property) {
      assert v == v[..n] + [v[n]];
      HolderAnswers(v[..n], answers, c);
    }
  }

  /** Some follower of the name holds a callback. */
  ghost predicate HasListener(service: IOTService, name: Bytes)
    requires service.Valid()
    reads service, service.keyFollow.Values, service.cmdFollow.Values, service.View().Followers(Property, name)
  {
    exists c :: c in service.View().Followers(Property, name) && HasCallback(c, Property)
  }

  lemma ListenerIsFollower(service: IOTService, name: Bytes)
    requires service.Valid()
    ensures HasListener(service, name) <==> exists c :: Follows(service.history, Property, name, c) && HasCallback(c, Property)
  {
    forall c
      ensures c in service.View().Followers(Property, name) <==> Follows(service.history, Property, name, c)
    {
      ListedIffFollows(service.history, Property, name, c);
    }
  }

  /** A followed name: the poll collects answers iff somebody listens. */
  lemma AskedIffListener(service: IOTService, name: Bytes, answers: IOTClient -> RemoteAnswer)
    requires service.Valid() && name in service.keyFollow
    ensures service.Asked(name, answers) == Consulted(AnswersOf(service.keyFollow[name].items, answers))
    ensures AnswersOf(service.keyFollow[name].items, answers) != [] <==> HasListener(service, name)
  {
    var v := service.keyFollow[name].items;
    if c :| c in v && HasCallback(c, Property) {
      HolderAnswers(v, answers, c);
    }
    if AnswersOf(v, answers) != [] {
      AnswersNeedHolder(v, answers);
    }
  }

  /** Where the cloud's write went. */
  function Written(s: Shadow, name: Bytes, cell: Cell): Attr
    requires Legal(s, CloudSet(name, cell))
  {
    CloudStep(s, name, cell).attrs[Find(s.attrs, name)]
  }

  lemma WrittenHolds(s: Shadow, name: Bytes, cell: Cell)
    requires Legal(s, CloudSet(name, cell))
    ensures var a := Written(s, name, cell);
      a.cell == cell && a.name == name && a.isLocal == s.attrs[Find(s.attrs, name)].isLocal
  {
  }

  /** The answers to the poll, when the followers answer as they were told. */
  lemma EchoAnswers(service: IOTService, s: Shadow, name: Bytes, cell: Cell, answers: IOTClient -> RemoteAnswer)
    requires service.Valid() && Legal(s, CloudSet(name, cell)) && name in service.keyFollow
    requires !Written(s, name, cell).isLocal && AnswersAsTold(CloudCalls(service, s, name, cell), answers)
    ensures forall k :: 0 <= k < |AnswersOf(service.keyFollow[name].items, answers)| ==>
      AnswersOf(service.keyFollow[name].items, answers)[k] == Returned(ForwardedText(cell))
  {
    WrittenHolds(s, name, cell);
    assert service.Addressees(Property, name) == service.keyFollow[name].items;
    AnswersAreText(service.keyFollow[name].items, name, ForwardedText(cell), answers);
  }

  /**
   * No integer the cloud sets is echoed: when the clients that were called answer with the text they were given, the
   * poll sees no change, whoever follows the attribute.
   */
  lemma CloudIntegerIsNotEchoed(service: IOTService, s: Shadow, name: Bytes, cell: Cell, answers: IOTClient -> RemoteAnswer)
    requires service.Valid() && Legal(s, CloudSet(name, cell)) && cell.Num?
    requires AnswersAsTold(CloudCalls(service, s, name, cell), answers)
    ensures var a := Written(s, name, cell);
      PollFits(a, service.Asked(name, answers)) && !PollMarks(a, service.Asked(name, answers))
  {
    var a := Written(s, name, cell);
    WrittenHolds(s, name, cell);
    if !a.isLocal && name in service.keyFollow {
      EchoAnswers(service, s, name, cell, answers);
      IntegerIsNotEchoed(a, AnswersOf(service.keyFollow[name].items, answers));
    }
  }

  /**
   * A string the cloud sets is echoed iff it does not fit the forwarding buffer and some client followed it, was not
   * removed since, and holds a callback. An echoed string is unsettled, so every later poll marks it again.
   */
  lemma CloudStringIsEchoedIff(service: IOTService, s: Shadow, name: Bytes, cell: Cell, answers: IOTClient -> RemoteAnswer)
    requires service.Valid() && Legal(s, CloudSet(name, cell)) && cell.Buf?
    requires AnswersAsTold(CloudCalls(service, s, name, cell), answers)
    ensures var a := Written(s, name, cell);
      && PollFits(a, service.Asked(name, answers)) && StaysTerminated(a, service.Asked(name, answers))
      && (PollMarks(a, service.Asked(name, answers)) <==>
           && |Text(cell.data)| >= ATTR_VALUE_MAX_LEN
           && exists c :: Follows(service.history, Property, name, c) && HasCallback(c, Property))
      && (Unsettled(a, service.Asked(name, answers)) <==> PollMarks(a, service.Asked(name, answers)))
  {
    ListenerIsFollower(service, name);
    var a := Written(s, name, cell);
    WrittenHolds(s, name, cell);
    if name in service.keyFollow {
      EchoAnswers(service, s, name, cell, answers);
      AskedIffListener(service, name, answers);
      StringIsEchoedIff(a, AnswersOf(service.keyFollow[name].items, answers));
    } else {
      UnfollowedIsNotMarked(a, service.Asked(name, answers));
    }
  }

  lemma SameMembers(calls: seq<Delivery>, told: seq<IOTClient>)
    requires |calls| == |told| && forall k :: 0 <= k < |calls| ==> calls[k].client == told[k]
    ensures forall c :: (exists k :: 0 <= k < |calls| && calls[k].client == c) <==> c in told
    ensures NoDup(told) ==> forall j, k :: 0 <= j < k < |calls| ==> calls[j].client != calls[k].client
  {
    forall c | c in told
      ensures exists k :: 0 <= k < |calls| && calls[k].client == c
    {
      var k :| 0 <= k < |told| && told[k] == c;
      assert calls[k].client == c;
    }
  }

  /**
   * Whom a value the cloud sets reaches: every current follower that holds a callback, and nobody else, once each and
   * through its own callback, with the integer in decimal or the text, of which 255 bytes fit.
   */
  lemma ListenersAreTold(service: IOTService, s: Shadow, name: Bytes, cell: Cell, holders: set<IOTClient>)
    requires service.Valid() && Legal(s, CloudSet(name, cell)) && !s.attrs[Find(s.attrs, name)].isLocal
    requires EverFollowed(service.history, Property, name)
    requires forall c :: c in service.Addressees(Property, name) ==> (c in holders <==> c.property.Some?)
    ensures var calls := CloudCalls(service, s, name, cell);
      && (forall c :: (exists k :: 0 <= k < |calls| && calls[k].client == c) <==>
            Follows(service.history, Property, name, c) && c in holders)
      && (forall j, k :: 0 <= j < k < |calls| ==> calls[j].client != calls[k].client)
      && forall k :: 0 <= k < |calls| ==>
           && Some(calls[k].callback) == calls[k].client.property && calls[k].name == name
           && (cell.Num? ==> calls[k].arg == FormatInt(cell.i) && Atoi(calls[k].arg) == cell.i)
           && (cell.Buf? ==> calls[k].arg == Text(cell.data)[..if |Text(cell.data)| < 256 then |Text(cell.data)| else 255])
  {
    var v := service.Addressees(Property, name);
    DeliveriesAreSelected(v, holders, Property, name, ForwardedText(cell));
    SameMembers(CloudCalls(service, s, name, cell), Select(v, holders));
    DispatchTrace(service.history, Property, name, holders);
    ForwardedTextShows(cell);
  }
}
