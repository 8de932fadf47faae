/**
 * Start-up of the server with clients already calling: the server thread publishes m_shadow, waits for a client and
 * registers all attributes, while any number of sessions add attributes. Each lock section is one step, and so is each
 * access made without a lock.
 */
module Startup {
  import opened CStrings
  import opened Options
  import opened ShadowModel

  /**
   * Where a session is in its client's replay of property `i`: before the call, between addFollowing and the insertion,
   * after the insertion (`mine` when it created the attribute), or about to register it; then past registPropertyCB's
   * assignment, and past its signal.
   */
  datatype Pc =
    | Calling(i: nat)
    | Followed(i: nat)
    | Inserted(i: nat, mine: bool)
    | Registering(i: nat)
    | CallbackSet
    | Signalled

  /** `dropped` are the properties whose call or whose allocation failed. */
  datatype Session = Session(list: seq<PropertyInfo>, pc: Pc, dropped: set<nat>) {
    function Done(): nat {
      if pc.CallbackSet? || pc.Signalled? then |list|
      else if pc.Inserted? || pc.Registering? then pc.i + 1
      else pc.i
    }

    /** The session created this attribute and has not registered it yet. */
    predicate Owes(name: Bytes) {
      (pc.Registering? || (pc.Inserted? && pc.mine)) && pc.i < |list| && list[pc.i].key == name
    }

    /** The properties replayed so far whose replay was not lost. */
    predicate Replayed(j: nat) {
      j < Done() && j < |list| && j !in dropped && list[j].Acceptable()
    }
  }

  datatype ServerPc = Constructing | ShadowSet | Waiting | Woken | AllRegistered

  /** `own` counts the registrations made by sessions, `all` is what the register-all pass registered. */
  datatype State = State(
    table: set<Bytes>, shadow: bool, server: ServerPc, sessions: map<nat, Session>,
    own: multiset<Bytes>, all: set<Bytes>, waker: Option<nat>)

  datatype Act =
    | Open(sid: nat, list: seq<PropertyInfo>)
    | CallFails(sid: nat)
    | AddFollowing(sid: nat)
    | AllocationFails(sid: nat)
    | AddProperty(sid: nat)
    | ReadShadow(sid: nat)
    | Register(sid: nat)
    | SetCallback(sid: nat)
    | Signal(sid: nat)
    | SetShadow
    | Wait
    | RegisterAll

  function Initial(): State {
    State({LOCAL_ATTR}, false, Constructing, map[], multiset{}, {}, None)
  }

  predicate In(s: State, sid: nat) {
    sid in s.sessions
  }

  /** The session's next step is about a property of its list. */
  predicate OnProperty(c: Session) {
    (c.pc.Calling? || c.pc.Followed? || c.pc.Inserted? || c.pc.Registering?) && c.pc.i < |c.list|
  }

  predicate Enabled(s: State, a: Act) {
    match a
    case Open(sid, _) => !In(s, sid)
    case CallFails(sid) => In(s, sid) && OnProperty(s.sessions[sid]) && s.sessions[sid].pc.Calling?
    case AddFollowing(sid) => In(s, sid) && OnProperty(s.sessions[sid]) && s.sessions[sid].pc.Calling?
    case AllocationFails(sid) => In(s, sid) && OnProperty(s.sessions[sid]) && s.sessions[sid].pc.Followed?
    case AddProperty(sid) => In(s, sid) && OnProperty(s.sessions[sid]) && s.sessions[sid].pc.Followed?
    case ReadShadow(sid) => In(s, sid) && OnProperty(s.sessions[sid]) && s.sessions[sid].pc.Inserted?
    case Register(sid) => In(s, sid) && OnProperty(s.sessions[sid]) && s.sessions[sid].pc.Registering?
    case SetCallback(sid) => In(s, sid) && s.sessions[sid].pc == Calling(|s.sessions[sid].list|)
    case Signal(sid) => In(s, sid) && s.sessions[sid].pc == CallbackSet
    case SetShadow => s.server == Constructing
    case Wait => s.server == ShadowSet
    case RegisterAll => s.server == Woken
  }

  function Goes(s: State, sid: nat, c: Session): State {
    s.(sessions := s.sessions[sid := c])
  }

  function Apply(s: State, a: Act): State
    requires Enabled(s, a)
  {
    match a
    case Open(sid, list) =>
      Goes(s, sid, Session(list, Calling(0), {}))
    case CallFails(sid) =>
      var c := s.sessions[sid];
      Goes(s, sid, c.(pc := Calling(c.pc.i + 1), dropped := c.dropped + {c.pc.i}))
    case AddFollowing(sid) =>
      var c := s.sessions[sid];
      Goes(s, sid, c.(pc := Followed(c.pc.i)))
    case AllocationFails(sid) =>
      var c := s.sessions[sid];
      Goes(s, sid, c.(pc := Inserted(c.pc.i, false), dropped := c.dropped + {c.pc.i}))
    case AddProperty(sid) =>
      var c := s.sessions[sid];
      var p := c.list[c.pc.i];
      if !p.Acceptable() then Goes(s, sid, c.(pc := Calling(c.pc.i + 1)))
      else Goes(s, sid, c.(pc := Inserted(c.pc.i, p.key !in s.table))).(table := s.table + {p.key})
    case ReadShadow(sid) =>
      var c := s.sessions[sid];
      Goes(s, sid, c.(pc := if c.pc.mine && s.shadow then Registering(c.pc.i) else Calling(c.pc.i + 1)))
    case Register(sid) =>
      var c := s.sessions[sid];
      Goes(s, sid, c.(pc := Calling(c.pc.i + 1))).(own := s.own + multiset{c.list[c.pc.i].key})
    case SetCallback(sid) => Goes(s, sid, s.sessions[sid].(pc := CallbackSet))
    case Signal(sid) =>
      var t := Goes(s, sid, s.sessions[sid].(pc := Signalled));
      if s.server == Waiting then t.(server := Woken, waker := Some(sid)) else t
    case SetShadow => s.(shadow := true, server := ShadowSet)
    case Wait => s.(server := Waiting)
    case RegisterAll => s.(server := AllRegistered, all := s.table)
  }

  predicate Possible(s: State, acts: seq<Act>)
    decreases |acts|
  {
    acts == [] || (Enabled(s, acts[0]) && Possible(Apply(s, acts[0]), acts[1..]))
  }

  function Run(s: State, acts: seq<Act>): State
    requires Possible(s, acts)
    decreases |acts|
  {
    if acts == [] then s else Run(Apply(s, acts[0]), acts[1..])
  }

  /** How often the SDK was told about an attribute. */
  function Registrations(s: State, name: Bytes): nat {
    s.own[name] + if name in s.all then 1 else 0
  }

  /** Some session will register the attribute itself. */
  ghost predicate Owed(s: State, name: Bytes) {
    exists sid :: sid in s.sessions && s.sessions[sid].Owes(name)
  }

  /** An attribute is owed by at most one session, which has not registered it before. */
  ghost predicate OwedOnce(s: State) {
    && (forall sid, name :: sid in s.sessions && s.sessions[sid].Owes(name) ==> name in s.table && s.own[name] == 0)
    && (forall a, b, name ::
          a in s.sessions && b in s.sessions && s.sessions[a].Owes(name) && s.sessions[b].Owes(name) ==> a == b)
    && (forall name :: s.own[name] <= 1 && (s.own[name] > 0 ==> name in s.table))
  }

  /** Once the register-all pass has run, every attribute is registered or owed. */
  ghost predicate NoneMissed(s: State) {
    && (s.shadow <==> s.server != Constructing)
    && s.all <= s.table
    && (s.server != AllRegistered ==> s.all == {})
    && (s.server == AllRegistered ==> forall name :: name in s.table ==> Registrations(s, name) > 0 || Owed(s, name))
  }

  /** What a session has replayed is in the table. */
  ghost predicate ReplaysListed(s: State) {
    forall sid, j: nat :: sid in s.sessions && s.sessions[sid].Replayed(j) ==> s.sessions[sid].list[j].key in s.table
  }

  /** The server thread left the wait because of a client that had finished its replay. */
  ghost predicate WokenByClient(s: State) {
    && (s.server == Woken || s.server == AllRegistered ==>
          s.waker.Some? && s.waker.value in s.sessions && s.sessions[s.waker.value].pc == Signalled)
    && (s.server == AllRegistered ==>
          forall j: nat :: s.sessions[s.waker.value].Replayed(j) ==> s.sessions[s.waker.value].list[j].key in s.all)
  }

  ghost predicate Inv(s: State) {
    OwedOnce(s) && NoneMissed(s) && ReplaysListed(s) && WokenByClient(s)
  }

  lemma OwedOnceIfNoMore(s: State, t: State)
    requires OwedOnce(s) && t.table == s.table && t.own == s.own
    requires forall sid, name :: sid in t.sessions && t.sessions[sid].Owes(name) ==> sid in s.sessions && s.sessions[sid].Owes(name)
    ensures OwedOnce(t)
  {
  }

  /** Who owes what after an insertion: the inserting session its new attribute, the others what they owed. */
  lemma AddPropertyOwes(s: State, sid: nat, u: nat, name: Bytes)
    requires Enabled(s, AddProperty(sid))
    requires u in s.sessions && Apply(s, AddProperty(sid)).sessions[u].Owes(name)
    ensures if u == sid then name !in s.table && name in Apply(s, AddProperty(sid)).table else s.sessions[u].Owes(name)
  {
  }

  ghost predicate OwesNewOrOld(s: State, t: State, sid: nat, u: nat, name: Bytes) {
    if u == sid then name !in s.table && name in t.table else u in s.sessions && s.sessions[u].Owes(name)
  }

  lemma OwedOnceWithNew(s: State, t: State, sid: nat)
    requires OwedOnce(s) && t.own == s.own && s.table <= t.table
    requires forall u, name :: u in t.sessions && t.sessions[u].Owes(name) ==> OwesNewOrOld(s, t, sid, u, name)
    ensures OwedOnce(t)
  {
  }

  lemma AddPropertyOwesOnce(s: State, sid: nat)
    requires Enabled(s, AddProperty(sid)) && OwedOnce(s)
    ensures OwedOnce(Apply(s, AddProperty(sid)))
  {
    var t := Apply(s, AddProperty(sid));
    forall u, name | u in t.sessions && t.sessions[u].Owes(name)
      ensures OwesNewOrOld(s, t, sid, u, name)
    {
      AddPropertyOwes(s, sid, u, name);
    }
    OwedOnceWithNew(s, t, sid);
  }

  /** A registration settles what its session owed. */
  lemma RegisterOwes(s: State, sid: nat, u: nat, name: Bytes)
    requires Enabled(s, Register(sid)) && u in s.sessions && Apply(s, Register(sid)).sessions[u].Owes(name)
    ensures u != sid && s.sessions[u].Owes(name)
  {
  }

  lemma OwedOnceWithout(s: State, t: State, sid: nat, key: Bytes)
    requires OwedOnce(s) && t.table == s.table && t.own == s.own + multiset{key}
    requires sid in s.sessions && s.sessions[sid].Owes(key)
    requires forall u, name :: u in t.sessions && t.sessions[u].Owes(name) ==> u != sid && u in s.sessions && s.sessions[u].Owes(name)
    ensures OwedOnce(t)
  {
  }

  lemma RegisterOwesOnce(s: State, sid: nat)
    requires Enabled(s, Register(sid)) && OwedOnce(s)
    ensures OwedOnce(Apply(s, Register(sid)))
  {
    var t := Apply(s, Register(sid));
    forall u, name | u in t.sessions && t.sessions[u].Owes(name)
      ensures u != sid && u in s.sessions && s.sessions[u].Owes(name)
    {
      RegisterOwes(s, sid, u, name);
    }
    OwedOnceWithout(s, t, sid, s.sessions[sid].list[s.sessions[sid].pc.i].key);
  }

  lemma KeepsOwedOnce(s: State, a: Act)
    requires Enabled(s, a) && OwedOnce(s)
    ensures OwedOnce(Apply(s, a))
  {
    if a.AddProperty? {
      AddPropertyOwesOnce(s, a.sid);
    } else if a.Register? {
      RegisterOwesOnce(s, a.sid);
    } else {
      OwedOnceIfNoMore(s, Apply(s, a));
    }
  }

  lemma KeepsReplays(s: State, a: Act)
    requires Enabled(s, a) && ReplaysListed(s)
    ensures ReplaysListed(Apply(s, a))
  {
  }

  lemma KeepsWoken(s: State, a: Act)
    requires Enabled(s, a) && ReplaysListed(s) && WokenByClient(s)
    ensures WokenByClient(Apply(s, a))
  {
  }

  lemma KeepsNoneMissed(s: State, a: Act)
    requires Enabled(s, a) && NoneMissed(s)
    ensures NoneMissed(Apply(s, a))
  {
    var t := Apply(s, a);
    if t.server == AllRegistered && !a.RegisterAll? {
      forall name | name in t.table
        ensures Registrations(t, name) > 0 || Owed(t, name)
      {
        if name !in s.table {
          assert t.sessions[a.sid].Owes(name);
        } else if Registrations(s, name) == 0 {
          var sid :| sid in s.sessions && s.sessions[sid].Owes(name);
          assert t.sessions[sid].Owes(name) || Registrations(t, name) > 0;
        }
      }
    }
  }

  lemma {:induction false} RunKeeps(s: State, acts: seq<Act>)
    requires Possible(s, acts) && Inv(s)
    ensures Inv(Run(s, acts))
    decreases |acts|
  {
    if acts != [] {
      KeepsOwedOnce(s, acts[0]);
      KeepsNoneMissed(s, acts[0]);
      KeepsReplays(s, acts[0]);
      KeepsWoken(s, acts[0]);
      RunKeeps(Apply(s, acts[0]), acts[1..]);
    }
  }

  /**
   * No attribute is missed, in any interleaving with any number of sessions: once the register-all pass has run, each
   * attribute in the table has been registered with the SDK, or the session that created it is still going to; and
   * nothing is ever registered more than twice.
   */
  lemma NoAttributeMissed(acts: seq<Act>, name: Bytes)
    requires Possible(Initial(), acts)
    ensures var s := Run(Initial(), acts);
      && Registrations(s, name) <= 2
      && (s.server == AllRegistered && name in s.table ==> Registrations(s, name) >= 1 || Owed(s, name))
  {
    RunKeeps(Initial(), acts);
  }

  /** The SDK is told about attributes only once the connection is there. */
  ghost predicate ToldWhenConnected(s: State) {
    && (s.server == Constructing ==> !s.shadow)
    && (forall sid :: sid in s.sessions && s.sessions[sid].pc.Registering? ==> s.shadow)
    && (forall name :: Registrations(s, name) > 0 ==> s.shadow)
  }

  lemma KeepsTold(s: State, a: Act)
    requires Enabled(s, a) && ToldWhenConnected(s) && NoneMissed(s)
    ensures ToldWhenConnected(Apply(s, a))
  {
    var t := Apply(s, a);
    forall name | Registrations(t, name) > 0
      ensures t.shadow
    {
      assert Registrations(s, name) > 0 || a.RegisterAll? || a.Register?;
    }
  }

  lemma {:induction false} RunTellsWhenConnected(s: State, acts: seq<Act>)
    requires Possible(s, acts) && ToldWhenConnected(s) && Inv(s)
    ensures ToldWhenConnected(Run(s, acts))
    decreases |acts|
  {
    if acts != [] {
      KeepsTold(s, acts[0]);
      OneStep(s, acts[0]);
      RunKeeps(s, [acts[0]]);
      RunTellsWhenConnected(Apply(s, acts[0]), acts[1..]);
    }
  }

  lemma OneStep(s: State, a: Act)
    requires Enabled(s, a)
    ensures Possible(s, [a]) && Run(s, [a]) == Apply(s, a)
  {
    assert [a][1..] == [];
  }

  /** No attribute is registered before m_shadow is published, by whatever session and in whatever interleaving. */
  lemma RegisteredOnlyWhenConnected(acts: seq<Act>, name: Bytes)
    requires Possible(Initial(), acts) && Registrations(Run(Initial(), acts), name) > 0
    ensures Run(Initial(), acts).shadow
  {
    RunTellsWhenConnected(Initial(), acts);
  }

  /**
   * When the server thread has left the wait, a client has signalled after replaying its list, and the register-all
   * pass registers every well-formed property of that list whose call got through.
   */
  lemma WakerIsRegistered(acts: seq<Act>)
    requires Possible(Initial(), acts)
    ensures var s := Run(Initial(), acts);
      && (s.server == Woken || s.server == AllRegistered ==>
            s.waker.Some? && s.waker.value in s.sessions && s.sessions[s.waker.value].pc == Signalled)
      && (s.server == Woken || s.server == AllRegistered ==>
            forall p :: InReplay(s.sessions[s.waker.value], p) ==> p.key in s.table)
      && (s.server == AllRegistered ==>
            forall p :: InReplay(s.sessions[s.waker.value], p) ==> p.key in s.all)
  {
    RunKeeps(Initial(), acts);
    var s := Run(Initial(), acts);
    if s.server == Woken || s.server == AllRegistered {
      var c := s.sessions[s.waker.value];
      forall p | InReplay(c, p)
        ensures p.key in s.table
        ensures s.server == AllRegistered ==> p.key in s.all
      {
        var j: nat :| j < |c.list| && j !in c.dropped && c.list[j] == p && p.Acceptable();
        assert c.Replayed(j);
      }
    }
  }

  /** The client replayed the property, the call got through, and its type and size are acceptable. */
  ghost predicate InReplay(c: Session, p: PropertyInfo) {
    exists j: nat :: j < |c.list| && j !in c.dropped && c.list[j] == p && p.Acceptable()
  }
}
