/**
 * Clients keep lists of what they follow and replay them to the server on every connect; the server forgets everything
 * when it crashes. Any number of client processes, each remote call one step, calls to a live server succeed.
 */
module ClientReplay {
  import opened CStrings
  import opened FollowRegistry
  import opened Options

  /** Where a client is in connService: its lists are sent name by name, then its callbacks are registered. */
  datatype Phase = Disconnected | SendingProperties(i: nat) | SendingCommands(i: nat) | Registering | Connected

  /** A session of the server that was running when it was created. */
  datatype Proxy = Proxy(session: nat, run: nat)

  /** `posted` says how long the lists were when the last replay sent them. */
  datatype Client = Client(
    properties: seq<Bytes>, commands: seq<Bytes>, phase: Phase, proxy: Option<Proxy>,
    postedProperties: nat, postedCommands: nat)
  {
    /** The names of one kind sent to the session so far. */
    function Posted(kind: Kind): seq<Bytes>
      requires phase.SendingProperties? ==> phase.i <= |properties|
      requires phase.SendingCommands? ==> phase.i <= |commands|
      requires postedProperties <= |properties| && postedCommands <= |commands|
    {
      match kind
      case Property => if phase.SendingProperties? then properties[..phase.i] else properties[..postedProperties]
      case Command =>
        if phase.SendingProperties? then []
        else if phase.SendingCommands? then commands[..phase.i]
        else commands[..postedCommands]
    }
  }

  /** `run` counts the server's crashes, `dead` are sessions whose client died and was being watched. */
  datatype State = State(registry: Registry<nat>, run: nat, sessions: nat, clients: map<nat, Client>, dead: set<nat>)

  /**
   * A connect may find any number of clients there, since the limit is checked before the lock is taken; it may also be
   * refused, or give up waiting.
   */
  datatype Act =
    | Born(p: nat)
    | FollowLocally(p: nat, kind: Kind, name: Bytes)
    | Connect(p: nat)
    | Refused(p: nat)
    | Send(p: nat)
    | Crash
    | ServiceDied(p: nat)
    | ClientDies(p: nat)
    | BinderDied(session: nat)

  function Initial(): State {
    State(Empty(), 0, 0, map[], {})
  }

  /** A local follow is refused for an empty or known name. */
  function ListWith(list: seq<Bytes>, name: Bytes): seq<Bytes> {
    if name == [] || name in list then list else list + [name]
  }

  predicate Enabled(s: State, a: Act) {
    match a
    case Born(p) => p !in s.clients
    case FollowLocally(p, kind, _) =>
      p in s.clients && if kind == Property then !s.clients[p].phase.SendingProperties? else !s.clients[p].phase.SendingCommands?
    case Connect(p) => p in s.clients && s.clients[p].phase == Disconnected
    case Refused(p) => p in s.clients && s.clients[p].phase == Disconnected
    case Send(p) => p in s.clients && s.clients[p].phase != Disconnected && s.clients[p].phase != Connected
    case Crash => true
    case ServiceDied(p) => p in s.clients && s.clients[p].phase == Connected && !Reaches(s, s.clients[p])
    case ClientDies(p) => p in s.clients
    case BinderDied(session) => session in s.dead
  }

  /** The client's proxy is a session of the running server. */
  predicate Reaches(s: State, c: Client) {
    c.proxy.Some? && c.proxy.value.run == s.run
  }

  /** A remote follow call; it fails when the server that made the session is gone. */
  function FollowRemotely(s: State, c: Client, kind: Kind, name: Bytes): Registry<nat> {
    if Reaches(s, c) then s.registry.Follow(kind, name, c.proxy.value.session) else s.registry
  }

  function WithClient(s: State, p: nat, c: Client): State {
    s.(clients := s.clients[p := c])
  }

  /** The next step of _postFollow. */
  function SendStep(s: State, p: nat): State
    requires Enabled(s, Send(p))
  {
    var c := s.clients[p];
    match c.phase
    case SendingProperties(i) =>
      if i < |c.properties| then
        WithClient(s.(registry := FollowRemotely(s, c, Property, c.properties[i])), p, c.(phase := SendingProperties(i + 1)))
      else WithClient(s, p, c.(phase := SendingCommands(0), postedProperties := |c.properties|))
    case SendingCommands(i) =>
      if i < |c.commands| then
        WithClient(s.(registry := FollowRemotely(s, c, Command, c.commands[i])), p, c.(phase := SendingCommands(i + 1)))
      else WithClient(s, p, c.(phase := Registering, postedCommands := |c.commands|))
    case _ => WithClient(s, p, c.(phase := Connected))
  }

  function Apply(s: State, a: Act): State
    requires Enabled(s, a)
  {
    match a
    case Born(p) => WithClient(s, p, Client([], [], Disconnected, None, 0, 0))
    case FollowLocally(p, kind, name) =>
      var c := s.clients[p];
      WithClient(s, p, if kind == Property then c.(properties := ListWith(c.properties, name))
                       else c.(commands := ListWith(c.commands, name)))
    case Connect(p) =>
      WithClient(s, p, s.clients[p].(phase := SendingProperties(0), proxy := Some(Proxy(s.sessions, s.run))))
      .(registry := s.registry.Create(s.sessions), sessions := s.sessions + 1)
    case Refused(_) => s
    case Send(p) => SendStep(s, p)
    case Crash => s.(registry := Empty(), run := s.run + 1, dead := {})
    case ServiceDied(p) => WithClient(s, p, s.clients[p].(phase := Disconnected, proxy := None))
    case ClientDies(p) =>
      var c := s.clients[p];
      s.(clients := s.clients - {p},
         dead := if c.phase == Connected && Reaches(s, c) then s.dead + {c.proxy.value.session} else s.dead)
    case BinderDied(session) => s.(registry := s.registry.Remove(session), dead := s.dead - {session})
  }

  predicate Possible(s: State, acts: seq<Act>)
    decreases |acts|
  {
    acts == [] || (Enabled(s, acts[0]) && Possible(Apply(s, acts[0]), acts[1..]))
  }

  function Run(s: State, acts: seq<Act>): State
    requires Possible(s, acts)
    decreases |acts|
  {
    if acts == [] then s else Run(Apply(s, acts[0]), acts[1..])
  }

  /** The lists are free of duplicates, and what was posted is a part of them. */
  ghost predicate Sound(c: Client) {
    && NoDup(c.properties) && NoDup(c.commands)
    && c.postedProperties <= |c.properties| && c.postedCommands <= |c.commands|
    && (c.phase.SendingProperties? ==> c.phase.i <= |c.properties|)
    && (c.phase.SendingCommands? ==> c.phase.i <= |c.commands|)
    && (c.phase != Disconnected ==> c.proxy.Some?)
  }

  /** The server lists the session for exactly the names sent to it. */
  ghost predicate Mirrored(s: State, c: Client)
    requires Sound(c)
  {
    Reaches(s, c) ==>
      && c.proxy.value.session in s.registry.clients
      && forall kind, name :: c.proxy.value.session in s.registry.Followers(kind, name) <==> name in c.Posted(kind)
  }

  /** Sessions are numbered, and every vector is free of duplicates. */
  ghost predicate Numbered(s: State) {
    && (forall id :: id in s.registry.clients ==> id < s.sessions)
    && NoDup(s.registry.clients)
    && (forall kind, name :: NoDup(s.registry.Followers(kind, name)))
    && (forall kind, name, id :: id in s.registry.Followers(kind, name) ==> id < s.sessions)
  }

  /** Different clients have different sessions, and none has the session of a dead client. */
  ghost predicate Apart(s: State) {
    && (forall p :: p in s.clients && Reaches(s, s.clients[p]) ==>
          s.clients[p].proxy.value.session < s.sessions && s.clients[p].proxy.value.session !in s.dead)
    && (forall p :: p in s.clients && s.clients[p].proxy.Some? ==> s.clients[p].proxy.value.run <= s.run)
    && (forall id :: id in s.dead ==> id < s.sessions)
    && (forall p, q :: p in s.clients && q in s.clients && p != q && Reaches(s, s.clients[p]) && Reaches(s, s.clients[q]) ==>
          s.clients[p].proxy.value.session != s.clients[q].proxy.value.session)
  }

  ghost predicate Inv(s: State) {
    && (forall p :: p in s.clients ==> Sound(s.clients[p]) && Mirrored(s, s.clients[p]))
    && Numbered(s)
    && Apart(s)
  }

  lemma FollowMembers(r: Registry<nat>, kind: Kind, name: Bytes, c: nat, k: Kind, n: Bytes)
    requires NoDup(r.Followers(k, n))
    ensures forall x :: x in r.Follow(kind, name, c).Followers(k, n) <==>
      x in r.Followers(k, n) || (x == c && k == kind && n == name)
    ensures NoDup(r.Follow(kind, name, c).Followers(k, n))
  {
  }

  lemma RemoveMembers(r: Registry<nat>, c: nat, k: Kind, n: Bytes)
    requires NoDup(r.Followers(k, n))
    ensures forall x :: x in r.Remove(c).Followers(k, n) <==> x in r.Followers(k, n) && x != c
    ensures NoDup(r.Remove(c).Followers(k, n))
  {
    RemoveFirstErases(r.Followers(k, n), c);
  }

  /** A step that leaves the registry and the client's session alone leaves the client mirrored. */
  lemma MirrorStays(s: State, t: State, c: Client)
    requires Sound(c) && Mirrored(s, c) && t.registry == s.registry && t.run == s.run
    ensures Mirrored(t, c)
  {
  }

  /** A step that leaves every proxy alone keeps the sessions apart. */
  lemma ApartStays(s: State, p: nat, d: Client, registry: Registry<nat>)
    requires Apart(s) && p in s.clients && d.proxy == s.clients[p].proxy
    ensures Apart(WithClient(s.(registry := registry), p, d))
  {
  }

  lemma GrowKeeps(s: State, a: Act)
    requires Inv(s) && a.FollowLocally? && Enabled(s, a)
    ensures Inv(Apply(s, a))
  {
    var t := Apply(s, a);
    var c, d := s.clients[a.p], t.clients[a.p];
    assert Sound(d);
    assert forall kind :: d.Posted(kind) == c.Posted(kind);
    assert Mirrored(t, d);
    ApartStays(s, a.p, d, s.registry);
    forall q | q in t.clients && q != a.p
      ensures Sound(t.clients[q]) && Mirrored(t, t.clients[q])
    {
      MirrorStays(s, t, t.clients[q]);
    }
  }

  lemma ConnectKeeps(s: State, p: nat)
    requires Inv(s) && Enabled(s, Connect(p))
    ensures Inv(Apply(s, Connect(p)))
  {
    var t := Apply(s, Connect(p));
    assert forall kind, name :: t.registry.Followers(kind, name) == s.registry.Followers(kind, name);
    var d := t.clients[p];
    assert Sound(d) && d.Posted(Property) == [] && d.Posted(Command) == [];
    assert s.sessions in t.registry.clients by {
      assert t.registry.clients[|s.registry.clients|] == s.sessions;
    }
    assert Mirrored(t, d);
    NoDupWith(s.registry.clients, s.sessions);
    forall q | q in t.clients && q != p
      ensures Sound(t.clients[q]) && Mirrored(t, t.clients[q])
    {
    }
  }

  /** What a remote follow by `p` leaves of another client. */
  lemma OtherMirrored(s: State, p: nat, q: nat, kind: Kind, name: Bytes)
    requires Inv(s) && p in s.clients && q in s.clients && p != q
    ensures Mirrored(s.(registry := FollowRemotely(s, s.clients[p], kind, name)), s.clients[q])
  {
    var c := s.clients[p];
    if Reaches(s, c) && Reaches(s, s.clients[q]) {
      forall k, n
        ensures s.clients[q].proxy.value.session in FollowRemotely(s, c, kind, name).Followers(k, n)
           <==> n in s.clients[q].Posted(k)
      {
        FollowMembers(s.registry, kind, name, c.proxy.value.session, k, n);
      }
    }
  }

  lemma NumberedFollow(s: State, p: nat, kind: Kind, name: Bytes)
    requires Inv(s) && p in s.clients
    ensures Numbered(s.(registry := FollowRemotely(s, s.clients[p], kind, name)))
  {
    var c := s.clients[p];
    if Reaches(s, c) {
      forall k, n
        ensures NoDup(FollowRemotely(s, c, kind, name).Followers(k, n))
        ensures forall id :: id in FollowRemotely(s, c, kind, name).Followers(k, n) ==> id < s.sessions
      {
        FollowMembers(s.registry, kind, name, c.proxy.value.session, k, n);
      }
    }
  }

  /** The client that sent the next name of a list is mirrored with that name. */
  lemma SenderMirrored(s: State, p: nat, kind: Kind, d: Client)
    requires Inv(s) && p in s.clients
    requires var c := s.clients[p];
      if kind == Property then
        c.phase.SendingProperties? && c.phase.i < |c.properties| && d == c.(phase := SendingProperties(c.phase.i + 1))
      else
        c.phase.SendingCommands? && c.phase.i < |c.commands| && d == c.(phase := SendingCommands(c.phase.i + 1))
    ensures Sound(d)
    ensures var c := s.clients[p];
      Mirrored(s.(registry := FollowRemotely(s, c, kind, (if kind == Property then c.properties else c.commands)[c.phase.i])), d)
  {
    var c := s.clients[p];
    var list := if kind == Property then c.properties else c.commands;
    var name := list[c.phase.i];
    assert list[..c.phase.i + 1] == list[..c.phase.i] + [name];
    assert d.Posted(kind) == c.Posted(kind) + [name];
    if Reaches(s, c) {
      forall k, n
        ensures c.proxy.value.session in FollowRemotely(s, c, kind, name).Followers(k, n) <==> n in d.Posted(k)
      {
        FollowMembers(s.registry, kind, name, c.proxy.value.session, k, n);
      }
    }
  }

  lemma SendNameKeeps(s: State, p: nat, kind: Kind)
    requires Inv(s) && Enabled(s, Send(p))
    requires var c := s.clients[p];
      if kind == Property then c.phase.SendingProperties? && c.phase.i < |c.properties|
      else c.phase.SendingCommands? && c.phase.i < |c.commands|
    ensures Inv(SendStep(s, p))
  {
    var t := SendStep(s, p);
    var c := s.clients[p];
    var name := (if kind == Property then c.properties else c.commands)[c.phase.i];
    SenderMirrored(s, p, kind, t.clients[p]);
    ApartStays(s, p, t.clients[p], t.registry);
    NumberedFollow(s, p, kind, name);
    forall q | q in t.clients && q != p
      ensures Sound(t.clients[q]) && Mirrored(t, t.clients[q])
    {
      OtherMirrored(s, p, q, kind, name);
      MirrorStays(s.(registry := FollowRemotely(s, c, kind, name)), t, t.clients[q]);
    }
    MirrorStays(s.(registry := FollowRemotely(s, c, kind, name)), t, t.clients[p]);
  }

  /** A step of the replay that sends nothing. */
  lemma PhaseKeeps(s: State, p: nat)
    requires Inv(s) && Enabled(s, Send(p)) && SendStep(s, p).registry == s.registry
    requires var c := s.clients[p];
      !(c.phase.SendingProperties? && c.phase.i < |c.properties|) && !(c.phase.SendingCommands? && c.phase.i < |c.commands|)
    ensures Inv(SendStep(s, p))
  {
    var t := SendStep(s, p);
    var c, d := s.clients[p], t.clients[p];
    assert Sound(d);
    assert forall kind :: d.Posted(kind) == c.Posted(kind);
    assert Mirrored(t, d);
    ApartStays(s, p, d, s.registry);
    forall q | q in t.clients && q != p
      ensures Sound(t.clients[q]) && Mirrored(t, t.clients[q])
    {
      MirrorStays(s, t, t.clients[q]);
    }
  }

  lemma SendKeeps(s: State, p: nat)
    requires Inv(s) && Enabled(s, Send(p))
    ensures Inv(Apply(s, Send(p)))
  {
    var c := s.clients[p];
    if c.phase.SendingProperties? && c.phase.i < |c.properties| {
      SendNameKeeps(s, p, Property);
    } else if c.phase.SendingCommands? && c.phase.i < |c.commands| {
      SendNameKeeps(s, p, Command);
    } else {
      PhaseKeeps(s, p);
    }
  }

  /** The server is gone: no client reaches the new one. */
  lemma CrashKeeps(s: State)
    requires Inv(s)
    ensures Inv(Apply(s, Crash))
  {
    var t := Apply(s, Crash);
    forall q | q in t.clients
      ensures Sound(t.clients[q]) && !Reaches(t, t.clients[q])
    {
      assert Sound(s.clients[q]);
    }
  }

  /** A client that no session belongs to comes, or stands in for one that had a session. */
  lemma StrangerKeeps(s: State, p: nat, c: Client)
    requires Inv(s) && Sound(c) && c.proxy == None
    ensures Inv(WithClient(s, p, c))
  {
    var t := WithClient(s, p, c);
    forall q | q in t.clients
      ensures Sound(t.clients[q]) && Mirrored(t, t.clients[q])
    {
      if q != p {
        MirrorStays(s, t, t.clients[q]);
      }
    }
  }

  lemma ClientDiesKeeps(s: State, p: nat)
    requires Inv(s) && Enabled(s, ClientDies(p))
    ensures Inv(Apply(s, ClientDies(p)))
  {
    var t := Apply(s, ClientDies(p));
    forall q | q in t.clients
      ensures Sound(t.clients[q]) && Mirrored(t, t.clients[q])
    {
      MirrorStays(s, t, s.clients[q]);
    }
  }

  lemma BinderDiedKeeps(s: State, id: nat)
    requires Inv(s) && Enabled(s, BinderDied(id))
    ensures Inv(Apply(s, BinderDied(id)))
  {
    var t := Apply(s, BinderDied(id));
    RemoveFirstErases(s.registry.clients, id);
    forall k, n
      ensures NoDup(t.registry.Followers(k, n))
      ensures forall x :: x in t.registry.Followers(k, n) <==> x in s.registry.Followers(k, n) && x != id
    {
      RemoveMembers(s.registry, id, k, n);
    }
    forall q | q in t.clients
      ensures Sound(t.clients[q]) && Mirrored(t, t.clients[q])
    {
    }
  }

  lemma StepKeeps(s: State, a: Act)
    requires Inv(s) && Enabled(s, a)
    ensures Inv(Apply(s, a))
  {
    match a
    case FollowLocally(_, _, _) => GrowKeeps(s, a);
    case Connect(p) => ConnectKeeps(s, p);
    case Refused(_) =>
    case Send(p) => SendKeeps(s, p);
    case BinderDied(id) => BinderDiedKeeps(s, id);
    case Born(p) => StrangerKeeps(s, p, Apply(s, a).clients[p]);
    case ServiceDied(p) => StrangerKeeps(s, p, Apply(s, a).clients[p]);
    case ClientDies(p) => ClientDiesKeeps(s, p);
    case Crash => CrashKeeps(s);
  }

  lemma {:induction false} RunKeeps(s: State, acts: seq<Act>)
    requires Inv(s) && Possible(s, acts)
    ensures Inv(Run(s, acts))
    decreases |acts|
  {
    if acts != [] {
      StepKeeps(s, acts[0]);
      RunKeeps(Apply(s, acts[0]), acts[1..]);
    }
  }

  /** The step ends the part of p's replay that sends the list of this kind, and `list` is the list of that moment. */
  predicate EndsPart(s: State, a: Act, p: nat, kind: Kind, list: seq<Bytes>) {
    && a == Send(p) && p in s.clients
    && var c := s.clients[p];
       if kind == Property then c.phase == SendingProperties(|c.properties|) && c.properties == list
       else c.phase == SendingCommands(|c.commands|) && c.commands == list
  }

  /** The last replay of the run that p began has sent its whole list of this kind, which was `list` at that moment. */
  ghost predicate LastPosted(s: State, acts: seq<Act>, p: nat, kind: Kind, list: seq<Bytes>)
    requires Possible(s, acts)
    decreases |acts|
  {
    && acts != []
    && (LastPosted(Apply(s, acts[0]), acts[1..], p, kind, list)
        || (EndsPart(s, acts[0], p, kind, list) && Connect(p) !in acts[1..]))
  }

  /** The client is past the part of its replay that sends its list of this kind, of which `list` is noted as sent. */
  ghost predicate PastPart(s: State, p: nat, kind: Kind, list: seq<Bytes>) {
    && p in s.clients
    && var c := s.clients[p];
       if kind == Property then
         && (c.phase.SendingCommands? || c.phase == Registering || c.phase == Connected)
         && c.postedProperties <= |c.properties| && list == c.properties[..c.postedProperties]
       else
         && (c.phase == Registering || c.phase == Connected)
         && c.postedCommands <= |c.commands| && list == c.commands[..c.postedCommands]
  }

  lemma SendPosts(s: State, p: nat, kind: Kind, list: seq<Bytes>)
    requires Inv(s) && Enabled(s, Send(p)) && PastPart(SendStep(s, p), p, kind, list)
    ensures EndsPart(s, Send(p), p, kind, list) || PastPart(s, p, kind, list)
  {
    var c := s.clients[p];
    assert Sound(c);
    assert c.properties[..|c.properties|] == c.properties && c.commands[..|c.commands|] == c.commands;
  }

  /** Steps other than those of its replay leave what is noted as sent; the lists may grow behind it. */
  lemma OtherStepPosts(s: State, a: Act, p: nat, kind: Kind, list: seq<Bytes>)
    requires Inv(s) && Enabled(s, a) && a != Send(p) && PastPart(Apply(s, a), p, kind, list)
    ensures PastPart(s, p, kind, list) && a != Connect(p)
  {
    assert p in s.clients;
    var c, d := s.clients[p], Apply(s, a).clients[p];
    assert Sound(c);
    assert c.phase == d.phase && c.postedProperties == d.postedProperties && c.postedCommands == d.postedCommands;
    assert c.properties <= d.properties && c.commands <= d.commands;
  }

  lemma StepPosts(s: State, a: Act, p: nat, kind: Kind, list: seq<Bytes>)
    requires Inv(s) && Enabled(s, a) && PastPart(Apply(s, a), p, kind, list)
    ensures EndsPart(s, a, p, kind, list) || (PastPart(s, p, kind, list) && a != Connect(p))
  {
    if a == Send(p) {
      SendPosts(s, p, kind, list);
    } else {
      OtherStepPosts(s, a, p, kind, list);
    }
  }

  /** What is noted as sent was the whole list when a step of the client's last replay ended the part that sends it. */
  lemma {:induction false} PostedInRun(s: State, acts: seq<Act>, p: nat, kind: Kind, list: seq<Bytes>)
    requires Inv(s) && Possible(s, acts) && PastPart(Run(s, acts), p, kind, list)
    ensures LastPosted(s, acts, p, kind, list) || (PastPart(s, p, kind, list) && Connect(p) !in acts)
    decreases |acts|
  {
    if acts != [] {
      StepKeeps(s, acts[0]);
      PostedInRun(Apply(s, acts[0]), acts[1..], p, kind, list);
      if !LastPosted(Apply(s, acts[0]), acts[1..], p, kind, list) {
        StepPosts(s, acts[0], p, kind, list);
        assert acts == [acts[0]] + acts[1..];
      }
    }
  }

  /**
   * Crash and replay: after any sequence of crashes, follows, connects and deaths, a client whose replay to the running
   * server is complete is listed under exactly the names its lists had when that replay sent them, and these are the
   * front parts of its lists, which have no duplicates.
   */
  lemma ReplayedExactly(acts: seq<Act>, p: nat, name: Bytes)
    requires Possible(Initial(), acts) && p in Run(Initial(), acts).clients
    requires var s := Run(Initial(), acts); s.clients[p].phase == Connected && Reaches(s, s.clients[p])
    ensures var s := Run(Initial(), acts);
      var c := s.clients[p];
      && NoDup(c.properties) && NoDup(c.commands)
      && c.postedProperties <= |c.properties| && c.postedCommands <= |c.commands|
      && LastPosted(Initial(), acts, p, Property, c.properties[..c.postedProperties])
      && LastPosted(Initial(), acts, p, Command, c.commands[..c.postedCommands])
      && c.proxy.value.session in s.registry.clients
      && (c.proxy.value.session in s.registry.Followers(Property, name) <==> name in c.properties[..c.postedProperties])
      && (c.proxy.value.session in s.registry.Followers(Command, name) <==> name in c.commands[..c.postedCommands])
  {
    RunKeeps(Initial(), acts);
    var s := Run(Initial(), acts);
    var c := s.clients[p];
    assert Sound(c) && Mirrored(s, c);
    assert c.Posted(Property) == c.properties[..c.postedProperties];
    PostedInRun(Initial(), acts, p, Property, c.properties[..c.postedProperties]);
    PostedInRun(Initial(), acts, p, Command, c.commands[..c.postedCommands]);
  }

  /** The session the step is about. */
  predicate Concerns(s: State, a: Act, session: nat) {
    match a
    case Send(p) => p in s.clients && s.clients[p].proxy.Some? && s.clients[p].proxy.value.session == session
    case Connect(_) => session == s.sessions
    case BinderDied(id) => id == session
    case Crash => true
    case _ => false
  }

  /** The step is about none of the sessions. */
  ghost predicate SparedBy(s: State, a: Act, others: set<nat>) {
    forall id :: id in others ==> !Concerns(s, a, id)
  }

  lemma FollowKeepsOthers(r: Registry<nat>, kind: Kind, name: Bytes, c: nat, k: Kind, n: Bytes, others: set<nat>)
    requires c !in others
    ensures Select(r.Follow(kind, name, c).Followers(k, n), others) == Select(r.Followers(k, n), others)
  {
    SelectOneMore(r.Followers(k, n), c, others);
  }

  lemma RemoveKeepsOthers(r: Registry<nat>, c: nat, k: Kind, n: Bytes, others: set<nat>)
    requires c !in others
    ensures Select(r.Remove(c).Followers(k, n), others) == Select(r.Followers(k, n), others)
    ensures Select(r.Remove(c).clients, others) == Select(r.clients, others)
  {
    SelectWithoutOther(r.Followers(k, n), c, others);
    SelectWithoutOther(r.clients, c, others);
  }

  lemma SelectNone<T>(v: seq<T>)
    ensures Select(v, {}) == []
  {
    SelectMembers(v, {});
  }

  /** The entries of `others` in the vector of a name and in the client vector stay, in their order. */
  ghost predicate SameOthers(s: State, t: State, kind: Kind, name: Bytes, others: set<nat>) {
    && Select(t.registry.Followers(kind, name), others) == Select(s.registry.Followers(kind, name), others)
    && Select(t.registry.clients, others) == Select(s.registry.clients, others)
  }

  lemma SendLeavesOthers(s: State, p: nat, kind: Kind, name: Bytes, others: set<nat>)
    requires Inv(s) && Enabled(s, Send(p)) && SparedBy(s, Send(p), others)
    ensures SameOthers(s, SendStep(s, p), kind, name, others)
  {
    var c := s.clients[p];
    if Reaches(s, c) {
      var id := c.proxy.value.session;
      assert Concerns(s, Send(p), id);
      if c.phase.SendingProperties? && c.phase.i < |c.properties| {
        FollowKeepsOthers(s.registry, Property, c.properties[c.phase.i], id, kind, name, others);
      } else if c.phase.SendingCommands? && c.phase.i < |c.commands| {
        FollowKeepsOthers(s.registry, Command, c.commands[c.phase.i], id, kind, name, others);
      }
    }
  }

  lemma ConnectLeavesOthers(s: State, p: nat, kind: Kind, name: Bytes, others: set<nat>)
    requires Enabled(s, Connect(p)) && SparedBy(s, Connect(p), others)
    ensures SameOthers(s, Apply(s, Connect(p)), kind, name, others)
  {
    var r := s.registry.Create(s.sessions);
    assert Concerns(s, Connect(p), s.sessions);
    SelectOneMore(s.registry.clients, s.sessions, others);
    assert r.Followers(kind, name) == s.registry.Followers(kind, name);
  }

  lemma StepLeavesOthers(s: State, a: Act, kind: Kind, name: Bytes, others: set<nat>)
    requires Inv(s) && Enabled(s, a) && SparedBy(s, a, others)
    ensures SameOthers(s, Apply(s, a), kind, name, others)
  {
    match a
    case Send(p) => SendLeavesOthers(s, p, kind, name, others);
    case Connect(p) => ConnectLeavesOthers(s, p, kind, name, others);
    case BinderDied(id) =>
      assert Concerns(s, a, id);
      RemoveKeepsOthers(s.registry, id, kind, name, others);
    case Crash =>
      assert forall id: nat :: Concerns(s, a, id);
      assert others == {};
      SelectNone(s.registry.Followers(kind, name));
      SelectNone(s.registry.clients);
    case _ => assert Apply(s, a).registry == s.registry;
  }

  /** No step of the run is about one of the sessions. */
  ghost predicate Spares(s: State, acts: seq<Act>, others: set<nat>)
    requires Possible(s, acts)
    decreases |acts|
  {
    acts == [] || (SparedBy(s, acts[0], others) && Spares(Apply(s, acts[0]), acts[1..], others))
  }

  /**
   * Whatever all other clients do, and however long: in every vector a session stays or stays away, and the sessions
   * keep their order.
   */
  lemma {:induction false} OthersUntouched(s: State, acts: seq<Act>, kind: Kind, name: Bytes, others: set<nat>)
    requires Inv(s) && Possible(s, acts) && Spares(s, acts, others)
    ensures SameOthers(s, Run(s, acts), kind, name, others)
    ensures forall id :: id in others ==>
      && (id in Run(s, acts).registry.Followers(kind, name) <==> id in s.registry.Followers(kind, name))
      && (id in Run(s, acts).registry.clients <==> id in s.registry.clients)
    decreases |acts|
  {
    if acts != [] {
      StepKeeps(s, acts[0]);
      StepLeavesOthers(s, acts[0], kind, name, others);
      OthersUntouched(Apply(s, acts[0]), acts[1..], kind, name, others);
    }
    SameOthersMembers(s, Run(s, acts), kind, name, others);
  }

  lemma SameOthersMembers(s: State, t: State, kind: Kind, name: Bytes, others: set<nat>)
    requires SameOthers(s, t, kind, name, others)
    ensures forall id :: id in others ==>
      && (id in t.registry.Followers(kind, name) <==> id in s.registry.Followers(kind, name))
      && (id in t.registry.clients <==> id in s.registry.clients)
  {
    SelectMembers(s.registry.Followers(kind, name), others);
    SelectMembers(t.registry.Followers(kind, name), others);
    SelectMembers(s.registry.clients, others);
    SelectMembers(t.registry.clients, others);
  }

  /** A completed part of the replay has posted the whole list of that time, and only a finished replay connects. */
  lemma PostsWholeLists(s: State, a: Act, p: nat)
    requires Inv(s) && Enabled(s, a) && p in s.clients && p in Apply(s, a).clients
    ensures var c, d := s.clients[p], Apply(s, a).clients[p];
      && c.properties <= d.properties && c.commands <= d.commands
      && (c.phase.SendingProperties? && d.phase.SendingCommands? ==> d.postedProperties == |c.properties|)
      && (c.phase.SendingCommands? && d.phase == Registering ==> d.postedCommands == |c.commands|)
      && (d.phase == Connected && c.phase != Connected ==> c.phase == Registering)
  {
  }

  /** Over any run that the client survives, its lists are only appended to. */
  lemma {:induction false} ListsOnlyGrow(s: State, acts: seq<Act>, p: nat)
    requires Inv(s) && Possible(s, acts) && p in s.clients && ClientDies(p) !in acts
    ensures p in Run(s, acts).clients
    ensures s.clients[p].properties <= Run(s, acts).clients[p].properties
    ensures s.clients[p].commands <= Run(s, acts).clients[p].commands
    decreases |acts|
  {
    if acts != [] {
      StepKeeps(s, acts[0]);
      PostsWholeLists(s, acts[0], p);
      ListsOnlyGrow(Apply(s, acts[0]), acts[1..], p);
    }
  }

  function Sends(p: nat, n: nat): seq<Act> {
    if n == 0 then [] else [Send(p)] + Sends(p, n - 1)
  }

  /** The steps left of a client's replay. */
  function Remaining(c: Client): nat
    requires Sound(c)
  {
    match c.phase
    case SendingProperties(i) => |c.properties| - i + |c.commands| + 3
    case SendingCommands(i) => |c.commands| - i + 2
    case Registering => 1
    case _ => 0
  }

  /** What the rest of a replay makes of the registry. */
  function ReplayRest(r: Registry<nat>, c: Client, session: nat): Registry<nat>
    requires Sound(c)
  {
    match c.phase
    case SendingProperties(i) =>
      FollowAll(FollowAll(r, Property, c.properties[i..], session), Command, c.commands, session)
    case SendingCommands(i) => FollowAll(r, Command, c.commands[i..], session)
    case _ => r
  }

  function Finished(c: Client): Client {
    c.(phase := Connected,
       postedProperties := if c.phase.SendingProperties? then |c.properties| else c.postedProperties,
       postedCommands := if c.phase.SendingProperties? || c.phase.SendingCommands? then |c.commands| else c.postedCommands)
  }

  lemma SendReplays(s: State, p: nat)
    requires p in s.clients && Sound(s.clients[p]) && Reaches(s, s.clients[p]) && Enabled(s, Send(p))
    ensures var c, t := s.clients[p], SendStep(s, p);
      var d := t.clients[p];
      && Sound(d) && Reaches(t, d) && d.phase != Disconnected && d.proxy == c.proxy
      && Remaining(d) == Remaining(c) - 1
      && ReplayRest(t.registry, d, d.proxy.value.session) == ReplayRest(s.registry, c, c.proxy.value.session)
      && Finished(d) == Finished(c)
  {
    var c := s.clients[p];
    match c.phase
    case SendingProperties(i) =>
      if i < |c.properties| {
        assert c.properties[i..][1..] == c.properties[i + 1..];
      } else {
        assert c.properties[i..] == [] && c.commands[0..] == c.commands;
      }
    case SendingCommands(i) =>
      if i < |c.commands| {
        assert c.commands[i..][1..] == c.commands[i + 1..];
      }
    case _ =>
  }

  lemma {:induction false} SendsFinish(s: State, p: nat)
    requires p in s.clients && Sound(s.clients[p]) && Reaches(s, s.clients[p]) && s.clients[p].phase != Disconnected
    ensures var c := s.clients[p];
      var acts := Sends(p, Remaining(c));
      && Possible(s, acts)
      && Run(s, acts).registry == ReplayRest(s.registry, c, c.proxy.value.session)
      && p in Run(s, acts).clients && Run(s, acts).clients[p] == Finished(c)
    decreases Remaining(s.clients[p])
  {
    var c := s.clients[p];
    if c.phase != Connected {
      SendReplays(s, p);
      SendsFinish(SendStep(s, p), p);
      var acts := Sends(p, Remaining(c));
      assert acts[0] == Send(p) && acts[1..] == Sends(p, Remaining(c) - 1);
    }
  }

  lemma ConnectBegins(s: State, p: nat)
    requires Inv(s) && Enabled(s, Connect(p))
    ensures var c, t := s.clients[p], Apply(s, Connect(p));
      && p in t.clients && Sound(t.clients[p]) && Reaches(t, t.clients[p])
      && t.clients[p] == c.(phase := SendingProperties(0), proxy := Some(Proxy(s.sessions, s.run)))
      && t.registry == s.registry.Create(s.sessions)
  {
    assert Sound(s.clients[p]);
  }

  /**
   * A connect that nobody interrupts: its steps amount to creating the session and following both lists in order, and
   * the client ends connected with the whole lists posted.
   */
  lemma ConnectReplays(s: State, p: nat)
    requires Inv(s) && Enabled(s, Connect(p))
    ensures var c := s.clients[p];
      var acts := [Connect(p)] + Sends(p, |c.properties| + |c.commands| + 3);
      && Possible(s, acts)
      && Run(s, acts).registry == Replayed(s.registry, s.sessions, c.properties, c.commands)
      && p in Run(s, acts).clients
      && Run(s, acts).clients[p] ==
           Client(c.properties, c.commands, Connected, Some(Proxy(s.sessions, s.run)), |c.properties|, |c.commands|)
  {
    var c, t := s.clients[p], Apply(s, Connect(p));
    ConnectBegins(s, p);
    SendsFinish(t, p);
    var acts := [Connect(p)] + Sends(p, |c.properties| + |c.commands| + 3);
    assert acts[1..] == Sends(p, Remaining(t.clients[p]));
    assert c.properties[0..] == c.properties;
  }

  /** A client's list after local follows of these names, in this order. */
  function Listed(calls: seq<Bytes>): seq<Bytes> {
    if calls == [] then [] else ListWith(Listed(calls[..|calls| - 1]), calls[|calls| - 1])
  }

  /** The call at `i` is the first one with its name, which is not empty. */
  ghost predicate FirstCall(calls: seq<Bytes>, name: Bytes, i: int) {
    0 <= i < |calls| && name != [] && calls[i] == name && forall j :: 0 <= j < i ==> calls[j] != name
  }

  /** Position by position, `firsts` gives the first call with that name, and it increases. */
  ghost predicate InCallOrder(calls: seq<Bytes>, list: seq<Bytes>, firsts: seq<int>) {
    && |firsts| == |list|
    && (forall p :: 0 <= p < |list| ==> FirstCall(calls, list[p], firsts[p]))
    && (forall p, q :: 0 <= p < q < |list| ==> firsts[p] < firsts[q])
  }

  lemma CallOrderKept(calls: seq<Bytes>, list: seq<Bytes>, firsts: seq<int>, name: Bytes)
    requires InCallOrder(calls, list, firsts)
    ensures InCallOrder(calls + [name], list, firsts)
  {
    forall p | 0 <= p < |list|
      ensures FirstCall(calls + [name], list[p], firsts[p])
    {
      assert FirstCall(calls, list[p], firsts[p]);
    }
  }

  lemma CallOrderAppend(calls: seq<Bytes>, list: seq<Bytes>, firsts: seq<int>, name: Bytes)
    requires InCallOrder(calls, list, firsts) && name != [] && name !in calls
    ensures InCallOrder(calls + [name], list + [name], firsts + [|calls|])
  {
    CallOrderKept(calls, list, firsts, name);
    assert FirstCall(calls + [name], name, |calls|);
    assert forall p :: 0 <= p < |list| ==> FirstCall(calls, list[p], firsts[p]);
  }

  lemma {:induction false} ListedIff(calls: seq<Bytes>, name: Bytes)
    ensures name in Listed(calls) <==> name in calls && name != []
  {
    if calls != [] {
      ListedIff(calls[..|calls| - 1], name);
      assert calls == calls[..|calls| - 1] + [calls[|calls| - 1]];
    }
  }

  /** The local list holds every name that was followed and is not empty, once, in the order of the first calls. */
  lemma {:induction false} ListedInCallOrder(calls: seq<Bytes>) returns (firsts: seq<int>)
    ensures InCallOrder(calls, Listed(calls), firsts)
    ensures forall name :: name in Listed(calls) <==> name in calls && name != []
  {
    firsts := [];
    if calls != [] {
      var front, name := calls[..|calls| - 1], calls[|calls| - 1];
      firsts := ListedInCallOrder(front);
      assert calls == front + [name];
      if name != [] && name !in Listed(front) {
        CallOrderAppend(front, Listed(front), firsts, name);
        firsts := firsts + [|front|];
      } else {
        CallOrderKept(front, Listed(front), firsts, name);
      }
    }
    forall name
      ensures name in Listed(calls) <==> name in calls && name != []
    {
      ListedIff(calls, name);
    }
  }
}
