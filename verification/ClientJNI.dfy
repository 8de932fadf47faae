/** The client object: its follow lists, the connection to the service, and the replay of the lists to a new session. */
module ClientJNI {
  import opened ClientReplay
  import opened ConnectRetry
  import opened CStrings
  import opened Decimal
  import opened DeviceShadow
  import opened FollowRegistry
  import opened Options
  import opened Service
  import opened ShadowEffects
  import opened ShadowModel

  const ERR_NOERROR := 0
  const ERR_PROXY_NULL := -1
  const ERR_PARAM_INVALID := -2

  function Keys(list: seq<PropertyInfo>): seq<Bytes> {
    seq(|list|, i requires 0 <= i < |list| => list[i].key)
  }

  /** The calls of a replay on the server. */
  function PropertyCalls(list: seq<PropertyInfo>, c: IOTClient): seq<Event<IOTClient>> {
    seq(|list|, i requires 0 <= i < |list| => Followed(Property, list[i].key, c))
  }

  function CommandCalls(list: seq<Bytes>, c: IOTClient): seq<Event<IOTClient>> {
    seq(|list|, i requires 0 <= i < |list| => Followed(Command, list[i], c))
  }

  lemma PropertyCallsOneMore(list: seq<PropertyInfo>, i: nat, c: IOTClient)
    requires i < |list|
    ensures PropertyCalls(list[..i + 1], c) == PropertyCalls(list[..i], c) + [Followed(Property, list[i].key, c)]
  {
  }

  lemma CommandCallsOneMore(list: seq<Bytes>, i: nat, c: IOTClient)
    requires i < |list|
    ensures CommandCalls(list[..i + 1], c) == CommandCalls(list[..i], c) + [Followed(Command, list[i], c)]
  {
  }

  /** The attribute table after the list was replayed. */
  function TableWith(s: Shadow, list: seq<PropertyInfo>): Shadow {
    if list == [] then s
    else
      var n := |list| - 1;
      AddStep(TableWith(s, list[..n]), list[n].key, list[n].propType, list[n].size)
  }

  lemma TableWithOneMore(s: Shadow, list: seq<PropertyInfo>, i: nat)
    requires i < |list|
    ensures TableWith(s, list[..i + 1]) == AddStep(TableWith(s, list[..i]), list[i].key, list[i].propType, list[i].size)
  {
    assert list[..i + 1][..i] == list[..i];
  }

  class IOTClientJNI {
    const clientID: Bytes
    const commandCB: CallbackId
    const propertyCB: CallbackId
    var propertyList: seq<PropertyInfo>
    var commandList: seq<Bytes>
    var proxy: Option<IOTClient>

    constructor (clientID: Bytes, commandCB: CallbackId, propertyCB: CallbackId)
      ensures propertyList == [] && commandList == [] && proxy == None
    {
      this.clientID, this.commandCB, this.propertyCB := clientID, commandCB, propertyCB;
      propertyList, commandList, proxy := [], [], None;
    }

    /** Only the local list changes; the server hears of it at the next connect. */
    method FollowProperty(key: Bytes, propType: int, size: int) returns (ret: int)
      modifies `propertyList
      ensures Keys(propertyList) == ListWith(old(Keys(propertyList)), key)
      ensures if |propertyList| > |old(propertyList)|
        then ret == ERR_NOERROR && propertyList == old(propertyList) + [PropertyInfo(key, propType, size)]
        else ret == ERR_PARAM_INVALID && propertyList == old(propertyList)
    {
      if |key| <= 0 {
        return ERR_PARAM_INVALID;
      }
      for i := 0 to |propertyList|
        invariant propertyList == old(propertyList)
        invariant key !in Keys(propertyList)[..i]
      {
        assert Keys(propertyList)[i] == propertyList[i].key;
        if propertyList[i].key == key {
          return ERR_PARAM_INVALID;
        }
      }
      propertyList := propertyList + [PropertyInfo(key, propType, size)];
      assert Keys(propertyList) == old(Keys(propertyList)) + [key];
      return ERR_NOERROR;
    }

    /** An empty name is refused with -1 here. */
    method FollowCommand(cmd: Bytes) returns (ret: int)
      modifies `commandList
      ensures commandList == ListWith(old(commandList), cmd)
      ensures ret == if cmd == [] then -1 else if cmd in old(commandList) then ERR_PARAM_INVALID else ERR_NOERROR
    {
      if |cmd| <= 0 {
        return -1;
      }
      for i := 0 to |commandList|
        invariant commandList == old(commandList) && cmd !in commandList[..i]
      {
        if commandList[i] == cmd {
          return ERR_PARAM_INVALID;
        }
      }
      commandList := commandList + [cmd];
      return ERR_NOERROR;
    }

    method ReplayProperties(server: DeviceShadow, session: IOTClient)
      requires server.Valid() && server.service.Valid()
      modifies server`iotAttrs, server.service, server.service.Vectors()
      ensures server.Valid() && server.service.Valid() && fresh(server.service.Vectors() - old(server.service.Vectors()))
      ensures server.service.clients == old(server.service.clients)
      ensures server.service.history == old(server.service.history) + PropertyCalls(propertyList, session)
      ensures server.View() == TableWith(old(server.View()), propertyList)
    {
      ghost var calls, table := server.service.history, server.View();
      for i := 0 to |propertyList|
        invariant propertyList == old(propertyList)
        invariant server.Valid() && server.service.Valid() && fresh(server.service.Vectors() - old(server.service.Vectors()))
        invariant server.service.clients == old(server.service.clients)
        invariant PropertiesSent(server, session, calls, table, i)
      {
        SendProperty(server, session, i, calls, table);
      }
      assert propertyList[..|propertyList|] == propertyList;
    }

    /** The first `n` properties were sent to a server that had the history `calls` and the table `table`. */
    ghost predicate PropertiesSent(server: DeviceShadow, session: IOTClient, calls: seq<Event<IOTClient>>, table: Shadow, n: nat)
      reads this, server, server.iotAttrs, server.Buffers(), server.service
    {
      && n <= |propertyList|
      && server.service.history == calls + PropertyCalls(propertyList[..n], session)
      && server.View() == TableWith(table, propertyList[..n])
    }

    method SendProperty(server: DeviceShadow, session: IOTClient, i: nat, ghost calls: seq<Event<IOTClient>>, ghost table: Shadow)
      requires server.Valid() && server.service.Valid()
      requires i < |propertyList| && PropertiesSent(server, session, calls, table, i)
      modifies server`iotAttrs, server.service, server.service.Vectors()
      ensures server.Valid() && server.service.Valid() && fresh(server.service.Vectors() - old(server.service.Vectors()))
      ensures server.service.clients == old(server.service.clients)
      ensures PropertiesSent(server, session, calls, table, i + 1)
    {
      var p := propertyList[i];
      var ret := server.FollowProperty(session, p.key, p.propType, p.size);
      TableWithOneMore(table, propertyList, i);
      PropertyCallsOneMore(propertyList, i, session);
    }

    method ReplayCommands(server: DeviceShadow, session: IOTClient)
      requires server.Valid() && server.service.Valid()
      modifies server.service, server.service.Vectors()
      ensures server.Valid() && server.View() == old(server.View())
      ensures server.service.Valid() && fresh(server.service.Vectors() - old(server.service.Vectors()))
      ensures server.service.clients == old(server.service.clients)
      ensures server.service.history == old(server.service.history) + CommandCalls(commandList, session)
    {
      ghost var calls := server.service.history;
      for i := 0 to |commandList|
        invariant commandList == old(commandList)
        invariant server.Valid() && server.View() == old(server.View())
        invariant server.service.Valid() && fresh(server.service.Vectors() - old(server.service.Vectors()))
        invariant server.service.clients == old(server.service.clients)
        invariant server.service.history == calls + CommandCalls(commandList[..i], session)
      {
        SendCommand(server, session, i, calls);
      }
      assert commandList[..|commandList|] == commandList;
    }

    method SendCommand(server: DeviceShadow, session: IOTClient, i: nat, ghost calls: seq<Event<IOTClient>>)
      requires server.Valid() && server.service.Valid() && i < |commandList|
      requires server.service.history == calls + CommandCalls(commandList[..i], session)
      modifies server.service, server.service.Vectors()
      ensures server.Valid() && server.View() == old(server.View())
      ensures server.service.Valid() && fresh(server.service.Vectors() - old(server.service.Vectors()))
      ensures server.service.clients == old(server.service.clients)
      ensures server.service.history == calls + CommandCalls(commandList[..i + 1], session)
    {
      CommandCallsOneMore(commandList, i, session);
      var ret := server.FollowCommand(session, commandList[i]);
    }

    method Replay(server: DeviceShadow, session: IOTClient)
      requires server.Valid() && server.service.Valid()
      modifies server`iotAttrs, server.service, server.service.Vectors()
      ensures server.Valid() && server.service.Valid() && fresh(server.service.Vectors() - old(server.service.Vectors()))
      ensures server.service.clients == old(server.service.clients)
      ensures server.service.history == AfterReplay(old(server.service.history), session, propertyList, commandList)
      ensures server.View() == TableWith(old(server.View()), propertyList)
    {
      ReplayProperties(server, session);
      ReplayCommands(server, session);
    }

    /** Must come after the replay: the second call signals the server thread. */
    method RegisterCallbacks(session: IOTClient)
      modifies session
      ensures session.command == Some(old(session.command).GetOr(commandCB))
      ensures session.property == Some(old(session.property).GetOr(propertyCB))
    {
      var r0 := session.RegistCommandCB(commandCB);
      var r1, wake := session.RegistPropertyCB(propertyCB);
    }

    /** The replay to a live server: the properties, the commands, then the callbacks. */
    method PostFollow(server: DeviceShadow) returns (ret: int)
      requires server.Valid() && server.service.Valid()
      modifies server`iotAttrs, server.service, server.service.Vectors(), if proxy.Some? then {proxy.value} else {}
      ensures server.Valid() && server.service.Valid() && fresh(server.service.Vectors() - old(server.service.Vectors()))
      ensures server.service.clients == old(server.service.clients)
      ensures proxy == None ==>
        ret == ERR_PROXY_NULL && server.service.history == old(server.service.history) && server.View() == old(server.View())
      ensures proxy.Some? ==>
        && ret == ERR_NOERROR
        && server.service.history == AfterReplay(old(server.service.history), proxy.value, propertyList, commandList)
        && server.View() == TableWith(old(server.View()), propertyList)
        && proxy.value.command == Some(old(proxy.value.command).GetOr(commandCB))
        && proxy.value.property == Some(old(proxy.value.property).GetOr(propertyCB))
    {
      if proxy == None {
        return ERR_PROXY_NULL;
      }
      Replay(server, proxy.value);
      ghost var table := server.View();
      RegisterCallbacks(proxy.value);
      assert server.View() == table;
      return ERR_NOERROR;
    }

    /** Waits for the service and asks it for a session. */
    method Connect(timeoutMs: int32, found: nat -> bool, statusAt: nat -> int, server: DeviceShadow) returns (ret: int)
      requires server.Valid() && server.service.Valid() && proxy == None
      modifies `proxy, server.service
      ensures server.Valid() && server.View() == old(server.View())
      ensures server.service.Valid() && server.service.Vectors() == old(server.service.Vectors())
      ensures ret == if proxy.Some? then ERR_NOERROR else ERR_PROXY_NULL
      ensures proxy.Some? <==> Connects(timeoutMs, found, statusAt) && |old(server.service.clients)| < MAX_CLINETS
      ensures proxy.Some? ==> fresh(proxy.value) && proxy.value.command == proxy.value.property == None
      ensures server.service.history == old(server.service.history) + if proxy.Some? then [Created(proxy.value)] else []
    {
      ghost var before := server.States();
      var connected, tries, slept := AwaitService(timeoutMs, found, statusAt);
      assert server.States() == before;
      if !connected {
        return ERR_PROXY_NULL;
      }
      OpenProxy(server);
      return if proxy == None then ERR_PROXY_NULL else ERR_NOERROR;
    }

    /** The session the server gives, or none. */
    method OpenProxy(server: DeviceShadow)
      requires server.Valid() && server.service.Valid()
      modifies `proxy, server.service
      ensures server.Valid() && server.View() == old(server.View())
      ensures server.service.Valid() && server.service.Vectors() == old(server.service.Vectors())
      ensures proxy.Some? <==> |old(server.service.clients)| < MAX_CLINETS
      ensures proxy.Some? ==> fresh(proxy.value) && proxy.value.command == proxy.value.property == None
      ensures server.service.history == old(server.service.history) + if proxy.Some? then [Created(proxy.value)] else []
    {
      ghost var before := server.States();
      proxy := server.CreateClient(clientID);
      assert server.States() == before;
    }

    /** A connected client stays as it is; another one waits for the service, opens a session and replays its lists. */
    method ConnService(timeoutMs: int32, found: nat -> bool, statusAt: nat -> int, server: DeviceShadow) returns (ret: int)
      requires server.Valid() && server.service.Valid()
      modifies `proxy, server`iotAttrs, server.service, server.service.Vectors()
      ensures server.Valid() && server.service.Valid()
      ensures old(proxy).Some? ==> ret == ERR_NOERROR && proxy == old(proxy) && server.service.history == old(server.service.history)
      ensures old(proxy) == None ==>
        && ret == (if proxy.Some? then ERR_NOERROR else ERR_PROXY_NULL)
        && (proxy.Some? <==> Connects(timeoutMs, found, statusAt) && |old(server.service.clients)| < MAX_CLINETS)
        && (proxy == None ==> server.service.history == old(server.service.history))
        && (proxy.Some? ==>
             && fresh(proxy.value) && proxy.value.command == Some(commandCB) && proxy.value.property == Some(propertyCB)
             && server.service.history ==
                  AfterReplay(old(server.service.history) + [Created(proxy.value)], proxy.value, propertyList, commandList)
             && server.View() == TableWith(old(server.View()), propertyList))
    {
      if proxy != None {
        return ERR_NOERROR;
      }
      ret := OpenSession(timeoutMs, found, statusAt, server);
    }

    /** The connection and the replay of a client that has none. */
    method OpenSession(timeoutMs: int32, found: nat -> bool, statusAt: nat -> int, server: DeviceShadow) returns (ret: int)
      requires server.Valid() && server.service.Valid() && proxy == None
      modifies `proxy, server`iotAttrs, server.service, server.service.Vectors()
      ensures server.Valid() && server.service.Valid()
      ensures ret == if proxy.Some? then ERR_NOERROR else ERR_PROXY_NULL
      ensures proxy.Some? <==> Connects(timeoutMs, found, statusAt) && |old(server.service.clients)| < MAX_CLINETS
      ensures proxy == None ==> server.service.history == old(server.service.history)
      ensures proxy.Some? ==>
        && fresh(proxy.value) && proxy.value.command == Some(commandCB) && proxy.value.property == Some(propertyCB)
        && server.service.history ==
             AfterReplay(old(server.service.history) + [Created(proxy.value)], proxy.value, propertyList, commandList)
        && server.View() == TableWith(old(server.View()), propertyList)
    {
      ret := Connect(timeoutMs, found, statusAt, server);
      if ret < 0 {
        return ret;
      }
      ret := PostFollow(server);
    }

    /** The service died: the client connects to the one started next, which knows nothing yet. */
    method ServiceDied(found: nat -> bool, statusAt: nat -> int, server: DeviceShadow) returns (ret: int)
      requires server.Valid() && server.service.Valid()
      modifies `proxy, server`iotAttrs, server.service, server.service.Vectors()
      ensures server.Valid() && server.service.Valid()
      ensures ret == if proxy.Some? then ERR_NOERROR else ERR_PROXY_NULL
      ensures proxy.Some? <==> Connects(USLEEP_TIME * 60, found, statusAt) && |old(server.service.clients)| < MAX_CLINETS
      ensures proxy.Some? ==> forall kind, name ::
        proxy.value in server.service.View().Followers(kind, name) <==> name in Sent(propertyList, commandList, kind)
    {
      ghost var h, table := server.service.history, server.View();
      proxy := None;
      assert server.View() == table;
      ret := ConnService(USLEEP_TIME * 60, found, statusAt, server);
      if proxy.Some? {
        forall kind, name
          ensures proxy.value in server.service.View().Followers(kind, name) <==> name in Sent(propertyList, commandList, kind)
        {
          assert forall i :: 0 <= i < |h| ==> h[i].client != proxy.value;
          ReplayListsExactly(h + [Created(proxy.value)], proxy.value, propertyList, commandList, kind, name);
        }
      }
    }
  }

  /** The history of a server after a replay. */
  function AfterReplay(h: seq<Event<IOTClient>>, c: IOTClient, properties: seq<PropertyInfo>, commands: seq<Bytes>): seq<Event<IOTClient>> {
    h + PropertyCalls(properties, c) + CommandCalls(commands, c)
  }

  lemma ReplayCallAt(h: seq<Event<IOTClient>>, c: IOTClient, properties: seq<PropertyInfo>, commands: seq<Bytes>, i: nat)
    requires i < |AfterReplay(h, c, properties, commands)|
    ensures AfterReplay(h, c, properties, commands)[i] ==
      if i < |h| then h[i]
      else if i < |h| + |properties| then Followed(Property, properties[i - |h|].key, c)
      else Followed(Command, commands[i - |h| - |properties|], c)
  {
  }

  lemma SentIsListed(h: seq<Event<IOTClient>>, c: IOTClient, properties: seq<PropertyInfo>, commands: seq<Bytes>, i: nat)
    requires |h| <= i < |h| + |properties| + |commands|
    ensures var e := AfterReplay(h, c, properties, commands)[i];
      e.Followed? && c in After(AfterReplay(h, c, properties, commands)).Followers(e.kind, e.name)
  {
    var g := AfterReplay(h, c, properties, commands);
    forall k | |h| <= k < |g|
      ensures g[k].Followed? && g[k].client == c
    {
      ReplayCallAt(h, c, properties, commands, k);
    }
    FollowsIsListed(g, g[i].kind, g[i].name, c, i);
  }

  /** Where the calls for one kind stand in the replayed history. */
  function CallsStart(h: seq<Event<IOTClient>>, properties: seq<PropertyInfo>, kind: Kind): nat {
    if kind == Property then |h| else |h| + |properties|
  }

  function Sent(properties: seq<PropertyInfo>, commands: seq<Bytes>, kind: Kind): seq<Bytes> {
    if kind == Property then Keys(properties) else commands
  }

  lemma SentNameIsListed(h: seq<Event<IOTClient>>, c: IOTClient, properties: seq<PropertyInfo>, commands: seq<Bytes>,
                         kind: Kind, name: Bytes)
    requires name in Sent(properties, commands, kind)
    ensures c in After(AfterReplay(h, c, properties, commands)).Followers(kind, name)
  {
    var i :| 0 <= i < |Sent(properties, commands, kind)| && Sent(properties, commands, kind)[i] == name;
    SentCall(h, c, properties, commands, kind, i);
    SentIsListed(h, c, properties, commands, CallsStart(h, properties, kind) + i);
  }

  lemma SentCall(h: seq<Event<IOTClient>>, c: IOTClient, properties: seq<PropertyInfo>, commands: seq<Bytes>, kind: Kind, i: nat)
    requires i < |Sent(properties, commands, kind)|
    ensures var at := CallsStart(h, properties, kind) + i;
      && |h| <= at < |h| + |properties| + |commands|
      && AfterReplay(h, c, properties, commands)[at] == Followed(kind, Sent(properties, commands, kind)[i], c)
  {
    ReplayCallAt(h, c, properties, commands, CallsStart(h, properties, kind) + i);
  }

  lemma CallWasSent(h: seq<Event<IOTClient>>, c: IOTClient, properties: seq<PropertyInfo>, commands: seq<Bytes>,
                    kind: Kind, name: Bytes, i: nat)
    requires i < |h| && !h[i].Created? ==> h[i].client != c
    requires i < |AfterReplay(h, c, properties, commands)|
    requires AfterReplay(h, c, properties, commands)[i] == Followed(kind, name, c)
    ensures name in Sent(properties, commands, kind)
  {
    ReplayCallAt(h, c, properties, commands, i);
    assert i >= |h|;
    if i < |h| + |properties| {
      assert Keys(properties)[i - |h|] == name;
    } else {
      assert commands[i - |h| - |properties|] == name;
    }
  }

  lemma ListedWasSent(h: seq<Event<IOTClient>>, c: IOTClient, properties: seq<PropertyInfo>, commands: seq<Bytes>,
                      kind: Kind, name: Bytes)
    requires forall i :: 0 <= i < |h| && !h[i].Created? ==> h[i].client != c
    requires c in After(AfterReplay(h, c, properties, commands)).Followers(kind, name)
    ensures name in Sent(properties, commands, kind)
  {
    var g := AfterReplay(h, c, properties, commands);
    ListedIffFollows(g, kind, name, c);
    assert exists i :: 0 <= i < |g| && g[i] == Followed(kind, name, c);
    var i :| 0 <= i < |g| && g[i] == Followed(kind, name, c);
    CallWasSent(h, c, properties, commands, kind, name, i);
  }

  /** A session that made no call before the replay is then listed under exactly the names of the two lists. */
  lemma ReplayListsExactly(h: seq<Event<IOTClient>>, c: IOTClient, properties: seq<PropertyInfo>, commands: seq<Bytes>,
                           kind: Kind, name: Bytes)
    requires forall i :: 0 <= i < |h| && !h[i].Created? ==> h[i].client != c
    ensures c in After(AfterReplay(h, c, properties, commands)).Followers(kind, name)
      <==> name in Sent(properties, commands, kind)
  {
    if name in Sent(properties, commands, kind) {
      SentNameIsListed(h, c, properties, commands, kind, name);
    }
    if c in After(AfterReplay(h, c, properties, commands)).Followers(kind, name) {
      ListedWasSent(h, c, properties, commands, kind, name);
    }
  }

  /** The replay by the client object makes of the registry what the steps of an uninterrupted connect make of it. */
  lemma ReplayIsReplayed(h: seq<Event<IOTClient>>, c: IOTClient, properties: seq<PropertyInfo>, commands: seq<Bytes>)
    ensures After(AfterReplay(h + [Created(c)], c, properties, commands)) == Replayed(After(h), c, Keys(properties), commands)
  {
    var g := h + [Created(c)];
    AfterOneMore(h, Created(c));
    assert PropertyCalls(properties, c) == Calls(Property, Keys(properties), c);
    assert CommandCalls(commands, c) == Calls(Command, commands, c);
    AfterCalls(g, Property, Keys(properties), c);
    AfterCalls(g + PropertyCalls(properties, c), Command, commands, c);
  }

  lemma {:induction false} TableWithKeeps(s: Shadow, list: seq<PropertyInfo>, name: Bytes)
    requires Sorted(s.attrs)
    ensures var t := TableWith(s, list);
      && Sorted(t.attrs)
      && (Find(s.attrs, name) < |s.attrs| ==>
            Find(t.attrs, name) < |t.attrs| && t.attrs[Find(t.attrs, name)] == s.attrs[Find(s.attrs, name)])
  {
    if list != [] {
      var n := |list| - 1;
      TableWithKeeps(s, list[..n], name);
      var t := TableWith(s, list[..n]);
      AddedIsFound(t, list[n].key, list[n].propType, list[n].size);
      if Find(t.attrs, name) < |t.attrs| {
        AddKeepsEntry(t, list[n].key, list[n].propType, list[n].size, name);
      }
    }
  }

  /** A name that the list does not bring stays unknown. */
  lemma {:induction false} TableWithOnly(s: Shadow, list: seq<PropertyInfo>, name: Bytes)
    requires Find(s.attrs, name) == |s.attrs| && forall k :: 0 <= k < |list| ==> list[k].key != name
    ensures Find(TableWith(s, list).attrs, name) == |TableWith(s, list).attrs|
  {
    if list != [] {
      var n := |list| - 1;
      TableWithOnly(s, list[..n], name);
      AddNamesOnly(TableWith(s, list[..n]), list[n].key, list[n].propType, list[n].size, name);
    }
  }

  /** The attribute is a blank one of the property's type. */
  predicate BlankAs(a: Attr, p: PropertyInfo) {
    && Blank(a.cell) && !a.isLocal
    && (p.propType == IOT_PROPERTY_INT32 ==> a.cell.Num?)
    && (p.propType == IOT_PROPERTY_STRING ==> a.cell.Buf? && |a.cell.data| == p.size)
  }

  /** `t` has the property's attribute: as it was in `s`, or a blank one of its type if the name was new. */
  predicate InTableAs(s: Shadow, t: Shadow, p: PropertyInfo) {
    var i, j := Find(s.attrs, p.key), Find(t.attrs, p.key);
    j < |t.attrs| && if i < |s.attrs| then t.attrs[j] == s.attrs[i] else BlankAs(t.attrs[j], p)
  }

  lemma InTableStays(s: Shadow, t: Shadow, p: PropertyInfo, q: PropertyInfo)
    requires Sorted(t.attrs) && InTableAs(s, t, p)
    ensures InTableAs(s, AddStep(t, q.key, q.propType, q.size), p)
  {
    AddKeepsEntry(t, q.key, q.propType, q.size, p.key);
  }

  lemma AddedIsInTable(s: Shadow, t: Shadow, p: PropertyInfo)
    requires Sorted(t.attrs) && p.size > 0 && (p.propType == IOT_PROPERTY_INT32 || p.propType == IOT_PROPERTY_STRING)
    requires if Find(s.attrs, p.key) == |s.attrs| then Find(t.attrs, p.key) == |t.attrs| else InTableAs(s, t, p)
    ensures InTableAs(s, AddStep(t, p.key, p.propType, p.size), p)
  {
    if Find(s.attrs, p.key) == |s.attrs| {
      AddedIsFound(t, p.key, p.propType, p.size);
    } else {
      InTableStays(s, t, p, p);
    }
  }

  lemma LastIsNew(list: seq<PropertyInfo>, j: nat)
    requires list != [] && NoDup(Keys(list)) && j < |list| - 1
    ensures list[j].key != list[|list| - 1].key
  {
    assert Keys(list)[j] != Keys(list)[|list| - 1];
  }

  /** Before the last property is sent, the table knows its name iff it knew it before the replay. */
  lemma LastIsUnsent(s: Shadow, list: seq<PropertyInfo>)
    requires Sorted(s.attrs) && list != [] && NoDup(Keys(list))
    ensures var n := |list| - 1;
      var t := TableWith(s, list[..n]);
      && Sorted(t.attrs)
      && if Find(s.attrs, list[n].key) == |s.attrs| then Find(t.attrs, list[n].key) == |t.attrs| else InTableAs(s, t, list[n])
  {
    var n := |list| - 1;
    TableWithKeeps(s, list[..n], list[n].key);
    if Find(s.attrs, list[n].key) == |s.attrs| {
      forall j: nat | j < n
        ensures list[..n][j].key != list[n].key
      {
        LastIsNew(list, j);
      }
      TableWithOnly(s, list[..n], list[n].key);
    }
  }

  lemma KeysOfFront(list: seq<PropertyInfo>, n: nat)
    requires n <= |list| && NoDup(Keys(list))
    ensures NoDup(Keys(list[..n]))
  {
    assert Keys(list[..n]) == Keys(list)[..n];
  }

  /**
   * After a replay every acceptable property of the list is in the server's table; if its name was new, as a blank
   * attribute of its type, otherwise as it was.
   */
  lemma {:induction false} ReplayedAreInTable(s: Shadow, list: seq<PropertyInfo>, k: nat)
    requires Sorted(s.attrs) && NoDup(Keys(list)) && k < |list|
    requires list[k].size > 0 && (list[k].propType == IOT_PROPERTY_INT32 || list[k].propType == IOT_PROPERTY_STRING)
    ensures InTableAs(s, TableWith(s, list), list[k])
  {
    var n := |list| - 1;
    LastIsUnsent(s, list);
    if k < n {
      KeysOfFront(list, n);
      ReplayedAreInTable(s, list[..n], k);
      InTableStays(s, TableWith(s, list[..n]), list[k], list[n]);
    } else {
      AddedIsInTable(s, TableWith(s, list[..n]), list[n]);
    }
  }
}
