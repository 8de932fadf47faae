/** The service object: its client vector, its two maps of heap-allocated follower vectors, and the dispatch loops. */
module Service {
  import opened AnswerCollection
  import opened CStrings
  import opened FollowRegistry
  import opened Options

  const MAX_CLINETS: nat := 10
  const FOLLOW_TYPE_PROPERTY := 0
  const FOLLOW_TYPE_COMMAND := 1

  /** A callback object registered by a client. */
  type CallbackId = nat

  /** A client's session. */
  class IOTClient {
    const name: Bytes
    var command: Option<CallbackId>
    var property: Option<CallbackId>

    constructor (name: Bytes)
      ensures this.name == name && command == None && property == None
    {
      this.name := name;
      command, property := None, None;
    }

    /** Only the first callback registered counts. */
    method RegistCommandCB(cb: CallbackId) returns (ret: int)
      modifies this`command
      ensures command == Some(old(command).GetOr(cb))
      ensures ret == if old(command) == None then 0 else -1
    {
      if command != None {
        return -1;
      }
      command := Some(cb);
      return 0;
    }

    /** As for commands; `wake` tells that the server thread is signalled. */
    method RegistPropertyCB(cb: CallbackId) returns (ret: int, wake: bool)
      modifies this`property
      ensures property == Some(old(property).GetOr(cb))
      ensures wake <==> old(property) == None
      ensures ret == if wake then 0 else -1
    {
      if property != None {
        return -1, false;
      }
      property := Some(cb);
      return 0, true;
    }
  }

  /** A heap-allocated vector of followers. */
  class ClientVector {
    var items: seq<IOTClient>

    constructor ()
      ensures items == []
    {
      items := [];
    }

    method Add(c: IOTClient)
      modifies this
      ensures items == old(items) + [c]
    {
      items := items + [c];
    }

    method RemoveAt(i: nat)
      requires i < |items|
      modifies this
      ensures items == old(items)[..i] + old(items)[i + 1..]
    {
      items := items[..i] + items[i + 1..];
    }

    /** The removal loop, which stops after one occurrence. */
    method RemoveOne(c: IOTClient)
      modifies this
      ensures items == RemoveFirst(old(items), c)
    {
      var rmflg := 0;
      var i := 0;
      while rmflg == 0 && i < |items|
        invariant rmflg == 0 ==> i <= |items| && items == old(items) && i <= IndexOf(items, c)
        invariant rmflg != 0 ==> items == RemoveFirst(old(items), c)
        decreases |items| - i, 1 - rmflg
      {
        if items[i] == c {
          RemoveAt(i);
          rmflg := 1;
        }
        i := i + 1;
      }
    }

    /** The duplicate check before a follower is added. */
    method AddIfAbsent(c: IOTClient)
      modifies this
      ensures items == AddOnce(old(items), c)
    {
      for i := 0 to |items|
        invariant items == old(items) && c !in items[..i]
      {
        if items[i] == c {
          return;
        }
      }
      Add(c);
    }
  }

  datatype Delivery = Delivery(client: IOTClient, callback: CallbackId, name: Bytes, arg: Bytes)

  ghost predicate HasCallback(c: IOTClient, kind: Kind)
    reads c
  {
    if kind == Property then c.property.Some? else c.command.Some?
  }

  ghost function CallbackOf(c: IOTClient, kind: Kind): CallbackId
    requires HasCallback(c, kind)
    reads c
  {
    if kind == Property then c.property.value else c.command.value
  }

  /** One call for each of `v` that holds a callback, in order. */
  ghost function Deliveries(v: seq<IOTClient>, kind: Kind, name: Bytes, arg: Bytes): seq<Delivery>
    reads v
  {
    if v == [] then []
    else
      var n := |v| - 1;
      Deliveries(v[..n], kind, name, arg)
      + if HasCallback(v[n], kind) then [Delivery(v[n], CallbackOf(v[n], kind), name, arg)] else []
  }

  /** The answers of those of `v` that hold a property callback, in order. */
  ghost function AnswersOf(v: seq<IOTClient>, answers: IOTClient -> RemoteAnswer): seq<RemoteAnswer>
    reads v
  {
    if v == [] then []
    else
      var n := |v| - 1;
      AnswersOf(v[..n], answers) + if HasCallback(v[n], Property) then [answers(v[n])] else []
  }

  /** The calls go to the selected clients, position by position, so DispatchTrace is about them. */
  lemma {:induction false} DeliveriesAreSelected(v: seq<IOTClient>, holders: set<IOTClient>, kind: Kind, name: Bytes, arg: Bytes)
    requires forall c :: c in v ==> (c in holders <==> if kind == Property then c.property.Some? else c.command.Some?)
    ensures var calls := Deliveries(v, kind, name, arg);
      && |calls| == |Select(v, holders)|
      && forall i :: 0 <= i < |calls| ==>
           && calls[i].client == Select(v, holders)[i]
           && Some(calls[i].callback) == (if kind == Property then calls[i].client.property else calls[i].client.command)
           && calls[i].name == name && calls[i].arg == arg
  {
    if v != [] {
      DeliveriesAreSelected(v[..|v| - 1], holders, kind, name, arg);
      SelectMembers(v[..|v| - 1], holders);
    }
  }

  /** The clients asked are those selected for a property, position by position, and each gives its own answer. */
  lemma {:induction false} AnswersAreSelected(v: seq<IOTClient>, holders: set<IOTClient>, answers: IOTClient -> RemoteAnswer)
    requires forall c :: c in v ==> (c in holders <==> c.property.Some?)
    ensures |AnswersOf(v, answers)| == |Select(v, holders)|
    ensures forall i :: 0 <= i < |AnswersOf(v, answers)| ==> AnswersOf(v, answers)[i] == answers(Select(v, holders)[i])
  {
    if v != [] {
      AnswersAreSelected(v[..|v| - 1], holders, answers);
    }
  }

  /**
   * Who is asked for a property: those of its current followers that hold a callback, in follow order, if it was ever
   * followed on this run; otherwise the first client, if it holds one.
   */
  lemma AskedTrace(service: IOTService, name: Bytes, answers: IOTClient -> RemoteAnswer, holders: set<IOTClient>)
    requires service.Valid()
    requires forall c :: c in After(service.history).Followers(Property, name) ==> (c in holders <==> c.property.Some?)
    ensures var v := Select(After(service.history).Followers(Property, name), holders);
      var audience := service.Asked(name, answers);
      if EverFollowed(service.history, Property, name) then
        && audience.Consulted? && |audience.answers| == |v|
        && forall i :: 0 <= i < |v| ==> audience.answers[i] == answers(v[i])
      else if service.clients == [] then audience == Nobody
      else audience == FirstClient(if service.clients[0].property.Some? then Some(answers(service.clients[0])) else None)
  {
    KnownIffEverFollowed(service.history, Property, name);
    assert service.View().keyFollow == After(service.history).keyFollow;
    if EverFollowed(service.history, Property, name) {
      AnswersAreSelected(service.keyFollow[name].items, holders, answers);
    }
  }

  /** Different names have different vectors. */
  ghost predicate Separate(table: map<Bytes, ClientVector>) {
    forall m, n :: m in table && n in table && m != n ==> table[m] != table[n]
  }

  ghost function Contents(table: map<Bytes, ClientVector>): map<Bytes, seq<IOTClient>>
    reads table.Values
  {
    map n | n in table :: table[n].items
  }

  /** The removal has been through the vectors of all names but `rest`. */
  ghost predicate RemovedBut(table: map<Bytes, ClientVector>, before: map<Bytes, seq<IOTClient>>, rest: set<Bytes>, c: IOTClient)
    reads table.Values
  {
    && before.Keys == table.Keys
    && forall n :: n in table ==> table[n].items == if n in rest then before[n] else RemoveFirst(before[n], c)
  }

  /** One pass of the removal over a map of vectors. */
  method RemoveFromAll(table: map<Bytes, ClientVector>, c: IOTClient)
    requires Separate(table)
    modifies table.Values
    ensures forall n :: n in table ==> table[n].items == RemoveFirst(old(table[n].items), c)
    ensures Contents(table) == RemoveFromTable(old(Contents(table)), c)
  {
    ghost var before := Contents(table);
    var rest := table.Keys;
    while rest != {}
      invariant rest <= table.Keys && RemovedBut(table, before, rest, c)
    {
      var name :| name in rest;
      RemoveFromOne(table, name, c, before, rest);
      rest := rest - {name};
    }
  }

  method RemoveFromOne(table: map<Bytes, ClientVector>, name: Bytes, c: IOTClient,
                       ghost before: map<Bytes, seq<IOTClient>>, ghost rest: set<Bytes>)
    requires Separate(table) && name in rest && name in table && RemovedBut(table, before, rest, c)
    modifies table[name]
    ensures RemovedBut(table, before, rest - {name}, c)
  {
    table[name].RemoveOne(c);
  }

  /** Finds the name's vector, or creates it, and adds the follower unless it is there. */
  method AddFollower(table: map<Bytes, ClientVector>, name: Bytes, target: IOTClient) returns (grown: map<Bytes, ClientVector>)
    requires Separate(table)
    modifies table.Values
    ensures Separate(grown)
    ensures name in table ==> grown == table
    ensures name !in table ==> name in grown && fresh(grown[name]) && grown == table[name := grown[name]]
    ensures Contents(grown) == var c := old(Contents(table)); c[name := AddOnce(if name in c then c[name] else [], target)]
  {
    grown := table;
    var v: ClientVector;
    if name !in table {
      v := new ClientVector();
      grown := table[name := v];
    } else {
      v := table[name];
    }
    v.AddIfAbsent(target);
  }

  class IOTService {
    var clients: seq<IOTClient>
    var keyFollow: map<Bytes, ClientVector>
    var cmdFollow: map<Bytes, ClientVector>
    ghost var history: seq<Event<IOTClient>>

    ghost function Vectors(): set<ClientVector>
      reads this
    {
      keyFollow.Values + cmdFollow.Values
    }

    ghost function View(): Registry<IOTClient>
      reads this, keyFollow.Values, cmdFollow.Values
    {
      Registry(clients, Contents(keyFollow), Contents(cmdFollow))
    }

    ghost predicate Apart()
      reads this
    {
      Separate(keyFollow) && Separate(cmdFollow) && keyFollow.Values !! cmdFollow.Values
    }

    /** The vectors are separate, and the maps hold what the history of calls amounts to. */
    ghost predicate Valid()
      reads this, keyFollow.Values, cmdFollow.Values
    {
      Apart() && View() == After(history)
    }

    constructor ()
      ensures Valid() && fresh(Vectors()) && history == []
    {
      clients, keyFollow, cmdFollow := [], map[], map[];
      history := [];
    }

    /** Adds the call just made to the history. */
    ghost method Record(e: Event<IOTClient>)
      requires Apart() && View() == After(history).Apply(e)
      modifies `history
      ensures Valid() && history == old(history) + [e]
    {
      ghost var r := View();
      AfterOneMore(history, e);
      history := history + [e];
      assert View() == r;
    }

    /** None when the client vector was found full. */
    method CreateClient(name: Bytes) returns (client: Option<IOTClient>)
      requires Valid()
      modifies this
      ensures Valid() && keyFollow == old(keyFollow) && cmdFollow == old(cmdFollow)
      ensures client.Some? <==> |old(clients)| < MAX_CLINETS
      ensures client.None? ==> history == old(history)
      ensures client.Some? ==>
        fresh(client.value) && client.value.name == name && client.value.property == client.value.command == None
        && history == old(history) + [Created(client.value)]
    {
      var cnt := |clients|;
      if cnt >= MAX_CLINETS {
        return None;
      }
      var c := new IOTClient(name);
      clients := clients + [c];
      Record(Created(c));
      return Some(c);
    }

    method AddFollowing(followType: int, val: Bytes, target: IOTClient) returns (ret: int)
      requires Valid()
      modifies this, Vectors()
      ensures Valid() && fresh(Vectors() - old(Vectors()))
      ensures clients == old(clients)
      ensures ret == if followType == FOLLOW_TYPE_PROPERTY || followType == FOLLOW_TYPE_COMMAND then 0 else -1
      ensures history == old(history) +
        (if followType == FOLLOW_TYPE_PROPERTY then [Followed(Property, val, target)]
         else if followType == FOLLOW_TYPE_COMMAND then [Followed(Command, val, target)]
         else [])
    {
      if followType == FOLLOW_TYPE_PROPERTY {
        AddKeyFollower(val, target);
      } else if followType == FOLLOW_TYPE_COMMAND {
        AddCmdFollower(val, target);
      } else {
        return -1;
      }
      return 0;
    }

    method AddKeyFollower(val: Bytes, target: IOTClient)
      requires Valid()
      modifies this, Vectors()
      ensures Valid() && fresh(Vectors() - old(Vectors()))
      ensures clients == old(clients)
      ensures history == old(history) + [Followed(Property, val, target)]
    {
      GrowKeyFollow(val, target);
      Record(Followed(Property, val, target));
    }

    method GrowKeyFollow(val: Bytes, target: IOTClient)
      requires Apart()
      modifies `keyFollow, Vectors()
      ensures Apart() && fresh(Vectors() - old(Vectors()))
      ensures View() == old(View()).Follow(Property, val, target)
    {
      keyFollow := AddFollower(keyFollow, val, target);
      assert Contents(cmdFollow) == old(Contents(cmdFollow));
    }

    method AddCmdFollower(val: Bytes, target: IOTClient)
      requires Valid()
      modifies this, Vectors()
      ensures Valid() && fresh(Vectors() - old(Vectors()))
      ensures clients == old(clients)
      ensures history == old(history) + [Followed(Command, val, target)]
    {
      GrowCmdFollow(val, target);
      Record(Followed(Command, val, target));
    }

    method GrowCmdFollow(val: Bytes, target: IOTClient)
      requires Apart()
      modifies `cmdFollow, Vectors()
      ensures Apart() && fresh(Vectors() - old(Vectors()))
      ensures View() == old(View()).Follow(Command, val, target)
    {
      cmdFollow := AddFollower(cmdFollow, val, target);
      assert Contents(keyFollow) == old(Contents(keyFollow));
    }

    method RemoveClient(client: IOTClient) returns (ret: int)
      requires Valid()
      modifies this, Vectors()
      ensures Valid() && Vectors() == old(Vectors())
      ensures history == old(history) + [Removed(client)]
      ensures ret == if client in old(clients) then 1 else 0
    {
      ret := RemoveEverywhere(client);
      Record(Removed(client));
    }

    method RemoveEverywhere(client: IOTClient) returns (ret: int)
      requires Apart()
      modifies `clients, Vectors()
      ensures View() == old(View()).Apply(Removed(client))
      ensures ret == if client in old(clients) then 1 else 0
    {
      ghost var r := View();
      RemoveFromAll(keyFollow, client);
      assert Contents(cmdFollow) == r.cmdFollow;
      ghost var keys := Contents(keyFollow);
      RemoveFromAll(cmdFollow, client);
      assert Contents(keyFollow) == keys;
      ghost var cmds := Contents(cmdFollow);
      ret := RemoveFromClients(client);
      assert View() == Registry(RemoveFirst(r.clients, client), keys, cmds);
    }

    method RemoveFromClients(client: IOTClient) returns (ret: int)
      modifies `clients
      ensures clients == RemoveFirst(old(clients), client)
      ensures ret == if client in old(clients) then 1 else 0
    {
      for i := 0 to |clients|
        invariant clients == old(clients) && i <= IndexOf(clients, client)
      {
        if clients[i] == client {
          clients := clients[..i] + clients[i + 1..];
          return 1;
        }
      }
      return 0;
    }

    /** The clients a call for `name` is offered to. */
    ghost function Addressees(kind: Kind, name: Bytes): seq<IOTClient>
      reads this, keyFollow.Values, cmdFollow.Values
    {
      Addressed(View(), kind, name)
    }

    /** The clients of the audience that hold a callback are called once each, in order. */
    method CallCommandCB(cmd: Bytes, data: Bytes) returns (ret: int, calls: seq<Delivery>)
      requires Valid()
      ensures calls == Deliveries(Addressees(Command, cmd), Command, cmd, data)
      ensures ret == if cmd !in cmdFollow && clients == [] then -1 else 0
    {
      calls := [];
      if cmd !in cmdFollow {
        if |clients| > 0 {
          if clients[0].command.Some? {
            calls := [Delivery(clients[0], clients[0].command.value, cmd, data)];
          }
          assert Addressees(Command, cmd)[..0] == [];
          return 0, calls;
        }
        return -1, [];
      }
      var v := cmdFollow[cmd].items;
      for i := 0 to |v|
        invariant calls == Deliveries(v[..i], Command, cmd, data)
      {
        assert v[..i + 1][..i] == v[..i];
        if v[i].command == None {
          continue;
        }
        calls := calls + [Delivery(v[i], v[i].command.value, cmd, data)];
      }
      assert v[..|v|] == v;
      return 0, calls;
    }

    method CallPropertySet(key: Bytes, val: Bytes) returns (ret: int, calls: seq<Delivery>)
      requires Valid()
      ensures calls == Deliveries(Addressees(Property, key), Property, key, val)
      ensures ret == if key !in keyFollow && clients == [] then -1 else 0
    {
      calls := [];
      if key !in keyFollow {
        if |clients| > 0 {
          if clients[0].property.Some? {
            calls := [Delivery(clients[0], clients[0].property.value, key, val)];
          }
          assert Addressees(Property, key)[..0] == [];
          return 0, calls;
        }
        return -1, [];
      }
      var v := keyFollow[key].items;
      for i := 0 to |v|
        invariant calls == Deliveries(v[..i], Property, key, val)
      {
        assert v[..i + 1][..i] == v[..i];
        if v[i].property == None {
          continue;
        }
        calls := calls + [Delivery(v[i], v[i].property.value, key, val)];
      }
      assert v[..|v|] == v;
      return 0, calls;
    }

    /** Everything a dispatch looks at. */
    ghost function Footprint(): set<object>
      reads this, keyFollow.Values, cmdFollow.Values
    {
      {this} + keyFollow.Values + cmdFollow.Values + (set c | c in clients)
      + (set n, c | n in keyFollow && c in keyFollow[n].items :: c)
    }

    /** Who answers a `get`, given the answer each client would return. */
    ghost function Asked(key: Bytes, answers: IOTClient -> RemoteAnswer): Audience
      reads this, keyFollow.Values, cmdFollow.Values, Footprint()
    {
      if key in keyFollow then
        assert forall c :: c in keyFollow[key].items ==> c in Footprint();
        Consulted(AnswersOf(keyFollow[key].items, answers))
      else if clients == [] then Nobody
      else FirstClient(if clients[0].property.Some? then Some(answers(clients[0])) else None)
    }

    /** Fills `val` with the answers, each laid over the ones before; no answer ends the loop. */
    method CallPropertyGet(key: Bytes, val: array<byte>, size: nat, answers: IOTClient -> RemoteAnswer) returns (ret: int)
      requires Valid() && size <= val.Length
      modifies val
      ensures size == 0 ==> ret == -1
      ensures size > 0 ==> Outcome(ret, val[..size]) == GetOutcome(Asked(key, answers), old(val[..size]), size)
      ensures val[size..] == old(val[size..])
    {
      if size == 0 {
        return -1;
      }
      if key !in keyFollow {
        if |clients| > 0 {
          if clients[0].property.Some? {
            var first := if answers(clients[0]).Returned? then answers(clients[0]).text else [];
            var _ := LayOver(val, size, first);
            assert Carried([answers(clients[0])]) == first;
          }
          return 0;
        }
        return -1;
      }
      ret := CollectAnswers(keyFollow[key].items, val, size, answers);
    }
  }

  lemma AnswersOneMore(v: seq<IOTClient>, i: nat, answers: IOTClient -> RemoteAnswer)
    requires i < |v|
    ensures AnswersOf(v[..i + 1], answers) == AnswersOf(v[..i], answers) + if HasCallback(v[i], Property) then [answers(v[i])] else []
  {
    assert v[..i + 1][..i] == v[..i];
  }

  /** The loop over the followers. */
  method CollectAnswers(v: seq<IOTClient>, val: array<byte>, size: nat, answers: IOTClient -> RemoteAnswer) returns (len: nat)
    requires size <= val.Length
    modifies val
    ensures val[..size] == Collected(AnswersOf(v, answers), old(val[..size]), size)
    ensures len == CollectedLength(AnswersOf(v, answers), size)
    ensures val[size..] == old(val[size..])
  {
    ghost var before, beyond := val[..size], val[size..];
    var str: Bytes := [];
    len := 0;
    for i := 0 to |v|
      invariant CollectedInto(val, size, AnswersOf(v[..i], answers), before, str, len)
      invariant val[size..] == beyond
    {
      AnswersOneMore(v, i, answers);
      str, len := CollectOne(v[i], val, size, str, len, answers, AnswersOf(v[..i], answers), before);
    }
    assert v[..|v|] == v;
  }

  /** The buffer, the loop's string and its length after the answers `asked`. */
  ghost predicate CollectedInto(val: array<byte>, size: nat, asked: seq<RemoteAnswer>, before: Bytes, str: Bytes, len: nat)
    reads val
  {
    && size <= val.Length && |before| == size
    && val[..size] == Collected(asked, before, size)
    && str == Carried(asked) && len == |Truncated(str, size)|
  }

  /** The loop's body. */
  method CollectOne(c: IOTClient, val: array<byte>, size: nat, str: Bytes, len: nat, answers: IOTClient -> RemoteAnswer,
                    ghost asked: seq<RemoteAnswer>, ghost before: Bytes)
    returns (newStr: Bytes, newLen: nat)
    requires CollectedInto(val, size, asked, before, str, len)
    modifies val
    ensures CollectedInto(val, size, asked + if HasCallback(c, Property) then [answers(c)] else [], before, newStr, newLen)
    ensures val[size..] == old(val[size..])
  {
    newStr, newLen := str, len;
    if c.property == None {
      assert asked + [] == asked;
      return;
    }
    CollectedOneMore(asked, answers(c), before, size);
    if answers(c).Returned? {
      newStr := answers(c).text;
    }
    newLen := LayOver(val, size, newStr);
  }

  /** Copies what fits of a non-empty string to the front of the buffer. */
  method LayOver(val: array<byte>, size: nat, str: Bytes) returns (len: nat)
    requires size <= val.Length
    modifies val
    ensures len == |Truncated(str, size)|
    ensures val[..size] == Overlay(Truncated(str, size), old(val[..size]))
    ensures val[size..] == old(val[size..])
  {
    len := |str|;
    if len == 0 {
      return;
    }
    if len > size {
      len := size;
    }
    ghost var before := val[..size];
    Memcpy(val, str, len);
    assert val[..size] == str[..len] + before[len..];
  }

  /** Section 7.24.2.1. */
  method Memcpy(dst: array<byte>, src: Bytes, n: nat)
    requires n <= dst.Length && n <= |src|
    modifies dst
    ensures dst[..] == src[..n] + old(dst[n..])
  {
    for i := 0 to n
      invariant forall k :: 0 <= k < i ==> dst[k] == src[k]
      invariant forall k :: i <= k < dst.Length ==> dst[k] == old(dst[k])
    {
      dst[i] := src[i];
    }
  }
}
