/**
 * What the follow registry means: a relation between clients and names, and the order in which the clients of a
 * name were added. The registry is described over a history of calls.
 */
module FollowRegistry {
  import opened CStrings

  datatype Kind = Property | Command

  datatype Event<T> =
    | Created(client: T)
    | Followed(kind: Kind, name: Bytes, client: T)
    | Removed(client: T)

  /** The registry's content: the client vector and, per name, the vector of followers. */
  datatype Registry<T(==)> = Registry(clients: seq<T>, keyFollow: map<Bytes, seq<T>>, cmdFollow: map<Bytes, seq<T>>) {
    function Table(kind: Kind): map<Bytes, seq<T>> {
      if kind == Property then keyFollow else cmdFollow
    }

    function WithTable(kind: Kind, table: map<Bytes, seq<T>>): Registry<T> {
      if kind == Property then this.(keyFollow := table) else this.(cmdFollow := table)
    }

    /** The followers of a name; none when the name has no vector. */
    function Followers(kind: Kind, name: Bytes): seq<T> {
      if name in Table(kind) then Table(kind)[name] else []
    }

    function Create(c: T): Registry<T> {
      this.(clients := clients + [c])
    }

    function Follow(kind: Kind, name: Bytes, c: T): Registry<T> {
      WithTable(kind, Table(kind)[name := AddOnce(Followers(kind, name), c)])
    }

    function Remove(c: T): Registry<T> {
      Registry(RemoveFirst(clients, c), RemoveFromTable(keyFollow, c), RemoveFromTable(cmdFollow, c))
    }

    function Apply(e: Event<T>): Registry<T> {
      match e
      case Created(c) => Create(c)
      case Followed(kind, name, c) => Follow(kind, name, c)
      case Removed(c) => Remove(c)
    }
  }

  function Empty<T>(): Registry<T> {
    Registry([], map[], map[])
  }

  /** The registry after a history of calls on a fresh server. */
  function After<T>(h: seq<Event<T>>): Registry<T> {
    if h == [] then Empty() else After(h[..|h| - 1]).Apply(h[|h| - 1])
  }

  lemma AfterOneMore<T>(h: seq<Event<T>>, e: Event<T>)
    ensures After(h + [e]) == After(h).Apply(e)
  {
    assert (h + [e])[..|h|] == h;
  }

  /** The registry after `c` followed all the names, one after the other. */
  function FollowAll<T>(r: Registry<T>, kind: Kind, names: seq<Bytes>, c: T): Registry<T>
    decreases |names|
  {
    if names == [] then r else FollowAll(r.Follow(kind, names[0], c), kind, names[1..], c)
  }

  /** The registry after a client was created and its two lists were replayed. */
  function Replayed<T>(r: Registry<T>, c: T, properties: seq<Bytes>, commands: seq<Bytes>): Registry<T> {
    FollowAll(FollowAll(r.Create(c), Property, properties, c), Command, commands, c)
  }

  function Calls<T>(kind: Kind, names: seq<Bytes>, c: T): seq<Event<T>> {
    seq(|names|, i requires 0 <= i < |names| => Followed(kind, names[i], c))
  }

  lemma CallsUnfold<T>(h: seq<Event<T>>, kind: Kind, names: seq<Bytes>, c: T)
    requires names != []
    ensures h + Calls(kind, names, c) == h + [Followed(kind, names[0], c)] + Calls(kind, names[1..], c)
  {
  }

  lemma {:induction false} AfterCalls<T>(h: seq<Event<T>>, kind: Kind, names: seq<Bytes>, c: T)
    ensures After(h + Calls(kind, names, c)) == FollowAll(After(h), kind, names, c)
    decreases |names|
  {
    if names == [] {
      assert h + Calls(kind, names, c) == h;
    } else {
      var e := Followed(kind, names[0], c);
      AfterOneMore(h, e);
      CallsUnfold(h, kind, names, c);
      AfterCalls(h + [e], kind, names[1..], c);
    }
  }

  function AddOnce<T(==)>(v: seq<T>, c: T): seq<T> {
    if c in v then v else v + [c]
  }

  /** Where `c` stands in `v` first, or |v|. */
  function IndexOf<T(==)>(v: seq<T>, c: T): (i: nat)
    ensures i <= |v|
    ensures forall k :: 0 <= k < i ==> v[k] != c
    ensures i < |v| ==> v[i] == c
  {
    if v == [] || v[0] == c then 0 else 1 + IndexOf(v[1..], c)
  }

  /** The vector without its first occurrence of `c`. */
  function RemoveFirst<T(==)>(v: seq<T>, c: T): seq<T> {
    var i := IndexOf(v, c);
    if i < |v| then v[..i] + v[i + 1..] else v
  }

  function RemoveFromTable<T(==)>(table: map<Bytes, seq<T>>, c: T): map<Bytes, seq<T>> {
    map name | name in table :: RemoveFirst(table[name], c)
  }

  predicate NoDup<T(==)>(v: seq<T>) {
    forall i, j :: 0 <= i < j < |v| ==> v[i] != v[j]
  }

  /** The call at `i` made `c` the follower it still is: no removal since, and no earlier follow that still counts. */
  ghost predicate FollowsSince<T>(h: seq<Event<T>>, kind: Kind, name: Bytes, c: T, i: int) {
    && 0 <= i < |h|
    && h[i] == Followed(kind, name, c)
    && (forall k :: i < k < |h| ==> h[k] != Removed(c))
    && (forall k :: 0 <= k < i && h[k] == Followed(kind, name, c) ==> exists m :: k < m < i && h[m] == Removed(c))
  }

  /** The relation: `c` followed `name` and was not removed since. */
  ghost predicate Follows<T>(h: seq<Event<T>>, kind: Kind, name: Bytes, c: T) {
    exists i :: 0 <= i < |h| && h[i] == Followed(kind, name, c) && forall k :: i < k < |h| ==> h[k] != Removed(c)
  }

  /** `c` was created by the call at `i` and not removed since. */
  ghost predicate LiveSince<T>(h: seq<Event<T>>, c: T, i: int) {
    0 <= i < |h| && h[i] == Created(c) && forall k :: i < k < |h| ==> h[k] != Removed(c)
  }

  ghost predicate Live<T>(h: seq<Event<T>>, c: T) {
    exists i :: LiveSince(h, c, i)
  }

  ghost predicate EverFollowed<T>(h: seq<Event<T>>, kind: Kind, name: Bytes) {
    exists i :: 0 <= i < |h| && FollowsName(h[i], kind, name)
  }

  predicate FollowsName<T>(e: Event<T>, kind: Kind, name: Bytes) {
    e.Followed? && e.kind == kind && e.name == name
  }

  /** Clients are created once and make no call after their removal. */
  ghost predicate Orderly<T>(h: seq<Event<T>>) {
    && (forall i, j :: 0 <= i < j < |h| && h[i].Created? && h[j].Created? ==> h[i].client != h[j].client)
    && (forall i :: 0 <= i < |h| && h[i].Followed? ==> exists k :: 0 <= k < i && h[k] == Created(h[i].client))
    && (forall i, j :: 0 <= i < j < |h| && h[i].Removed? && h[j].Followed? ==> h[i].client != h[j].client)
  }

  lemma NoDupWith<T>(v: seq<T>, c: T)
    requires NoDup(v) && c !in v
    ensures NoDup(v + [c])
  {
  }

  /** From a duplicate-free vector, removing one occurrence erases the client and keeps the order of the rest. */
  lemma RemoveFirstErases<T>(v: seq<T>, c: T)
    requires NoDup(v)
    ensures NoDup(RemoveFirst(v, c))
    ensures forall x :: x in RemoveFirst(v, c) <==> x in v && x != c
  {
    var i := IndexOf(v, c);
    var w := RemoveFirst(v, c);
    forall x | x in v && x != c
      ensures x in w
    {
      var k :| 0 <= k < |v| && v[k] == x;
      assert x == if k < i then w[k] else w[k - 1];
    }
  }

  /** The vector without any occurrence of `c`. */
  function Without<T(==)>(v: seq<T>, c: T): seq<T> {
    if v == [] then [] else (if v[0] == c then [] else [v[0]]) + Without(v[1..], c)
  }

  lemma {:induction false} WithoutAbsent<T>(v: seq<T>, c: T)
    requires c !in v
    ensures Without(v, c) == v
  {
    if v != [] {
      WithoutAbsent(v[1..], c);
    }
  }

  lemma RemoveFirstOnward<T>(v: seq<T>, c: T)
    requires v != [] && v[0] != c
    ensures RemoveFirst(v, c) == [v[0]] + RemoveFirst(v[1..], c)
  {
    var i := IndexOf(v[1..], c);
    if i < |v| - 1 {
      assert v[..i + 1] + v[i + 2..] == [v[0]] + (v[1..][..i] + v[1..][i + 1..]);
    }
  }

  lemma {:induction false} RemoveFirstIsWithout<T>(v: seq<T>, c: T)
    requires NoDup(v)
    ensures RemoveFirst(v, c) == Without(v, c)
  {
    if v != [] {
      if v[0] == c {
        assert v[1..] == RemoveFirst(v, c);
        WithoutAbsent(v[1..], c);
      } else {
        RemoveFirstOnward(v, c);
        RemoveFirstIsWithout(v[1..], c);
      }
    }
  }

  /** A call other than the removal of `c` leaves every follower `c` in place. */
  lemma FollowerStays<T>(r: Registry<T>, e: Event<T>, kind: Kind, name: Bytes, c: T)
    requires c in r.Followers(kind, name) && e != Removed(c)
    ensures c in r.Apply(e).Followers(kind, name)
  {
    if e.Removed? {
      var v := r.Followers(kind, name);
      var k :| 0 <= k < |v| && v[k] == c;
      var i := IndexOf(v, e.client);
      assert i < |v| ==> RemoveFirst(v, e.client)[if k < i then k else k - 1] == c;
    }
  }

  lemma {:induction false} FollowsIsListed<T>(h: seq<Event<T>>, kind: Kind, name: Bytes, c: T, i: int)
    requires 0 <= i < |h| && h[i] == Followed(kind, name, c)
    requires forall k :: i < k < |h| ==> h[k] != Removed(c)
    ensures c in After(h).Followers(kind, name)
  {
    var n := |h| - 1;
    var g := h[..n];
    if i < n {
      assert forall k :: 0 <= k < n ==> g[k] == h[k];
      FollowsIsListed(g, kind, name, c, i);
      FollowerStays(After(g), h[n], kind, name, c);
    }
  }

  /** What one more call leaves of the follow that still counts. */
  lemma FollowsSinceExtends<T>(h: seq<Event<T>>, kind: Kind, name: Bytes, c: T, i: int)
    requires h != [] && FollowsSince(h[..|h| - 1], kind, name, c, i) && h[|h| - 1] != Removed(c)
    ensures FollowsSince(h, kind, name, c, i)
  {
    var g := h[..|h| - 1];
    forall k | 0 <= k < i && h[k] == Followed(kind, name, c)
      ensures exists m :: k < m < i && h[m] == Removed(c)
    {
      assert g[k] == Followed(kind, name, c);
      var m :| k < m < i && g[m] == Removed(c);
      assert h[m] == Removed(c);
    }
  }

  /** Position by position, `starts` gives the call that made the client a follower, and it increases. */
  ghost predicate InFollowOrder<T>(h: seq<Event<T>>, kind: Kind, name: Bytes, v: seq<T>, starts: seq<int>) {
    && |starts| == |v|
    && (forall p :: 0 <= p < |v| ==> FollowsSince(h, kind, name, v[p], starts[p]))
    && (forall p, q :: 0 <= p < q < |v| ==> starts[p] < starts[q])
  }

  lemma FollowOrderIsNoDup<T>(h: seq<Event<T>>, kind: Kind, name: Bytes, v: seq<T>, starts: seq<int>)
    requires InFollowOrder(h, kind, name, v, starts)
    ensures NoDup(v)
  {
    forall p, q | 0 <= p < q < |v|
      ensures v[p] != v[q]
    {
      assert FollowsSince(h, kind, name, v[p], starts[p]);
      assert FollowsSince(h, kind, name, v[q], starts[q]);
    }
  }

  lemma FollowOrderKept<T>(h: seq<Event<T>>, kind: Kind, name: Bytes, v: seq<T>, starts: seq<int>)
    requires h != [] && InFollowOrder(h[..|h| - 1], kind, name, v, starts)
    requires forall p :: 0 <= p < |v| ==> h[|h| - 1] != Removed(v[p])
    ensures InFollowOrder(h, kind, name, v, starts)
  {
    forall p | 0 <= p < |v|
      ensures FollowsSince(h, kind, name, v[p], starts[p])
    {
      FollowsSinceExtends(h, kind, name, v[p], starts[p]);
    }
  }

  lemma FollowOrderWithout<T>(h: seq<Event<T>>, kind: Kind, name: Bytes, v: seq<T>, starts: seq<int>, i: nat)
    requires InFollowOrder(h, kind, name, v, starts) && i < |v|
    ensures InFollowOrder(h, kind, name, v[..i] + v[i + 1..], starts[..i] + starts[i + 1..])
  {
    var w, t := v[..i] + v[i + 1..], starts[..i] + starts[i + 1..];
    forall p | 0 <= p < |w|
      ensures FollowsSince(h, kind, name, w[p], t[p])
    {
      var q := if p < i then p else p + 1;
      assert FollowsSince(h, kind, name, v[q], starts[q]);
    }
  }

  lemma FollowOrderWith<T>(h: seq<Event<T>>, kind: Kind, name: Bytes, v: seq<T>, starts: seq<int>, c: T)
    requires h != [] && h[|h| - 1] == Followed(kind, name, c)
    requires InFollowOrder(h, kind, name, v, starts) && FollowsSince(h, kind, name, c, |h| - 1)
    requires c !in v
    ensures InFollowOrder(h, kind, name, v + [c], starts + [|h| - 1])
  {
    forall p | 0 <= p < |v|
      ensures starts[p] < |h| - 1
    {
      assert FollowsSince(h, kind, name, v[p], starts[p]);
    }
  }

  /** Every vector lists its followers, each once, in the order in which they became followers. */
  lemma {:induction false} FollowOrder<T>(h: seq<Event<T>>, kind: Kind, name: Bytes) returns (starts: seq<int>)
    ensures InFollowOrder(h, kind, name, After(h).Followers(kind, name), starts)
    ensures NoDup(After(h).Followers(kind, name))
  {
    starts := [];
    if h != [] {
      var n := |h| - 1;
      starts := FollowOrder(h[..n], kind, name);
      starts := FollowOrderStep(h, kind, name, starts);
    }
    FollowOrderIsNoDup(h, kind, name, After(h).Followers(kind, name), starts);
  }

  lemma FollowOrderStep<T>(h: seq<Event<T>>, kind: Kind, name: Bytes, before: seq<int>) returns (starts: seq<int>)
    requires h != []
    requires InFollowOrder(h[..|h| - 1], kind, name, After(h[..|h| - 1]).Followers(kind, name), before)
    ensures InFollowOrder(h, kind, name, After(h).Followers(kind, name), starts)
  {
    var n := |h| - 1;
    var v := After(h[..n]).Followers(kind, name);
    starts := before;
    match h[n]
    case Created(_) =>
      FollowOrderKept(h, kind, name, v, before);
    case Followed(k, m, c) =>
      FollowOrderKept(h, kind, name, v, before);
      if k == kind && m == name && c !in v {
        NewFollowCounts(h, kind, name, c);
        FollowOrderWith(h, kind, name, v, before, c);
        starts := before + [n];
      }
    case Removed(c) =>
      starts := FollowOrderRemoval(h, kind, name, v, before, c);
  }

  lemma FollowOrderRemoval<T>(h: seq<Event<T>>, kind: Kind, name: Bytes, v: seq<T>, before: seq<int>, c: T)
    returns (starts: seq<int>)
    requires h != [] && h[|h| - 1] == Removed(c) && InFollowOrder(h[..|h| - 1], kind, name, v, before)
    ensures InFollowOrder(h, kind, name, RemoveFirst(v, c), starts)
  {
    FollowOrderIsNoDup(h[..|h| - 1], kind, name, v, before);
    RemoveFirstErases(v, c);
    var i := IndexOf(v, c);
    if i < |v| {
      FollowOrderWithout(h[..|h| - 1], kind, name, v, before, i);
      starts := before[..i] + before[i + 1..];
    } else {
      starts := before;
    }
    FollowOrderAmongRest(h, kind, name, RemoveFirst(v, c), starts, c);
  }

  lemma FollowOrderAmongRest<T>(h: seq<Event<T>>, kind: Kind, name: Bytes, v: seq<T>, starts: seq<int>, c: T)
    requires h != [] && h[|h| - 1] == Removed(c) && c !in v
    requires InFollowOrder(h[..|h| - 1], kind, name, v, starts)
    ensures InFollowOrder(h, kind, name, v, starts)
  {
    assert forall p :: 0 <= p < |v| ==> v[p] in v;
    FollowOrderKept(h, kind, name, v, starts);
  }

  lemma NewFollowCounts<T>(h: seq<Event<T>>, kind: Kind, name: Bytes, c: T)
    requires h != [] && h[|h| - 1] == Followed(kind, name, c)
    requires c !in After(h[..|h| - 1]).Followers(kind, name)
    ensures FollowsSince(h, kind, name, c, |h| - 1)
  {
    var n := |h| - 1;
    forall k | 0 <= k < n && h[k] == Followed(kind, name, c)
      ensures exists m :: k < m < n && h[m] == Removed(c)
    {
      if forall m :: k < m < n ==> h[m] != Removed(c) {
        FollowsIsListed(h[..n], kind, name, c, k);
      }
    }
  }

  /** The registry refines the relation: a client is listed for a name iff it followed it and was not removed since. */
  lemma ListedIffFollows<T>(h: seq<Event<T>>, kind: Kind, name: Bytes, c: T)
    ensures c in After(h).Followers(kind, name) <==> Follows(h, kind, name, c)
  {
    if c in After(h).Followers(kind, name) {
      var starts := FollowOrder(h, kind, name);
      var v := After(h).Followers(kind, name);
      var p :| 0 <= p < |v| && v[p] == c;
      assert FollowsSince(h, kind, name, v[p], starts[p]);
    }
    if Follows(h, kind, name, c) {
      var i :| 0 <= i < |h| && h[i] == Followed(kind, name, c) && forall k :: i < k < |h| ==> h[k] != Removed(c);
      FollowsIsListed(h, kind, name, c, i);
    }
  }

  lemma KnownOneMore<T>(r: Registry<T>, e: Event<T>, kind: Kind, name: Bytes)
    ensures name in r.Apply(e).Table(kind) <==> name in r.Table(kind) || FollowsName(e, kind, name)
  {
  }

  lemma EverFollowedOneMore<T>(h: seq<Event<T>>, kind: Kind, name: Bytes)
    requires h != []
    ensures EverFollowed(h, kind, name) <==> EverFollowed(h[..|h| - 1], kind, name) || FollowsName(h[|h| - 1], kind, name)
  {
    var n := |h| - 1;
    assert forall i :: 0 <= i < n ==> FollowsName(h[..n][i], kind, name) == FollowsName(h[i], kind, name);
  }

  /** Keys are never erased: a name has a vector iff it was ever followed on this server run. */
  lemma {:induction false} KnownIffEverFollowed<T>(h: seq<Event<T>>, kind: Kind, name: Bytes)
    ensures name in After(h).Table(kind) <==> EverFollowed(h, kind, name)
  {
    if h != [] {
      var n := |h| - 1;
      KnownIffEverFollowed(h[..n], kind, name);
      KnownOneMore(After(h[..n]), h[n], kind, name);
      EverFollowedOneMore(h, kind, name);
    }
  }

  lemma PrefixOrderly<T>(h: seq<Event<T>>, n: nat)
    requires Orderly(h) && n <= |h|
    ensures Orderly(h[..n])
  {
    var g := h[..n];
    forall i | 0 <= i < n && g[i].Followed?
      ensures exists k :: 0 <= k < i && g[k] == Created(g[i].client)
    {
      var k :| 0 <= k < i && h[k] == Created(h[i].client);
      assert g[k] == Created(g[i].client);
    }
  }

  lemma LiveStep<T>(h: seq<Event<T>>, c: T)
    requires h != []
    ensures Live(h, c) <==> h[|h| - 1] == Created(c) || (Live(h[..|h| - 1], c) && h[|h| - 1] != Removed(c))
  {
    var n := |h| - 1;
    if i :| LiveSince(h[..n], c, i) {
      if h[n] != Removed(c) {
        assert LiveSince(h, c, i);
      }
    }
    if h[n] == Created(c) {
      assert LiveSince(h, c, n);
    }
    if i :| LiveSince(h, c, i) {
      if i < n {
        assert LiveSince(h[..n], c, i);
      }
    }
  }

  lemma CreatedOnce<T>(h: seq<Event<T>>)
    requires h != [] && Orderly(h) && h[|h| - 1].Created?
    ensures !Live(h[..|h| - 1], h[|h| - 1].client)
  {
    var n := |h| - 1;
    forall i
      ensures !LiveSince(h[..n], h[n].client, i)
    {
      if 0 <= i < n && h[i].Created? {
        assert h[i].client != h[n].client;
      }
    }
  }

  /** The client vector lists the clients created and not removed, each once. */
  lemma {:induction false} ClientsAreLive<T>(h: seq<Event<T>>)
    requires Orderly(h)
    ensures NoDup(After(h).clients)
    ensures forall c :: c in After(h).clients <==> Live(h, c)
  {
    if h != [] {
      var g, e := h[..|h| - 1], h[|h| - 1];
      PrefixOrderly(h, |h| - 1);
      ClientsAreLive(g);
      if e.Created? {
        CreatedOnce(h);
      } else if e.Removed? {
        RemoveFirstErases(After(g).clients, e.client);
      }
      forall c
        ensures c in After(h).clients <==> Live(h, c)
      {
        LiveStep(h, c);
      }
    }
  }

  ghost predicate CreatedUniquely<T>(h: seq<Event<T>>) {
    forall i, j :: 0 <= i < j < |h| && h[i].Created? && h[j].Created? ==> h[i].client != h[j].client
  }

  /** Position by position, `starts` gives the call that created the client, and it increases. */
  ghost predicate InCreationOrder<T>(h: seq<Event<T>>, v: seq<T>, starts: seq<int>) {
    && |starts| == |v|
    && (forall p :: 0 <= p < |v| ==> LiveSince(h, v[p], starts[p]))
    && (forall p, q :: 0 <= p < q < |v| ==> starts[p] < starts[q])
  }

  lemma CreationOrderIsNoDup<T>(h: seq<Event<T>>, v: seq<T>, starts: seq<int>)
    requires CreatedUniquely(h) && InCreationOrder(h, v, starts)
    ensures NoDup(v)
  {
    forall p, q | 0 <= p < q < |v|
      ensures v[p] != v[q]
    {
      assert LiveSince(h, v[p], starts[p]) && LiveSince(h, v[q], starts[q]);
    }
  }

  lemma CreationOrderKept<T>(h: seq<Event<T>>, v: seq<T>, starts: seq<int>)
    requires h != [] && InCreationOrder(h[..|h| - 1], v, starts)
    requires forall p :: 0 <= p < |v| ==> h[|h| - 1] != Removed(v[p])
    ensures InCreationOrder(h, v, starts)
  {
    forall p | 0 <= p < |v|
      ensures LiveSince(h, v[p], starts[p])
    {
      assert LiveSince(h[..|h| - 1], v[p], starts[p]);
    }
  }

  lemma CreationOrderWithout<T>(h: seq<Event<T>>, v: seq<T>, starts: seq<int>, i: nat)
    requires InCreationOrder(h, v, starts) && i < |v|
    ensures InCreationOrder(h, v[..i] + v[i + 1..], starts[..i] + starts[i + 1..])
  {
    var w, t := v[..i] + v[i + 1..], starts[..i] + starts[i + 1..];
    forall p | 0 <= p < |w|
      ensures LiveSince(h, w[p], t[p])
    {
      var q := if p < i then p else p + 1;
      assert LiveSince(h, v[q], starts[q]);
    }
  }

  lemma CreationOrderAppend<T>(h: seq<Event<T>>, v: seq<T>, starts: seq<int>, c: T)
    requires h != [] && h[|h| - 1] == Created(c) && InCreationOrder(h, v, starts)
    requires forall p :: 0 <= p < |starts| ==> starts[p] < |h| - 1
    ensures InCreationOrder(h, v + [c], starts + [|h| - 1])
  {
    forall p | 0 <= p <= |v|
      ensures LiveSince(h, (v + [c])[p], (starts + [|h| - 1])[p])
    {
      assert p < |v| ==> LiveSince(h, v[p], starts[p]);
    }
  }

  lemma CreationOrderRemoval<T>(h: seq<Event<T>>, v: seq<T>, before: seq<int>, c: T) returns (starts: seq<int>)
    requires h != [] && h[|h| - 1] == Removed(c) && CreatedUniquely(h) && InCreationOrder(h[..|h| - 1], v, before)
    ensures InCreationOrder(h, RemoveFirst(v, c), starts)
  {
    var g := h[..|h| - 1];
    CreationOrderIsNoDup(g, v, before);
    RemoveFirstErases(v, c);
    var i := IndexOf(v, c);
    starts := before;
    if i < |v| {
      CreationOrderWithout(g, v, before, i);
      starts := before[..i] + before[i + 1..];
    }
    var w := RemoveFirst(v, c);
    assert forall p :: 0 <= p < |w| ==> w[p] in w;
    CreationOrderKept(h, w, starts);
  }

  /** The client vector lists the clients in the order of their creation. */
  lemma {:induction false} ClientOrder<T>(h: seq<Event<T>>) returns (starts: seq<int>)
    requires CreatedUniquely(h)
    ensures InCreationOrder(h, After(h).clients, starts)
  {
    starts := [];
    if h != [] {
      var n := |h| - 1;
      var v := After(h[..n]).clients;
      var before := ClientOrder(h[..n]);
      assert forall p :: 0 <= p < |v| ==> LiveSince(h[..n], v[p], before[p]);
      match h[n]
      case Created(c) =>
        CreationOrderKept(h, v, before);
        CreationOrderAppend(h, v, before, c);
        starts := before + [n];
      case Followed(_, _, _) =>
        CreationOrderKept(h, v, before);
        starts := before;
      case Removed(c) =>
        starts := CreationOrderRemoval(h, v, before, c);
    }
  }

  lemma {:induction false} LiveIsListed<T>(h: seq<Event<T>>, c: T, i: int)
    requires LiveSince(h, c, i)
    ensures c in After(h).clients
  {
    var n := |h| - 1;
    if i < n {
      assert LiveSince(h[..n], c, i);
      LiveIsListed(h[..n], c, i);
      ClientStays(After(h[..n]), h[n], c);
    }
  }

  lemma ClientStays<T>(r: Registry<T>, e: Event<T>, c: T)
    requires c in r.clients && e != Removed(c)
    ensures c in r.Apply(e).clients
  {
    if e.Removed? {
      var k :| 0 <= k < |r.clients| && r.clients[k] == c;
      var i := IndexOf(r.clients, e.client);
      assert i < |r.clients| ==> RemoveFirst(r.clients, e.client)[if k < i then k else k - 1] == c;
    }
  }

  ghost predicate RemovedAfter<T>(h: seq<Event<T>>, j: int)
    requires 0 <= j < |h|
  {
    exists k :: j < k < |h| && h[k] == Removed(h[j].client)
  }

  /** `c` is live, and all clients created before it have been removed. */
  ghost predicate OldestLive<T>(h: seq<Event<T>>, c: T) {
    exists i :: LiveSince(h, c, i) && forall j :: 0 <= j < i && h[j].Created? ==> RemovedAfter(h, j)
  }

  lemma FirstIsCreatedFirst<T>(h: seq<Event<T>>, starts: seq<int>, c: T, j: int)
    requires CreatedUniquely(h) && After(h).clients != [] && InCreationOrder(h, After(h).clients, starts) && LiveSince(h, c, j)
    ensures starts[0] <= j
  {
    var v := After(h).clients;
    LiveIsListed(h, c, j);
    var p :| 0 <= p < |v| && v[p] == c;
    assert LiveSince(h, v[p], starts[p]);
  }

  lemma FirstIsOldest<T>(h: seq<Event<T>>)
    requires CreatedUniquely(h) && After(h).clients != []
    ensures OldestLive(h, After(h).clients[0])
  {
    var v := After(h).clients;
    var starts := ClientOrder(h);
    assert LiveSince(h, v[0], starts[0]);
    forall j | 0 <= j < starts[0] && h[j].Created?
      ensures RemovedAfter(h, j)
    {
      if !RemovedAfter(h, j) {
        FirstIsCreatedFirst(h, starts, h[j].client, j);
      }
    }
  }

  lemma FollowerIsLive<T>(h: seq<Event<T>>, kind: Kind, name: Bytes, c: T)
    requires Orderly(h) && Follows(h, kind, name, c)
    ensures Live(h, c)
  {
    var i :| 0 <= i < |h| && h[i] == Followed(kind, name, c) && forall k :: i < k < |h| ==> h[k] != Removed(c);
    var k :| 0 <= k < i && h[k] == Created(h[i].client);
    assert LiveSince(h, c, k) by {
      forall m | k < m < |h|
        ensures h[m] != Removed(c)
      {
        if m < i {
          assert h[m].Removed? ==> h[m].client != h[i].client;
        }
      }
    }
  }

  /** On runs where a removed client makes no further follow call, every follower is a client. */
  lemma FollowersAreClients<T>(h: seq<Event<T>>, kind: Kind, name: Bytes)
    requires Orderly(h)
    ensures forall c :: c in After(h).Followers(kind, name) ==> c in After(h).clients
  {
    ClientsAreLive(h);
    forall c | c in After(h).Followers(kind, name)
      ensures c in After(h).clients
    {
      ListedIffFollows(h, kind, name, c);
      FollowerIsLive(h, kind, name, c);
    }
  }

  /**
   * After any history, the removal of a client, which takes one occurrence out of each vector, erases it from every
   * vector and keeps the order of the rest.
   */
  lemma RemovalErases<T>(h: seq<Event<T>>, kind: Kind, name: Bytes, c: T)
    ensures After(h + [Removed(c)]).Followers(kind, name) == Without(After(h).Followers(kind, name), c)
  {
    AfterOneMore(h, Removed(c));
    var starts := FollowOrder(h, kind, name);
    RemoveFirstIsWithout(After(h).Followers(kind, name), c);
  }

  /** The clients a call for `name` is offered to: its followers, or the first client when the name has no vector. */
  function Addressed<T>(r: Registry<T>, kind: Kind, name: Bytes): seq<T> {
    if name in r.Table(kind) then r.Table(kind)[name] else if r.clients == [] then [] else [r.clients[0]]
  }

  /** The members of `v` that are in `holders`, in order. */
  function Select<T(==)>(v: seq<T>, holders: set<T>): seq<T> {
    if v == [] then []
    else
      var n := |v| - 1;
      if v[n] in holders then Select(v[..n], holders) + [v[n]] else Select(v[..n], holders)
  }

  lemma {:induction false} SelectMembers<T>(v: seq<T>, holders: set<T>)
    ensures forall c :: c in Select(v, holders) <==> c in v && c in holders
  {
    if v != [] {
      SelectMembers(v[..|v| - 1], holders);
      assert v == v[..|v| - 1] + [v[|v| - 1]];
    }
  }

  lemma SelectOneMore<T>(v: seq<T>, c: T, holders: set<T>)
    ensures Select(v + [c], holders) == Select(v, holders) + if c in holders then [c] else []
  {
    assert (v + [c])[..|v|] == v;
  }

  lemma {:induction false} SelectConcat<T>(v: seq<T>, w: seq<T>, holders: set<T>)
    ensures Select(v + w, holders) == Select(v, holders) + Select(w, holders)
  {
    if w == [] {
      assert v + w == v;
    } else {
      var n := |w| - 1;
      SelectConcat(v, w[..n], holders);
      SelectOneMore(v + w[..n], w[n], holders);
      assert v + w == v + w[..n] + [w[n]];
    }
  }

  /** Removing a client that is not selected leaves the selection, its order included. */
  lemma SelectWithoutOther<T>(v: seq<T>, c: T, holders: set<T>)
    requires c !in holders
    ensures Select(RemoveFirst(v, c), holders) == Select(v, holders)
  {
    var i := IndexOf(v, c);
    if i < |v| {
      assert v == v[..i] + [c] + v[i + 1..];
      SelectConcat(v[..i] + [c], v[i + 1..], holders);
      SelectOneMore(v[..i], c, holders);
      SelectConcat(v[..i], v[i + 1..], holders);
    }
  }

  lemma FollowOrderFront<T>(h: seq<Event<T>>, kind: Kind, name: Bytes, v: seq<T>, starts: seq<int>)
    requires v != [] && InFollowOrder(h, kind, name, v, starts)
    ensures InFollowOrder(h, kind, name, v[..|v| - 1], starts[..|v| - 1])
    ensures FollowsSince(h, kind, name, v[|v| - 1], starts[|v| - 1])
    ensures forall p :: 0 <= p < |v| - 1 ==> starts[p] < starts[|v| - 1]
  {
    var n := |v| - 1;
    assert forall p :: 0 <= p < n ==> v[..n][p] == v[p] && starts[..n][p] == starts[p];
  }

  lemma FollowOrderAppend<T>(h: seq<Event<T>>, kind: Kind, name: Bytes, v: seq<T>, starts: seq<int>, c: T, last: int)
    requires InFollowOrder(h, kind, name, v, starts) && FollowsSince(h, kind, name, c, last)
    requires forall p :: 0 <= p < |starts| ==> starts[p] < last
    ensures InFollowOrder(h, kind, name, v + [c], starts + [last])
  {
    forall p | 0 <= p <= |v|
      ensures FollowsSince(h, kind, name, (v + [c])[p], (starts + [last])[p])
    {
      assert p < |v| ==> FollowsSince(h, kind, name, v[p], starts[p]);
    }
  }

  /** `bound` is above all of `starts`, so it stays above those of the selection. */
  lemma {:induction false} SelectKeepsFollowOrder<T>(h: seq<Event<T>>, kind: Kind, name: Bytes, v: seq<T>, starts: seq<int>,
                                                     holders: set<T>, bound: int)
    returns (rest: seq<int>)
    requires InFollowOrder(h, kind, name, v, starts) && forall p :: 0 <= p < |starts| ==> starts[p] < bound
    ensures InFollowOrder(h, kind, name, Select(v, holders), rest) && forall p :: 0 <= p < |rest| ==> rest[p] < bound
  {
    rest := [];
    if v != [] {
      var n := |v| - 1;
      FollowOrderFront(h, kind, name, v, starts);
      rest := SelectKeepsFollowOrder(h, kind, name, v[..n], starts[..n], holders, starts[n]);
      if v[n] in holders {
        FollowOrderAppend(h, kind, name, Select(v[..n], holders), rest, v[n], starts[n]);
        rest := rest + [starts[n]];
      }
    }
  }

  lemma StartsBounded<T>(h: seq<Event<T>>, kind: Kind, name: Bytes, v: seq<T>, starts: seq<int>)
    requires InFollowOrder(h, kind, name, v, starts)
    ensures forall p :: 0 <= p < |starts| ==> starts[p] < |h|
  {
    forall p | 0 <= p < |starts|
      ensures starts[p] < |h|
    {
      assert FollowsSince(h, kind, name, v[p], starts[p]);
    }
  }

  /**
   * The callbacks of one dispatch. A name that was ever followed on this run reaches exactly its current followers
   * that hold a callback, once each and in follow order, be they none; only a name never followed falls back to the
   * first client, which is the one of those still there that was created first.
   */
  lemma DispatchTrace<T>(h: seq<Event<T>>, kind: Kind, name: Bytes, holders: set<T>)
    ensures var calls := Select(Addressed(After(h), kind, name), holders);
      if EverFollowed(h, kind, name) then
        && (forall c :: c in calls <==> Follows(h, kind, name, c) && c in holders)
        && NoDup(calls)
        && exists starts :: InFollowOrder(h, kind, name, calls, starts)
      else
        calls == if After(h).clients != [] && After(h).clients[0] in holders then [After(h).clients[0]] else []
    ensures CreatedUniquely(h) && After(h).clients != [] ==> OldestLive(h, After(h).clients[0])
  {
    if CreatedUniquely(h) && After(h).clients != [] {
      FirstIsOldest(h);
    }
    KnownIffEverFollowed(h, kind, name);
    if EverFollowed(h, kind, name) {
      var starts := FollowOrder(h, kind, name);
      var v := After(h).Followers(kind, name);
      StartsBounded(h, kind, name, v, starts);
      var rest := SelectKeepsFollowOrder(h, kind, name, v, starts, holders, |h|);
      FollowOrderIsNoDup(h, kind, name, Select(v, holders), rest);
      SelectMembers(v, holders);
      forall c
        ensures c in After(h).Followers(kind, name) <==> Follows(h, kind, name, c)
      {
        ListedIffFollows(h, kind, name, c);
      }
    } else if After(h).clients != [] {
      assert [After(h).clients[0]][..0] == [];
    }
  }
}
