/**
 * The two locks of the server, m_lockAttrs and m_lockClis, and who takes them in which order. Threads run any sequence
 * of the server's operations; a condition wait gives its lock back and asks for it again when woken.
 */
module LockOrder {
  datatype Lock = Attrs | Clis

  datatype Instr = Acquire(lock: Lock) | Release(lock: Lock) | Await

  /** The operations by the locks they take. */
  datatype Operation =
    | ClientOp                 // createClient, removeClient, addFollowing, clientActive, the dispatches
    | TableOp                  // _addProperty, the locked parts of a report, of a bulk push and of preShadow
    | FollowPropertyOp         // addFollowing, then _addProperty
    | PollOp(asked: nat)       // updateProperties, asking the clients for that many attributes
    | WaitOp                   // waitForClient

  const CLIS_SECTION := [Acquire(Clis), Release(Clis)]
  const ATTRS_SECTION := [Acquire(Attrs), Release(Attrs)]

  function Asking(n: nat): seq<Instr> {
    if n == 0 then [Release(Attrs)] else CLIS_SECTION + Asking(n - 1)
  }

  function Script(op: Operation): seq<Instr> {
    match op
    case ClientOp => CLIS_SECTION
    case TableOp => ATTRS_SECTION
    case FollowPropertyOp => CLIS_SECTION + ATTRS_SECTION
    case PollOp(n) => [Acquire(Attrs)] + Asking(n)
    case WaitOp => [Acquire(Clis), Await, Release(Clis)]
  }

  /** The rest of a script is fit for a thread that holds `held`: in particular m_lockAttrs is not taken under m_lockClis. */
  predicate Ordered(script: seq<Instr>, held: set<Lock>) {
    if script == [] then held == {}
    else
      match script[0]
      case Acquire(l) => l !in held && !(l == Attrs && Clis in held) && Ordered(script[1..], held + {l})
      case Release(l) => l in held && Ordered(script[1..], held - {l})
      case Await => held == {Clis} && Ordered(script[1..], held)
  }

  /** A sleeping thread waits for a signal. */
  datatype Thread = Thread(script: seq<Instr>, sleeping: bool)

  datatype State = State(owner: map<Lock, nat>, threads: map<nat, Thread>)

  datatype Act = Start(tid: nat, op: Operation) | Go(tid: nat) | Wake(tid: nat)

  function Held(s: State, tid: nat): set<Lock> {
    set l | l in s.owner && s.owner[l] == tid
  }

  /** The thread asks for a lock another one has, or that it has itself. */
  predicate Blocked(s: State, tid: nat)
    requires tid in s.threads
  {
    var t := s.threads[tid];
    !t.sleeping && t.script != [] && t.script[0].Acquire? && t.script[0].lock in s.owner
  }

  predicate Enabled(s: State, a: Act) {
    match a
    case Start(tid, _) => tid !in s.threads || (s.threads[tid].script == [] && !s.threads[tid].sleeping)
    case Go(tid) => tid in s.threads && !s.threads[tid].sleeping && s.threads[tid].script != [] && !Blocked(s, tid)
    case Wake(tid) => tid in s.threads && s.threads[tid].sleeping
  }

  function Apply(s: State, a: Act): State
    requires Enabled(s, a)
  {
    match a
    case Start(tid, op) => s.(threads := s.threads[tid := Thread(Script(op), false)])
    case Go(tid) =>
      var rest := s.threads[tid].script[1..];
      (match s.threads[tid].script[0]
       case Acquire(l) => State(s.owner[l := tid], s.threads[tid := Thread(rest, false)])
       case Release(l) => State(s.owner - {l}, s.threads[tid := Thread(rest, false)])
       case Await => State(s.owner - {Clis}, s.threads[tid := Thread([Acquire(Clis)] + rest, true)]))
    case Wake(tid) => s.(threads := s.threads[tid := s.threads[tid].(sleeping := false)])
  }

  predicate Possible(s: State, acts: seq<Act>)
    decreases |acts|
  {
    acts == [] || (Enabled(s, acts[0]) && Possible(Apply(s, acts[0]), acts[1..]))
  }

  function Run(s: State, acts: seq<Act>): State
    requires Possible(s, acts)
    decreases |acts|
  {
    if acts == [] then s else Run(Apply(s, acts[0]), acts[1..])
  }

  const IDLE := State(map[], map[])

  lemma SectionOrdered(l: Lock, rest: seq<Instr>, held: set<Lock>)
    requires l !in held && !(l == Attrs && Clis in held) && Ordered(rest, held)
    ensures Ordered([Acquire(l), Release(l)] + rest, held)
  {
    var script := [Acquire(l), Release(l)] + rest;
    assert script[1..] == [Release(l)] + rest && script[1..][1..] == rest;
    assert held + {l} - {l} == held;
  }

  lemma {:induction false} AskingOrdered(n: nat)
    ensures Ordered(Asking(n), {Attrs})
  {
    if n > 0 {
      AskingOrdered(n - 1);
      SectionOrdered(Clis, Asking(n - 1), {Attrs});
    }
  }

  /** Every operation of the server, polls of any size included, keeps to the order. */
  lemma ScriptOrdered(op: Operation)
    ensures Ordered(Script(op), {})
  {
    match op
    case ClientOp =>
      SectionOrdered(Clis, [], {});
    case TableOp =>
      SectionOrdered(Attrs, [], {});
    case FollowPropertyOp =>
      SectionOrdered(Attrs, [], {});
      SectionOrdered(Clis, ATTRS_SECTION, {});
    case PollOp(n) =>
      AskingOrdered(n);
      assert Script(op)[1..] == Asking(n) && {} + {Attrs} == {Attrs};
    case WaitOp =>
      var end := [Release(Clis)];
      assert Ordered(end, {Clis}) by { assert {Clis} - {Clis} == {}; }
      assert ([Await] + end)[1..] == end && Script(op)[1..] == [Await] + end;
      assert {} + {Clis} == {Clis};
  }

  ghost predicate Inv(s: State) {
    && (forall l :: l in s.owner ==> s.owner[l] in s.threads)
    && (forall tid :: tid in s.threads ==> Ordered(s.threads[tid].script, Held(s, tid)))
  }

  lemma StartKeeps(s: State, tid: nat, op: Operation)
    requires Inv(s) && Enabled(s, Start(tid, op))
    ensures Inv(Apply(s, Start(tid, op)))
  {
    var t := Apply(s, Start(tid, op));
    assert forall u :: Held(t, u) == Held(s, u);
    assert Held(s, tid) == {};
    ScriptOrdered(op);
  }

  lemma GoKeepsOthers(s: State, tid: nat, other: nat)
    requires Inv(s) && Enabled(s, Go(tid)) && other in s.threads && other != tid
    ensures Held(Apply(s, Go(tid)), other) == Held(s, other)
  {
    match s.threads[tid].script[0]
    case Acquire(l) =>
    case Release(l) => assert l in Held(s, tid);
    case Await => assert Clis in Held(s, tid);
  }

  lemma GoKeepsSelf(s: State, tid: nat)
    requires Inv(s) && Enabled(s, Go(tid))
    ensures var t := Apply(s, Go(tid)); Ordered(t.threads[tid].script, Held(t, tid))
  {
    var t := Apply(s, Go(tid));
    var script := s.threads[tid].script;
    match script[0]
    case Acquire(l) =>
      assert Held(t, tid) == Held(s, tid) + {l};
    case Release(l) =>
      assert Held(t, tid) == Held(s, tid) - {l};
    case Await =>
      assert Held(t, tid) == {};
      assert ([Acquire(Clis)] + script[1..])[1..] == script[1..];
      assert {} + {Clis} == Held(s, tid);
  }

  lemma StepKeeps(s: State, a: Act)
    requires Inv(s) && Enabled(s, a)
    ensures Inv(Apply(s, a))
  {
    match a
    case Start(tid, op) => StartKeeps(s, tid, op);
    case Go(tid) =>
      GoKeepsSelf(s, tid);
      forall other | other in s.threads && other != tid {
        GoKeepsOthers(s, tid, other);
      }
    case Wake(_) =>
      assert forall u :: Held(Apply(s, a), u) == Held(s, u);
  }

  lemma {:induction false} RunKeeps(s: State, acts: seq<Act>)
    requires Inv(s) && Possible(s, acts)
    ensures Inv(Run(s, acts))
    decreases |acts|
  {
    if acts != [] {
      StepKeeps(s, acts[0]);
      RunKeeps(Apply(s, acts[0]), acts[1..]);
    }
  }

  /** `tid` asks for a lock that `other` has; a thread may wait for itself. */
  predicate WaitsFor(s: State, tid: nat, other: nat) {
    tid in s.threads && Blocked(s, tid) && s.owner[s.threads[tid].script[0].lock] == other
  }

  /** Requests for m_lockAttrs come before requests for m_lockClis. */
  function Rank(s: State, tid: nat): nat {
    if tid !in s.threads || !Blocked(s, tid) then 0
    else if s.threads[tid].script[0].lock == Clis then 1
    else 2
  }

  lemma WaitingDescends(s: State, tid: nat, other: nat)
    requires Inv(s) && WaitsFor(s, tid, other)
    ensures Rank(s, tid) > Rank(s, other)
  {
    assert s.threads[tid].script[0].lock in Held(s, other);
    assert Ordered(s.threads[other].script, Held(s, other));
  }

  ghost predicate WaitPath(s: State, path: seq<nat>) {
    forall k :: 0 <= k < |path| - 1 ==> WaitsFor(s, path[k], path[k + 1])
  }

  lemma {:induction false} PathDescends(s: State, path: seq<nat>)
    requires Inv(s) && |path| > 1 && WaitPath(s, path)
    ensures Rank(s, path[0]) > Rank(s, path[|path| - 1])
  {
    WaitingDescends(s, path[0], path[1]);
    if |path| > 2 {
      assert forall k :: 0 <= k < |path[1..]| - 1 ==> WaitsFor(s, path[1..][k], path[1..][k + 1]) by {
        forall k | 0 <= k < |path[1..]| - 1
          ensures WaitsFor(s, path[1..][k], path[1..][k + 1])
        {
          assert WaitsFor(s, path[k + 1], path[k + 1 + 1]);
        }
      }
      PathDescends(s, path[1..]);
    }
  }

  /** No deadlock: in no reachable state, with any number of threads, do threads wait for each other in a circle. */
  lemma NoWaitCycle(acts: seq<Act>, path: seq<nat>)
    requires Possible(IDLE, acts) && |path| > 1 && WaitPath(Run(IDLE, acts), path)
    ensures path[0] != path[|path| - 1]
  {
    RunKeeps(IDLE, acts);
    PathDescends(Run(IDLE, acts), path);
  }

  lemma HolderIsAwake(s: State, tid: nat, l: Lock)
    requires Inv(s) && SleepersHoldNothing(s) && l in s.owner && s.owner[l] == tid
    ensures tid in s.threads && s.threads[tid].script != [] && !s.threads[tid].sleeping
  {
    assert l in Held(s, tid);
  }

  /** A sleeping thread has given its lock back. */
  ghost predicate SleepersHoldNothing(s: State) {
    forall tid :: tid in s.threads && s.threads[tid].sleeping ==> Held(s, tid) == {}
  }

  lemma StepKeepsSleepers(s: State, a: Act)
    requires Inv(s) && SleepersHoldNothing(s) && Enabled(s, a)
    ensures SleepersHoldNothing(Apply(s, a))
  {
    var t := Apply(s, a);
    forall u | u in t.threads && t.threads[u].sleeping
      ensures Held(t, u) == {}
    {
      if a.Go? && u != a.tid {
        GoKeepsOthers(s, a.tid, u);
      } else if a.Go? {
        assert Held(s, u) == {Clis};
      } else {
        assert Held(t, u) == Held(s, u);
      }
    }
  }

  lemma {:induction false} RunKeepsSleepers(s: State, acts: seq<Act>)
    requires Inv(s) && SleepersHoldNothing(s) && Possible(s, acts)
    ensures SleepersHoldNothing(Run(s, acts))
    decreases |acts|
  {
    if acts != [] {
      StepKeeps(s, acts[0]);
      StepKeepsSleepers(s, acts[0]);
      RunKeepsSleepers(Apply(s, acts[0]), acts[1..]);
    }
  }

  /** Whenever a thread is blocked, some lock holder can go on, so the server as a whole never stops. */
  lemma BlockedImpliesProgress(acts: seq<Act>, tid: nat)
    requires Possible(IDLE, acts) && tid in Run(IDLE, acts).threads && Blocked(Run(IDLE, acts), tid)
    ensures exists u :: Enabled(Run(IDLE, acts), Go(u)) && Held(Run(IDLE, acts), u) != {}
  {
    var s := Run(IDLE, acts);
    RunKeeps(IDLE, acts);
    RunKeepsSleepers(IDLE, acts);
    var l := s.threads[tid].script[0].lock;
    var u := s.owner[l];
    HolderIsAwake(s, u, l);
    WaitingDescends(s, tid, u);
    if Blocked(s, u) {
      var v := s.owner[s.threads[u].script[0].lock];
      HolderIsAwake(s, v, s.threads[u].script[0].lock);
      WaitingDescends(s, u, v);
      assert s.threads[u].script[0].lock in Held(s, v);
      assert Enabled(s, Go(v));
    } else {
      assert l in Held(s, u);
      assert Enabled(s, Go(u));
    }
  }

  /** `n` sections of m_lockClis, one after the other. */
  function Questions(n: nat): seq<Instr> {
    seq(2 * n, i => if i % 2 == 0 then Acquire(Clis) else Release(Clis))
  }

  lemma QuestionsUnfold(n: nat)
    requires n > 0
    ensures Questions(n) == CLIS_SECTION + Questions(n - 1)
  {
  }

  lemma {:induction false} AskingIsQuestions(n: nat)
    ensures Asking(n) == Questions(n) + [Release(Attrs)]
  {
    if n > 0 {
      AskingIsQuestions(n - 1);
      QuestionsUnfold(n);
      assert CLIS_SECTION + (Questions(n - 1) + [Release(Attrs)]) == CLIS_SECTION + Questions(n - 1) + [Release(Attrs)];
    }
  }

  /** A poll holds m_lockAttrs throughout, and takes and gives m_lockClis once for every attribute it asks for. */
  lemma PollNests(n: nat)
    ensures Script(PollOp(n)) == [Acquire(Attrs)] + Questions(n) + [Release(Attrs)]
  {
    AskingIsQuestions(n);
    assert [Acquire(Attrs)] + (Questions(n) + [Release(Attrs)]) == [Acquire(Attrs)] + Questions(n) + [Release(Attrs)];
  }
}
