/**
 * How many clients the service can have when its limit is checked before the lock is taken: `callers` threads call
 * createClient concurrently, in any interleaving with removals.
 */
module ClientCount {
  import opened Service

  /** The clients, and the callers between the check they passed and the addition. */
  datatype State = State(clients: nat, checked: set<nat>)

  datatype Act = Check(caller: nat) | Add(caller: nat) | Remove

  predicate Enabled(callers: nat, s: State, a: Act) {
    match a
    case Check(c) => c < callers && c !in s.checked
    case Add(c) => c in s.checked
    case Remove => s.clients > 0
  }

  function Apply(callers: nat, s: State, a: Act): State
    requires Enabled(callers, s, a)
  {
    match a
    case Check(c) => if s.clients >= MAX_CLINETS then s else s.(checked := s.checked + {c})
    case Add(c) => State(s.clients + 1, s.checked - {c})
    case Remove => s.(clients := s.clients - 1)
  }

  predicate Possible(callers: nat, s: State, acts: seq<Act>)
    decreases |acts|
  {
    acts == [] || (Enabled(callers, s, acts[0]) && Possible(callers, Apply(callers, s, acts[0]), acts[1..]))
  }

  function Run(callers: nat, s: State, acts: seq<Act>): State
    requires Possible(callers, s, acts)
    decreases |acts|
  {
    if acts == [] then s else Run(callers, Apply(callers, s, acts[0]), acts[1..])
  }

  const NOBODY := State(0, {})

  lemma {:induction false} BelowIsSmall(checked: set<nat>, n: nat)
    requires forall c :: c in checked ==> c < n
    ensures |checked| <= n
  {
    if n == 0 {
      assert checked == {};
    } else {
      BelowIsSmall(checked - {n - 1}, n - 1);
    }
  }

  lemma {:induction false} RunBounded(callers: nat, s: State, acts: seq<Act>)
    requires Possible(callers, s, acts)
    requires forall c :: c in s.checked ==> c < callers
    requires s.clients + |s.checked| < MAX_CLINETS + callers
    ensures var t := Run(callers, s, acts); t.clients + |t.checked| < MAX_CLINETS + callers
    decreases |acts|
  {
    if acts != [] {
      var t := Apply(callers, s, acts[0]);
      BelowIsSmall(t.checked, callers);
      RunBounded(callers, t, acts[1..]);
    }
  }

  /** Clients plus callers past the check stay below MAX_CLINETS + callers; a single caller keeps the intended limit. */
  lemma ClientsBounded(callers: nat, acts: seq<Act>)
    requires Possible(callers, NOBODY, acts)
    ensures Run(callers, NOBODY, acts).clients < MAX_CLINETS + callers
  {
    RunBounded(callers, NOBODY, acts);
  }

  lemma {:induction false} RunConcat(callers: nat, s: State, a: seq<Act>, b: seq<Act>)
    requires Possible(callers, s, a) && Possible(callers, Run(callers, s, a), b)
    ensures Possible(callers, s, a + b)
    ensures Run(callers, s, a + b) == Run(callers, Run(callers, s, a), b)
    decreases |a|
  {
    if a == [] {
      assert a + b == b;
    } else {
      assert (a + b)[1..] == a[1..] + b;
      RunConcat(callers, Apply(callers, s, a[0]), a[1..], b);
    }
  }

  /** One caller alone fills the vector up to its limit. */
  lemma {:induction false} FillAlone(callers: nat, n: nat) returns (acts: seq<Act>)
    requires callers > 0 && n <= MAX_CLINETS
    ensures Possible(callers, NOBODY, acts)
    ensures Run(callers, NOBODY, acts) == State(n, {})
  {
    acts := [];
    if n > 0 {
      acts := FillAlone(callers, n - 1);
      var more := [Check(0), Add(0)];
      var s := State(n - 1, {});
      assert more[1..] == [Add(0)] && more[1..][1..] == [];
      assert Apply(callers, Apply(callers, s, more[0]), more[1]) == State(n, {});
      RunConcat(callers, NOBODY, acts, more);
      acts := acts + more;
    }
  }

  function Below(n: nat): (r: set<nat>)
    ensures forall c: nat :: c in r <==> c < n
  {
    if n == 0 then {} else Below(n - 1) + {n - 1}
  }

  /** All callers pass the check before any of them adds. */
  lemma {:induction false} AllCheck(callers: nat, clients: nat, n: nat) returns (acts: seq<Act>)
    requires clients < MAX_CLINETS && n <= callers
    ensures Possible(callers, State(clients, {}), acts)
    ensures Run(callers, State(clients, {}), acts) == State(clients, Below(n))
  {
    acts := [];
    if n == 0 {
      assert Below(0) == {};
    } else {
      acts := AllCheck(callers, clients, n - 1);
      var more := [Check(n - 1)];
      assert more[1..] == [] && Below(n) == Below(n - 1) + {n - 1};
      RunConcat(callers, State(clients, {}), acts, more);
      acts := acts + more;
    }
  }

  lemma {:induction false} AllAdd(callers: nat, clients: nat, n: nat) returns (acts: seq<Act>)
    ensures Possible(callers, State(clients, Below(n)), acts)
    ensures Run(callers, State(clients, Below(n)), acts) == State(clients + n, {})
    decreases n
  {
    acts := [];
    if n == 0 {
      assert Below(0) == {};
    } else {
      var rest := AllAdd(callers, clients + 1, n - 1);
      assert Below(n) - {n - 1} == Below(n - 1);
      acts := [Add(n - 1)] + rest;
      assert acts[1..] == rest;
    }
  }

  /** The bound is reached: that many callers can overfill the vector up to it. */
  lemma BoundIsReached(callers: nat) returns (acts: seq<Act>)
    requires callers > 0
    ensures Possible(callers, NOBODY, acts)
    ensures Run(callers, NOBODY, acts).clients == MAX_CLINETS - 1 + callers
  {
    var a := FillAlone(callers, MAX_CLINETS - 1);
    var b := AllCheck(callers, MAX_CLINETS - 1, callers);
    var c := AllAdd(callers, MAX_CLINETS - 1, callers);
    RunConcat(callers, NOBODY, a, b);
    RunConcat(callers, NOBODY, a + b, c);
    acts := a + b + c;
  }
}
