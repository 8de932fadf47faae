/** The client's wait for the service: how often it tries and how long it sleeps. Times are in microseconds. */
module ConnectRetry {
  import opened Decimal

  const DS_STATUS_INVALID := -1
  const DS_STATUS_CONNECTED := 0
  const USLEEP_TIME := 100000
  const STATUS_SLEEP := 200000

  /** The division of C, which truncates toward zero. */
  function TruncDiv(a: int, b: int): int
    requires b > 0
  {
    if a >= 0 then a / b else -(-a / b)
  }

  /** The number of tries: a 32-bit product, of which an overflow would keep the low bits. */
  function TryCount(timeoutMs: int32): int {
    TruncDiv(ToInt32(timeoutMs * 1000), USLEEP_TIME) + 1
  }

  /** The service manager has handed out the service by try `k`; it is not asked again. */
  predicate Seen(found: nat -> bool, k: nat) {
    found(k) || (k > 0 && Seen(found, k - 1))
  }

  predicate ConnectsAt(found: nat -> bool, statusAt: nat -> int, k: nat) {
    Seen(found, k) && statusAt(k) == DS_STATUS_CONNECTED
  }

  /** The service is found connected within the tries of the timeout. */
  ghost predicate Connects(timeoutMs: int32, found: nat -> bool, statusAt: nat -> int) {
    exists k: nat :: k < TryCount(timeoutMs) && ConnectsAt(found, statusAt, k)
  }

  /** What `n` unsuccessful tries sleep. */
  function Slept(found: nat -> bool, n: nat): nat {
    if n == 0 then 0 else Slept(found, n - 1) + if Seen(found, n - 1) then STATUS_SLEEP else USLEEP_TIME
  }

  /** The loop of _connect. `found` and `statusAt` are what the system answers at each try. */
  method AwaitService(timeoutMs: int32, found: nat -> bool, statusAt: nat -> int) returns (connected: bool, tries: nat, slept: nat)
    ensures connected <==> Connects(timeoutMs, found, statusAt)
    ensures connected ==>
      0 < tries <= TryCount(timeoutMs) && ConnectsAt(found, statusAt, tries - 1) && slept == Slept(found, tries - 1)
    ensures !connected ==> tries == (if TryCount(timeoutMs) < 0 then 0 else TryCount(timeoutMs)) && slept == Slept(found, tries)
    ensures forall k :: 0 <= k < tries - (if connected then 1 else 0) ==> !ConnectsAt(found, statusAt, k)
  {
    var tryCnt := TryCount(timeoutMs);
    var service := false;
    var status := DS_STATUS_INVALID;
    tries, slept := 0, 0;
    while tries < tryCnt
      invariant 0 <= tries && (tries <= tryCnt || tries == 0)
      invariant service <==> tries > 0 && Seen(found, tries - 1)
      invariant status != DS_STATUS_CONNECTED
      invariant slept == Slept(found, tries)
      invariant forall k :: 0 <= k < tries ==> !ConnectsAt(found, statusAt, k)
    {
      var i := tries;
      tries := tries + 1;
      if !service {
        if !found(i) {
          slept := slept + USLEEP_TIME;
          continue;
        }
        service := true;
      }
      status := statusAt(i);
      if status == DS_STATUS_CONNECTED {
        break;
      }
      slept := slept + STATUS_SLEEP;
    }
    connected := status == DS_STATUS_CONNECTED;
    assert connected ==> ConnectsAt(found, statusAt, tries - 1);
  }

  lemma {:induction false} SleptBounds(found: nat -> bool, n: nat)
    ensures USLEEP_TIME * n <= Slept(found, n) <= STATUS_SLEEP * n
  {
    if n > 0 {
      SleptBounds(found, n - 1);
    }
  }

  lemma NoOverflowIff(timeoutMs: int32)
    ensures ToInt32(timeoutMs * 1000) == timeoutMs * 1000 <==> -2147483 <= timeoutMs <= 2147483
  {
  }

  /**
   * A wait that gives up after `tries` unsuccessful tries made one try per 100 ms begun, slept longer than the
   * timeout, and at most twice the timeout plus 200 ms.
   */
  lemma RetryBound(timeoutMs: int32, found: nat -> bool)
    requires 0 <= timeoutMs <= 2147483
    ensures TryCount(timeoutMs) == timeoutMs / 100 + 1
    ensures 1000 * timeoutMs < Slept(found, TryCount(timeoutMs)) <= 2 * 1000 * timeoutMs + 200 * 1000
  {
    NoOverflowIff(timeoutMs);
    assert (timeoutMs * 1000) / USLEEP_TIME == timeoutMs / 100;
    SleptBounds(found, TryCount(timeoutMs));
  }

  /** Of the timeouts that are not negative, just these get the number of tries they ask for. */
  lemma TryCountIff(timeoutMs: int32)
    requires timeoutMs >= 0
    ensures TryCount(timeoutMs) == timeoutMs / 100 + 1 <==> timeoutMs <= 2147483
  {
    if timeoutMs <= 2147483 {
      RetryBound(timeoutMs, _ => false);
    } else {
      assert ToInt32(timeoutMs * 1000) <= timeoutMs * 1000 - 0x1_0000_0000;
    }
  }

  /** The timeout of the automatic reconnect is outside that range: 6000 s become 17051 tries instead of 60001. */
  lemma ReconnectTimeoutOverflows()
    ensures TryCount(USLEEP_TIME * 60) == 17051 != (USLEEP_TIME * 60) / 100 + 1
  {
  }

  lemma {:induction false} SeenIff(found: nat -> bool, k: nat)
    ensures Seen(found, k) <==> exists j: nat :: j <= k && found(j)
  {
    if k > 0 {
      SeenIff(found, k - 1);
    }
  }

  /** Tries before the service is found sleep 100 ms, the others, which find it unconnected, 200 ms. */
  lemma {:induction false} SleptExactly(found: nat -> bool, n: nat, first: nat)
    requires first <= n && (forall j: nat :: j < first ==> !found(j)) && (first < n ==> found(first))
    ensures Slept(found, n) == 100000 * first + 200000 * (n - first)
  {
    if n > 0 {
      SeenIff(found, n - 1);
      SleptExactly(found, n - 1, if first < n then first else n - 1);
    }
  }

  /** Truncation: the product is no further from zero than `a`, and less than `b` away from it. */
  lemma TruncDivIs(a: int, b: int)
    requires b > 0
    ensures var r := TruncDiv(a, b) * b; if a >= 0 then r <= a < r + b else r - b < a <= r
  {
  }
}
