/** When the thread loop polls. Times are in milliseconds of a monotone clock. */
module PollClock {
  /** One round of the loop: the clock at its period check, and the clock after the poll, if it polls. */
  datatype Round = Round(check: nat, afterPoll: nat)

  datatype Poll = Poll(begin: nat, end: nat)

  /** The clock never runs backwards. */
  ghost predicate Monotone(start: nat, rounds: seq<Round>) {
    && (forall i :: 0 <= i < |rounds| ==> start <= rounds[i].check <= rounds[i].afterPoll)
    && (forall i, j :: 0 <= i < j < |rounds| ==> rounds[i].afterPoll <= rounds[j].check)
  }

  /** Consecutive period checks, from the loop's start on, are at most `gap` apart. */
  ghost predicate ChecksWithin(start: nat, rounds: seq<Round>, gap: nat) {
    forall i :: 0 <= i < |rounds| ==> CheckWithin(start, rounds, i, gap)
  }

  predicate CheckWithin(start: nat, rounds: seq<Round>, i: nat, gap: nat)
    requires i < |rounds|
  {
    rounds[i].check <= LastCheck(start, rounds, i) + gap
  }

  function LastCheck(start: nat, rounds: seq<Round>, n: nat): nat
    requires n <= |rounds|
  {
    if n == 0 then start else rounds[n - 1].check
  }

  /** The end of the poll before poll `k`, or the loop's start. */
  function EndBefore(start: nat, polls: seq<Poll>, k: nat): nat
    requires k <= |polls|
  {
    if k == 0 then start else polls[k - 1].end
  }

  /** Where the period that runs after the polls began. */
  function PeriodStart(start: nat, polls: seq<Poll>): nat {
    EndBefore(start, polls, |polls|)
  }

  /** The polls after one more round: a check that finds the period over polls. */
  function NextPolls(start: nat, polls: seq<Poll>, r: Round, period: nat): seq<Poll> {
    if r.check - PeriodStart(start, polls) > period then polls + [Poll(r.check, r.afterPoll)] else polls
  }

  /** The polls of the first `n` rounds. */
  function Polls(start: nat, rounds: seq<Round>, period: nat, n: nat): seq<Poll>
    requires n <= |rounds|
  {
    if n == 0 then [] else NextPolls(start, Polls(start, rounds, period, n - 1), rounds[n - 1], period)
  }

  /** The loop: `started_ms` is reset by a poll only. */
  method ThreadLoop(start: nat, rounds: seq<Round>, period: nat) returns (polls: seq<Poll>)
    requires Monotone(start, rounds)
    ensures polls == Polls(start, rounds, period, |rounds|)
  {
    polls := [];
    var started := start;
    for i := 0 to |rounds|
      invariant polls == Polls(start, rounds, period, i)
      invariant started == PeriodStart(start, polls)
    {
      if period < rounds[i].check - started {
        polls := polls + [Poll(rounds[i].check, rounds[i].afterPoll)];
        started := rounds[i].afterPoll;
      }
    }
  }

  /** No check leaves a finished period unpolled, and the period never starts in the future. */
  lemma {:induction false} NoPeriodMissed(start: nat, rounds: seq<Round>, period: nat, n: nat)
    requires Monotone(start, rounds) && n <= |rounds|
    ensures LastCheck(start, rounds, n) <= PeriodStart(start, Polls(start, rounds, period, n)) + period
    ensures n < |rounds| ==> PeriodStart(start, Polls(start, rounds, period, n)) <= rounds[n].check
  {
    if n > 0 {
      NoPeriodMissed(start, rounds, period, n - 1);
      assert rounds[n - 1].check <= rounds[n - 1].afterPoll;
      if n < |rounds| {
        assert rounds[n - 1].afterPoll <= rounds[n].check;
      }
    }
  }

  /** Poll `k` begins more than a period, and at most a period and a gap, after the one before it ended. */
  ghost predicate Spaced(start: nat, polls: seq<Poll>, k: nat, period: nat, gap: nat)
    requires k < |polls|
  {
    EndBefore(start, polls, k) + period < polls[k].begin <= EndBefore(start, polls, k) + period + gap
  }

  ghost predicate AllSpaced(start: nat, polls: seq<Poll>, period: nat, gap: nat) {
    forall k :: 0 <= k < |polls| ==> Spaced(start, polls, k, period, gap)
  }

  lemma SpacedOneMore(start: nat, polls: seq<Poll>, r: Round, period: nat, gap: nat)
    requires AllSpaced(start, polls, period, gap) && r.check <= PeriodStart(start, polls) + period + gap
    ensures AllSpaced(start, NextPolls(start, polls, r, period), period, gap)
  {
    if r.check - PeriodStart(start, polls) > period {
      SpacedAppend(start, polls, Poll(r.check, r.afterPoll), period, gap);
    }
  }

  lemma SpacedAppend(start: nat, polls: seq<Poll>, p: Poll, period: nat, gap: nat)
    requires AllSpaced(start, polls, period, gap)
    requires PeriodStart(start, polls) + period < p.begin <= PeriodStart(start, polls) + period + gap
    ensures AllSpaced(start, polls + [p], period, gap)
  {
    forall k | 0 <= k <= |polls|
      ensures Spaced(start, polls + [p], k, period, gap)
    {
      assert k < |polls| ==> Spaced(start, polls, k, period, gap);
    }
  }

  /** A check is at most a gap after the end of the period that runs. */
  lemma CheckInTime(start: nat, rounds: seq<Round>, period: nat, gap: nat, n: nat)
    requires Monotone(start, rounds) && ChecksWithin(start, rounds, gap) && n < |rounds|
    ensures rounds[n].check <= PeriodStart(start, Polls(start, rounds, period, n)) + period + gap
  {
    NoPeriodMissed(start, rounds, period, n);
    assert CheckWithin(start, rounds, n, gap);
  }

  /** Poll spacing, when consecutive checks are at most `gap` apart; the loop's start counts as the end of a poll. */
  lemma {:induction false} PollSpacing(start: nat, rounds: seq<Round>, period: nat, gap: nat, n: nat)
    requires Monotone(start, rounds) && ChecksWithin(start, rounds, gap) && n <= |rounds|
    ensures AllSpaced(start, Polls(start, rounds, period, n), period, gap)
  {
    if n > 0 {
      PollSpacing(start, rounds, period, gap, n - 1);
      CheckInTime(start, rounds, period, gap, n - 1);
      SpacedOneMore(start, Polls(start, rounds, period, n - 1), rounds[n - 1], period, gap);
    }
  }

  /** The polls are those of rounds, in order: each begins with its round's check and ends with the clock after it. */
  lemma {:induction false} PollsAreRounds(start: nat, rounds: seq<Round>, period: nat, n: nat) returns (at: seq<nat>)
    requires n <= |rounds|
    ensures |at| == |Polls(start, rounds, period, n)|
    ensures forall k :: 0 <= k < |at| ==> at[k] < n
    ensures forall j, k :: 0 <= j < k < |at| ==> at[j] < at[k]
    ensures forall k :: 0 <= k < |at| ==>
      Polls(start, rounds, period, n)[k] == Poll(rounds[at[k]].check, rounds[at[k]].afterPoll)
  {
    at := [];
    if n > 0 {
      at := PollsAreRounds(start, rounds, period, n - 1);
      if |Polls(start, rounds, period, n)| > |at| {
        at := at + [n - 1];
      }
    }
  }
}
