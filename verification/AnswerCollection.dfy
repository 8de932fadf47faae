/** What the answer-collecting loop leaves in the caller's buffer when several clients answer. */
module AnswerCollection {
  import opened CStrings
  import opened Options

  /** A remote `get`: it may fail, and then it leaves the string passed to it as it was. */
  datatype RemoteAnswer = CallFailed | Returned(text: Bytes)

  /** Who is asked for a property: the followers holding a callback, the first client, or nobody. */
  datatype Audience = Nobody | FirstClient(answer: Option<RemoteAnswer>) | Consulted(answers: seq<RemoteAnswer>)

  datatype Outcome = Outcome(ret: int, val: Bytes)

  function Truncated(s: Bytes, size: nat): Bytes {
    if |s| > size then s[..size] else s
  }

  /** The loop's string after the answers: the last one returned, or the empty string it starts with. */
  function Carried(answers: seq<RemoteAnswer>): Bytes {
    if answers == [] then []
    else
      var n := |answers| - 1;
      if answers[n].Returned? then answers[n].text else Carried(answers[..n])
  }

  /** What the consultation of follower `k` writes: its answer, or the string carried forward, cut to the buffer. */
  function Effective(answers: seq<RemoteAnswer>, k: nat, size: nat): Bytes
    requires k < |answers|
  {
    Truncated(Carried(answers[..k + 1]), size)
  }

  /** The buffer after the loop: the effective answers laid over it one after the other. */
  function Collected(answers: seq<RemoteAnswer>, val: Bytes, size: nat): (r: Bytes)
    requires |val| == size
    ensures |r| == size
  {
    if answers == [] then val
    else
      var n := |answers| - 1;
      Overlay(Truncated(Carried(answers), size), Collected(answers[..n], val, size))
  }

  /** The loop's return value: the length of the last effective answer. */
  function CollectedLength(answers: seq<RemoteAnswer>, size: nat): nat {
    |Truncated(Carried(answers), size)|
  }

  /** The result of asking for a property with a buffer of `size` bytes. */
  function GetOutcome(audience: Audience, val: Bytes, size: nat): Outcome
    requires |val| == size > 0
  {
    match audience
    case Nobody => Outcome(-1, val)
    case FirstClient(answer) =>
      Outcome(0, if answer.Some? then Overlay(Truncated(Carried([answer.value]), size), val) else val)
    case Consulted(answers) => Outcome(CollectedLength(answers, size), Collected(answers, val, size))
  }

  lemma CollectedOneMore(answers: seq<RemoteAnswer>, a: RemoteAnswer, val: Bytes, size: nat)
    requires |val| == size
    ensures Carried(answers + [a]) == if a.Returned? then a.text else Carried(answers)
    ensures Collected(answers + [a], val, size)
         == Overlay(Truncated(Carried(answers + [a]), size), Collected(answers, val, size))
  {
    assert (answers + [a])[..|answers|] == answers;
  }

  /** The carried string is the text of the last answer that arrived. */
  lemma {:induction false} CarriedIsLastReturned(answers: seq<RemoteAnswer>)
    ensures (forall k :: 0 <= k < |answers| ==> answers[k] == CallFailed) ==> Carried(answers) == []
    ensures forall k ::
      (0 <= k < |answers| && answers[k].Returned? && forall j :: k < j < |answers| ==> answers[j] == CallFailed)
      ==> Carried(answers) == answers[k].text
  {
    if answers != [] {
      CarriedIsLastReturned(answers[..|answers| - 1]);
    }
  }

  lemma EffectiveOfPrefix(answers: seq<RemoteAnswer>, n: nat, k: nat, size: nat)
    requires k < n <= |answers|
    ensures Effective(answers[..n], k, size) == Effective(answers, k, size)
  {
    assert answers[..n][..k + 1] == answers[..k + 1];
  }

  /**
   * Each byte of the buffer is the one written by the last follower `k` whose effective answer reaches it; a byte
   * that none reaches (`k` is -1) keeps its initial value.
   */
  lemma {:induction false} CollectedByte(answers: seq<RemoteAnswer>, val: Bytes, size: nat, i: nat, k: int)
    requires |val| == size && i < size && -1 <= k < |answers|
    requires k >= 0 ==> i < |Effective(answers, k, size)|
    requires forall j :: k < j < |answers| ==> |Effective(answers, j, size)| <= i
    ensures Collected(answers, val, size)[i] == if k < 0 then val[i] else Effective(answers, k, size)[i]
  {
    if answers != [] {
      var n := |answers| - 1;
      assert answers[..n + 1] == answers;
      if k < n {
        forall j | 0 <= j < n
          ensures Effective(answers[..n], j, size) == Effective(answers, j, size)
        {
          EffectiveOfPrefix(answers, n, j, size);
        }
        assert |Effective(answers, n, size)| <= i;
        CollectedByte(answers[..n], val, size, i, k);
      }
    }
  }

  /** When every effective answer is the same, the buffer holds just that answer over its initial content. */
  lemma {:induction false} AgreeingAnswers(answers: seq<RemoteAnswer>, val: Bytes, size: nat, text: Bytes)
    requires |val| == size && answers != []
    requires forall k :: 0 <= k < |answers| ==> answers[k] == Returned(text)
    ensures Collected(answers, val, size) == Overlay(Truncated(text, size), val)
    ensures CollectedLength(answers, size) == |Truncated(text, size)|
  {
    if |answers| > 1 {
      AgreeingAnswers(answers[..|answers| - 1], val, size, text);
    }
  }

  /** The answers are C strings. */
  predicate NulFreeAnswers(audience: Audience) {
    audience.Consulted? ==>
      forall k :: 0 <= k < |audience.answers| && audience.answers[k].Returned? ==> NulFree(audience.answers[k].text)
  }

  lemma {:induction false} CarriedNulFree(answers: seq<RemoteAnswer>)
    requires NulFreeAnswers(Consulted(answers))
    ensures NulFree(Carried(answers))
  {
    if answers != [] {
      CarriedNulFree(answers[..|answers| - 1]);
    }
  }

  lemma EffectiveNulFree(answers: seq<RemoteAnswer>, k: nat, size: nat)
    requires NulFreeAnswers(Consulted(answers)) && k < |answers|
    ensures NulFree(Effective(answers, k, size))
  {
    CarriedNulFree(answers[..k + 1]);
  }

  /** The last follower at or after `k` whose effective answer reaches the byte at `i`. */
  lemma {:induction false} LastReaching(answers: seq<RemoteAnswer>, size: nat, i: nat, k: nat) returns (last: nat)
    requires k < |answers| && i < |Effective(answers, k, size)|
    ensures k <= last < |answers| && i < |Effective(answers, last, size)|
    ensures forall j :: last < j < |answers| ==> |Effective(answers, j, size)| <= i
    decreases |answers| - k
  {
    last := k;
    if j: nat :| k < j < |answers| && i < |Effective(answers, j, size)| {
      last := LastReaching(answers, size, i, j);
    }
  }

  /** Every effective answer is at most as long as the first one, and the last one is the first one. */
  ghost predicate FirstPrevails(answers: seq<RemoteAnswer>, size: nat)
    requires answers != []
  {
    && Effective(answers, |answers| - 1, size) == Effective(answers, 0, size)
    && forall k :: 0 <= k < |answers| ==> |Effective(answers, k, size)| <= |Effective(answers, 0, size)|
  }

  /** What asking the followers leaves in a zeroed buffer, and returns. */
  function ZeroedOutcome(answers: seq<RemoteAnswer>, size: nat): Outcome
    requires size > 0
  {
    GetOutcome(Consulted(answers), Zeros(size), size)
  }

  lemma OutcomeLength(answers: seq<RemoteAnswer>, size: nat)
    requires answers != [] && size > 0
    ensures ZeroedOutcome(answers, size).ret == |Effective(answers, |answers| - 1, size)|
    ensures |ZeroedOutcome(answers, size).val| == size
    ensures |Effective(answers, |answers| - 1, size)| <= size
  {
    assert answers[..|answers| - 1 + 1] == answers;
  }

  lemma OnlyFirstByte(answers: seq<RemoteAnswer>, size: nat, i: nat)
    requires answers != [] && i < size
    ensures ZeroedOutcome(answers[..1], size).val[i] == if i < |Effective(answers, 0, size)| then Effective(answers, 0, size)[i] else 0
  {
    EffectiveOfPrefix(answers, 1, 0, size);
    CollectedByte(answers[..1], Zeros(size), size, i, if i < |Effective(answers, 0, size)| then 0 else -1);
  }

  lemma PrevailingByte(answers: seq<RemoteAnswer>, size: nat, i: nat)
    requires answers != [] && i < size && FirstPrevails(answers, size)
    ensures ZeroedOutcome(answers, size).val[i] == ZeroedOutcome(answers[..1], size).val[i]
  {
    OnlyFirstByte(answers, size, i);
    CollectedByte(answers, Zeros(size), size, i, if i < |Effective(answers, 0, size)| then |answers| - 1 else -1);
  }

  lemma PrevailingIsOnlyFirst(answers: seq<RemoteAnswer>, size: nat)
    requires answers != [] && size > 0 && FirstPrevails(answers, size)
    ensures ZeroedOutcome(answers, size) == ZeroedOutcome(answers[..1], size)
  {
    OutcomeLength(answers, size);
    OutcomeLength(answers[..1], size);
    EffectiveOfPrefix(answers, 1, 0, size);
    forall i | 0 <= i < size
      ensures ZeroedOutcome(answers, size).val[i] == ZeroedOutcome(answers[..1], size).val[i]
    {
      PrevailingByte(answers, size, i);
    }
  }

  /** A follower whose effective answer is longer than the first one leaves a byte behind that only the first would not. */
  lemma LongerShows(answers: seq<RemoteAnswer>, size: nat, k: nat)
    requires size > 0 && k < |answers| && NulFreeAnswers(Consulted(answers))
    requires |Effective(answers, 0, size)| < |Effective(answers, k, size)|
    ensures ZeroedOutcome(answers, size).val != ZeroedOutcome(answers[..1], size).val
  {
    var i := |Effective(answers, 0, size)|;
    var last := LastReaching(answers, size, i, k);
    CollectedByte(answers, Zeros(size), size, i, last);
    EffectiveNulFree(answers, last, size);
    assert Effective(answers, last, size)[i] in Effective(answers, last, size);
    OnlyFirstByte(answers, size, i);
  }

  lemma OnlyFirstEndsWithFirst(answers: seq<RemoteAnswer>, size: nat)
    requires answers != [] && size > 0 && ZeroedOutcome(answers, size) == ZeroedOutcome(answers[..1], size)
    ensures Effective(answers, |answers| - 1, size) == Effective(answers, 0, size)
  {
    var first, last := Effective(answers, 0, size), Effective(answers, |answers| - 1, size);
    OutcomeLength(answers, size);
    OutcomeLength(answers[..1], size);
    EffectiveOfPrefix(answers, 1, 0, size);
    forall i | 0 <= i < |first|
      ensures last[i] == first[i]
    {
      OnlyFirstByte(answers, size, i);
      CollectedByte(answers, Zeros(size), size, i, |answers| - 1);
    }
  }

  /**
   * When asking all followers amounts to asking the first one, as the comment in the loop has it: exactly when the last
   * effective answer is the first one and none in between is longer.
   */
  lemma OnlyFirstCountsIff(answers: seq<RemoteAnswer>, size: nat)
    requires answers != [] && size > 0 && NulFreeAnswers(Consulted(answers))
    ensures ZeroedOutcome(answers, size) == ZeroedOutcome(answers[..1], size) <==> FirstPrevails(answers, size)
  {
    if FirstPrevails(answers, size) {
      PrevailingIsOnlyFirst(answers, size);
    }
    if ZeroedOutcome(answers, size) == ZeroedOutcome(answers[..1], size) {
      OnlyFirstEndsWithFirst(answers, size);
      forall k | 0 <= k < |answers|
        ensures |Effective(answers, k, size)| <= |Effective(answers, 0, size)|
      {
        if |Effective(answers, k, size)| > |Effective(answers, 0, size)| {
          LongerShows(answers, size, k);
        }
      }
    }
  }

  /** Two followers that answer "12" and "3" leave "32", which neither answered, and a length of 1. */
  lemma SecondAnswerCounts()
    ensures var answers := [Returned([49, 50]), Returned([51])];
      && ZeroedOutcome(answers, 32).ret == 1 && Text(ZeroedOutcome(answers, 32).val) == [51, 50]
      && ZeroedOutcome(answers[..1], 32).ret == 2 && Text(ZeroedOutcome(answers[..1], 32).val) == [49, 50]
  {
    var first, second := Returned([49, 50]), Returned([51]);
    assert [first, second][..1] == [first] && [first][..0] == [];
    var one := Overlay([49, 50], Zeros(32));
    assert Collected([first], Zeros(32), 32) == one;
    var two := Overlay([51], one);
    assert Collected([first, second], Zeros(32), 32) == two;
    StrlenUnique(one, 2);
    StrlenUnique(two, 2);
  }

  /** What is copied of an answer is as much of its beginning as the buffer holds. */
  lemma TruncatedIsFront(s: Bytes, size: nat)
    ensures Truncated(s, size) == s[..if |s| < size then |s| else size]
  {
  }

  /** The first client's answer fills the buffer's beginning, but 0 is returned; a failed call leaves the buffer. */
  lemma FirstClientFills(text: Bytes, val: Bytes, size: nat)
    requires |val| == size > 0
    ensures var o := GetOutcome(FirstClient(Some(Returned(text))), val, size);
      o.ret == 0 && |o.val| == size && forall i :: 0 <= i < size ==> o.val[i] == if i < |text| then text[i] else val[i]
    ensures GetOutcome(FirstClient(Some(CallFailed)), val, size) == Outcome(0, val)
    ensures GetOutcome(FirstClient(None), val, size) == Outcome(0, val)
  {
    assert [Returned(text)][..0] == [] && [CallFailed][..0] == [];
  }
}
