/** Byte strings and the C string primitives the server uses (ISO/IEC 9899:2011, section 7.24). */
module CStrings {
  type byte = b: int | 0 <= b < 256

  type Bytes = seq<byte>

  const COMMA: byte := 44
  const COLON: byte := 58
  const QUOTE: byte := 34

  /** True of the characters of a C string: the terminator is not among them. */
  predicate NulFree(s: Bytes) {
    0 !in s
  }

  /** Section 7.24.6.3: the number of characters before the first NUL. */
  function Strlen(buf: Bytes): (n: nat)
    ensures n <= |buf|
    ensures NulFree(buf[..n])
    ensures n < |buf| ==> buf[n] == 0
  {
    if buf == [] || buf[0] == 0 then 0
    else
      var n := 1 + Strlen(buf[1..]);
      assert buf[..n] == [buf[0]] + buf[1..][..n - 1];
      n
  }

  function Zeros(n: nat): Bytes {
    seq(n, _ => 0)
  }

  /** The C string a buffer holds. */
  function Text(buf: Bytes): Bytes {
    buf[..Strlen(buf)]
  }

  /** The text is followed by nothing but NUL bytes, and by at least one. */
  predicate ZeroTailed(buf: Bytes) {
    && Strlen(buf) < |buf|
    && forall i :: Strlen(buf) <= i < |buf| ==> buf[i] == 0
  }

  /** Section 7.24.2.4: `src` (a C string's characters) copied over `dst`, cut or zero-filled to `n` bytes. */
  function StrncpyResult(dst: Bytes, src: Bytes, n: nat): (r: Bytes)
    requires n <= |dst|
  {
    seq(|dst|, i requires 0 <= i < |dst| => if i >= n then dst[i] else if i < |src| then src[i] else 0)
  }

  method Strncpy(dst: array<byte>, src: Bytes, n: nat)
    requires n <= dst.Length
    modifies dst
    ensures dst[..] == StrncpyResult(old(dst[..]), src, n)
  {
    for i := 0 to n
      invariant forall k :: 0 <= k < i ==> dst[k] == if k < |src| then src[k] else 0
      invariant forall k :: i <= k < dst.Length ==> dst[k] == old(dst[k])
    {
      dst[i] := if i < |src| then src[i] else 0;
    }
  }

  /** `front` written over the beginning of `back`; what `front` does not reach stays. */
  function Overlay(front: Bytes, back: Bytes): Bytes {
    if |front| < |back| then front + back[|front|..] else front
  }

  lemma StrlenUnique(buf: Bytes, n: nat)
    requires n < |buf| && buf[n] == 0 && NulFree(buf[..n])
    ensures Strlen(buf) == n
  {
    var m := Strlen(buf);
    assert forall i :: 0 <= i < n ==> buf[i] in buf[..n];
    assert forall i :: 0 <= i < m ==> buf[i] in buf[..m];
  }

  lemma TextOfTerminated(s: Bytes, rest: Bytes)
    requires NulFree(s) && rest != [] && rest[0] == 0
    ensures Text(s + rest) == s
  {
    assert (s + rest)[..|s|] == s;
    StrlenUnique(s + rest, |s|);
  }

  lemma {:induction false} StrlenOfFront(front: Bytes, rest: Bytes)
    requires NulFree(front)
    ensures Strlen(front + rest) == |front| + Strlen(rest)
    decreases |front|
  {
    if front == [] {
      assert front + rest == rest;
    } else {
      assert (front + rest)[1..] == front[1..] + rest;
      StrlenOfFront(front[1..], rest);
    }
  }

  /** Characters in front of a buffer come in front of its text. */
  lemma TextOfFront(front: Bytes, rest: Bytes)
    requires NulFree(front)
    ensures Strlen(front + rest) == |front| + Strlen(rest)
    ensures Text(front + rest) == front + Text(rest)
  {
    StrlenOfFront(front, rest);
  }

  /** A buffer is terminated iff it holds a NUL. */
  lemma TerminatedIff(buf: Bytes)
    ensures Strlen(buf) < |buf| <==> 0 in buf
  {
    assert forall i :: 0 <= i < Strlen(buf) ==> buf[i] in buf[..Strlen(buf)];
  }

  lemma SliceOfFront(s: Bytes, m: nat, n: nat)
    requires m <= n <= |s|
    ensures s[m..][..n - m] == s[..n][m..]
  {
  }

  lemma NulFreeRest(s: Bytes, n: nat)
    requires NulFree(s) && n <= |s|
    ensures NulFree(s[n..])
  {
  }

  /** Within the text, what follows a place in a terminated buffer is the rest of the text. */
  lemma RestOfText(buf: Bytes, n: nat)
    requires n <= Strlen(buf) < |buf|
    ensures Text(buf[n..]) == Text(buf)[n..] && 0 in buf[n..]
  {
    var k := Strlen(buf) - n;
    SliceOfFront(buf, n, Strlen(buf));
    NulFreeRest(buf[..Strlen(buf)], n);
    assert buf[n..][k] == 0;
    StrlenUnique(buf[n..], k);
  }

  /** What follows a place in a zero-tailed buffer is the rest of the text, and holds a NUL. */
  lemma ZeroTailedRest(buf: Bytes, n: nat)
    requires ZeroTailed(buf) && n < |buf|
    ensures 0 in buf[n..]
    ensures Text(buf[n..]) == if n < |Text(buf)| then Text(buf)[n..] else []
  {
    if n < Strlen(buf) {
      RestOfText(buf, n);
    } else {
      assert buf[n..][0] == 0;
    }
  }

  lemma TextNulFree(buf: Bytes)
    ensures NulFree(Text(buf))
  {
  }

  /** A copy of exactly strlen bytes puts the new text in front of what stands after it. */
  lemma StrncpyFronts(dst: Bytes, src: Bytes)
    requires NulFree(src) && |src| <= |dst|
    ensures StrncpyResult(dst, src, |src|) == src + dst[|src|..]
    ensures Text(StrncpyResult(dst, src, |src|)) == src + Text(dst[|src|..])
  {
    TextOfFront(src, dst[|src|..]);
    assert StrncpyResult(dst, src, |src|) == src + dst[|src|..];
  }

  /** A copy of exactly strlen bytes never shortens a zero-tailed text: it lays the new text over the old one. */
  lemma StrncpyOverlays(dst: Bytes, src: Bytes)
    requires ZeroTailed(dst) && NulFree(src) && |src| < |dst|
    ensures var r := StrncpyResult(dst, src, |src|);
      && ZeroTailed(r)
      && Text(r) == Overlay(src, Text(dst))
      && |Text(r)| == (if |src| < |Text(dst)| then |Text(dst)| else |src|)
  {
    var r := StrncpyResult(dst, src, |src|);
    var n := if |src| < Strlen(dst) then Strlen(dst) else |src|;
    assert r[..n] == Overlay(src, Text(dst));
    assert NulFree(r[..n]) by {
      forall i | 0 <= i < n
        ensures r[..n][i] != 0
      {
        if i >= |src| {
          assert dst[..Strlen(dst)][i] != 0;
        }
      }
    }
    StrlenUnique(r, n);
  }

  /** Section 7.24.5.2: the position of the first `c` at or after `start`, or |s|. */
  function Strchr(s: Bytes, c: byte, start: nat): (p: nat)
    requires start <= |s|
    ensures start <= p <= |s|
    ensures forall i :: start <= i < p ==> s[i] != c
    ensures p < |s| ==> s[p] == c
    decreases |s| - start
  {
    if start == |s| || s[start] == c then start else Strchr(s, c, start + 1)
  }

  /** `needle` stands in `s` at position `p`. */
  predicate OccursAt(s: Bytes, needle: Bytes, p: nat) {
    p + |needle| <= |s| && forall i :: p <= i < p + |needle| ==> s[i] == needle[i - p]
  }

  /** Section 7.24.5.7: the position of the first occurrence of `needle` at or after `start`, or |s| + 1. */
  function Strstr(s: Bytes, needle: Bytes, start: nat): (p: nat)
    requires start <= |s| + 1
    ensures start <= p <= |s| + 1
    ensures forall q :: start <= q < p ==> !OccursAt(s, needle, q)
    ensures p <= |s| ==> OccursAt(s, needle, p)
    decreases |s| + 1 - start
  {
    if start == |s| + 1 || OccursAt(s, needle, start) then start else Strstr(s, needle, start + 1)
  }
}
