/** The scanner for cloud commands: which messages it accepts, and the command name it finds in them. */
module CommandScanner {
  import opened CStrings
  import opened Options

  const COMMAND_MAX_LEN: nat := 64

  /** The characters of "command", its quotes included. */
  const COMMAND_TOKEN: Bytes := [34, 99, 111, 109, 109, 97, 110, 100, 34]

  /** A message cut at the token, the colon and the two quotes the scanner stops at. */
  datatype Parts = Parts(before: Bytes, gap: Bytes, lead: Bytes, name: Bytes, rest: Bytes) {
    function Print(): Bytes {
      before + COMMAND_TOKEN + gap + [COLON] + lead + [QUOTE] + name + [QUOTE] + rest
    }

    // Where the token, the colon and the quotes stand in Print().
    function TokenAt(): nat { |before| }

    function GapAt(): nat { TokenAt() + |COMMAND_TOKEN| }

    function ColonAt(): nat { GapAt() + |gap| }

    function OpenAt(): nat { ColonAt() + 1 + |lead| }

    function CloseAt(): nat { OpenAt() + 1 + |name| }

    // The parts stand in `s` at their places, up to the colon and after it.
    ghost predicate FrontCuts(s: Bytes) {
      && |s| > ColonAt()
      && (forall i :: 0 <= i < |before| ==> s[i] == before[i])
      && OccursAt(s, COMMAND_TOKEN, TokenAt())
      && (forall i :: GapAt() <= i < ColonAt() ==> s[i] == gap[i - GapAt()])
      && s[ColonAt()] == COLON
    }

    ghost predicate RearCuts(s: Bytes) {
      && |s| == CloseAt() + 1 + |rest|
      && (forall i :: ColonAt() + 1 <= i < OpenAt() ==> s[i] == lead[i - (ColonAt() + 1)])
      && s[OpenAt()] == QUOTE
      && (forall i :: OpenAt() + 1 <= i < CloseAt() ==> s[i] == name[i - (OpenAt() + 1)])
      && s[CloseAt()] == QUOTE
      && (forall i :: CloseAt() + 1 <= i < |s| ==> s[i] == rest[i - (CloseAt() + 1)])
    }

    ghost predicate Cuts(s: Bytes) {
      FrontCuts(s) && RearCuts(s)
    }

    // The text up to the colon, and the text after it.
    function Head(): Bytes { before + COMMAND_TOKEN + gap + [COLON] }

    function Back(): Bytes { lead + [QUOTE] + name + [QUOTE] + rest }

    lemma HeadCuts()
      ensures |Head()| == ColonAt() + 1 && Head()[ColonAt()] == COLON
      ensures forall i :: 0 <= i < |before| ==> Head()[i] == before[i]
      ensures OccursAt(Head(), COMMAND_TOKEN, TokenAt())
      ensures forall i :: GapAt() <= i < ColonAt() ==> Head()[i] == gap[i - GapAt()]
    {
    }

    lemma BackCuts()
      ensures var o, e := |lead|, |lead| + 1 + |name|;
        && |Back()| == e + 1 + |rest| && Back()[o] == Back()[e] == QUOTE
        && (forall i :: 0 <= i < o ==> Back()[i] == lead[i])
        && (forall i :: o + 1 <= i < e ==> Back()[i] == name[i - (o + 1)])
        && (forall i :: e + 1 <= i < |Back()| ==> Back()[i] == rest[i - (e + 1)])
    {
    }

    lemma PrintIsHeadAndBack()
      ensures Print() == Head() + Back()
    {
    }

    lemma FrontOfHead(t: Bytes)
      ensures FrontCuts(Head() + t)
    {
      HeadCuts();
      assert forall i :: 0 <= i <= ColonAt() ==> (Head() + t)[i] == Head()[i];
    }

    lemma RearOfBack(h: Bytes)
      requires |h| == ColonAt() + 1
      ensures RearCuts(h + Back())
    {
      BackCuts();
      assert forall i :: 0 <= i < |Back()| ==> (h + Back())[|h| + i] == Back()[i];
    }

    lemma PrintCuts()
      ensures Cuts(Print())
    {
      HeadCuts();
      PrintIsHeadAndBack();
      FrontOfHead(Back());
      RearOfBack(Head());
    }

    lemma CutsDetermine(s: Bytes, t: Bytes)
      requires Cuts(s) && Cuts(t)
      ensures s == t
    {
    }

    lemma CutsAreSlices(s: Bytes)
      requires Cuts(s)
      ensures this == CutAt(s, TokenAt(), ColonAt(), OpenAt(), CloseAt())
    {
    }
  }

  function CutAt(data: Bytes, t: nat, c: nat, o: nat, e: nat): Parts
    requires t + |COMMAND_TOKEN| <= c < o < e < |data|
    ensures CutAt(data, t, c, o, e).TokenAt() == t && CutAt(data, t, c, o, e).ColonAt() == c
    ensures CutAt(data, t, c, o, e).OpenAt() == o && CutAt(data, t, c, o, e).CloseAt() == e
  {
    Parts(data[..t], data[t + |COMMAND_TOKEN|..c], data[c + 1..o], data[o + 1..e], data[e + 1..])
  }

  /** The token's first occurrence opens the form, and a comma follows the first quote. */
  ghost predicate Fits(data: Bytes, p: Parts) {
    && (forall q :: 0 <= q < |p.before| ==> !OccursAt(data, COMMAND_TOKEN, q))
    && COLON !in p.gap
    && QUOTE !in p.lead && COMMA !in p.lead
    && QUOTE !in p.name && |p.name| < COMMAND_MAX_LEN
    && (COMMA in p.name || COMMA in p.rest)
  }

  /** The accepted messages. */
  ghost predicate Accepts(data: Bytes, p: Parts) {
    data == p.Print() && Fits(data, p)
  }

  /** The same, by what stands where. */
  lemma AcceptsByCuts(data: Bytes, p: Parts)
    ensures Accepts(data, p) <==> p.Cuts(data) && Fits(data, p)
  {
    p.PrintCuts();
    if p.Cuts(data) {
      p.CutsDetermine(data, p.Print());
    }
  }

  lemma TokenHasNoColon()
    ensures COLON !in COMMAND_TOKEN
  {
  }

  lemma CommaFound(data: Bytes, p: Parts)
    requires p.Cuts(data) && COMMA !in p.lead && (COMMA in p.name || COMMA in p.rest)
    ensures p.OpenAt() < Strchr(data, COMMA, p.ColonAt()) < |data|
  {
    if COMMA in p.name {
      var k :| 0 <= k < |p.name| && p.name[k] == COMMA;
      assert data[p.OpenAt() + 1 + k] == COMMA;
    } else {
      var k :| 0 <= k < |p.rest| && p.rest[k] == COMMA;
      assert data[p.CloseAt() + 1 + k] == COMMA;
    }
  }

  lemma ColonFound(data: Bytes, p: Parts)
    requires p.Cuts(data) && COLON !in p.gap
    ensures Strchr(data, COLON, p.TokenAt()) == p.ColonAt()
  {
    TokenHasNoColon();
  }

  lemma QuotesFound(data: Bytes, p: Parts)
    requires p.Cuts(data) && QUOTE !in p.lead && QUOTE !in p.name
    ensures Strchr(data, QUOTE, p.ColonAt()) == p.OpenAt()
    ensures Strchr(data, QUOTE, p.OpenAt() + 1) == p.CloseAt()
  {
  }

  /** In an accepted message the scanner's searches stop exactly at the cuts. */
  lemma SearchesStopAtCuts(data: Bytes, p: Parts)
    requires p.Cuts(data) && Fits(data, p)
    ensures Strstr(data, COMMAND_TOKEN, 0) == p.TokenAt()
    ensures Strchr(data, COLON, p.TokenAt()) == p.ColonAt()
    ensures Strchr(data, QUOTE, p.ColonAt()) == p.OpenAt()
    ensures Strchr(data, QUOTE, p.OpenAt() + 1) == p.CloseAt()
    ensures p.OpenAt() < Strchr(data, COMMA, p.ColonAt()) < |data|
  {
    ColonFound(data, p);
    QuotesFound(data, p);
    CommaFound(data, p);
  }

  /** The cuts the searches find: the token, the colon and the two quotes. */
  function Hops(data: Bytes): (r: Option<(nat, nat, nat, nat)>)
    ensures r.Some? ==> r.value.2 < r.value.3 < |data|
  {
    var ptr := Strstr(data, COMMAND_TOKEN, 0);
    if ptr > |data| then None else
    var colon := Strchr(data, COLON, ptr);
    if colon == |data| then None else
    var comma := Strchr(data, COMMA, colon);
    var open := Strchr(data, QUOTE, colon);
    if comma == |data| || open > comma then None else
    var close := Strchr(data, QUOTE, open + 1);
    if close == |data| || close - open > COMMAND_MAX_LEN then None else Some((ptr, colon, open, close))
  }

  /** The name between the quotes, when every search succeeds. */
  function ScannedName(data: Bytes): Option<Bytes> {
    match Hops(data)
    case None => None
    case Some((_, _, open, close)) => Some(data[open + 1..close])
  }

  lemma HopsOfCuts(data: Bytes, p: Parts)
    requires p.Cuts(data) && Fits(data, p)
    ensures Hops(data) == Some((p.TokenAt(), p.ColonAt(), p.OpenAt(), p.CloseAt()))
  {
    SearchesStopAtCuts(data, p);
  }

  /** The message cut where the searches stop. */
  function HopParts(data: Bytes): Parts
    requires Hops(data).Some?
  {
    var (t, c, o, e) := Hops(data).value;
    CutAt(data, t, c, o, e)
  }

  /** An accepted message is cut in just one way, where the searches stop. */
  lemma AcceptedParts(data: Bytes, p: Parts)
    requires Accepts(data, p)
    ensures Hops(data).Some? && p == HopParts(data)
  {
    AcceptsByCuts(data, p);
    HopsOfCuts(data, p);
    p.CutsAreSlices(data);
  }

  /** An accepted message yields the name of its form. */
  lemma AcceptedIsScanned(data: Bytes, p: Parts)
    requires Accepts(data, p)
    ensures ScannedName(data) == Some(p.name)
  {
    AcceptedParts(data, p);
    NameOfHopParts(data);
  }

  lemma NameOfHopParts(data: Bytes)
    requires Hops(data).Some?
    ensures ScannedName(data) == Some(HopParts(data).name)
  {
  }

  /** The message determines its parts, hence the dispatched name. */
  lemma UniqueParts(data: Bytes, p: Parts, q: Parts)
    requires Accepts(data, p) && Accepts(data, q)
    ensures p == q
  {
    AcceptedParts(data, p);
    AcceptedParts(data, q);
  }

  lemma CutAtCuts(data: Bytes, t: nat, c: nat, o: nat, e: nat)
    requires t + |COMMAND_TOKEN| <= c < o < e < |data|
    requires OccursAt(data, COMMAND_TOKEN, t) && data[c] == COLON && data[o] == data[e] == QUOTE
    ensures CutAt(data, t, c, o, e).Cuts(data)
  {
  }

  lemma ColonAfterToken(data: Bytes, t: nat)
    requires OccursAt(data, COMMAND_TOKEN, t)
    ensures t + |COMMAND_TOKEN| <= Strchr(data, COLON, t)
  {
    TokenHasNoColon();
  }

  lemma HopsCut(data: Bytes) returns (p: Parts)
    requires Hops(data).Some?
    ensures p.Cuts(data)
    ensures Hops(data) == Some((p.TokenAt(), p.ColonAt(), p.OpenAt(), p.CloseAt()))
  {
    var (t, c, o, e) := Hops(data).value;
    ColonAfterToken(data, t);
    CutAtCuts(data, t, c, o, e);
    p := CutAt(data, t, c, o, e);
  }

  lemma HopsSkip(data: Bytes, p: Parts)
    requires p.Cuts(data)
    requires Hops(data) == Some((p.TokenAt(), p.ColonAt(), p.OpenAt(), p.CloseAt()))
    ensures COLON !in p.gap && QUOTE !in p.lead && QUOTE !in p.name
  {
    assert forall i :: 0 <= i < |p.gap| ==> p.gap[i] == data[p.GapAt() + i];
    assert forall i :: 0 <= i < |p.lead| ==> p.lead[i] == data[p.ColonAt() + 1 + i];
    assert forall i :: 0 <= i < |p.name| ==> p.name[i] == data[p.OpenAt() + 1 + i];
  }

  lemma HopsFit(data: Bytes, p: Parts)
    requires p.Cuts(data)
    requires Hops(data) == Some((p.TokenAt(), p.ColonAt(), p.OpenAt(), p.CloseAt()))
    ensures forall q :: 0 <= q < |p.before| ==> !OccursAt(data, COMMAND_TOKEN, q)
    ensures COMMA !in p.lead && (COMMA in p.name || COMMA in p.rest)
  {
    var m := Strchr(data, COMMA, p.ColonAt());
    forall i | 0 <= i < |p.lead|
      ensures p.lead[i] != COMMA
    {
      assert data[p.ColonAt() + 1 + i] == p.lead[i];
    }
    if m < p.CloseAt() {
      assert p.name[m - p.OpenAt() - 1] == COMMA;
    } else {
      assert p.rest[m - p.CloseAt() - 1] == COMMA;
    }
  }

  /** A message that yields a name is an accepted one. */
  lemma ScannedIsAccepted(data: Bytes) returns (p: Parts)
    requires ScannedName(data).Some?
    ensures Accepts(data, p) && ScannedName(data) == Some(p.name)
  {
    p := HopsCut(data);
    HopsSkip(data, p);
    HopsFit(data, p);
    AcceptsByCuts(data, p);
    AcceptedIsScanned(data, p);
  }

  /** The scanner's language: a name is dispatched exactly for the messages that have the form with that name. */
  lemma ScannerLanguage(data: Bytes, name: Bytes)
    ensures ScannedName(data) == Some(name) <==> exists p: Parts :: Accepts(data, p) && p.name == name
  {
    if ScannedName(data) == Some(name) {
      var p := ScannedIsAccepted(data);
    }
    forall p: Parts | Accepts(data, p)
      ensures ScannedName(data) == Some(p.name)
    {
      AcceptedIsScanned(data, p);
    }
  }

  /** The scanner: `p1` and `p2` hop over the message, and the name is copied into a zeroed buffer. */
  method ScanCommand(data: Bytes) returns (name: Option<Bytes>)
    requires NulFree(data)
    ensures name == ScannedName(data)
  {
    name := None;
    var ptr := Strstr(data, COMMAND_TOKEN, 0);
    if ptr > |data| {
      return;
    }
    var p1 := Strchr(data, COLON, ptr);
    if p1 == |data| {
      return;
    }
    var p2 := Strchr(data, COMMA, p1);
    if p2 == |data| {
      return;
    }
    p1 := Strchr(data, QUOTE, p1);
    if p1 == |data| || p1 > p2 {
      return;
    }
    p2 := Strchr(data, QUOTE, p1 + 1);
    if p2 == |data| || p1 > p2 {
      return;
    }
    if p2 - p1 > COMMAND_MAX_LEN {
      return;
    }
    var cmd := CopyName(data, p1, p2);
    name := Some(cmd);
  }

  /** The zeroed command buffer after the copy holds the bytes between the quotes. */
  method CopyName(data: Bytes, p1: nat, p2: nat) returns (name: Bytes)
    requires NulFree(data) && p1 < p2 <= |data| && p2 - p1 <= COMMAND_MAX_LEN
    ensures name == data[p1 + 1..p2]
  {
    var cmd := new byte[COMMAND_MAX_LEN](_ => 0);
    Strncpy(cmd, data[p1 + 1..], p2 - p1 - 1);
    name := Text(cmd[..]);
    ghost var found := data[p1 + 1..p2];
    ghost var zeros := seq(COMMAND_MAX_LEN - |found|, _ => 0);
    assert cmd[..] == found + zeros;
    TextOfTerminated(found, zeros);
  }

  /** Every name without a quote that fits can be sent, and is the one dispatched. */
  lemma EveryNameCanBeSent(name: Bytes)
    requires QUOTE !in name && |name| < COMMAND_MAX_LEN
    ensures exists p: Parts :: p.name == name && Accepts(p.Print(), p) && (NulFree(name) ==> NulFree(p.Print()))
  {
    var p := Parts([], [], [], name, [COMMA]);
    assert Accepts(p.Print(), p);
  }

  lemma TokenSpells()
    ensures |COMMAND_TOKEN| == |"\"command\""|
    ensures forall k :: 0 <= k < |COMMAND_TOKEN| ==> COMMAND_TOKEN[k] == "\"command\""[k] as int
  {
  }
}
