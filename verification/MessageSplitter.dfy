/** The IRC adapter's outgoing path: a message longer than 400 bytes is cut into chunks, at the last
    space of each 400-byte window when there is one. */
module MessageSplitter {
  import opened MachineInts

  type Bytes = seq<u8>

  const SPACE: u8 := 32
  const MAX_MESSAGE_LENGTH := 400

  /** The bytes `[start, end)` of a message; `skipped` when the byte at `end` is a space that is dropped. */
  datatype Piece = Piece(start: nat, end: nat, skipped: bool) {
    function Next(): nat {
      if skipped then end + 1 else end
    }
  }

  /** Go's strings.LastIndex(s, " "). */
  function LastSpace(s: Bytes): (i: int)
    ensures -1 <= i < |s|
    ensures i >= 0 ==> s[i] == SPACE
    ensures forall j :: i < j < |s| ==> s[j] != SPACE
  {
    if s == [] then -1
    else if s[|s| - 1] == SPACE then |s| - 1
    else LastSpace(s[..|s| - 1])
  }

  /** The piece the loop cuts off at `start`. A window that ends exactly at the end of the message is
      still searched for a space. */
  function PieceAt(m: Bytes, start: nat): (p: Piece)
    requires start < |m|
    ensures p.start == start <= p.end <= |m|
    ensures start < p.Next() <= |m|
  {
    var limit := start + MAX_MESSAGE_LENGTH;
    var end :=
      if limit > |m| then |m|
      else if LastSpace(m[start..limit]) != -1 then start + LastSpace(m[start..limit])
      else limit;
    Piece(start, end, end < |m| && m[end] == SPACE)
  }

  function PiecesFrom(m: Bytes, start: nat): seq<Piece>
    requires start <= |m|
    decreases |m| - start
  {
    if start == |m| then []
    else [PieceAt(m, start)] + PiecesFrom(m, PieceAt(m, start).Next())
  }

  /** How a message is cut: not at all up to 400 bytes, and by the loop beyond that. */
  function Split(m: Bytes): seq<Piece> {
    if |m| > MAX_MESSAGE_LENGTH then PiecesFrom(m, 0) else [Piece(0, |m|, false)]
  }

  ghost predicate PiecesOf(ps: seq<Piece>, m: Bytes) {
    forall i :: 0 <= i < |ps| ==> ps[i].start <= ps[i].end <= |m|
  }

  function Texts(m: Bytes, ps: seq<Piece>): (ts: seq<Bytes>)
    requires PiecesOf(ps, m)
    ensures |ts| == |ps|
  {
    if ps == [] then [] else [m[ps[0].start..ps[0].end]] + Texts(m, ps[1..])
  }

  function ChunksFrom(m: Bytes, start: nat): seq<Bytes>
    requires start <= |m|
    decreases |m| - start
  {
    if start == |m| then []
    else
      var p := PieceAt(m, start);
      [m[p.start..p.end]] + ChunksFrom(m, p.Next())
  }

  /** What is put on the wire for a message, in order. */
  function Chunks(m: Bytes): seq<Bytes> {
    if |m| > MAX_MESSAGE_LENGTH then ChunksFrom(m, 0) else [m]
  }

  lemma {:induction false} ChunksFromAreTexts(m: Bytes, start: nat)
    requires start <= |m|
    ensures PiecesOf(PiecesFrom(m, start), m)
    ensures ChunksFrom(m, start) == Texts(m, PiecesFrom(m, start))
    decreases |m| - start
  {
    PiecesInRange(m, start);
    if start < |m| {
      ChunksFromAreTexts(m, PieceAt(m, start).Next());
      assert PiecesFrom(m, start)[1..] == PiecesFrom(m, PieceAt(m, start).Next());
    }
  }

  lemma {:induction false} ChunksAreTexts(m: Bytes)
    ensures PiecesOf(Split(m), m)
    ensures Chunks(m) == Texts(m, Split(m))
  {
    ChunksFromAreTexts(m, 0);
    if |m| <= MAX_MESSAGE_LENGTH {
      assert m[0..|m|] == m;
      assert Texts(m, Split(m)) == [m] + Texts(m, []);
    }
  }

  lemma {:induction false} PiecesInRange(m: Bytes, start: nat)
    requires start <= |m|
    ensures PiecesOf(PiecesFrom(m, start), m)
    decreases |m| - start
  {
    if start < |m| {
      PiecesInRange(m, PieceAt(m, start).Next());
    }
  }

  /** `chunks`, from the n-th on, is what the loop still sends when it stands at `start`. */
  ghost predicate Pending(m: Bytes, start: nat, chunks: seq<Bytes>, n: nat)
    requires start <= |m| && n <= |chunks|
    decreases |chunks| - n
  {
    if n == |chunks| then start == |m|
    else
      start < |m| && chunks[n] == m[start..PieceAt(m, start).end] &&
      Pending(m, PieceAt(m, start).Next(), chunks, n + 1)
  }

  lemma {:induction false} ChunksPending(m: Bytes, start: nat, chunks: seq<Bytes>, n: nat)
    requires start <= |m| && n <= |chunks| && chunks[n..] == ChunksFrom(m, start)
    ensures Pending(m, start, chunks, n)
    decreases |m| - start
  {
    if start < |m| {
      assert chunks[n] == chunks[n..][0] && chunks[n + 1..] == chunks[n..][1..];
      ChunksPending(m, PieceAt(m, start).Next(), chunks, n + 1);
    }
  }

  // ----- the adapter

  /** The server connection. `accepts(n)` says whether the n-th Privmsg call succeeds. */
  class Connection {
    const accepts: nat -> bool
    var attempts: nat
    var sent: seq<(string, Bytes)>

    constructor (accepts: nat -> bool)
      ensures this.accepts == accepts && attempts == 0 && sent == []
    {
      this.accepts := accepts;
      attempts := 0;
      sent := [];
    }

    method Privmsg(channel: string, chunk: Bytes) returns (ok: bool)
      modifies this
      ensures attempts == old(attempts) + 1
      ensures ok == accepts(old(attempts))
      ensures sent == if ok then old(sent) + [(channel, chunk)] else old(sent)
    {
      ok := accepts(attempts);
      attempts := attempts + 1;
      if ok {
        sent := sent + [(channel, chunk)];
      }
    }
  }

  /** The first `n` chunks, addressed to a channel. */
  function Addressed(channel: string, chunks: seq<Bytes>, n: nat): (r: seq<(string, Bytes)>)
    requires n <= |chunks|
  {
    if n == 0 then [] else Addressed(channel, chunks, n - 1) + [(channel, chunks[n - 1])]
  }

  /** How many of `count` consecutive calls succeed before the first failure. */
  function Delivered(accepts: nat -> bool, first: nat, count: nat): (n: nat)
    ensures n <= count
    ensures forall k :: first <= k < first + n ==> accepts(k)
    ensures n < count ==> !accepts(first + n)
    decreases count
  {
    if count == 0 || !accepts(first) then 0 else 1 + Delivered(accepts, first + 1, count - 1)
  }

  lemma {:induction false} DeliveredUntil(accepts: nat -> bool, first: nat, count: nat, n: nat)
    requires n <= count
    requires forall k :: first <= k < first + n ==> accepts(k)
    requires n == count || !accepts(first + n)
    ensures Delivered(accepts, first, count) == n
    decreases n
  {
    if n > 0 {
      DeliveredUntil(accepts, first + 1, count - 1, n - 1);
    }
  }

  lemma {:induction false} OneDelivered(accepts: nat -> bool, first: nat, channel: string, message: Bytes)
    ensures Delivered(accepts, first, 1) == if accepts(first) then 1 else 0
    ensures Addressed(channel, [message], 0) == [] && Addressed(channel, [message], 1) == [(channel, message)]
  {
    DeliveredUntil(accepts, first, 1, if accepts(first) then 1 else 0);
    assert Addressed(channel, [message], 1) == Addressed(channel, [message], 0) + [(channel, message)];
  }

  class IRCAdapter {
    const connection: Connection

    constructor (connection: Connection)
      ensures this.connection == connection
    {
      this.connection := connection;
    }

    /** The end of the chunk that starts at `start`. */
    method WindowEnd(message: Bytes, start: nat) returns (end: nat)
      requires start < |message|
      ensures end == PieceAt(message, start).end
    {
      end := start + MAX_MESSAGE_LENGTH;
      if end > |message| {
        end := |message|;
      } else {
        var spaceIndex := LastSpace(message[start..end]);
        if spaceIndex != -1 {
          end := start + spaceIndex;
        }
      }
    }

    /** One round of the loop: sends the next chunk and moves past it. */
    method SendChunk(channel: string, message: Bytes, start: nat, ghost chunks: seq<Bytes>, ghost n: nat)
      returns (ok: bool, next: nat)
      requires start < |message| && n <= |chunks| && Pending(message, start, chunks, n)
      modifies connection
      ensures n < |chunks| && start < next <= |message| && Pending(message, next, chunks, n + 1)
      ensures connection.attempts == old(connection.attempts) + 1 && ok == connection.accepts(old(connection.attempts))
      ensures connection.sent == if ok then old(connection.sent) + [(channel, chunks[n])] else old(connection.sent)
    {
      var end := WindowEnd(message, start);
      ok := connection.Privmsg(channel, message[start..end]);
      next := if end < |message| && message[end] == SPACE then end + 1 else end;
    }

    /** The loop for a message over the limit; `n` is how many of the chunks it sent. */
    method SendChunks(channel: string, message: Bytes, ghost chunks: seq<Bytes>) returns (ghost n: nat)
      requires |message| > MAX_MESSAGE_LENGTH && Pending(message, 0, chunks, 0)
      modifies connection
      ensures n <= |chunks|
      ensures forall k :: old(connection.attempts) <= k < old(connection.attempts) + n ==> connection.accepts(k)
      ensures n == |chunks| || !connection.accepts(old(connection.attempts) + n)
      ensures connection.sent == old(connection.sent) + Addressed(channel, chunks, n)
      ensures connection.attempts == old(connection.attempts) + (if n < |chunks| then n + 1 else n)
    {
      n := 0;
      var start := 0;
      while start < |message|
        invariant 0 <= start <= |message| && n <= |chunks| && Pending(message, start, chunks, n)
        invariant connection.attempts == old(connection.attempts) + n
        invariant forall k :: old(connection.attempts) <= k < old(connection.attempts) + n ==> connection.accepts(k)
        invariant connection.sent == old(connection.sent) + Addressed(channel, chunks, n)
        decreases |message| - start
      {
        var ok, next := SendChunk(channel, message, start, chunks, n);
        if !ok {
          return;
        }
        n := n + 1;
        start := next;
      }
    }

    /** Sends the chunks of `message` in order and gives up at the first one the connection refuses. */
    method Send(channel: string, message: Bytes)
      modifies connection
      ensures var n := Delivered(connection.accepts, old(connection.attempts), |Chunks(message)|);
              connection.sent == old(connection.sent) + Addressed(channel, Chunks(message), n) &&
              connection.attempts == old(connection.attempts) + (if n < |Chunks(message)| then n + 1 else n)
    {
      if |message| > MAX_MESSAGE_LENGTH {
        ChunksPending(message, 0, Chunks(message), 0);
        ghost var n := SendChunks(channel, message, Chunks(message));
        DeliveredUntil(connection.accepts, old(connection.attempts), |Chunks(message)|, n);
      } else {
        OneDelivered(connection.accepts, connection.attempts, channel, message);
        var ok := connection.Privmsg(channel, message);
      }
    }
  }

  // ----- nothing is lost but single spaces

  /** Puts the skipped spaces back. */
  function Rebuild(m: Bytes, ps: seq<Piece>): Bytes
    requires PiecesOf(ps, m)
  {
    if ps == [] then []
    else m[ps[0].start..ps[0].end] + (if ps[0].skipped then [SPACE] else []) + Rebuild(m, ps[1..])
  }

  lemma {:induction false} InThreeParts(m: Bytes, a: nat, b: nat, c: nat)
    requires a <= b <= c <= |m|
    ensures m[a..] == m[a..b] + m[b..c] + m[c..]
  {
  }

  lemma {:induction false} RebuildFrom(m: Bytes, start: nat)
    requires start <= |m|
    ensures PiecesOf(PiecesFrom(m, start), m)
    ensures Rebuild(m, PiecesFrom(m, start)) == m[start..]
    decreases |m| - start
  {
    PiecesInRange(m, start);
    if start < |m| {
      var p := PieceAt(m, start);
      RebuildFrom(m, p.Next());
      assert PiecesFrom(m, start)[1..] == PiecesFrom(m, p.Next());
      InThreeParts(m, start, p.end, p.Next());
      assert m[p.end..p.Next()] == if p.skipped then [SPACE] else [];
    }
  }

  /** Main result: the chunks, with one space put back after each piece that skipped one, are the message. */
  lemma {:induction false} RoundTrip(m: Bytes)
    ensures PiecesOf(Split(m), m)
    ensures Rebuild(m, Split(m)) == m
  {
    RebuildFrom(m, 0);
    if |m| <= MAX_MESSAGE_LENGTH {
      assert Rebuild(m, Split(m)) == m[0..|m|] + [] + Rebuild(m, []);
    }
  }

  function Flatten(chunks: seq<Bytes>): Bytes {
    if chunks == [] then [] else chunks[0] + Flatten(chunks[1..])
  }

  function NonSpaces(s: Bytes): Bytes {
    if s == [] then []
    else (if s[0] == SPACE then [] else [s[0]]) + NonSpaces(s[1..])
  }

  lemma {:induction false} ConcatAssociates(a: Bytes, b: Bytes, c: Bytes)
    ensures a + (b + c) == (a + b) + c
  {
  }

  lemma {:induction false} NonSpacesCons(x: u8, s: Bytes)
    ensures NonSpaces([x] + s) == (if x == SPACE then [] else [x]) + NonSpaces(s)
  {
    assert ([x] + s)[1..] == s;
  }

  lemma {:induction false} NonSpacesConcat(a: Bytes, b: Bytes)
    ensures NonSpaces(a + b) == NonSpaces(a) + NonSpaces(b)
  {
    if a == [] {
      assert a + b == b;
    } else {
      var head := if a[0] == SPACE then [] else [a[0]];
      NonSpacesConcat(a[1..], b);
      assert a + b == [a[0]] + (a[1..] + b);
      NonSpacesCons(a[0], a[1..] + b);
      ConcatAssociates(head, NonSpaces(a[1..]), NonSpaces(b));
    }
  }

  lemma {:induction false} FlattenKeepsNonSpaces(m: Bytes, ps: seq<Piece>)
    requires PiecesOf(ps, m)
    ensures NonSpaces(Flatten(Texts(m, ps))) == NonSpaces(Rebuild(m, ps))
  {
    if ps != [] {
      var rest := ps[1..];
      var head := m[ps[0].start..ps[0].end];
      var gap := if ps[0].skipped then [SPACE] else [];
      calc {
        NonSpaces(Flatten(Texts(m, ps)));
        { assert Texts(m, ps)[1..] == Texts(m, rest); }
        NonSpaces(head + Flatten(Texts(m, rest)));
        { NonSpacesConcat(head, Flatten(Texts(m, rest))); FlattenKeepsNonSpaces(m, rest); }
        NonSpaces(head) + NonSpaces(Rebuild(m, rest));
        { NonSpacesConcat(head, gap); assert NonSpaces(gap) == []; }
        NonSpaces(head + gap) + NonSpaces(Rebuild(m, rest));
        { NonSpacesConcat(head + gap, Rebuild(m, rest)); }
        NonSpaces(Rebuild(m, ps));
      }
    }
  }

  /** The receiver, who sees only the chunks, gets every non-space byte once and in order. */
  lemma {:induction false} NonSpacesPreserved(m: Bytes)
    ensures NonSpaces(Flatten(Chunks(m))) == NonSpaces(m)
  {
    RoundTrip(m);
    ChunksAreTexts(m);
    FlattenKeepsNonSpaces(m, Split(m));
  }

  // ----- chunk size, and where words are cut

  lemma {:induction false} ChunksFitFrom(m: Bytes, start: nat)
    requires start <= |m|
    ensures forall c :: c in ChunksFrom(m, start) ==> |c| <= MAX_MESSAGE_LENGTH
    decreases |m| - start
  {
    if start < |m| {
      ChunksFitFrom(m, PieceAt(m, start).Next());
    }
  }

  lemma {:induction false} ChunksFit(m: Bytes)
    ensures forall c :: c in Chunks(m) ==> |c| <= MAX_MESSAGE_LENGTH
  {
    ChunksFitFrom(m, 0);
  }

  predicate NoSpace(m: Bytes, from: nat, to: nat)
    requires from <= to <= |m|
  {
    forall j :: from <= j < to ==> m[j] != SPACE
  }

  /** A run of more than 400 bytes without a space starts at `a`. */
  predicate LongWordAt(m: Bytes, a: nat) {
    a + MAX_MESSAGE_LENGTH < |m| && NoSpace(m, a, a + MAX_MESSAGE_LENGTH + 1)
  }

  /** A chunk other than the last one ends without a skipped space: a word was cut in two. */
  predicate CutsWord(ps: seq<Piece>, i: nat) {
    i + 1 < |ps| && !ps[i].skipped
  }

  lemma {:induction false} WordCutIsLong(m: Bytes, start: nat, i: nat)
    requires start <= |m|
    requires CutsWord(PiecesFrom(m, start), i)
    ensures LongWordAt(m, PiecesFrom(m, start)[i].start)
    decreases |m| - start
  {
    var p := PieceAt(m, start);
    var ps := PiecesFrom(m, start);
    assert ps[1..] == PiecesFrom(m, p.Next());
    if i == 0 {
      assert |PiecesFrom(m, p.Next())| > 0;
      var window := m[start..start + MAX_MESSAGE_LENGTH];
      forall j | start <= j < start + MAX_MESSAGE_LENGTH ensures m[j] != SPACE {
        assert m[j] == window[j - start];
      }
    } else {
      WordCutIsLong(m, p.Next(), i - 1);
    }
  }

  lemma {:induction false} LongWordIsCut(m: Bytes, start: nat, a: nat) returns (i: nat)
    requires start <= a && LongWordAt(m, a)
    ensures CutsWord(PiecesFrom(m, start), i)
    decreases |m| - start
  {
    var p := PieceAt(m, start);
    var ps := PiecesFrom(m, start);
    assert ps[1..] == PiecesFrom(m, p.Next());
    if p.skipped {
      assert p.Next() <= a;
      var k := LongWordIsCut(m, p.Next(), a);
      i := k + 1;
      assert ps[i] == ps[1..][k];
    } else {
      i := 0;
      assert |PiecesFrom(m, p.Next())| > 0;
    }
  }

  /** Main result: some word is cut in two exactly when the message has more than 400 bytes in a row
      without a space; and every such cut lies inside such a run. */
  lemma {:induction false} WordsAreCutOnlyWhenTooLong(m: Bytes)
    ensures (exists i: nat :: CutsWord(Split(m), i)) <==> (exists a: nat :: LongWordAt(m, a))
    ensures forall i: nat :: CutsWord(Split(m), i) ==>
              LongWordAt(m, Split(m)[i].start) && Split(m)[i].end == Split(m)[i].start + MAX_MESSAGE_LENGTH
  {
    forall i: nat | CutsWord(Split(m), i)
      ensures LongWordAt(m, Split(m)[i].start) && Split(m)[i].end == Split(m)[i].start + MAX_MESSAGE_LENGTH
    {
      WordCutIsLong(m, 0, i);
      CutWordIsFull(m, 0, i);
    }
    if a: nat :| LongWordAt(m, a) {
      var i := LongWordIsCut(m, 0, a);
      assert CutsWord(Split(m), i);
    }
  }

  lemma {:induction false} CutWordIsFull(m: Bytes, start: nat, i: nat)
    requires start <= |m|
    requires CutsWord(PiecesFrom(m, start), i)
    ensures PiecesFrom(m, start)[i].end == PiecesFrom(m, start)[i].start + MAX_MESSAGE_LENGTH
    decreases |m| - start
  {
    var p := PieceAt(m, start);
    var ps := PiecesFrom(m, start);
    assert ps[1..] == PiecesFrom(m, p.Next());
    if i == 0 {
      assert |PiecesFrom(m, p.Next())| > 0;
    } else {
      CutWordIsFull(m, p.Next(), i - 1);
    }
  }

  // ----- how many chunks

  /** ceil(n / 401) for positive n. */
  function Windows(n: nat): nat
    requires n > 0
  {
    (n - 1) / (MAX_MESSAGE_LENGTH + 1) + 1
  }

  /** Two consecutive pieces that do not end the message use up at least 401 bytes of it. */
  lemma {:induction false} TwoPiecesFillAWindow(m: Bytes, start: nat)
    requires start < |m|
    requires PieceAt(m, start).Next() < |m|
    requires PieceAt(m, PieceAt(m, start).Next()).Next() < |m|
    ensures PieceAt(m, PieceAt(m, start).Next()).Next() >= start + MAX_MESSAGE_LENGTH + 1
  {
    var p := PieceAt(m, start);
    var q := PieceAt(m, p.Next());
    if p.end < start + MAX_MESSAGE_LENGTH {
      var window := m[start..start + MAX_MESSAGE_LENGTH];
      assert LastSpace(window) == p.end - start;
      forall j | p.end < j < start + MAX_MESSAGE_LENGTH ensures m[j] != SPACE {
        assert m[j] == window[j - start];
      }
      assert q.end < start + MAX_MESSAGE_LENGTH ==> q.skipped;
    }
  }

  lemma {:induction false} WindowsStep(n: nat, used: nat)
    requires used < n
    ensures used <= MAX_MESSAGE_LENGTH + 1 ==> Windows(n) <= Windows(n - used) + 1
    ensures used > MAX_MESSAGE_LENGTH ==> Windows(n - used) + 1 <= Windows(n)
  {
  }

  lemma {:induction false} AtLeastOnePerWindow(m: Bytes, start: nat)
    requires start < |m|
    ensures Windows(|m| - start) <= |PiecesFrom(m, start)|
    decreases |m| - start
  {
    var next := PieceAt(m, start).Next();
    if next < |m| {
      AtLeastOnePerWindow(m, next);
      WindowsStep(|m| - start, next - start);
    }
  }

  lemma {:induction false} AtMostTwoPerWindow(m: Bytes, start: nat)
    requires start < |m|
    ensures |PiecesFrom(m, start)| <= 2 * Windows(|m| - start)
    decreases |m| - start
  {
    var next := PieceAt(m, start).Next();
    assert |PiecesFrom(m, start)| == 1 + |PiecesFrom(m, next)|;
    if next < |m| {
      var second := PieceAt(m, next).Next();
      if second < |m| {
        TwoPiecesFillAWindow(m, start);
        AtMostTwoPerWindow(m, second);
        assert |PiecesFrom(m, start)| == 2 + |PiecesFrom(m, second)|;
        WindowsStep(|m| - start, second - start);
      } else {
        assert |PiecesFrom(m, start)| == 2;
      }
    } else {
      assert |PiecesFrom(m, start)| == 1;
    }
  }

  /** Main result: a message of n > 400 bytes takes between ceil(n/401) and 2*ceil(n/401) chunks. */
  lemma {:induction false} ChunkCount(m: Bytes)
    requires |m| > MAX_MESSAGE_LENGTH
    ensures Windows(|m|) <= |Chunks(m)| <= 2 * Windows(|m|)
    ensures |Chunks(m)| <= 2 * ((|m| - 1) / MAX_MESSAGE_LENGTH) + 2
  {
    AtLeastOnePerWindow(m, 0);
    AtMostTwoPerWindow(m, 0);
    ChunksAreTexts(m);
    assert (|m| - 1) / (MAX_MESSAGE_LENGTH + 1) <= (|m| - 1) / MAX_MESSAGE_LENGTH by {
      var q := (|m| - 1) / (MAX_MESSAGE_LENGTH + 1);
      assert q * MAX_MESSAGE_LENGTH <= |m| - 1;
    }
  }

  /** When the rest of the message fits a window it is one last piece, except that a window ending exactly at
      the end of the message is still cut at its last space, unless that is the last byte. */
  lemma {:induction false} LastWindow(m: Bytes, start: nat)
    requires start < |m| <= start + MAX_MESSAGE_LENGTH
    ensures |PiecesFrom(m, start)| == 1 <==>
              |m| < start + MAX_MESSAGE_LENGTH || m[|m| - 1] == SPACE || NoSpace(m, start, |m|)
  {
    var p := PieceAt(m, start);
    assert |PiecesFrom(m, start)| == 1 + |PiecesFrom(m, p.Next())|;
    assert |PiecesFrom(m, start)| == 1 <==> p.Next() == |m|;
    if |m| == start + MAX_MESSAGE_LENGTH {
      var window := m[start..start + MAX_MESSAGE_LENGTH];
      assert forall j :: 0 <= j < |window| ==> window[j] == m[start + j];
      var i := LastSpace(window);
      if i == -1 {
        assert forall j :: start <= j < |m| ==> m[j] == window[j - start];
      } else {
        assert m[start + i] == SPACE;
      }
    }
  }

  /** An empty chunk is sent exactly when a full window has its only space at the front. */
  lemma {:induction false} EmptyChunk(m: Bytes, start: nat)
    requires start < |m|
    ensures PieceAt(m, start).end == start <==>
              start + MAX_MESSAGE_LENGTH <= |m| && m[start] == SPACE &&
              NoSpace(m, start + 1, start + MAX_MESSAGE_LENGTH)
  {
    if start + MAX_MESSAGE_LENGTH <= |m| {
      var window := m[start..start + MAX_MESSAGE_LENGTH];
      assert forall j :: 0 <= j < |window| ==> window[j] == m[start + j];
      assert forall j :: start <= j < start + MAX_MESSAGE_LENGTH ==> m[j] == window[j - start];
      var i := LastSpace(window);
    }
  }

  /** A space with no word before it, and then a word that is too long for the window. */
  ghost predicate StraySpace(m: Bytes, i: nat) {
    i + MAX_MESSAGE_LENGTH <= |m| && m[i] == SPACE && (i == 0 || m[i - 1] == SPACE) &&
    NoSpace(m, i + 1, i + MAX_MESSAGE_LENGTH)
  }

  /** The loop stands at a space only at the front of the message or after another space. */
  lemma {:induction false} NoEmptyChunksFrom(m: Bytes, start: nat)
    requires start <= |m|
    requires start < |m| && m[start] == SPACE && start > 0 ==> m[start - 1] == SPACE
    requires forall i :: 0 <= i < |m| ==> !StraySpace(m, i)
    ensures [] !in ChunksFrom(m, start)
    decreases |m| - start
  {
    if start < |m| {
      EmptyChunk(m, start);
      assert !StraySpace(m, start);
      NoEmptyChunksFrom(m, PieceAt(m, start).Next());
    }
  }

  /** Main result: no chunk of a message is empty unless the message is, or has a space, at its front or after
      another space, that is followed by 399 bytes without one. So single spaces between words are safe. */
  lemma {:induction false} NoEmptyChunks(m: Bytes)
    requires m != [] && forall i :: 0 <= i < |m| ==> !StraySpace(m, i)
    ensures [] !in Chunks(m)
  {
    NoEmptyChunksFrom(m, 0);
  }

  const LETTER: u8 := 97

  /** `k` blocks of a space, 399 letters and a space. */
  function Worst(k: nat): (m: Bytes)
    ensures |m| == 401 * k
  {
    seq(401 * k, i => if i % 401 == 0 || i % 401 == 400 then SPACE else LETTER)
  }

  lemma {:induction false} WorstAt(k: nat, b: nat, j: nat)
    requires b < k && j < 401
    ensures 401 * b + j < |Worst(k)|
    ensures Worst(k)[401 * b + j] == if j == 0 || j == 400 then SPACE else LETTER
  {
    assert (401 * b + j) % 401 == j;
  }

  /** A full window whose last space is at `i` is cut there. */
  lemma {:induction false} CutAtSpace(m: Bytes, start: nat, i: nat)
    requires start <= i < start + MAX_MESSAGE_LENGTH <= |m|
    requires m[i] == SPACE && NoSpace(m, i + 1, start + MAX_MESSAGE_LENGTH)
    ensures PieceAt(m, start) == Piece(start, i, true)
  {
    var window := m[start..start + MAX_MESSAGE_LENGTH];
    assert window[i - start] == SPACE;
    assert forall j :: i - start < j < |window| ==> window[j] == m[start + j];
  }

  /** 800 bytes with two spaces, at 399 and 500. */
  function ThreeWords(): (m: Bytes)
    ensures |m| == 800 && forall i :: 0 <= i < 800 ==> (m[i] == SPACE <==> i == 399 || i == 500)
  {
    seq(800, i => if i == 399 || i == 500 then SPACE else LETTER)
  }

  /** Its second window ends exactly at the end of the message and is still cut. */
  lemma {:induction false} LastWindowIsCut()
    ensures Split(ThreeWords()) == [Piece(0, 399, true), Piece(400, 500, true), Piece(501, 800, false)]
  {
    var m := ThreeWords();
    CutAtSpace(m, 0, 399);
    CutAtSpace(m, 400, 500);
    assert PieceAt(m, 501) == Piece(501, 800, false);
    assert PiecesFrom(m, 800) == [];
    assert PiecesFrom(m, 501) == [Piece(501, 800, false)];
  }

  lemma {:induction false} WorstBlock(k: nat, b: nat)
    requires b < k
    ensures PieceAt(Worst(k), 401 * b) == Piece(401 * b, 401 * b, true)
    ensures PieceAt(Worst(k), 401 * b + 1) == Piece(401 * b + 1, 401 * b + 400, true)
  {
    var m, s := Worst(k), 401 * b;
    forall j | s + 1 <= j < s + 400 ensures m[j] != SPACE {
      WorstAt(k, b, j - s);
    }
    WorstAt(k, b, 0);
    WorstAt(k, b, 400);
    CutAtSpace(m, s, s);
    CutAtSpace(m, s + 1, s + 400);
  }

  lemma {:induction false} WorstFrom(k: nat, b: nat)
    requires b <= k
    ensures |PiecesFrom(Worst(k), 401 * b)| == 2 * (k - b)
    decreases k - b
  {
    if b < k {
      WorstBlock(k, b);
      WorstFrom(k, b + 1);
    }
  }

  lemma {:induction false} WindowsOfBlocks(n: nat, k: nat)
    requires n == 401 * k && k > 0
    ensures n > MAX_MESSAGE_LENGTH && Windows(n) == k
  {
    assert n - 1 == (MAX_MESSAGE_LENGTH + 1) * (k - 1) + MAX_MESSAGE_LENGTH;
  }

  /** The upper bound is reached at every multiple of 401. */
  lemma {:induction false} ChunkCountIsTight(k: nat)
    requires k > 0
    ensures |Worst(k)| > MAX_MESSAGE_LENGTH
    ensures |Chunks(Worst(k))| == 2 * Windows(|Worst(k)|) == 2 * k
  {
    var m := Worst(k);
    WorstFrom(k, 0);
    ChunksAreTexts(m);
    WindowsOfBlocks(|m|, k);
  }
}
