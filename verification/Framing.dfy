/** The wire format of messages, and the header/body reader of a connection. */
module Framing {
  import opened Bytes
  import opened Messages

  function HeaderBytes(h: Header): (b: seq<byte>)
    ensures |b| == HEADER_BYTES
  {
    Image(h.id, 4) + Image(h.size, 4)
  }

  function ParseHeader(b: seq<byte>): (h: Header)
    requires |b| == HEADER_BYTES
    ensures HeaderBytes(h) == b
  {
    ImageOfValue(b[..4]);
    ImageOfValue(b[4..]);
    SpanOfWords();
    assert b == b[..4] + b[4..];
    Header(Value(b[..4]), Value(b[4..]))
  }

  lemma ParseOfHeaderBytes(h: Header)
    ensures ParseHeader(HeaderBytes(h)) == h
  {
    SpanOfWords();
    assert HeaderBytes(h)[..4] == Image(h.id, 4) && HeaderBytes(h)[4..] == Image(h.size, 4);
    ValueOfImage(h.id, 4);
    ValueOfImage(h.size, 4);
  }

  /** What the writer puts on the wire for one message: the header, then the body if there is one. */
  function Encode(m: Msg): seq<byte> {
    HeaderBytes(m.header) + m.body
  }

  function EncodeAll(ms: seq<Msg>): seq<byte> {
    if ms == [] then [] else EncodeAll(ms[..|ms| - 1]) + Encode(ms[|ms| - 1])
  }

  lemma EncodeAllSnoc(ms: seq<Msg>, m: Msg)
    ensures EncodeAll(ms + [m]) == EncodeAll(ms) + Encode(m)
  {
    assert (ms + [m])[..|ms|] == ms;
  }

  lemma {:induction false} EncodeAllConcat(a: seq<Msg>, b: seq<Msg>)
    ensures EncodeAll(a + b) == EncodeAll(a) + EncodeAll(b)
    decreases |b|
  {
    if b == [] {
      assert a + b == a;
    } else {
      var front, m := b[..|b| - 1], b[|b| - 1];
      assert a + b == (a + front) + [m];
      EncodeAllConcat(a, front);
      EncodeAllSnoc(a + front, m);
      assert EncodeAll(b) == EncodeAll(front) + Encode(m);
    }
  }

  lemma EncodeAllHead(ms: seq<Msg>)
    requires ms != []
    ensures EncodeAll(ms) == Encode(ms[0]) + EncodeAll(ms[1..])
  {
    assert [ms[0]] + ms[1..] == ms && [] + [ms[0]] == [ms[0]];
    EncodeAllConcat([ms[0]], ms[1..]);
    EncodeAllSnoc([], ms[0]);
    assert [] + Encode(ms[0]) == Encode(ms[0]);
  }

  // ---- What the reader delivers ----

  /** The body the reader still holds after receiving `ms`: the last non-empty one, else `held`. */
  function Held(held: seq<byte>, ms: seq<Msg>): seq<byte> {
    if ms == [] then held
    else if ms[|ms| - 1].body != [] then ms[|ms| - 1].body
    else Held(held, ms[..|ms| - 1])
  }

  /** The sticky-body law: each message is delivered with its own header, and with its own body unless that is
      empty; then it is delivered with the body the reader still holds. */
  function Sticky(held: seq<byte>, ms: seq<Msg>): (r: seq<Msg>)
    ensures |r| == |ms|
  {
    if ms == [] then [] else
    Sticky(held, ms[..|ms| - 1]) + [Msg(ms[|ms| - 1].header, Held(held, ms))]
  }

  lemma StickySnoc(held: seq<byte>, ms: seq<Msg>, m: Msg)
    ensures Held(held, ms + [m]) == if m.body != [] then m.body else Held(held, ms)
    ensures Sticky(held, ms + [m]) == Sticky(held, ms) + [Msg(m.header, Held(held, ms + [m]))]
  {
    assert (ms + [m])[..|ms|] == ms;
  }

  lemma {:induction false} StickyAt(held: seq<byte>, ms: seq<Msg>, i: nat)
    requires i < |ms|
    ensures Sticky(held, ms)[i].header == ms[i].header
    ensures ms[i].body != [] ==> Sticky(held, ms)[i] == ms[i]
    decreases |ms|
  {
    if i < |ms| - 1 {
      StickyAt(held, ms[..|ms| - 1], i);
    }
  }

  /** The law in one line: a message is delivered with its own header and its own body, or, if that is empty, with
      the body delivered just before. */
  lemma {:induction false} StickyLaw(ms: seq<Msg>, i: nat)
    requires i < |ms|
    ensures Sticky([], ms)[i].header == ms[i].header
    ensures Sticky([], ms)[i].body ==
            if ms[i].body != [] then ms[i].body else if i == 0 then [] else Sticky([], ms)[i - 1].body
    decreases |ms|
  {
    var front := ms[..|ms| - 1];
    if i < |front| {
      StickyLaw(front, i);
    } else if i > 0 {
      assert Held([], front) == Sticky([], front)[i - 1].body;
    }
  }

  lemma SnocEqual(a: seq<Msg>, x: Msg, b: seq<Msg>, y: Msg)
    ensures a + [x] == b + [y] <==> a == b && x == y
  {
    if a + [x] == b + [y] {
      assert a == (a + [x])[..|a + [x]| - 1] && b == (b + [y])[..|b + [y]| - 1];
      assert x == (a + [x])[|a + [x]| - 1] && y == (b + [y])[|b + [y]| - 1];
    }
  }

  /** No message without a body comes after a message with one. */
  ghost predicate BodilessFirst(ms: seq<Msg>) {
    forall i, j :: 0 <= i < j < |ms| && ms[i].body != [] ==> ms[j].body != []
  }

  lemma BodilessFirstSnoc(ms: seq<Msg>, m: Msg)
    ensures BodilessFirst(ms + [m]) <==>
            BodilessFirst(ms) && (m.body == [] ==> forall i :: 0 <= i < |ms| ==> ms[i].body == [])
  {
    var all := ms + [m];
    assert forall i :: 0 <= i < |ms| ==> ms[i] == all[i];
    assert all[|ms|] == m;
  }

  lemma {:induction false} NothingHeld(ms: seq<Msg>)
    ensures Held([], ms) == [] <==> forall i :: 0 <= i < |ms| ==> ms[i].body == []
    decreases |ms|
  {
    if ms != [] {
      var front := ms[..|ms| - 1];
      NothingHeld(front);
      assert forall i :: 0 <= i < |front| ==> front[i] == ms[i];
    }
  }

  /** A fresh reader delivers a sequence unchanged exactly when no bodiless message follows a bodied one. */
  lemma {:induction false} FaithfulIffBodilessFirst(ms: seq<Msg>)
    ensures Sticky([], ms) == ms <==> BodilessFirst(ms)
    decreases |ms|
  {
    if ms != [] {
      hide Held, BodilessFirst;
      var front, m := ms[..|ms| - 1], ms[|ms| - 1];
      assert ms == front + [m];
      FaithfulIffBodilessFirst(front);
      StickySnoc([], front, m);
      SnocEqual(Sticky([], front), Msg(m.header, Held([], ms)), front, m);
      BodilessFirstSnoc(front, m);
      NothingHeld(front);
    }
  }

  // ---- The reader ----

  datatype Phase = ReadingHeader | ReadingBody

  /** The reader of a connection: the operation in flight, the bytes it has so far, and the message being
      assembled. `delivered` is what it pushed to the incoming queue; `frames` records the same messages with
      the body bytes that were read for each of them. */
  datatype Reader = Reader(phase: Phase, got: seq<byte>, temp: Msg, frames: seq<Msg>, delivered: seq<Msg>)

  const INITIAL_READER := Reader(ReadingHeader, [], Fresh(0), [], [])

  /** The number of bytes the read in flight asks for. */
  function Need(r: Reader): nat {
    if r.phase.ReadingHeader? then HEADER_BYTES else ExpectedBody(r.temp.header.size)
  }

  predicate Sound(r: Reader) {
    0 < Need(r) && |r.got| <= Need(r)
  }

  predicate Waiting(r: Reader) {
    |r.got| < Need(r)
  }

  /** `vector::resize`. */
  function Resize(b: seq<byte>, n: nat): (r: seq<byte>)
    ensures |r| == n
  {
    if n <= |b| then b[..n] else b + seq(n - |b|, _ => 0)
  }

  /** Hand the assembled message over, and ask for the next header. */
  function Deliver(r: Reader, own: seq<byte>): Reader {
    Reader(ReadingHeader, [], r.temp, r.frames + [Msg(r.temp.header, own)], r.delivered + [r.temp])
  }

  function OnHeaderRead(r: Reader): Reader
    requires |r.got| == HEADER_BYTES
  {
    var h := ParseHeader(r.got);
    if h.size > HEADER_BYTES then
      r.(phase := ReadingBody, got := [], temp := Msg(h, Resize(r.temp.body, h.size - HEADER_BYTES)))
    else
      Deliver(r.(temp := r.temp.(header := h)), [])
  }

  function OnBodyRead(r: Reader): Reader {
    Deliver(r.(temp := r.temp.(body := r.got)), r.got)
  }

  /** The completion handler of the read in flight. */
  function OnRead(r: Reader): (r': Reader)
    requires |r.got| == Need(r)
    ensures Sound(r') && Waiting(r')
  {
    if r.phase.ReadingHeader? then OnHeaderRead(r) else OnBodyRead(r)
  }

  function Settle(r: Reader): (r': Reader)
    requires Sound(r)
    ensures Sound(r') && Waiting(r')
  {
    if |r.got| == Need(r) then OnRead(r) else r
  }

  function Receive(r: Reader, bytes: seq<byte>): Reader {
    r.(got := r.got + bytes)
  }

  /** How much of a chunk the read in flight takes. */
  function Bite(r: Reader, chunk: seq<byte>): (k: nat)
    requires Sound(r) && Waiting(r)
    ensures k <= |chunk| && k <= Need(r) - |r.got|
    ensures chunk != [] ==> k > 0
  {
    if |chunk| < Need(r) - |r.got| then |chunk| else Need(r) - |r.got|
  }

  /** Feed one chunk: each read takes no more than it needs, and its handler starts the next. */
  function Feed(r: Reader, chunk: seq<byte>): (r': Reader)
    requires Sound(r) && Waiting(r)
    ensures Sound(r') && Waiting(r')
    decreases |chunk|
  {
    if chunk == [] then r else
    var k := Bite(r, chunk);
    Feed(Settle(Receive(r, chunk[..k])), chunk[k..])
  }

  lemma FeedWithinRead(r: Reader, bytes: seq<byte>)
    requires Sound(r) && Waiting(r) && |r.got| + |bytes| <= Need(r)
    ensures Feed(r, bytes) == Settle(Receive(r, bytes))
  {
    if bytes == [] {
      assert r.got + [] == r.got;
    } else {
      assert bytes[..|bytes|] == bytes && bytes[|bytes|..] == [];
      assert Feed(Settle(Receive(r, bytes)), []) == Settle(Receive(r, bytes));
    }
  }

  lemma ReceiveConcat(r: Reader, a: seq<byte>, b: seq<byte>)
    ensures Receive(Receive(r, a), b) == Receive(r, a + b)
  {
    assert r.got + a + b == r.got + (a + b);
  }

  lemma SplitInside(a: seq<byte>, b: seq<byte>, k: nat)
    requires k <= |b|
    ensures (a + b)[..|a| + k] == a + b[..k] && (a + b)[|a| + k..] == b[k..]
  {
  }

  lemma FeedUnfold(r: Reader, chunk: seq<byte>, k: nat)
    requires Sound(r) && Waiting(r) && chunk != [] && k == Bite(r, chunk)
    ensures Feed(r, chunk) == Feed(Settle(Receive(r, chunk[..k])), chunk[k..])
  {
  }

  /** A chunk that ends inside the read in flight can be merged with the next one. */
  lemma FeedInside(r: Reader, a: seq<byte>, b: seq<byte>, ab: seq<byte>)
    requires Sound(r) && Waiting(r) && |r.got| + |a| < Need(r) && b != [] && ab == a + b
    ensures Feed(Receive(r, a), b) == Feed(r, ab)
  {
    hide Feed, Settle, OnRead;
    var k := Bite(Receive(r, a), b);
    FeedUnfold(Receive(r, a), b, k);
    FeedUnfold(r, ab, |a| + k);
    ReceiveConcat(r, a, b[..k]);
    SplitInside(a, b, k);
  }

  /** Chunk independence: only the concatenation of what was received matters, from every reader state. */
  lemma {:induction false} FeedCompose(r: Reader, a: seq<byte>, b: seq<byte>)
    requires Sound(r) && Waiting(r)
    ensures Feed(Feed(r, a), b) == Feed(r, a + b)
    decreases |a|
  {
    if a == [] {
      assert a + b == b;
    } else if b == [] {
      assert a + b == a;
    } else if |r.got| + |a| < Need(r) {
      FeedWithinRead(r, a);
      FeedInside(r, a, b, a + b);
    } else {
      var k := Bite(r, a);
      assert Bite(r, a + b) == k;
      assert (a + b)[..k] == a[..k] && (a + b)[k..] == a[k..] + b;
      FeedCompose(Settle(Receive(r, a[..k])), a[k..], b);
    }
  }

  /** Chunk independence over any split at all. */
  function Flatten(chunks: seq<seq<byte>>): seq<byte> {
    if chunks == [] then [] else chunks[0] + Flatten(chunks[1..])
  }

  function FeedAll(r: Reader, chunks: seq<seq<byte>>): (r': Reader)
    requires Sound(r) && Waiting(r)
    ensures Sound(r') && Waiting(r')
    decreases |chunks|
  {
    if chunks == [] then r else FeedAll(Feed(r, chunks[0]), chunks[1..])
  }

  lemma {:induction false} ChunksDoNotMatter(r: Reader, chunks: seq<seq<byte>>)
    requires Sound(r) && Waiting(r)
    ensures FeedAll(r, chunks) == Feed(r, Flatten(chunks))
    decreases |chunks|
  {
    if chunks != [] {
      ChunksDoNotMatter(Feed(r, chunks[0]), chunks[1..]);
      FeedCompose(r, chunks[0], Flatten(chunks[1..]));
    }
  }

  // ---- What the reader has parsed, on any bytes at all ----

  /** The bytes of the message being read. */
  function Partial(r: Reader): seq<byte> {
    if r.phase.ReadingHeader? then r.got else HeaderBytes(r.temp.header) + r.got
  }

  /** The reader started with body `held` and has consumed exactly `bytes`. */
  ghost predicate Parsed(held: seq<byte>, bytes: seq<byte>, r: Reader) {
    && bytes == EncodeAll(r.frames) + Partial(r)
    && (forall m | m in r.frames :: WellFormed(m))
    && r.delivered == Sticky(held, r.frames)
    && (r.phase.ReadingHeader? ==> r.temp.body == Held(held, r.frames))
    && (r.phase.ReadingBody? ==> r.temp.header.size > HEADER_BYTES)
  }

  lemma ParsedDeliver(held: seq<byte>, bytes: seq<byte>, r: Reader, m: Msg)
    requires bytes == EncodeAll(r.frames) + Encode(m) && WellFormed(m)
    requires forall m | m in r.frames :: WellFormed(m)
    requires r.delivered == Sticky(held, r.frames)
    requires r.temp == Msg(m.header, if m.body != [] then m.body else Held(held, r.frames))
    ensures Parsed(held, bytes, Deliver(r, m.body))
  {
    EncodeAllSnoc(r.frames, m);
    StickySnoc(held, r.frames, m);
    assert EncodeAll(r.frames + [m]) + [] == EncodeAll(r.frames + [m]);
  }

  lemma ParsedStep(held: seq<byte>, bytes: seq<byte>, r: Reader)
    requires Sound(r) && |r.got| == Need(r) && Parsed(held, bytes, r)
    ensures Parsed(held, bytes, OnRead(r))
  {
    if r.phase.ReadingBody? {
      assert bytes == EncodeAll(r.frames) + Encode(Msg(r.temp.header, r.got));
      ParsedDeliver(held, bytes, r.(temp := r.temp.(body := r.got)), Msg(r.temp.header, r.got));
    } else {
      var h := ParseHeader(r.got);
      if h.size > HEADER_BYTES {
        assert HeaderBytes(h) + [] == r.got;
      } else {
        assert HeaderBytes(h) + [] == r.got;
        ParsedDeliver(held, bytes, r.(temp := r.temp.(header := h)), Msg(h, []));
      }
    }
  }

  lemma ParsedReceive(held: seq<byte>, bytes: seq<byte>, r: Reader, more: seq<byte>)
    requires Sound(r) && |r.got| + |more| <= Need(r) && Parsed(held, bytes, r)
    ensures Parsed(held, bytes + more, Receive(r, more))
  {
    var f, p := EncodeAll(r.frames), Partial(r);
    assert Partial(Receive(r, more)) == p + more;
    assert f + p + more == f + (p + more);
  }

  lemma {:induction false} ParsedFeed(held: seq<byte>, bytes: seq<byte>, r: Reader, chunk: seq<byte>)
    requires Sound(r) && Waiting(r) && Parsed(held, bytes, r)
    ensures Parsed(held, bytes + chunk, Feed(r, chunk))
    decreases |chunk|
  {
    if chunk == [] {
      assert bytes + chunk == bytes;
    } else {
      var k := Bite(r, chunk);
      ParsedReceive(held, bytes, r, chunk[..k]);
      var r1 := Receive(r, chunk[..k]);
      if |r1.got| == Need(r1) {
        ParsedStep(held, bytes + chunk[..k], r1);
      }
      ParsedFeed(held, bytes + chunk[..k], Settle(r1), chunk[k..]);
      assert bytes + chunk == (bytes + chunk[..k]) + chunk[k..];
    }
  }

  /** Print after parse, and the sticky-body law, on every byte stream, tampered or not: the frames read are well
      formed, re-encoding them with the bytes of the frame in progress gives the stream back, and what was
      delivered is their sticky image. */
  lemma PrintAfterParse(bytes: seq<byte>)
    ensures var r := Feed(INITIAL_READER, bytes);
            bytes == EncodeAll(r.frames) + Partial(r) && |r.got| < Need(r) &&
            (forall m | m in r.frames :: WellFormed(m)) && r.delivered == Sticky([], r.frames)
  {
    assert [] == EncodeAll([]) + Partial(INITIAL_READER);
    ParsedFeed([], [], INITIAL_READER, bytes);
    assert [] + bytes == bytes;
  }

  // ---- Reading what a writer wrote ----

  predicate AtBoundary(r: Reader) {
    r.phase.ReadingHeader? && r.got == []
  }

  /** From `r`, at a boundary, the reader has read exactly `ms`. */
  ghost predicate HasRead(r: Reader, ms: seq<Msg>, s: Reader) {
    && AtBoundary(s)
    && s.frames == r.frames + ms
    && s.temp.body == Held(r.temp.body, ms)
    && s.delivered == r.delivered + Sticky(r.temp.body, ms)
  }

  lemma FeedOne(r: Reader, m: Msg)
    requires AtBoundary(r) && WellFormed(m)
    ensures HasRead(r, [m], Feed(r, Encode(m)))
  {
    var h := HeaderBytes(m.header);
    ParseOfHeaderBytes(m.header);
    assert [] + h == h;
    FeedWithinRead(r, h);
    var r1 := OnHeaderRead(Receive(r, h));
    assert Feed(r, h) == r1;
    if m.body == [] {
      assert Encode(m) == h;
    } else {
      assert r1.got + m.body == m.body;
      FeedWithinRead(r1, m.body);
      FeedCompose(r, h, m.body);
    }
  }

  lemma StickyOne(held: seq<byte>, m: Msg)
    ensures Held(held, [m]) == if m.body != [] then m.body else held
    ensures Sticky(held, [m]) == [Msg(m.header, Held(held, [m]))]
  {
  }

  lemma Appended(a: seq<Msg>, b: seq<Msg>, c: seq<Msg>, all: seq<Msg>)
    requires all == a + b + c
    ensures all == a + (b + c)
  {
  }

  lemma HasReadOneMore(r: Reader, ms: seq<Msg>, s: Reader, m: Msg, s': Reader)
    requires HasRead(r, ms, s) && HasRead(s, [m], s')
    ensures HasRead(r, ms + [m], s')
  {
    hide AtBoundary, Sticky, Held;
    StickySnoc(r.temp.body, ms, m);
    StickyOne(s.temp.body, m);
    Appended(r.frames, ms, [m], s'.frames);
    Appended(r.delivered, Sticky(r.temp.body, ms), [Msg(m.header, s'.temp.body)], s'.delivered);
  }

  /** Framing round trip: from a message boundary, reading the encodings of any well-formed messages ends at a
      message boundary with every frame intact, and delivers their sticky image. */
  lemma {:induction false} FeedEncodeAll(r: Reader, ms: seq<Msg>)
    requires AtBoundary(r) && forall m | m in ms :: WellFormed(m)
    ensures HasRead(r, ms, Feed(r, EncodeAll(ms)))
    decreases |ms|
  {
    if ms == [] {
      assert r.frames + ms == r.frames && r.delivered + Sticky(r.temp.body, ms) == r.delivered;
    } else {
      var front, m := ms[..|ms| - 1], ms[|ms| - 1];
      assert m in ms && ms == front + [m];
      FeedEncodeAll(r, front);
      var s := Feed(r, EncodeAll(front));
      FeedOne(s, m);
      FeedCompose(r, EncodeAll(front), Encode(m));
      HasReadOneMore(r, front, s, m, Feed(s, Encode(m)));
    }
  }

  /** The exact round trip: every header and every fresh body arrives, the reader ends at a boundary, and the
      messages are delivered unchanged exactly when no bodiless one follows a bodied one. */
  lemma RoundTrip(ms: seq<Msg>)
    requires forall m | m in ms :: WellFormed(m)
    ensures var s := Feed(INITIAL_READER, EncodeAll(ms));
            AtBoundary(s) && s.frames == ms && (s.delivered == ms <==> BodilessFirst(ms))
  {
    FeedEncodeAll(INITIAL_READER, ms);
    FaithfulIffBodilessFirst(ms);
    assert [] + ms == ms && [] + Sticky([], ms) == Sticky([], ms);
  }

  /** Unique decodability. */
  lemma EncodingInjective(a: seq<Msg>, b: seq<Msg>)
    requires forall m | m in a :: WellFormed(m)
    requires forall m | m in b :: WellFormed(m)
    requires EncodeAll(a) == EncodeAll(b)
    ensures a == b
  {
    RoundTrip(a);
    RoundTrip(b);
  }

  // ---- Prefixes of a stream ----

  lemma {:induction false} FeedAppends(r: Reader, chunk: seq<byte>)
    requires Sound(r) && Waiting(r)
    ensures r.frames <= Feed(r, chunk).frames && r.delivered <= Feed(r, chunk).delivered
    decreases |chunk|
  {
    if chunk != [] {
      var k := Bite(r, chunk);
      FeedAppends(Settle(Receive(r, chunk[..k])), chunk[k..]);
    }
  }

  /** A reader that has seen any prefix of a writer's stream has read a prefix of its messages. */
  lemma FeedPrefix(ms: seq<Msg>, bytes: seq<byte>)
    requires forall m | m in ms :: WellFormed(m)
    requires bytes <= EncodeAll(ms)
    ensures Feed(INITIAL_READER, bytes).frames <= ms
    ensures Feed(INITIAL_READER, bytes).delivered <= Sticky([], ms)
  {
    var rest := EncodeAll(ms)[|bytes|..];
    assert bytes + rest == EncodeAll(ms);
    FeedCompose(INITIAL_READER, bytes, rest);
    FeedAppends(Feed(INITIAL_READER, bytes), rest);
    FeedEncodeAll(INITIAL_READER, ms);
    assert [] + ms == ms && [] + Sticky([], ms) == Sticky([], ms);
  }
}
