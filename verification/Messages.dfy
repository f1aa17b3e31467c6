/** Messages: a header and a byte vector used as a typed stack. */
module Messages {
  import opened Bytes

  /** `size` is the total packet size, header included, kept modulo 2^32; 0 on a message never pushed to. */
  datatype Header = Header(id: u32, size: u32)

  datatype Msg = Msg(header: Header, body: seq<byte>)

  const HEADER_BYTES: nat := 8
  const SIZE_LIMIT: nat := 0x1_0000_0000

  function Fresh(id: u32): Msg {
    Msg(Header(id, 0), [])
  }

  /** The size written back into the header after every `<<` and `>>`: a `size_t` cut to 32 bits. */
  function SizeField(body: seq<byte>): u32 {
    (HEADER_BYTES + |body|) % SIZE_LIMIT
  }

  /** The number of body bytes a reader expects after a header that declares `size`. */
  function ExpectedBody(size: u32): nat {
    if size > HEADER_BYTES then size - HEADER_BYTES else 0
  }

  /** Writer and reader agree on this message: the reader's expectation is the body the writer sends. */
  predicate WellFormed(m: Msg) {
    ExpectedBody(m.header.size) == |m.body|
  }

  /** The object representation of a standard-layout value: `width` bytes that hold `bits`. */
  datatype Datum = Datum(width: nat, bits: nat) {
    ghost predicate Valid() { bits < Span(width) }
    function Bytes(): seq<byte> { Image(bits, width) }
  }

  function Push(m: Msg, d: Datum): Msg {
    var body := m.body + d.Bytes();
    Msg(m.header.(size := SizeField(body)), body)
  }

  /** Popping more bytes than the body holds is undefined behaviour of `>>`: the caller must not. */
  function Pop(m: Msg, width: nat): (r: (Msg, Datum))
    requires width <= |m.body|
    ensures r.1.width == width && r.1.Valid()
  {
    var i := |m.body| - width;
    ImageOfValue(m.body[i..]);
    (Msg(m.header.(size := SizeField(m.body[..i])), m.body[..i]), Datum(width, Value(m.body[i..])))
  }

  lemma PopTop(m: Msg, below: seq<byte>, d: Datum)
    requires d.Valid() && m.body == below + d.Bytes()
    ensures Pop(m, d.width).1 == d && Pop(m, d.width).0.body == below
  {
    assert m.body[|below|..] == d.Bytes() && m.body[..|below|] == below;
    ValueOfImage(d.bits, d.width);
  }

  lemma PopAfterPush(m: Msg, d: Datum)
    requires d.Valid()
    ensures Pop(Push(m, d), d.width).1 == d
    ensures Pop(Push(m, d), d.width).0.body == m.body
  {
    PopTop(Push(m, d), m.body, d);
  }

  // ---- Runs of << and >>, and the typed stack they implement ----

  datatype Op = PushOp(d: Datum) | PopOp(width: nat)

  /** Every `>>` of the run finds enough bytes: all that `>>` asks of its callers. */
  predicate InRange(depth: nat, ops: seq<Op>)
    decreases |ops|
  {
    ops == [] ||
    match ops[0]
    case PushOp(d) => InRange(depth + d.width, ops[1..])
    case PopOp(w) => w <= depth && InRange(depth - w, ops[1..])
  }

  /** The message after a run, with the values popped, in order. */
  function Perform(m: Msg, ops: seq<Op>): (Msg, seq<Datum>)
    requires InRange(|m.body|, ops)
    decreases |ops|
  {
    if ops == [] then (m, []) else
    match ops[0]
    case PushOp(d) => Perform(Push(m, d), ops[1..])
    case PopOp(w) =>
      var (rest, d) := Pop(m, w);
      var (final, out) := Perform(rest, ops[1..]);
      (final, [d] + out)
  }

  /** The run respects types: each `>>` asks for the type of the value on top of `stack`. */
  ghost predicate Bracketed(stack: seq<Datum>, ops: seq<Op>)
    decreases |ops|
  {
    ops == [] ||
    match ops[0]
    case PushOp(d) => d.Valid() && Bracketed(stack + [d], ops[1..])
    case PopOp(w) =>
      stack != [] && stack[|stack| - 1].width == w && Bracketed(stack[..|stack| - 1], ops[1..])
  }

  /** The reference: the same run on a stack of values that keep their identity. */
  ghost function PerformTyped(stack: seq<Datum>, ops: seq<Op>): (seq<Datum>, seq<Datum>)
    requires Bracketed(stack, ops)
    decreases |ops|
  {
    if ops == [] then (stack, []) else
    match ops[0]
    case PushOp(d) => PerformTyped(stack + [d], ops[1..])
    case PopOp(w) =>
      var (final, out) := PerformTyped(stack[..|stack| - 1], ops[1..]);
      (final, [stack[|stack| - 1]] + out)
  }

  function Concat(stack: seq<Datum>): seq<byte> {
    if stack == [] then [] else Concat(stack[..|stack| - 1]) + stack[|stack| - 1].Bytes()
  }

  lemma ConcatSnoc(base: seq<byte>, stack: seq<Datum>, d: Datum)
    ensures base + Concat(stack + [d]) == base + Concat(stack) + d.Bytes()
  {
    assert (stack + [d])[..|stack|] == stack;
  }

  /** The byte body refines the typed stack: every run that respects types stays in range, pops exactly
      the values the typed stack pops, and leaves exactly the bytes of the values still stacked. */
  lemma {:induction false} BytesRefineTypedStack(m: Msg, base: seq<byte>, stack: seq<Datum>, ops: seq<Op>)
    requires m.body == base + Concat(stack)
    requires forall d | d in stack :: d.Valid()
    requires Bracketed(stack, ops)
    ensures InRange(|m.body|, ops)
    ensures Perform(m, ops).1 == PerformTyped(stack, ops).1
    ensures Perform(m, ops).0.body == base + Concat(PerformTyped(stack, ops).0)
    decreases |ops|
  {
    if ops != [] {
      match ops[0]
      case PushOp(d) =>
        ConcatSnoc(base, stack, d);
        BytesRefineTypedStack(Push(m, d), base, stack + [d], ops[1..]);
      case PopOp(w) =>
        var d, below := stack[|stack| - 1], stack[..|stack| - 1];
        assert stack == below + [d] && d in stack;
        ConcatSnoc(base, below, d);
        PopTop(m, base + Concat(below), d);
        BytesRefineTypedStack(Pop(m, w).0, base, below, ops[1..]);
    }
  }

  function Pushes(ds: seq<Datum>): seq<Op> {
    if ds == [] then [] else [PushOp(ds[0])] + Pushes(ds[1..])
  }

  function Pops(ds: seq<Datum>): seq<Op> {
    if ds == [] then [] else [PopOp(ds[|ds| - 1].width)] + Pops(ds[..|ds| - 1])
  }

  function Reversed(ds: seq<Datum>): seq<Datum> {
    if ds == [] then [] else [ds[|ds| - 1]] + Reversed(ds[..|ds| - 1])
  }

  lemma {:induction false} PopsAreTyped(below: seq<Datum>, ds: seq<Datum>)
    ensures Bracketed(below + ds, Pops(ds))
    ensures PerformTyped(below + ds, Pops(ds)) == (below, Reversed(ds))
    decreases |ds|
  {
    if ds == [] {
      assert below + ds == below;
    } else {
      assert Pops(ds)[1..] == Pops(ds[..|ds| - 1]);
      assert (below + ds)[..|below + ds| - 1] == below + ds[..|ds| - 1];
      PopsAreTyped(below, ds[..|ds| - 1]);
    }
  }

  lemma PushIsTyped(below: seq<Datum>, d: Datum, rest: seq<Op>)
    requires d.Valid() && Bracketed(below + [d], rest)
    ensures Bracketed(below, [PushOp(d)] + rest)
    ensures PerformTyped(below, [PushOp(d)] + rest) == PerformTyped(below + [d], rest)
  {
    assert ([PushOp(d)] + rest)[1..] == rest;
  }

  lemma {:induction false} PushesAreTyped(below: seq<Datum>, ds: seq<Datum>, ops: seq<Op>)
    requires forall d | d in ds :: d.Valid()
    requires Bracketed(below + ds, ops)
    ensures Bracketed(below, Pushes(ds) + ops)
    ensures PerformTyped(below, Pushes(ds) + ops) == PerformTyped(below + ds, ops)
    decreases |ds|
  {
    if ds == [] {
      assert below + ds == below && Pushes(ds) + ops == ops;
    } else {
      assert ds[0] in ds && below + [ds[0]] + ds[1..] == below + ds;
      PushesAreTyped(below + [ds[0]], ds[1..], ops);
      var rest := Pushes(ds[1..]) + ops;
      assert Pushes(ds) + ops == [PushOp(ds[0])] + rest;
      PushIsTyped(below, ds[0], rest);
    }
  }

  /** Push any values, pop them in reverse: every value comes back, and the body is restored. */
  lemma PushThenPopReversed(m: Msg, ds: seq<Datum>)
    requires forall d | d in ds :: d.Valid()
    ensures var ops := Pushes(ds) + Pops(ds);
            InRange(|m.body|, ops) && Perform(m, ops).1 == Reversed(ds) && Perform(m, ops).0.body == m.body
  {
    var ops := Pushes(ds) + Pops(ds);
    assert [] + ds == ds;
    PopsAreTyped([], ds);
    PushesAreTyped([], ds, Pops(ds));
    assert m.body + Concat([]) == m.body;
    BytesRefineTypedStack(m, m.body, [], ops);
  }

  // ---- The size field ----

  /** Along any in-range run the header's id never changes, and its size is the initial one until the first
      operation and `(8 + |body|) mod 2^32` ever after -- 8, not 0, once emptied again. */
  lemma {:induction false} SizeAlongRun(m: Msg, ops: seq<Op>)
    requires InRange(|m.body|, ops)
    ensures var r := Perform(m, ops).0;
            r.header.id == m.header.id &&
            r.header.size == if ops == [] then m.header.size else (8 + |r.body|) % 0x1_0000_0000
    decreases |ops|
  {
    if ops != [] {
      match ops[0]
      case PushOp(d) => SizeAlongRun(Push(m, d), ops[1..]);
      case PopOp(w) => SizeAlongRun(Pop(m, w).0, ops[1..]);
    }
  }

  lemma SizeFieldExact(body: seq<byte>)
    ensures ExpectedBody(SizeField(body)) == |body| <==> |body| < 0x1_0000_0000 - 8
  {
    if |body| < SIZE_LIMIT - HEADER_BYTES {
      assert SizeField(body) == HEADER_BYTES + |body|;
    } else {
      assert SizeField(body) < SIZE_LIMIT;
    }
  }

  /** A message built by any in-range run is well formed exactly when its body is short enough for the
      32-bit size field. */
  lemma WellFormedIffShort(id: u32, ops: seq<Op>)
    requires InRange(0, ops)
    ensures var r := Perform(Fresh(id), ops).0;
            WellFormed(r) <==> |r.body| < 0x1_0000_0000 - 8
  {
    SizeAlongRun(Fresh(id), ops);
    SizeFieldExact(Perform(Fresh(id), ops).0.body);
  }

  // ---- The message object ----

  /** The message as the program holds it: header fields and a byte vector, updated in place. */
  class Message {
    var id: u32
    var size: u32
    var body: seq<byte>

    function State(): Msg
      reads this
    {
      Msg(Header(id, size), body)
    }

    constructor (id: u32)
      ensures State() == Fresh(id)
    {
      this.id, size, body := id, 0, [];
    }

    constructor Copy(m: Msg)
      ensures State() == m
    {
      id, size, body := m.header.id, m.header.size, m.body;
    }

    method PushBack(d: Datum)
      modifies this
      ensures State() == Push(old(State()), d)
      ensures id == old(id) && size == (8 + |body|) % 0x1_0000_0000 && body == old(body) + d.Bytes()
    {
      body := body + d.Bytes();
      size := (HEADER_BYTES + |body|) % SIZE_LIMIT;
    }

    method PopBack(width: nat) returns (d: Datum)
      requires width <= |body|
      modifies this
      ensures (State(), d) == Pop(old(State()), width)
      ensures id == old(id) && size == (8 + |body|) % 0x1_0000_0000 && body + d.Bytes() == old(body)
    {
      var i := |body| - width;
      ImageOfValue(body[i..]);
      d := Datum(width, Value(body[i..]));
      body := body[..i];
      size := (HEADER_BYTES + |body|) % SIZE_LIMIT;
    }
  }
}
