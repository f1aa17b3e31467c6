/** Bytes, machine words, and their little-endian images on the wire. */
module Bytes {

  type byte = x: int | 0 <= x < 256
  type u32 = x: int | 0 <= x < 0x1_0000_0000
  type u64 = x: int | 0 <= x < 0x1_0000_0000_0000_0000

  /** `256^n`: the number of values that `n` bytes can hold. */
  function Span(n: nat): (r: nat)
    ensures r > 0
  {
    if n == 0 then 1 else 256 * Span(n - 1)
  }

  /** The `n` low-order bytes of `x`, least significant first. */
  function Image(x: nat, n: nat): (b: seq<byte>)
    ensures |b| == n
  {
    if n == 0 then [] else [x % 256] + Image(x / 256, n - 1)
  }

  /** The number whose image is `b`. */
  function Value(b: seq<byte>): nat {
    if b == [] then 0 else b[0] + 256 * Value(b[1..])
  }

  lemma {:induction false} ValueOfImage(x: nat, n: nat)
    requires x < Span(n)
    ensures Value(Image(x, n)) == x
  {
    if n > 0 {
      ValueOfImage(x / 256, n - 1);
      assert Image(x, n)[1..] == Image(x / 256, n - 1);
    }
  }

  lemma {:induction false} ImageOfValue(b: seq<byte>)
    ensures Value(b) < Span(|b|)
    ensures Image(Value(b), |b|) == b
  {
    if b != [] {
      ImageOfValue(b[1..]);
      assert Value(b) / 256 == Value(b[1..]) && Value(b) % 256 == b[0];
    }
  }

  lemma SpanOfWords()
    ensures Span(4) == 0x1_0000_0000
    ensures Span(8) == 0x1_0000_0000_0000_0000
  {
    assert Span(1) == 256 && Span(2) == 0x1_0000 && Span(3) == 0x100_0000;
    assert Span(5) == 0x100_0000_0000 && Span(6) == 0x1_0000_0000_0000 && Span(7) == 0x100_0000_0000_0000;
  }

  /** An 8-byte image read back as a 64-bit word. */
  function Word(b: seq<byte>): (w: u64)
    requires |b| == 8
    ensures Image(w, 8) == b
  {
    ImageOfValue(b);
    SpanOfWords();
    Value(b)
  }

  lemma WordOfImage(w: u64)
    ensures Word(Image(w, 8)) == w
  {
    SpanOfWords();
    ValueOfImage(w, 8);
  }
}
