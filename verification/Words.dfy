/** Fixed-width integers as bytes, least significant byte first. */
module Words {
  import opened Base

  const WORD := 4
  const WORD_BITS := 32
  const WORD_LIMIT := 0x1_0000_0000

  lemma Pow2OfWord()
    ensures Pow2(WORD_BITS) == WORD_LIMIT
  {
    assert Pow2(10) == 0x400;
    assert Pow2(20) == 0x10_0000;
    assert Pow2(30) == 0x4000_0000;
  }

  function WordBytes(n: nat): (r: Bytes)
    requires n < WORD_LIMIT
    ensures |r| == WORD
  {
    [(n % 0x100) as Byte, (n / 0x100 % 0x100) as Byte, (n / 0x1_0000 % 0x100) as Byte, (n / 0x100_0000) as Byte]
  }

  function BytesWord(b: Bytes): (r: nat)
    requires |b| == WORD
    ensures r < WORD_LIMIT
  {
    b[0] as nat + 0x100 * b[1] as nat + 0x1_0000 * b[2] as nat + 0x100_0000 * b[3] as nat
  }

  lemma WordRoundTrip(n: nat)
    requires n < WORD_LIMIT
    ensures BytesWord(WordBytes(n)) == n
  {
    var b := WordBytes(n);
    var q := n / 0x100;
    assert n / 0x1_0000 == q / 0x100 && n / 0x100_0000 == q / 0x1_0000;
    assert b[0] as nat == n % 0x100;
  }

  /** Bytes stand in order of weight, the lowest first: 256 times a number has the same bytes one place
      further on. */
  lemma LowByteFirst(n: nat)
    requires n < 0x100_0000
    ensures WordBytes(0x100 * n) == [0] + WordBytes(n)[..WORD - 1] && WordBytes(n)[WORD - 1] == 0
    ensures n < 0x100 ==> WordBytes(n) == [n as Byte, 0, 0, 0]
  {
  }

  /** Two's complement. */
  function IntWord(x: int32): (r: nat)
    ensures r < WORD_LIMIT
  {
    if x < 0 then x + WORD_LIMIT else x
  }

  function WordInt(n: nat): int32
    requires n < WORD_LIMIT
  {
    if n < 0x8000_0000 then n else n - WORD_LIMIT
  }

  // ---------------------------------------------------------------- optional integers

  /** One byte that is zero for Nil, then the value; for Nil the value bytes are whatever the new
      buffer happened to hold. */
  function OptBytes(x: Option<int32>, junk: Bytes): (r: Bytes)
    requires |junk| == WORD
    ensures |r| == WORD + 1
  {
    match x
    case None => [0] + junk
    case Some(v) => [1] + WordBytes(IntWord(v))
  }

  function BytesOpt(b: Bytes): Option<int32>
    requires |b| == WORD + 1
  {
    if b[0] == 0 then None else Some(WordInt(BytesWord(b[1..])))
  }

  /** Decoding undoes encoding, whatever the junk. */
  lemma OptRoundTrip(x: Option<int32>, junk: Bytes)
    requires |junk| == WORD
    ensures BytesOpt(OptBytes(x, junk)) == x
    ensures OptBytes(x, junk)[0] != 0 <==> x.Some?
  {
    if x.Some? {
      WordRoundTrip(IntWord(x.value));
      assert OptBytes(x, junk)[1..] == WordBytes(IntWord(x.value));
    }
  }

  /** Sets a buffer to Nil: only its first byte changes. */
  function Nilled(buf: Bytes): (r: Bytes)
    requires |buf| >= 1
    ensures |r| == |buf|
  {
    [0] + buf[1..]
  }

  method MakeNothing(buf: array<Byte>)
    requires buf.Length >= 1
    modifies buf
    ensures buf[..] == Nilled(old(buf[..]))
  {
    buf[0] := 0;
  }

  /** A Nil in a new buffer that holds blank before. */
  method NilBuffer(blank: Bytes) returns (b: Bytes)
    requires |blank| >= 1
    ensures b == Nilled(blank)
  {
    var buf := new Byte[|blank|](i requires 0 <= i < |blank| => blank[i]);
    assert buf[..] == blank;
    MakeNothing(buf);
    b := buf[..];
  }

  /** Puts a value into a buffer that may be longer than needed. */
  method MakeJust(buf: array<Byte>, bytes: Bytes)
    requires buf.Length >= |bytes| + 1
    modifies buf
    ensures buf[..] == [1] + bytes + old(buf[|bytes| + 1..])
  {
    buf[0] := 1;
    for i := 0 to |bytes|
      invariant buf[0] == 1 && buf[1..i + 1] == bytes[..i]
      invariant buf[i + 1..] == old(buf[i + 1..])
    {
      buf[i + 1] := bytes[i];
    }
    assert buf[..] == [buf[0]] + buf[1..|bytes| + 1] + buf[|bytes| + 1..];
  }

  /** An optional integer in a new buffer, whose value bytes hold junk before. */
  method OptBuffer(x: Option<int32>, junk: Bytes) returns (b: Bytes)
    requires |junk| == WORD
    ensures b == OptBytes(x, junk)
  {
    var buf := new Byte[WORD + 1](i requires 0 <= i < WORD + 1 => if i == 0 then 0 else junk[i - 1]);
    assert buf[1..] == junk;
    if x.Some? {
      MakeJust(buf, WordBytes(IntWord(x.value)));
    } else {
      MakeNothing(buf);
    }
    b := buf[..];
  }
}
