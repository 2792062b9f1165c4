/** Vocabulary shared by every model: identifiers, times, byte strings and numbers as bytes. */
module Base {

  datatype Option<+T> = None | Some(value: T)

  /** A UUID. `NIL` is the all-zero value the sources use for "no identifier". */
  type Id = nat

  const NIL: Id := 0

  /** A clock reading; 0 is the zero time, before every other reading. */
  type Time = nat

  type Byte = b: int | 0 <= b < 256

  type Bytes = seq<Byte>

  function Min(a: int, b: int): int {
    if a < b then a else b
  }

  function Max(a: int, b: int): int {
    if a < b then b else a
  }

  /** A collision-free digest, represented by the content it belongs to. */
  datatype Digest = DigestOf(content: Bytes)

  // ---- Contexts -------------------------------------------------------------

  /** A caller's context: how often it will still be found alive, and whether a read, a statement or
      a send has failed under it. */
  class Context {
    var lives: nat
    ghost var broken: bool

    constructor (lives: nat)
      ensures this.lives == lives && !broken
    {
      this.lives, broken := lives, false;
    }

    /** Something that can go wrong at any time does, or not. */
    method MayBreak() returns (breaks: bool)
      modifies this`broken
      ensures broken == (old(broken) || breaks)
    {
      breaks := *;
      broken := broken || breaks;
    }

    /** Something goes wrong. */
    method Break()
      modifies this`broken
      ensures broken
    {
      broken := true;
    }
  }

  // ---- Numbers as bytes -----------------------------------------------------

  function Pow256(k: nat): nat {
    if k == 0 then 1 else 256 * Pow256(k - 1)
  }

  lemma Widths()
    ensures Pow256(4) == 0x1_0000_0000 && Pow256(8) == 0x1_0000_0000_0000_0000
  {
    assert Pow256(2) == 0x1_0000;
    assert Pow256(6) == 0x1_0000_0000_0000;
  }

  /** `n` as `width` bytes, most significant first. */
  function BigEndian(n: nat, width: nat): (r: Bytes)
    ensures |r| == width
  {
    if width == 0 then [] else BigEndian(n / 256, width - 1) + [n % 256]
  }

  function ValueOf(bytes: Bytes): nat {
    if bytes == [] then 0 else ValueOf(bytes[..|bytes| - 1]) * 256 + bytes[|bytes| - 1]
  }

  lemma {:induction false} BigEndianRoundTrip(n: nat, width: nat)
    requires n < Pow256(width)
    ensures ValueOf(BigEndian(n, width)) == n
  {
    if width > 0 {
      BigEndianRoundTrip(n / 256, width - 1);
      var r := BigEndian(n, width);
      assert r[..width - 1] == BigEndian(n / 256, width - 1);
    }
  }

  /** `n` as `width` bytes, least significant first. */
  function LittleEndian(n: nat, width: nat): (r: Bytes)
    ensures |r| == width
  {
    if width == 0 then [] else [n % 256] + LittleEndian(n / 256, width - 1)
  }

  function LittleValueOf(bytes: Bytes): nat {
    if bytes == [] then 0 else bytes[0] + 256 * LittleValueOf(bytes[1..])
  }

  lemma {:induction false} LittleEndianRoundTrip(n: nat, width: nat)
    requires n < Pow256(width)
    ensures LittleValueOf(LittleEndian(n, width)) == n
  {
    if width > 0 { LittleEndianRoundTrip(n / 256, width - 1); }
  }

  /** Bytes are the bytes of their value. */
  lemma {:induction false} LittleValueRoundTrip(bytes: Bytes)
    ensures LittleEndian(LittleValueOf(bytes), |bytes|) == bytes && LittleValueOf(bytes) < Pow256(|bytes|)
    decreases |bytes|
  {
    if bytes != [] {
      LittleValueRoundTrip(bytes[1..]);
      assert bytes == [bytes[0]] + bytes[1..];
    }
  }

  /** The digit of `n` to base 256 that counts 256 to the `k`. */
  function Digit(n: nat, k: nat): Byte
    decreases k
  {
    if k == 0 then n % 256 else Digit(n / 256, k - 1)
  }

  /** Which byte comes first: the least significant one, or the most. */
  lemma {:induction false} ByteOrder(n: nat, width: nat, k: nat)
    requires k < width
    ensures LittleEndian(n, width)[k] == Digit(n, k)
    ensures BigEndian(n, width)[width - 1 - k] == Digit(n, k)
    decreases width
  {
    if k > 0 { ByteOrder(n / 256, width - 1, k - 1); }
  }

  // ---- Joining --------------------------------------------------------------

  function Join(chunks: seq<Bytes>): Bytes {
    if chunks == [] then [] else chunks[0] + Join(chunks[1..])
  }

  lemma {:induction false} JoinMore(chunks: seq<Bytes>, chunk: Bytes)
    ensures Join(chunks + [chunk]) == Join(chunks) + chunk
    decreases |chunks|
  {
    if chunks == [] {
      assert chunks + [chunk] == [chunk];
      assert Join([]) == [];
    } else {
      assert (chunks + [chunk])[1..] == chunks[1..] + [chunk];
      JoinMore(chunks[1..], chunk);
    }
  }
}
