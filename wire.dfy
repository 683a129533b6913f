/** Primitive wire types of the AMQP 0-8 client: bytes, fixed-width unsigned
    integers, the errors the codec and the connection raise, and the
    big-endian integer encoding used by every fixed-width field. */
module Wire {

  type byte = x: int | 0 <= x < 0x100
  type u16 = x: int | 0 <= x < 0x1_0000
  type u32 = x: int | 0 <= x < 0x1_0000_0000
  type u64 = x: int | 0 <= x < 0x1_0000_0000_0000_0000

  /** The exceptions the Python client raises, as values. */
  datatype Error =
    | Truncated                  // struct.error: a fixed-width field met the end of the input
    | StringTooLong              // ValueError('String too long') from write_shortstr
    | OutOfRange                 // struct.error from pack: a length does not fit its field
    | UnsupportedTag(tag: seq<byte>)  // read_table met a type tag other than 'S' or 'F'
    | FramingError(found: byte)  // the byte after a frame's payload is not 0xCE
    | MethodFrameTooShort        // a method frame payload shorter than 4 bytes
    | NoSuchChannel(channel: u16) // KeyError: no Channel registered under that id
    | NoTransport                // AttributeError: input/out were set to None

  datatype Result<T> = Ok(value: T) | Err(error: Error) {
    predicate IsFailure() { Err? }
    function PropagateFailure<U>(): Result<U> requires Err? { Err(error) }
    function Extract(): T requires Ok? { value }
  }

  datatype Option<T> = None | Some(value: T)

  datatype Outcome = Pass | Fail(error: Error) {
    predicate IsFailure() { Fail? }
    function PropagateFailure(): Outcome requires Fail? { this }
  }

  function Min(a: int, b: int): int { if a <= b then a else b }

  /** What read(n) returns from a file-like object positioned at from: at
      most n bytes, fewer at the end. */
  function Slice(s: seq<byte>, from: nat, n: nat): (r: seq<byte>)
    requires from <= |s|
  {
    s[from..Min(from + n, |s|)]
  }

  /** The ASCII text s as bytes (every literal used by the client is ASCII). */
  function Ascii(s: string): (r: seq<byte>)
    ensures |r| == |s|
  {
    seq(|s|, i requires 0 <= i < |s| => (s[i] as int) % 0x100)
  }

  function Pow256(w: nat): (r: nat)
    ensures r >= 1
  {
    if w == 0 then 1 else 0x100 * Pow256(w - 1)
  }

  lemma Pow256Widths()
    ensures Pow256(1) == 0x100 && Pow256(2) == 0x1_0000
    ensures Pow256(4) == 0x1_0000_0000 && Pow256(8) == 0x1_0000_0000_0000_0000
  {
  }

  /** struct.pack('>B'/'>H'/'>I'/'>Q', n): n as w bytes, most significant first. */
  function EncodeUInt(n: nat, w: nat): (r: seq<byte>)
    requires n < Pow256(w)
    ensures |r| == w
  {
    if w == 0 then [] else EncodeUInt(n / 0x100, w - 1) + [n % 0x100]
  }

  /** struct.unpack of the same formats: the bytes of s read most significant first. */
  function DecodeUInt(s: seq<byte>): (r: nat)
    ensures r < Pow256(|s|)
  {
    if s == [] then 0
    else
      var hi := DecodeUInt(s[..|s| - 1]);
      assert hi * 0x100 + s[|s| - 1] < Pow256(|s|) by {
        assert hi <= Pow256(|s| - 1) - 1;
        assert hi * 0x100 <= Pow256(|s| - 1) * 0x100 - 0x100;
      }
      hi * 0x100 + s[|s| - 1]
  }

  function U16(n: u16): (r: seq<byte>) ensures |r| == 2 { Pow256Widths(); EncodeUInt(n, 2) }
  function U32(n: u32): (r: seq<byte>) ensures |r| == 4 { Pow256Widths(); EncodeUInt(n, 4) }
  function U64(n: u64): (r: seq<byte>) ensures |r| == 8 { Pow256Widths(); EncodeUInt(n, 8) }

  /** Reading back what was written gives the original integer. */
  lemma {:induction false} DecodeEncode(n: nat, w: nat)
    requires n < Pow256(w)
    ensures DecodeUInt(EncodeUInt(n, w)) == n
  {
    if w > 0 {
      var e := EncodeUInt(n, w);
      assert e[..w - 1] == EncodeUInt(n / 0x100, w - 1);
      DecodeEncode(n / 0x100, w - 1);
    }
  }

  /** Writing back what was read gives the original bytes: no two byte
      strings of one width decode to the same integer. */
  lemma {:induction false} EncodeDecode(s: seq<byte>)
    ensures EncodeUInt(DecodeUInt(s), |s|) == s
  {
    if s != [] {
      var k := |s| - 1;
      var n := DecodeUInt(s);
      assert n / 0x100 == DecodeUInt(s[..k]) && n % 0x100 == s[k];
      EncodeDecode(s[..k]);
      assert s == s[..k] + [s[k]];
    }
  }

  /** Byte i of the w-byte encoding of n is digit w-1-i of n in base 256:
      the encoding is big-endian. */
  lemma {:induction false} EncodeUIntDigit(n: nat, w: nat, i: nat)
    requires n < Pow256(w) && i < w
    ensures EncodeUInt(n, w)[i] == (n / Pow256(w - 1 - i)) % 0x100
  {
    if i < w - 1 {
      EncodeUIntDigit(n / 0x100, w - 1, i);
      DivDiv(n, 0x100, Pow256(w - 2 - i));
    }
  }

  /** Dividing by a and then by p is dividing by a * p. */
  lemma DivDiv(n: nat, a: nat, p: nat)
    requires a >= 1 && p >= 1
    ensures n / a / p == n / (a * p)
  {
    var q := n / (a * p);
    var r := n % (a * p);
    var r1, r0 := r / a, r % a;
    assert r == a * r1 + r0;
    if r1 >= p {
      MulMono(a, p, r1);
    }
    assert n == a * (p * q + r1) + r0 by {
      assert n == (a * p) * q + r;
      assert (a * p) * q == a * (p * q);
    }
    DivUnique(n, a, p * q + r1, r0);
    DivUnique(p * q + r1, p, q, r1);
  }

  lemma DivUnique(n: int, d: int, a: int, b: int)
    requires d > 0 && 0 <= b < d && n == d * a + b
    ensures n / d == a
  {
    var q, r := n / d, n % d;
    assert n == d * q + r;
    if q > a {
      MulMono(d, a + 1, q);
    } else if q < a {
      MulMono(d, q + 1, a);
    }
  }

  lemma MulMono(d: int, x: int, y: int)
    requires d > 0 && x <= y
    ensures d * x <= d * y
  {
    assert d * y - d * x == d * (y - x);
  }
}
