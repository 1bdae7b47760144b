/**
 * Output files. A binary file is a sequence of 4-byte values and single name
 * bytes; a text file is a sequence of the pieces its writer streams out.
 * Float-to-byte encoding and number formatting are not modelled: each value
 * is kept as the number it encodes.
 */
module Streams {

  /** One write of the binary branch. */
  datatype Token = Int32(i: int) | Float32(f: real) | Byte(c: char)

  function TokenBytes(t: Token): nat {
    if t.Byte? then 1 else 4
  }

  /** Size in bytes of a binary stream. */
  function ByteLength(ts: seq<Token>): nat {
    if ts == [] then 0 else ByteLength(ts[..|ts| - 1]) + TokenBytes(ts[|ts| - 1])
  }

  lemma {:induction false} ByteLengthAppend(a: seq<Token>, b: seq<Token>)
    ensures ByteLength(a + b) == ByteLength(a) + ByteLength(b)
    decreases |b|
  {
    if b == [] {
      assert a + b == a;
    } else {
      var b' := b[..|b| - 1];
      assert (a + b)[..|a + b| - 1] == a + b';
      ByteLengthAppend(a, b');
    }
  }

  /**
   * A writer that has produced `acc` since `start` and then appends `chunk`
   * has produced `acc'` when `acc'` is `acc` followed by `chunk`.
   */
  lemma Grows<T>(start: seq<T>, acc: seq<T>, before: seq<T>, chunk: seq<T>, acc': seq<T>, after: seq<T>)
    requires before == start + acc && after == before + chunk && acc' == acc + chunk
    ensures after == start + acc'
  {
  }

  /** Six writes one after the other add their concatenation. */
  lemma Append6<T>(o: seq<T>, a: seq<T>, b: seq<T>, c: seq<T>, d: seq<T>, e: seq<T>, f: seq<T>)
    ensures o + a + b + c + d + e + f == o + (a + b + c + d + e + f)
  {
  }

  /** One `file << x` of a text stream: a number, or literal text. */
  datatype Piece = IntText(i: int) | RealText(x: real) | Lit(s: string)

  /** What one `path` holds after a writer ran. */
  datatype File<T> = Binary(tokens: seq<Token>) | Ascii(text: seq<T>)

  /** An `std::ofstream`: what has been written so far. */
  class Stream<T> {
    var items: seq<T>

    constructor ()
      ensures items == []
    {
      items := [];
    }

    method Write(x: T)
      modifies this
      ensures items == old(items) + [x]
    {
      items := items + [x];
    }

    /** One `write` of a whole buffer. */
    method WriteAll(xs: seq<T>)
      modifies this
      ensures items == old(items) + xs
    {
      items := items + xs;
    }
  }
}
