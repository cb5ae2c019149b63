/**
 * The start of a Candid message, as laid out in the "Binary Format" part of
 * the Candid specification: the magic number "DIDL", then the length of the
 * type table as an unsigned LEB128 number, the table's entries, and the
 * number of arguments as an unsigned LEB128 number, followed by the argument
 * types and values. This decoder is the reference the page script's constant
 * query message is checked against.
 */
module Candid {
  import opened Wrappers

  type byte = x: int | 0 <= x < 256

  /** The bytes of an ASCII text. */
  function AsciiBytes(s: string): (r: seq<byte>)
    requires forall i :: 0 <= i < |s| ==> s[i] as int < 128
    ensures |r| == |s|
  {
    seq(|s|, i requires 0 <= i < |s| => s[i] as int)
  }

  /** The magic number opening every message. */
  const Magic: seq<byte> := [68, 73, 68, 76]

  /** A number read from the front of a byte string, and the bytes after it. */
  datatype Decoded = Decoded(value: nat, rest: seq<byte>)

  /**
   * Reads one unsigned LEB128 number: seven bits per byte, least significant
   * group first, the high bit set on every byte but the last.
   */
  function ReadLeb128(bs: seq<byte>): (r: Option<Decoded>)
    ensures r.Some? ==> |r.value.rest| < |bs| && r.value.rest == bs[|bs| - |r.value.rest|..]
    decreases |bs|
  {
    if bs == [] then None
    else if bs[0] < 128 then Some(Decoded(bs[0], bs[1..]))
    else match ReadLeb128(bs[1..])
      case None => None
      case Some(d) => Some(Decoded(bs[0] - 128 + 128 * d.value, d.rest))
  }

  /** What the header of a message with an empty type table says. */
  datatype Header = Header(argCount: nat, args: seq<byte>)

  /**
   * Decodes the header of a message whose type table is empty: the argument
   * count and the bytes that follow it. Messages with a non-empty type table
   * are not decoded (None), and neither are malformed ones.
   */
  function DecodeHeader(bs: seq<byte>): (r: Option<Header>)
    ensures r.Some? ==> |bs| >= |Magic| + 2 && bs[..|Magic|] == Magic && |r.value.args| <= |bs| - |Magic| - 2
    ensures r.Some? ==> r.value.args == bs[|bs| - |r.value.args|..]
  {
    if |bs| < |Magic| || bs[..|Magic|] != Magic then None
    else match ReadLeb128(bs[|Magic|..])
      case None => None
      case Some(types) =>
        if types.value != 0 then None
        else match ReadLeb128(types.rest)
          case None => None
          case Some(count) => Some(Header(count.value, count.rest))
  }
}
