/** The bytes of a frame, and the code that builds them. */
module FrameLayout {
  import opened Checksums
  import opened Polynomials
  import opened Framing

  /** What the bytes of a frame are: the two after the payload are those that make payload and them a
      multiple of x^16 + x^12 + x^5 + 1. */
  lemma FrameBytes(p: Payload, check: seq<Byte>)
    requires 1 <= |p| <= 512 && |check| == 2
    ensures |p| <= 255 ==> (Frame(p) == [2, |p|] + p + check + [3] <==> IsMultiple(p + check))
    ensures |p| > 255 ==> (Frame(p) == [3, |p| / 256, |p| % 256] + p + check + [3] <==> IsMultiple(p + check))
  {
    CrcIsRemainder(p, check);
    SameFrame(Header(|p|), p, Bytes(Crc(p)), check);
  }

  lemma SameFrame(header: seq<Byte>, p: Payload, a: seq<Byte>, b: seq<Byte>)
    requires |a| == |b|
    ensures header + (p + a) + [STOP] == header + p + b + [STOP] <==> a == b
  {
    var s, t := header + (p + a) + [STOP], header + p + b + [STOP];
    var n := |header| + |p|;
    assert s[n..n + |a|] == a && t[n..n + |b|] == b;
  }

  lemma FrameCheck(p: Payload) returns (check: seq<Byte>)
    requires 1 <= |p| <= 512
    ensures |check| == 2 && IsMultiple(p + check)
    ensures |p| <= 255 ==> Frame(p) == [2, |p|] + p + check + [3]
    ensures |p| > 255 ==> Frame(p) == [3, |p| / 256, |p| % 256] + p + check + [3]
  {
    check := Bytes(Crc(p));
    CrcIsRemainder(p, check);
    FrameBytes(p, check);
  }

  /** The frame of a payload of 1 to 512 bytes, and nothing otherwise. */
  method BuildFrame(p: Payload) returns (out: seq<Byte>)
    ensures out == Frame(p)
    ensures |p| == 0 || |p| > 512 ==> out == []
    ensures 1 <= |p| <= 255 ==>
              exists check :: |check| == 2 && IsMultiple(p + check) && out == [2, |p|] + p + check + [3]
    ensures 255 < |p| <= 512 ==>
              exists check :: |check| == 2 && IsMultiple(p + check)
                              && out == [3, |p| / 256, |p| % 256] + p + check + [3]
  {
    var n := |p|;
    if n == 0 || n > 512 {
      return [];
    }
    out := [];
    if n <= 255 {
      out := out + [0x02];
      out := out + [n];
    } else {
      out := out + [0x03];
      out := out + [n / 256];
      out := out + [n % 256];
    }
    assert out == Header(n);
    out := out + p;
    var crc := Checksum(p);
    out := out + [ByteOf(crc[..8])];
    out := out + [ByteOf(crc[8..])];
    assert out == Header(n) + (p + Bytes(crc));
    out := out + [0x03];
    ghost var check := FrameCheck(p);
  }
}
