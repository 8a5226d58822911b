/** Sizes of base64 attachments: the length computed without decoding, and the two size checks. */
module Attachment {

  type Byte = n: nat | n < 256

  function Letter(v: nat): (c: char)
    requires v < 64
    ensures c != '='
  {
    if v < 26 then 'A' + v as char
    else if v < 52 then 'a' + (v - 26) as char
    else if v < 62 then '0' + (v - 52) as char
    else if v == 62 then '+' else '/'
  }

  /** The alphabet of RFC 4648 section 4. */
  lemma Alphabet(v: nat)
    requires v < 64
    ensures v < 26 ==> 'A' <= Letter(v) <= 'Z' && Letter(v) as int - 'A' as int == v
    ensures 26 <= v < 52 ==> 'a' <= Letter(v) <= 'z' && Letter(v) as int - 'a' as int == v - 26
    ensures 52 <= v < 62 ==> '0' <= Letter(v) <= '9' && Letter(v) as int - '0' as int == v - 52
    ensures Letter(62) == '+' && Letter(63) == '/'
  {
  }

  // Four letters for one to three bytes.
  function Group(bs: seq<Byte>): string
    requires 1 <= |bs| <= 3
  {
    if |bs| == 1 then [Letter(bs[0] / 4), Letter(bs[0] % 4 * 16), '=', '=']
    else if |bs| == 2 then
      [Letter(bs[0] / 4), Letter(bs[0] % 4 * 16 + bs[1] / 16), Letter(bs[1] % 16 * 4), '=']
    else
      [Letter(bs[0] / 4), Letter(bs[0] % 4 * 16 + bs[1] / 16), Letter(bs[1] % 16 * 4 + bs[2] / 64), Letter(bs[2] % 64)]
  }

  /** Four letters carry the bits of three bytes, the missing ones as zeros. */
  lemma GroupBits(bs: seq<Byte>, x: nat, y: nat, z: nat, a: nat, b: nat, c: nat, d: nat)
    requires 1 <= |bs| <= 3 && a < 64 && b < 64 && c < 64 && d < 64
    requires x == bs[0] && y == (if |bs| > 1 then bs[1] else 0) && z == if |bs| > 2 then bs[2] else 0
    requires ((a * 64 + b) * 64 + c) * 64 + d == (x * 256 + y) * 256 + z
    ensures Group(bs) ==
            [Letter(a), Letter(b), if |bs| > 1 then Letter(c) else '=', if |bs| > 2 then Letter(d) else '=']
  {
    assert a == x / 4 && b == x % 4 * 16 + y / 16;
    assert c == y % 16 * 4 + z / 64 && d == z % 64;
  }

  /** Padded base64, RFC 4648 section 4. */
  function Encoded(bs: seq<Byte>): string {
    if bs == [] then ""
    else if |bs| <= 3 then Group(bs)
    else Group(bs[..3]) + Encoded(bs[3..])
  }

  function TrailingPads(s: string): nat {
    if s != "" && s[|s| - 1] == '=' then 1 + TrailingPads(s[..|s| - 1]) else 0
  }

  /** The manager's length of the decoded bytes. */
  function DecodedLength(s: string): int {
    if s == "" then 0 else |s| / 4 * 3 - TrailingPads(s)
  }

  lemma GroupShape(bs: seq<Byte>)
    requires 1 <= |bs| <= 3
    ensures |Group(bs)| == 4 && TrailingPads(Group(bs)) == 3 - |bs|
  {
    var s := Group(bs);
    var t, u := s[..3], s[..2];
    assert t[..2] == u && s[1] != '=' && TrailingPads(u) == 0;
    if |bs| < 3 {
      assert TrailingPads(t) == if |bs| == 1 then 1 else 0;
    }
  }

  lemma {:induction false} PadsOfTail(s: string, t: string)
    requires TrailingPads(t) < |t|
    ensures TrailingPads(s + t) == TrailingPads(t)
    decreases |t|
  {
    if t[|t| - 1] == '=' {
      PadsOfTail(s, t[..|t| - 1]);
      assert (s + t)[..|s + t| - 1] == s + t[..|t| - 1];
    }
  }

  function Groups(n: nat): nat { if n == 0 then 0 else if n <= 3 then 1 else 1 + Groups(n - 3) }

  lemma {:induction false} Shape(bs: seq<Byte>)
    requires bs != []
    ensures |Encoded(bs)| == 4 * Groups(|bs|) && TrailingPads(Encoded(bs)) <= 2
    ensures 3 * Groups(|bs|) - TrailingPads(Encoded(bs)) == |bs|
  {
    if |bs| <= 3 {
      GroupShape(bs);
    } else {
      var rest := Encoded(bs[3..]);
      Shape(bs[3..]);
      GroupShape(bs[..3]);
      PadsOfTail(Group(bs[..3]), rest);
      assert |Encoded(bs)| == 4 + |rest|;
    }
  }

  lemma Quarter(length: nat, q: nat)
    requires length == 4 * q
    ensures length / 4 * 3 == 3 * q
  {
  }

  /** For every byte string, the length computed from its base64 text is its length. */
  lemma LengthWithoutDecoding(bs: seq<Byte>)
    ensures DecodedLength(Encoded(bs)) == |bs|
  {
    if bs != [] {
      Shape(bs);
      Quarter(|Encoded(bs)|, Groups(|bs|));
    }
  }

  const MAX_ATTACHMENT_BYTES := 25 * 1024 * 1024

  /** The worker's two checks: before decoding, and on the decoded bytes. */
  predicate Accepted(text: string, bytes: seq<Byte>, max: nat) {
    |text| / 4 * 3 <= max && |bytes| <= max
  }

  lemma WithinThirds(g: nat, pads: nat, n: nat, max: nat, k: nat)
    requires 3 * g - pads == n && pads <= 2 && 3 * k <= max < 3 * k + 3
    ensures 3 * g <= max <==> n <= 3 * k
  {
    assert 3 * g <= max <==> g <= k;
  }

  /** Together they accept exactly the payloads of at most 3 * floor(max / 3) bytes. */
  lemma AcceptedIff(bs: seq<Byte>, max: nat, k: nat)
    requires 3 * k <= max < 3 * k + 3
    ensures Accepted(Encoded(bs), bs, max) <==> |bs| <= 3 * k
  {
    if bs == [] {
      assert Encoded(bs) == "";
    } else {
      Shape(bs);
      Quarter(|Encoded(bs)|, Groups(|bs|));
      WithinThirds(Groups(|bs|), TrailingPads(Encoded(bs)), |bs|, max, k);
    }
  }

  /** So of the limit of 25 MiB the last byte is not to be had. */
  lemma LimitMissesOneByte(bs: seq<Byte>)
    ensures Accepted(Encoded(bs), bs, MAX_ATTACHMENT_BYTES) <==> |bs| < MAX_ATTACHMENT_BYTES
  {
    AcceptedIff(bs, MAX_ATTACHMENT_BYTES, 8738133);
  }
}
