/** Query parameters of a request path. Bytes are written as characters. */
module Query {
  import opened Wrappers

  // ---------- percent escapes ----------

  function HexDigit(c: char): Option<nat> {
    if '0' <= c <= '9' then Some(c as nat - '0' as nat)
    else if 'a' <= c <= 'f' then Some(c as nat - 'a' as nat + 10)
    else if 'A' <= c <= 'F' then Some(c as nat - 'A' as nat + 10)
    else None
  }

  /** The sixteen digits, in either case, and nothing else. */
  lemma HexDigits(c: char, v: nat)
    requires v < 16
    ensures HexDigit("0123456789abcdef"[v]) == Some(v) && HexDigit("0123456789ABCDEF"[v]) == Some(v)
    ensures HexDigit(c).Some? ==> c in "0123456789abcdefABCDEF" && HexDigit(c).value < 16
  {
    if '0' <= c <= '9' {
      assert "0123456789abcdefABCDEF"[c as nat - '0' as nat] == c;
    } else if 'a' <= c <= 'f' {
      assert "0123456789abcdefABCDEF"[c as nat - 'a' as nat + 10] == c;
    } else if 'A' <= c <= 'F' {
      assert "0123456789abcdefABCDEF"[c as nat - 'A' as nat + 16] == c;
    }
  }

  // Rust's `from_str_radix` for a byte, which also takes a leading plus sign.
  function HexByte(a: char, b: char): Option<char> {
    if HexDigit(b).None? then None
    else if a == '+' then Some(HexDigit(b).value as char)
    else if HexDigit(a).None? then None
    else Some((HexDigit(a).value * 16 + HexDigit(b).value) as char)
  }

  predicate IsEscape(s: string) {
    |s| > 2 && s[0] == '%' && HexByte(s[1], s[2]).Some?
  }

  function Decoded(s: string): string {
    if s == "" then ""
    else if IsEscape(s) then [HexByte(s[1], s[2]).value] + Decoded(s[3..])
    else [if s[0] == '+' then ' ' else s[0]] + Decoded(s[1..])
  }

  lemma EscapeAt(s: string, i: nat)
    requires i < |s|
    ensures IsEscape(s[i..]) <==> s[i] == '%' && i + 2 < |s| && HexByte(s[i + 1], s[i + 2]).Some?
    ensures IsEscape(s[i..]) ==> Decoded(s[i..]) == [HexByte(s[i + 1], s[i + 2]).value] + Decoded(s[i + 3..])
    ensures !IsEscape(s[i..]) ==> Decoded(s[i..]) == [if s[i] == '+' then ' ' else s[i]] + Decoded(s[i + 1..])
  {
    assert s[i..][1..] == s[i + 1..];
    if i + 2 < |s| {
      assert s[i..][3..] == s[i + 3..];
    }
  }

  lemma Regroup(out: string, b: char, rest: string)
    ensures out + ([b] + rest) == out + [b] + rest
  {
  }

  method PercentDecode(s: string) returns (out: string)
    ensures out == Decoded(s)
  {
    out := "";
    var i := 0;
    while i < |s|
      invariant i <= |s| && out + Decoded(s[i..]) == Decoded(s)
    {
      EscapeAt(s, i);
      if s[i] == '%' && i + 2 < |s| {
        var b := HexByte(s[i + 1], s[i + 2]);
        if b.Some? {
          Regroup(out, b.value, Decoded(s[i + 3..]));
          out := out + [b.value];
          i := i + 3;
          continue;
        }
      }
      var c := if s[i] == '+' then ' ' else s[i];
      Regroup(out, c, Decoded(s[i + 1..]));
      out := out + [c];
      i := i + 1;
    }
  }

  /** `text` is some percent-encoding of `bytes`: each byte stands for itself or is escaped, in
      either case of letters; a space may be a plus sign; '%', '+' and '&' must be escaped. */
  predicate Encodes(text: string, bytes: string)
    decreases |text|
  {
    if bytes == "" then text == ""
    else
      || (text != "" && text[0] == bytes[0] && text[0] !in "%+&" && Encodes(text[1..], bytes[1..]))
      || (text != "" && text[0] == '+' && bytes[0] == ' ' && Encodes(text[1..], bytes[1..]))
      || (|text| > 2 && text[0] == '%' && HexDigit(text[1]).Some? && HexDigit(text[2]).Some?
          && bytes[0] == (HexDigit(text[1]).value * 16 + HexDigit(text[2]).value) as char
          && Encodes(text[3..], bytes[1..]))
  }

  /** Decoding inverts every encoding, byte for byte. */
  lemma {:induction false} DecodesBack(text: string, bytes: string)
    requires Encodes(text, bytes)
    ensures Decoded(text) == bytes
    decreases |text|
  {
    if bytes != "" {
      assert bytes == [bytes[0]] + bytes[1..];
      if text[0] == '%' {
        DecodesBack(text[3..], bytes[1..]);
      } else {
        DecodesBack(text[1..], bytes[1..]);
      }
    }
  }

  /** Every byte in two capital digits. */
  function AllEscaped(bytes: string): string
    requires forall c <- bytes :: c < 256 as char
  {
    if bytes == "" then ""
    else
      assert bytes[0] in bytes && forall c <- bytes[1..] :: c in bytes;
      var v := bytes[0] as nat;
      "%" + ["0123456789ABCDEF"[v / 16], "0123456789ABCDEF"[v % 16]] + AllEscaped(bytes[1..])
  }

  /** So every byte string has an encoding, and it decodes back. */
  lemma {:induction false} EveryTextEncodes(bytes: string)
    requires forall c <- bytes :: c < 256 as char
    ensures Encodes(AllEscaped(bytes), bytes) && Decoded(AllEscaped(bytes)) == bytes
  {
    if bytes != "" {
      assert bytes[0] in bytes && forall c <- bytes[1..] :: c in bytes;
      EveryTextEncodes(bytes[1..]);
      OneEscaped(bytes, AllEscaped(bytes[1..]));
    }
    DecodesBack(AllEscaped(bytes), bytes);
  }

  lemma OneEscaped(bytes: string, rest: string)
    requires bytes != "" && bytes[0] < 256 as char && Encodes(rest, bytes[1..])
    ensures var v := bytes[0] as nat;
            Encodes("%" + ["0123456789ABCDEF"[v / 16], "0123456789ABCDEF"[v % 16]] + rest, bytes)
  {
    var v := bytes[0] as nat;
    var text := "%" + ["0123456789ABCDEF"[v / 16], "0123456789ABCDEF"[v % 16]] + rest;
    HexDigits('0', v / 16);
    HexDigits('0', v % 16);
    assert text[3..] == rest;
  }

  lemma {:induction false} NoSeparator(text: string, bytes: string)
    requires Encodes(text, bytes)
    ensures '&' !in text
    decreases |text|
  {
    if bytes != "" {
      if text[0] == '%' {
        NoSeparator(text[3..], bytes[1..]);
        assert text == text[..3] + text[3..] && HexDigit(text[1]).Some? && HexDigit(text[2]).Some?;
        assert forall i :: 0 <= i < 3 ==> text[i] != '&';
      } else {
        NoSeparator(text[1..], bytes[1..]);
        assert text == [text[0]] + text[1..];
      }
    }
  }

  // ---------- finding a parameter ----------

  /** Rust's split('&'): at least one part. */
  function Parts(query: string): (parts: seq<string>)
    ensures |parts| >= 1
  {
    if query == "" then [""]
    else if query[0] == '&' then [""] + Parts(query[1..])
    else
      var rest := Parts(query[1..]);
      [[query[0]] + rest[0]] + rest[1..]
  }

  predicate Carries(part: string, key: string) { key + "=" <= part }

  function FirstValue(parts: seq<string>, key: string): Option<string> {
    if parts == [] then None
    else if Carries(parts[0], key) then
      var v := parts[0][|key| + 1..];
      if v == "" then None else Some(Decoded(v))
    else FirstValue(parts[1..], key)
  }

  method ParseQueryParam(query: string, key: string) returns (r: Option<string>)
    ensures r == FirstValue(Parts(query), key)
  {
    var parts, prefix := Parts(query), key + "=";
    for i := 0 to |parts|
      invariant FirstValue(parts, key) == FirstValue(parts[i..], key)
    {
      assert parts[i..][1..] == parts[i + 1..];
      if prefix <= parts[i] {
        var v := parts[i][|prefix|..];
        if v == "" { return None; }
        var decoded := PercentDecode(v);
        return Some(decoded);
      }
    }
    return None;
  }

  // ---------- reading back what was written ----------

  datatype Param = Param(key: string, value: string, text: string)

  // The key is plain, and `text` is an encoding of the value.
  predicate Printable(p: Param) {
    '&' !in p.key && '=' !in p.key && Encodes(p.text, p.value)
  }

  function Printed(params: seq<Param>): string
    requires params != []
  {
    var first := params[0].key + "=" + params[0].text;
    if |params| == 1 then first else first + "&" + Printed(params[1..])
  }

  lemma {:induction false} PartsPrefixed(part: string, rest: string)
    requires '&' !in part
    ensures Parts(part) == [part] && Parts(part + "&" + rest) == [part] + Parts(rest)
  {
    if part == "" {
      assert ("&" + rest)[1..] == rest;
      assert part + "&" + rest == "&" + rest;
    } else {
      PartsPrefixed(part[1..], rest);
      assert (part + "&" + rest)[1..] == part[1..] + "&" + rest;
      assert part == [part[0]] + part[1..];
    }
  }

  function PrintedParts(params: seq<Param>): seq<string> {
    seq(|params|, i requires 0 <= i < |params| => params[i].key + "=" + params[i].text)
  }

  lemma {:induction false} PartsOfPrinted(params: seq<Param>)
    requires params != [] && forall p <- params :: Printable(p)
    ensures Parts(Printed(params)) == PrintedParts(params)
  {
    var p := params[0];
    var part := p.key + "=" + p.text;
    assert p in params;
    NoSeparator(p.text, p.value);
    if |params| == 1 {
      PartsPrefixed(part, "");
    } else {
      PartsOfPrinted(params[1..]);
      PartsPrefixed(part, Printed(params[1..]));
      assert [part] + PrintedParts(params[1..]) == PrintedParts(params);
    }
  }

  function FirstEquals(s: string): nat {
    if s == "" || s[0] == '=' then 0 else 1 + FirstEquals(s[1..])
  }

  lemma {:induction false} FirstEqualsAt(k: string, text: string)
    requires '=' !in k
    ensures FirstEquals(k + "=" + text) == |k|
  {
    if k != "" {
      FirstEqualsAt(k[1..], text);
      assert (k + "=" + text)[1..] == k[1..] + "=" + text;
    }
  }

  lemma KeyOfPart(k: string, text: string, key: string)
    requires '=' !in k && '=' !in key
    ensures Carries(k + "=" + text, key) <==> k == key
    ensures k == key ==> (k + "=" + text)[|key| + 1..] == text
  {
    var part := k + "=" + text;
    FirstEqualsAt(k, text);
    if Carries(part, key) {
      var tail := part[|key| + 1..];
      assert part == key + "=" + tail;
      FirstEqualsAt(key, tail);
      assert k == part[..|k|] && key == part[..|key|];
    }
  }

  /** What a list of parameters says about a key: the first value under it, if not empty. */
  function Wanted(params: seq<Param>, key: string): Option<string> {
    if params == [] then None
    else if params[0].key == key then if params[0].value == "" then None else Some(params[0].value)
    else Wanted(params[1..], key)
  }

  lemma {:induction false} FirstValueWanted(params: seq<Param>, key: string)
    requires '=' !in key && forall p <- params :: Printable(p)
    ensures FirstValue(PrintedParts(params), key) == Wanted(params, key)
  {
    if params != [] {
      var p := params[0];
      assert PrintedParts(params)[1..] == PrintedParts(params[1..]);
      assert p in params;
      KeyOfPart(p.key, p.text, key);
      FirstValueWanted(params[1..], key);
      DecodesBack(p.text, p.value);
    }
  }

  /** Any printed list of parameters reads back: the result is the first value under the key,
      unless the key is missing or that value is empty. */
  lemma QueryReadsBack(params: seq<Param>, key: string)
    requires params != [] && '=' !in key && forall p <- params :: Printable(p)
    ensures FirstValue(Parts(Printed(params)), key) == Wanted(params, key)
  {
    PartsOfPrinted(params);
    FirstValueWanted(params, key);
  }

  predicate HexPair(s: string) {
    |s| > 2 && HexDigit(s[1]).Some? && HexDigit(s[2]).Some?
  }

  // What `from_str_radix` takes for a signed number.
  predicate SignedHex(s: string) {
    |s| > 2 && s[1] == '+' && HexDigit(s[2]).Some?
  }

  lemma EscapeShape(s: string)
    requires s != "" && s[0] == '%'
    ensures IsEscape(s) <==> HexPair(s) || SignedHex(s)
    ensures SignedHex(s) ==> HexByte(s[1], s[2]).value < 16 as char
  {
  }

  lemma PassesIffNoEscape(s: string)
    requires s != "" && (IsEscape(s) ==> HexByte(s[1], s[2]).value != s[0]) && s[0] != '+'
    ensures Decoded(s) == [s[0]] + Decoded(s[1..]) <==> !IsEscape(s)
  {
    if IsEscape(s) {
      assert Decoded(s)[0] == HexByte(s[1], s[2]).value;
      assert ([s[0]] + Decoded(s[1..]))[0] == s[0];
    }
  }

  /** A percent sign that starts no escape of two hexadecimal digits passes through as it is,
      except exactly when a plus sign and a hexadecimal digit follow: those three are one byte. */
  lemma MalformedPassesIff(s: string)
    requires s != "" && s[0] == '%' && !HexPair(s)
    ensures Decoded(s) == [s[0]] + Decoded(s[1..]) <==> !SignedHex(s)
  {
    EscapeShape(s);
    PassesIffNoEscape(s);
  }

  /** What the comment promises: only a percent sign before two hexadecimal digits is an escape. */
  function Promised(s: string): string {
    if s == "" then ""
    else if s[0] == '%' && HexPair(s) then [HexByte(s[1], s[2]).value] + Promised(s[3..])
    else [if s[0] == '+' then ' ' else s[0]] + Promised(s[1..])
  }

  predicate SignedAt(s: string, i: nat) {
    i + 2 < |s| && s[i] == '%' && s[i + 1] == '+' && HexDigit(s[i + 2]).Some?
  }

  // The first k characters start no signed escape, so one further on decides.
  lemma SignedFurtherOn(s: string, k: nat)
    requires k <= |s| && forall i: nat :: i < k ==> !SignedAt(s, i)
    ensures (exists i: nat :: SignedAt(s, i)) <==> exists i: nat :: SignedAt(s[k..], i)
  {
    forall i: nat | SignedAt(s, i) ensures SignedAt(s[k..], i - k) {
      assert i >= k;
    }
    forall i: nat | SignedAt(s[k..], i) ensures SignedAt(s, i + k) {
    }
  }

  /** The whole text decodes as promised iff nowhere in it a percent sign, a plus sign and a
      hexadecimal digit stand in a row. */
  lemma {:induction false} DecodedAsPromisedIff(s: string)
    ensures Decoded(s) == Promised(s) <==> !exists i: nat :: SignedAt(s, i)
    decreases |s|
  {
    if s != "" && SignedAt(s, 0) {
      EscapeShape(s);
      assert Decoded(s)[0] != Promised(s)[0];
    } else if s != "" {
      var k := if s[0] == '%' && HexPair(s) then 3 else 1;
      SignedFurtherOn(s, k);
      DecodedAsPromisedIff(s[k..]);
      assert Decoded(s)[1..] == Decoded(s[k..]) && Promised(s)[1..] == Promised(s[k..]);
    }
  }

  /** Such an input. */
  lemma SignedEscape()
    ensures Decoded("%+5") == [5 as char] != Promised("%+5")
  {
    DecodedAsPromisedIff("%+5");
    assert SignedAt("%+5", 0) && "%+5"[3..] == "";
  }
}
