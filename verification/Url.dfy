/** Percent-encoding with lazily created output. */
module Url {
  import opened Blocks
  import opened Fibers

  type Text = seq<Byte>

  const SPACE: Byte := 32
  const PLUS: Byte := 43
  const PERCENT: Byte := 37

  /** The table `uri_chars`: -.0123456789=A..Z_a..z~ */
  predicate Unreserved(c: Byte) {
    || c == 45 || c == 46 || 48 <= c <= 57 || c == 61 || 65 <= c <= 90 || c == 95 || 97 <= c <= 122 || c == 126
  }

  /** "0123456789ABCDEF"[n] */
  function HexDigit(n: nat): (c: Byte)
    requires n < 16
  {
    if n < 10 then 48 + n else 55 + n
  }

  predicate IsXDigit(c: Byte) {
    48 <= c <= 57 || 65 <= c <= 70 || 97 <= c <= 102
  }

  /** The table `xdigit_chars`. */
  function XDigit(c: Byte): nat {
    if 48 <= c <= 57 then c - 48
    else if 65 <= c <= 70 then c - 55
    else if 97 <= c <= 102 then c - 87
    else 0
  }

  // ------------------------------------------------------------ byte by byte

  function EncodeByte(c: Byte, plus: bool): Text {
    if Unreserved(c) then [c]
    else if c == SPACE && plus then [PLUS]
    else [PERCENT, HexDigit(c / 16), HexDigit(c % 16)]
  }

  function Encode(s: Text, plus: bool): Text {
    if s == [] then [] else EncodeByte(s[0], plus) + Encode(s[1..], plus)
  }

  /** An escape stands at the head of `s`. */
  predicate Escaped(s: Text) {
    |s| > 2 && s[0] == PERCENT && IsXDigit(s[1]) && IsXDigit(s[2])
  }

  function Unescape(s: Text): Byte
    requires Escaped(s)
  {
    XDigit(s[1]) * 16 + XDigit(s[2])
  }

  function Decode(s: Text, plus: bool): Text {
    if s == [] then []
    else if s[0] == PLUS && plus then [SPACE] + Decode(s[1..], plus)
    else if Escaped(s) then [Unescape(s)] + Decode(s[3..], plus)
    else [s[0]] + Decode(s[1..], plus)
  }

  // ------------------------------------------------------------ the loops

  lemma {:induction false} EncodeSnoc(s: Text, c: Byte, plus: bool)
    ensures Encode(s + [c], plus) == Encode(s, plus) + EncodeByte(c, plus)
  {
    if s == [] {
      EncodeFirst([c], plus);
      assert s + [c] == [c];
    } else {
      EncodeSnoc(s[1..], c, plus);
      EncodeFirst(s, plus);
      EncodeFirst(s + [c], plus);
      assert (s + [c])[1..] == s[1..] + [c];
      Regroup(EncodeByte(s[0], plus), Encode(s[1..], plus), EncodeByte(c, plus));
    }
  }

  lemma {:induction false} EncodeFirst(s: Text, plus: bool)
    requires s != []
    ensures Encode(s, plus) == EncodeByte(s[0], plus) + Encode(s[1..], plus)
    ensures |s| == 1 ==> Encode(s, plus) == EncodeByte(s[0], plus)
  {
    assert |s| == 1 ==> s[1..] == [];
  }

  /** What has been put out after `i` bytes of input: the input itself while there is no output buffer. */
  function Put(ss: Option<Text>, str: Text, i: nat): Text
    requires i <= |str|
  {
    if ss.None? then str[..i] else ss.value
  }

  /** One round of `UrlEncode`: the buffer is created at the first byte that needs escaping. */
  method EncodeRound(str: Text, i: nat, spaceAsPlus: bool, before: Option<Text>) returns (ss: Option<Text>)
    requires i < |str|
    ensures Put(ss, str, i + 1) == Put(before, str, i) + EncodeByte(str[i], spaceAsPlus)
  {
    ss := before;
    var c := str[i];
    if !Unreserved(c) {
      if ss.None? {
        ss := Some(str[..i]);
      }
      if c == SPACE && spaceAsPlus {
        ss := Some(ss.value + [PLUS]);
      } else {
        ss := Some(ss.value + [PERCENT, HexDigit(c / 16), HexDigit(c % 16)]);
      }
    } else if ss.Some? {
      ss := Some(ss.value + [c]);
    }
  }

  /** `UrlEncode`: the output is created only at the first byte that needs escaping. */
  method UrlEncode(str: Text, spaceAsPlus: bool) returns (rt: Text)
    ensures rt == Encode(str, spaceAsPlus)
  {
    var ss: Option<Text> := None;
    for i := 0 to |str|
      invariant Put(ss, str, i) == Encode(str[..i], spaceAsPlus)
    {
      EncodeSnoc(str[..i], str[i], spaceAsPlus);
      assert str[..i + 1] == str[..i] + [str[i]];
      ss := EncodeRound(str, i, spaceAsPlus, ss);
    }
    assert str[..|str|] == str;
    rt := if ss.None? then str else ss.value;
  }

  /** The byte that the decoder puts out at `i`, and how many it reads for it. */
  function DecodedByte(s: Text, i: nat, plus: bool): (Byte, nat)
    requires i < |s|
  {
    if s[i] == PLUS && plus then (SPACE, 1)
    else if Escaped(s[i..]) then (Unescape(s[i..]), 3)
    else (s[i], 1)
  }

  lemma {:induction false} DecodeStep(s: Text, i: nat, plus: bool, done: Text)
    requires i < |s|
    ensures var (c, n) := DecodedByte(s, i, plus);
            && i + n <= |s|
            && (done + [c]) + Decode(s[i + n..], plus) == done + Decode(s[i..], plus)
  {
    var t := s[i..];
    assert t[1..] == s[i + 1..];
    if Escaped(t) {
      assert t[3..] == s[i + 3..];
    }
  }

  /** One round of `UrlDecode`: the buffer is created at the first plus or escape. */
  method DecodeRound(str: Text, i: nat, spaceAsPlus: bool, before: Option<Text>) returns (ss: Option<Text>, next: nat)
    requires i < |str|
    ensures next == i + DecodedByte(str, i, spaceAsPlus).1 <= |str|
    ensures Put(ss, str, next) == Put(before, str, i) + [DecodedByte(str, i, spaceAsPlus).0]
  {
    ss, next := before, i + 1;
    var c := str[i];
    if c == PLUS && spaceAsPlus {
      if ss.None? {
        ss := Some(str[..i]);
      }
      ss := Some(ss.value + [SPACE]);
    } else if c == PERCENT && i + 2 < |str| && IsXDigit(str[i + 1]) && IsXDigit(str[i + 2]) {
      if ss.None? {
        ss := Some(str[..i]);
      }
      ss := Some(ss.value + [XDigit(str[i + 1]) * 16 + XDigit(str[i + 2])]);
      next := i + 3;
    } else if ss.Some? {
      ss := Some(ss.value + [c]);
    }
  }

  /** `UrlDecode`: the output is created only at the first plus or escape. */
  method UrlDecode(str: Text, spaceAsPlus: bool) returns (rt: Text)
    ensures rt == Decode(str, spaceAsPlus)
  {
    ghost var goal := Decode(str, spaceAsPlus);
    var ss: Option<Text> := None;
    var i: nat := 0;
    assert str[0..] == str;
    while i < |str|
      invariant i <= |str| && Put(ss, str, i) + Decode(str[i..], spaceAsPlus) == goal
    {
      DecodeStep(str, i, spaceAsPlus, Put(ss, str, i));
      ss, i := DecodeRound(str, i, spaceAsPlus, ss);
    }
    assert str[..i] == str && str[i..] == [];
    rt := if ss.None? then str else ss.value;
  }

  // ------------------------------------------------------------ character by character

  lemma {:induction false} HexDigits(n: nat)
    requires n < 16
    ensures HexDigit(n) == "0123456789ABCDEF"[n] as int
    ensures var c := "0123456789ABCDEF"[n] as int; IsXDigit(c) && XDigit(c) == n
    ensures var c := "0123456789abcdef"[n] as int; IsXDigit(c) && XDigit(c) == n
  {
  }

  /** What the encoder makes of the first byte: letters, digits and the marks - . = _ ~ stay, a space may
      become a plus sign, anything else a percent sign and two upper-case hex digits. */
  lemma {:induction false} EncodesExactly(c: Byte, rest: Text, plus: bool)
    ensures Encode([c] + rest, plus) ==
      (if 'a' as int <= c <= 'z' as int || 'A' as int <= c <= 'Z' as int || '0' as int <= c <= '9' as int
          || c == '-' as int || c == '.' as int || c == '=' as int || c == '_' as int || c == '~' as int
       then [c]
       else if c == ' ' as int && plus then ['+' as int]
       else ['%' as int, "0123456789ABCDEF"[c / 16] as int, "0123456789ABCDEF"[c % 16] as int])
      + Encode(rest, plus)
  {
    HexDigits(c / 16);
    HexDigits(c % 16);
    assert ([c] + rest)[1..] == rest;
  }

  /** An escape decodes to its byte, in upper, lower or mixed case. */
  lemma {:induction false} EscapeDecodes(c: Byte, high: Byte, low: Byte, rest: Text, plus: bool)
    requires high == "0123456789abcdef"[c / 16] as int || high == "0123456789ABCDEF"[c / 16] as int
    requires low == "0123456789abcdef"[c % 16] as int || low == "0123456789ABCDEF"[c % 16] as int
    ensures Decode(['%' as int, high, low] + rest, plus) == [c] + Decode(rest, plus)
  {
    HexDigits(c / 16);
    HexDigits(c % 16);
    var s := ['%' as int, high, low] + rest;
    assert Escaped(s) && s[3..] == rest;
  }

  /** Every other byte stands for itself, a percent sign that two hex digits do not follow included, except
      that a plus sign may stand for a space. */
  lemma {:induction false} OthersDecode(c: Byte, rest: Text, plus: bool)
    requires !(&& c == '%' as int && |rest| >= 2
               && ('0' as int <= rest[0] <= '9' as int || 'a' as int <= rest[0] <= 'f' as int || 'A' as int <= rest[0] <= 'F' as int)
               && ('0' as int <= rest[1] <= '9' as int || 'a' as int <= rest[1] <= 'f' as int || 'A' as int <= rest[1] <= 'F' as int))
    ensures Decode([c] + rest, plus) == [if c == '+' as int && plus then ' ' as int else c] + Decode(rest, plus)
  {
    var s := [c] + rest;
    assert s[1..] == rest && !Escaped(s);
  }

  // ------------------------------------------------------------ round trip

  /** What decoding with `q` makes of the encoding with `p`: spaces written as plus signs stay plus signs
      when the decoder does not expect them. */
  function Seen(s: Text, p: bool, q: bool): (r: Text)
    ensures |r| == |s|
    ensures forall i :: 0 <= i < |s| ==> r[i] == if s[i] == SPACE && p && !q then PLUS else s[i]
  {
    seq(|s|, i requires 0 <= i < |s| => if s[i] == SPACE && p && !q then PLUS else s[i])
  }

  lemma {:induction false} DecodeByte(c: Byte, rest: Text, p: bool, q: bool)
    ensures Decode(EncodeByte(c, p) + rest, q)
         == [if c == SPACE && p && !q then PLUS else c] + Decode(rest, q)
  {
    var e := EncodeByte(c, p);
    var t := e + rest;
    if |e| == 1 {
      assert t[1..] == rest;
    } else {
      assert Escaped(t) && Unescape(t) == c;
      assert t[3..] == rest;
    }
  }

  lemma {:induction false} DecodeEncode(s: Text, p: bool, q: bool)
    ensures Decode(Encode(s, p), q) == Seen(s, p, q)
  {
    if s != [] {
      DecodeByte(s[0], Encode(s[1..], p), p, q);
      DecodeEncode(s[1..], p, q);
    }
  }

  /** Decoding undoes encoding exactly when the decoder expects plus signs or none were written. */
  lemma {:induction false} RoundTripExactly(s: Text, p: bool, q: bool)
    ensures Decode(Encode(s, p), q) == s <==> ((p ==> q) || SPACE !in s)
  {
    DecodeEncode(s, p, q);
    if p && !q && SPACE in s {
      var i :| 0 <= i < |s| && s[i] == SPACE;
      assert Seen(s, p, q)[i] != s[i];
    }
  }

  /** An encoding holds nothing but unreserved characters, percent and plus signs. */
  lemma {:induction false} EncodedAlphabet(s: Text, plus: bool, c: Byte)
    requires c in Encode(s, plus)
    ensures Unreserved(c) || c == PERCENT || (c == PLUS && plus)
  {
    if c !in EncodeByte(s[0], plus) {
      EncodedAlphabet(s[1..], plus, c);
    }
  }
}
