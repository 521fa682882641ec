/** UTF-8 as Python encodes and decodes it, strictly and with errors='replace'. */
module Utf8 {
  import opened Bytes
  import opened Maybe

  const REPLACEMENT: char := '\U{FFFD}'

  function EncodeChar(c: char): (bs: seq<byte>)
    ensures 1 <= |bs| <= 4
    ensures |bs| == 1 <==> c as int < 0x80
  {
    var n := c as int;
    if n < 0x80 then [n]
    else if n < 0x800 then [0xC0 + n / 64, Continuation(n)]
    else if n < 0x1_0000 then [0xE0 + n / 64 / 64, Continuation(n / 64), Continuation(n)]
    else [0xF0 + n / 64 / 64 / 64, Continuation(n / 64 / 64), Continuation(n / 64), Continuation(n)]
  }

  /** The byte that carries the low six bits. */
  function Continuation(n: nat): (b: byte)
    ensures IsContinuation(b)
  {
    0x80 + n % 64
  }

  /** `s.encode()`. */
  function Encode(s: string): seq<byte> {
    if s == [] then [] else EncodeChar(s[0]) + Encode(s[1..])
  }

  predicate IsContinuation(b: byte) {
    0x80 <= b < 0xC0
  }

  /** Whether b may follow the lead byte of a longer sequence; rules out overlong forms, surrogates
      and numbers above 0x10FFFF. */
  predicate MayFollow(lead: byte, b: byte) {
    && IsContinuation(b)
    && (lead == 0xE0 ==> b >= 0xA0) && (lead == 0xED ==> b < 0xA0)
    && (lead == 0xF0 ==> b >= 0x90) && (lead == 0xF4 ==> b < 0x90)
  }

  /** The first character of a byte string and how many bytes it takes. What is not valid is one
      replacement character for the longest part that could have begun a character. */
  datatype Unit = Unit(c: char, used: nat, valid: bool)

  function Bad(used: nat): Unit {
    Unit(REPLACEMENT, used, false)
  }

  /** Appends the six bits of a continuation byte. */
  function Scalar(high: nat, b: byte): (n: nat)
    requires IsContinuation(b)
    ensures n / 64 == high && Continuation(n) == b
  {
    64 * high + (b - 0x80)
  }

  function First(bs: seq<byte>): (u: Unit)
    requires bs != []
    ensures 1 <= u.used <= |bs|
    ensures u.used <= |EncodeChar(u.c)|
    ensures u.valid ==> EncodeChar(u.c) <= bs && u.used == |EncodeChar(u.c)|
  {
    if bs[0] < 0x80 then Unit(bs[0] as char, 1, true)
    else if 0xC2 <= bs[0] < 0xE0 then First2(bs)
    else if 0xE0 <= bs[0] < 0xF0 then First3(bs)
    else if 0xF0 <= bs[0] < 0xF5 then First4(bs)
    else Bad(1)
  }

  function First2(bs: seq<byte>): (u: Unit)
    requires bs != [] && 0xC2 <= bs[0] < 0xE0
    ensures 1 <= u.used <= |bs|
    ensures u.used <= |EncodeChar(u.c)|
    ensures u.valid ==> EncodeChar(u.c) <= bs && u.used == |EncodeChar(u.c)|
  {
    if |bs| < 2 || !IsContinuation(bs[1]) then Bad(1)
    else Unit(Scalar(bs[0] - 0xC0, bs[1]) as char, 2, true)
  }

  function First3(bs: seq<byte>): (u: Unit)
    requires bs != [] && 0xE0 <= bs[0] < 0xF0
    ensures 1 <= u.used <= |bs|
    ensures u.used <= |EncodeChar(u.c)|
    ensures u.valid ==> EncodeChar(u.c) <= bs && u.used == |EncodeChar(u.c)|
  {
    if |bs| < 2 || !MayFollow(bs[0], bs[1]) then Bad(1)
    else if |bs| < 3 || !IsContinuation(bs[2]) then Bad(2)
    else
      var n := Scalar(Scalar(bs[0] - 0xE0, bs[1]), bs[2]);
      Composed3(bs[0], bs[1], bs[2]);
      assert bs[..3] == [bs[0], bs[1], bs[2]];
      Unit(n as char, 3, true)
  }

  lemma Composed3(b0: byte, b1: byte, b2: byte)
    requires 0xE0 <= b0 < 0xF0 && MayFollow(b0, b1) && IsContinuation(b2)
    ensures var n := Scalar(Scalar(b0 - 0xE0, b1), b2);
            (0x800 <= n < 0xD800 || 0xE000 <= n < 0x1_0000) && EncodeChar(n as char) == [b0, b1, b2]
  {
    var high := Scalar(b0 - 0xE0, b1);
    var n := Scalar(high, b2);
    assert 0x800 <= n < 0xD800 || 0xE000 <= n < 0x1_0000;
    hide Scalar, Continuation, MayFollow;
    assert n / 64 == high && n / 64 / 64 == b0 - 0xE0;
  }

  function First4(bs: seq<byte>): (u: Unit)
    requires bs != [] && 0xF0 <= bs[0] < 0xF5
    ensures 1 <= u.used <= |bs|
    ensures u.used <= |EncodeChar(u.c)|
    ensures u.valid ==> EncodeChar(u.c) <= bs && u.used == |EncodeChar(u.c)|
  {
    if |bs| < 2 || !MayFollow(bs[0], bs[1]) then Bad(1)
    else if |bs| < 3 || !IsContinuation(bs[2]) then Bad(2)
    else if |bs| < 4 || !IsContinuation(bs[3]) then Bad(3)
    else
      var n := Scalar(Scalar(Scalar(bs[0] - 0xF0, bs[1]), bs[2]), bs[3]);
      Composed4(bs[0], bs[1], bs[2], bs[3]);
      assert bs[..4] == [bs[0], bs[1], bs[2], bs[3]];
      Unit(n as char, 4, true)
  }

  lemma Composed4(b0: byte, b1: byte, b2: byte, b3: byte)
    requires 0xF0 <= b0 < 0xF5 && MayFollow(b0, b1) && IsContinuation(b2) && IsContinuation(b3)
    ensures var n := Scalar(Scalar(Scalar(b0 - 0xF0, b1), b2), b3);
            0x1_0000 <= n < 0x11_0000 && EncodeChar(n as char) == [b0, b1, b2, b3]
  {
  }

  /** `b.decode(errors='replace')`. */
  function Decode(bs: seq<byte>): string {
    if bs == [] then [] else [First(bs).c] + Decode(bs[First(bs).used..])
  }

  /** `b.decode()`; None is the UnicodeDecodeError. */
  function DecodeStrict(bs: seq<byte>): Option<string> {
    if bs == [] then Some([])
    else if !First(bs).valid then None
    else
      var rest := DecodeStrict(bs[First(bs).used..]);
      if rest.None? then None else Some([First(bs).c] + rest.value)
  }

  // ---- round trips ----

  lemma ScalarOfParts(n: nat)
    ensures Scalar(n / 64, Continuation(n)) == n
  {
  }

  lemma FirstOfEncoded(c: char, rest: seq<byte>)
    ensures First(EncodeChar(c) + rest) == Unit(c, |EncodeChar(c)|, true)
  {
    var n, code := c as int, EncodeChar(c);
    var bs := code + rest;
    assert forall i :: 0 <= i < |code| ==> bs[i] == code[i];
    ScalarOfParts(n);
    ScalarOfParts(n / 64);
    ScalarOfParts(n / 64 / 64);
    hide Scalar, Continuation;
    if n < 0x80 {
    } else if n < 0x800 {
      assert First(bs) == First2(bs);
    } else if n < 0x1_0000 {
      LeadFollows3(n);
      assert First(bs) == First3(bs);
    } else {
      LeadFollows4(n);
      assert First(bs) == First4(bs);
    }
  }

  lemma LeadFollows3(n: nat)
    requires 0x800 <= n < 0xD800 || 0xE000 <= n < 0x1_0000
    ensures 0xE0 + n / 64 / 64 < 0xF0 && MayFollow(0xE0 + n / 64 / 64, Continuation(n / 64))
  {
  }

  lemma LeadFollows4(n: nat)
    requires 0x1_0000 <= n < 0x11_0000
    ensures 0xF0 + n / 64 / 64 / 64 < 0xF5 && MayFollow(0xF0 + n / 64 / 64 / 64, Continuation(n / 64 / 64))
  {
  }

  lemma {:induction false} DecodeEncode(s: string)
    ensures Decode(Encode(s)) == s && DecodeStrict(Encode(s)) == Some(s)
  {
    if s == [] {
    } else {
      FirstOfEncoded(s[0], Encode(s[1..]));
      DecodeEncode(s[1..]);
      assert Encode(s)[|EncodeChar(s[0])|..] == Encode(s[1..]);
    }
  }

  lemma {:induction false} EncodeDecodeStrict(bs: seq<byte>)
    requires DecodeStrict(bs).Some?
    ensures Decode(bs) == DecodeStrict(bs).value && Encode(Decode(bs)) == bs
  {
    hide First, EncodeChar;
    if bs == [] {
    } else {
      var u := First(bs);
      EncodeDecodeStrict(bs[u.used..]);
      assert Decode(bs)[1..] == Decode(bs[u.used..]);
      assert bs[..u.used] + bs[u.used..] == bs;
    }
  }

  /** A reply that was repaired is never shorter than its bytes. */
  lemma {:induction false} RepairNeverShrinks(bs: seq<byte>)
    ensures |Encode(Decode(bs))| >= |bs|
  {
    hide First, EncodeChar;
    if bs == [] {
    } else {
      RepairNeverShrinks(bs[First(bs).used..]);
      assert Decode(bs)[1..] == Decode(bs[First(bs).used..]);
    }
  }

  function Replacements(n: nat): (s: string)
    ensures |s| == n
  {
    seq(n, _ => REPLACEMENT)
  }

  lemma CutInside(c: char, s: string, q: nat)
    requires 0 < q < |EncodeChar(c)|
    ensures Decode((EncodeChar(c) + Encode(s))[q..]) == Replacements(|EncodeChar(c)| - q) + s
  {
    hide First, EncodeChar, Decode, Encode;
    var code := EncodeChar(c);
    TailIsContinuations(c);
    DecodeEncode(s);
    RepairOfStrays(code[q..], Encode(s));
    assert (code + Encode(s))[q..] == code[q..] + Encode(s);
  }

  /** Cut anywhere, encoded text repairs to its last whole characters, with one replacement character
      for each of the at most three bytes that are left of the one that was cut. */
  lemma {:induction false} RepairOfCut(s: string, q: nat) returns (k: nat, strays: nat)
    requires q <= |Encode(s)|
    ensures k <= |s| && strays <= 3 && strays + |Encode(s[k..])| == |Encode(s)| - q
    ensures Decode(Encode(s)[q..]) == Replacements(strays) + s[k..]
  {
    hide First, EncodeChar, Decode;
    if q == 0 {
      k, strays := 0, 0;
      DecodeEncode(s);
      assert Encode(s)[0..] == Encode(s) && s[0..] == s;
    } else {
      var code, rest := EncodeChar(s[0]), Encode(s[1..]);
      assert Encode(s) == code + rest;
      if q >= |code| {
        k, strays := RepairOfCut(s[1..], q - |code|);
        assert (code + rest)[q..] == rest[q - |code|..];
        assert s[1..][k..] == s[1 + k..];
        k := 1 + k;
      } else {
        k, strays := 1, |code| - q;
        CutInside(s[0], s[1..], q);
      }
    }
  }

  lemma TailIsContinuations(c: char)
    ensures forall i :: 1 <= i < |EncodeChar(c)| ==> IsContinuation(EncodeChar(c)[i])
  {
  }

  lemma StrayIsBad(bs: seq<byte>)
    requires bs != [] && IsContinuation(bs[0])
    ensures First(bs) == Bad(1)
  {
  }

  lemma {:induction false} RepairOfStrays(strays: seq<byte>, rest: seq<byte>)
    requires forall b :: b in strays ==> IsContinuation(b)
    ensures Decode(strays + rest) == Replacements(|strays|) + Decode(rest)
  {
    hide First, EncodeChar;
    if strays == [] {
      assert strays + rest == rest;
    } else {
      var bs := strays + rest;
      assert strays[0] in strays;
      StrayIsBad(bs);
      assert bs[1..] == strays[1..] + rest;
      RepairOfStrays(strays[1..], rest);
      assert Decode(bs) == [REPLACEMENT] + Decode(bs[1..]);
      assert Replacements(|strays|) == [REPLACEMENT] + Replacements(|strays| - 1);
    }
  }

  lemma {:induction false} ReplacementsLength(n: nat, s: string)
    ensures |Encode(Replacements(n) + s)| == 3 * n + |Encode(s)|
  {
    if n == 0 {
      assert Replacements(0) + s == s;
    } else {
      ReplacementsLength(n - 1, s);
      assert (Replacements(n) + s)[1..] == Replacements(n - 1) + s;
      assert |EncodeChar(REPLACEMENT)| == 3;
    }
  }

  /** A lead byte that promises as many bytes as there are, each of which may stand there. */
  predicate IsWhole(code: seq<byte>) {
    match |code|
    case 2 => 0xC2 <= code[0] < 0xE0 && IsContinuation(code[1])
    case 3 => 0xE0 <= code[0] < 0xF0 && MayFollow(code[0], code[1]) && IsContinuation(code[2])
    case 4 =>
      0xF0 <= code[0] < 0xF5 && MayFollow(code[0], code[1]) && IsContinuation(code[2]) && IsContinuation(code[3])
    case _ => false
  }

  lemma EncodedIsWhole(c: char)
    requires |EncodeChar(c)| > 1
    ensures IsWhole(EncodeChar(c))
  {
    var n := c as int;
    if n >= 0x1_0000 {
      LeadFollows4(n);
    } else if n >= 0x800 {
      LeadFollows3(n);
    }
  }

  lemma FirstOfBroken(code: seq<byte>, q: nat, rest: seq<byte>)
    requires IsWhole(code) && 0 < q < |code| && (rest == [] || !IsContinuation(rest[0]))
    ensures First(code[..q] + rest) == Bad(q)
  {
    var bs := code[..q] + rest;
    assert q < |bs| ==> bs[q] == rest[0];
  }

  /** A character that breaks off is one replacement character, however many of its bytes there are. */
  lemma BrokenCharacter(c: char, q: nat, rest: seq<byte>)
    requires 0 < q < |EncodeChar(c)| && (rest == [] || !IsContinuation(rest[0]))
    ensures Decode(EncodeChar(c)[..q] + rest) == [REPLACEMENT] + Decode(rest)
  {
    hide First, EncodeChar, IsWhole;
    EncodedIsWhole(c);
    FirstOfBroken(EncodeChar(c), q, rest);
    assert (EncodeChar(c)[..q] + rest)[q..] == rest;
  }

  /** What follows an ASCII byte of a valid text is valid. */
  lemma {:induction false} ValidAfterAscii(bs: seq<byte>, p: nat)
    requires DecodeStrict(bs).Some? && 0 < p <= |bs| && bs[p - 1] < 0x80
    ensures DecodeStrict(bs[p..]).Some?
  {
    var u := First(bs);
    if p > u.used {
      assert bs[u.used..][p - u.used..] == bs[p..];
      ValidAfterAscii(bs[u.used..], p - u.used);
    } else {
      assert bs[..u.used][p - 1] == bs[p - 1];
      OnlyAsciiEndsWithAscii(u.c, p);
    }
  }

  lemma OnlyAsciiEndsWithAscii(c: char, p: nat)
    requires 0 < p <= |EncodeChar(c)| && EncodeChar(c)[p - 1] < 0x80
    ensures p == |EncodeChar(c)| == 1
  {
  }

  // ---- lengths ----

  predicate Ascii(s: string) {
    forall c :: c in s ==> c as int < 0x80
  }

  lemma AsciiCons(c: char, s: string)
    ensures Ascii([c] + s) <==> c as int < 0x80 && Ascii(s)
  {
    if Ascii([c] + s) {
      assert c in [c] + s;
      assert forall c' :: c' in s ==> c' in [c] + s;
    }
  }

  /** Text is as many bytes as characters iff it is ASCII. */
  lemma {:induction false} EncodedLength(s: string)
    ensures |Encode(s)| >= |s|
    ensures |Encode(s)| == |s| <==> Ascii(s)
  {
    if s == [] {
    } else {
      EncodedLength(s[1..]);
      assert s == [s[0]] + s[1..];
      AsciiCons(s[0], s[1..]);
    }
  }
}
