/** Text as the scripts write and read it back: decimal integers, separators, lines and words. */
module Text {
  import opened Maybe

  // ---- separators ----

  /** `s.split(sep)`. */
  function Split<T(==)>(s: seq<T>, sep: T): (pieces: seq<seq<T>>)
    ensures |pieces| >= 1
  {
    if s == [] then [[]] else AddToFront(s[0], Split(s[1..], sep), sep)
  }

  function AddToFront<T(==)>(c: T, pieces: seq<seq<T>>, sep: T): (r: seq<seq<T>>)
    requires |pieces| >= 1
    ensures |r| >= 1
  {
    if c == sep then [[]] + pieces else [[c] + pieces[0]] + pieces[1..]
  }

  /** `sep.join(pieces)`. */
  function Join<T>(pieces: seq<seq<T>>, sep: T): seq<T>
    requires |pieces| >= 1
  {
    if |pieces| == 1 then pieces[0] else pieces[0] + [sep] + Join(pieces[1..], sep)
  }

  lemma {:induction false} JoinSplit<T>(s: seq<T>, sep: T)
    ensures Join(Split(s, sep), sep) == s
    ensures forall p :: p in Split(s, sep) ==> sep !in p
  {
    if s == [] {
    } else {
      JoinSplit(s[1..], sep);
      JoinAddToFront(s[0], Split(s[1..], sep), sep);
      assert s == [s[0]] + s[1..];
    }
  }

  lemma JoinAddToFront<T>(c: T, pieces: seq<seq<T>>, sep: T)
    requires |pieces| >= 1 && forall p :: p in pieces ==> sep !in p
    ensures Join(AddToFront(c, pieces, sep), sep) == [c] + Join(pieces, sep)
    ensures forall p :: p in AddToFront(c, pieces, sep) ==> sep !in p
  {
    hide Join;
    if c == sep {
      JoinEmptyFirst(pieces, sep);
    } else {
      JoinLongerFirst([c], AddToFront(c, pieces, sep), pieces, sep);
      FreeLongerFirst(c, pieces, sep);
    }
  }

  lemma JoinEmptyFirst<T>(pieces: seq<seq<T>>, sep: T)
    requires |pieces| >= 1
    ensures Join([[]] + pieces, sep) == [sep] + Join(pieces, sep)
  {
    var longer := [[]] + pieces;
    assert longer[1..] == pieces && longer[0] == [];
    assert Join(longer, sep) == longer[0] + [sep] + Join(longer[1..], sep);
  }

  lemma FreeLongerFirst<T>(c: T, pieces: seq<seq<T>>, sep: T)
    requires c != sep && |pieces| >= 1 && forall p :: p in pieces ==> sep !in p
    ensures forall p :: p in [[c] + pieces[0]] + pieces[1..] ==> sep !in p
  {
    assert sep !in [c] + pieces[0] by { assert sep !in pieces[0]; }
  }

  lemma JoinLongerFirst<T>(head: seq<T>, longer: seq<seq<T>>, pieces: seq<seq<T>>, sep: T)
    requires |longer| == |pieces| >= 1 && longer[0] == head + pieces[0] && longer[1..] == pieces[1..]
    ensures Join(longer, sep) == head + Join(pieces, sep)
  {
    if |pieces| > 1 {
      assert Join(longer, sep) == (head + pieces[0]) + [sep] + Join(pieces[1..], sep);
      assert Join(longer, sep) == head + (pieces[0] + [sep] + Join(pieces[1..], sep));
    }
  }

  lemma {:induction false} SplitFree<T>(s: seq<T>, sep: T)
    requires sep !in s
    ensures Split(s, sep) == [s]
  {
    if s == [] {
    } else {
      SplitFree(s[1..], sep);
      assert s == [s[0]] + s[1..];
    }
  }

  lemma {:induction false} SplitAtSeparator<T>(a: seq<T>, b: seq<T>, sep: T)
    ensures Split(a + [sep] + b, sep) == Split(a, sep) + Split(b, sep)
  {
    if a == [] {
      assert (a + [sep] + b)[1..] == b;
    } else {
      SplitAtSeparator(a[1..], b, sep);
      assert (a + [sep] + b)[1..] == a[1..] + [sep] + b;
      AddToFrontConcat(a[0], Split(a[1..], sep), Split(b, sep), sep);
    }
  }

  lemma AddToFrontConcat<T>(c: T, p: seq<seq<T>>, q: seq<seq<T>>, sep: T)
    requires |p| >= 1
    ensures AddToFront(c, p + q, sep) == AddToFront(c, p, sep) + q
  {
    assert (p + q)[1..] == p[1..] + q;
  }

  lemma {:induction false} SplitJoin<T>(pieces: seq<seq<T>>, sep: T)
    requires |pieces| >= 1 && forall p :: p in pieces ==> sep !in p
    ensures Split(Join(pieces, sep), sep) == pieces
  {
    SplitFree(pieces[0], sep);
    if |pieces| <= 1 {
    } else {
      SplitAtSeparator(pieces[0], Join(pieces[1..], sep), sep);
      SplitJoin(pieces[1..], sep);
    }
  }

  // ---- lines ----

  /** `f.readline()`: the newline included. */
  function FirstLine(s: string): (line: string)
    ensures line <= s && (s != [] ==> line != [])
  {
    if s == [] then []
    else if s[0] == '\n' then [s[0]]
    else [s[0]] + FirstLine(s[1..])
  }

  lemma {:induction false} FirstLineOf(line: string, rest: string)
    requires '\n' !in line
    ensures FirstLine(line + "\n" + rest) == line + "\n"
  {
    var s := line + "\n" + rest;
    if line == [] {
      assert s[0] == '\n' && line + "\n" == ['\n'];
    } else {
      FirstLineOf(line[1..], rest);
      assert s[1..] == line[1..] + "\n" + rest;
      assert line + "\n" == [line[0]] + (line[1..] + "\n");
    }
  }

  /** `f.readlines()`: only the last line may lack its newline. */
  function ReadLines(s: string): seq<string> {
    if s == [] then [] else [FirstLine(s)] + ReadLines(s[|FirstLine(s)|..])
  }

  lemma ReadFirstLine(line: string, rest: string)
    requires '\n' !in line
    ensures ReadLines(line + "\n" + rest) == [line + "\n"] + ReadLines(rest)
  {
    FirstLineOf(line, rest);
    assert (line + "\n" + rest)[|line + "\n"|..] == rest;
  }

  // ---- white space ----

  /** White space as Unicode and Rust have it. */
  predicate IsWhiteSpace(c: char) {
    var n := c as int;
    || n == 0x20 || 9 <= n <= 13 || n == 0x85 || n == 0xA0 || n == 0x1680 || 0x2000 <= n <= 0x200A
    || n == 0x2028 || n == 0x2029 || n == 0x202F || n == 0x205F || n == 0x3000
  }

  /** White space as Python has it: four separators more. */
  predicate IsSpace(c: char) {
    IsWhiteSpace(c) || 0x1C <= c as int <= 0x1F
  }

  function TrimStart(s: string, space: char -> bool): string {
    if s != [] && space(s[0]) then TrimStart(s[1..], space) else s
  }

  function TrimEnd(s: string, space: char -> bool): string {
    if s != [] && space(s[|s| - 1]) then TrimEnd(s[..|s| - 1], space) else s
  }

  /** Python's `s.strip()`. */
  function Strip(s: string): string {
    TrimEnd(TrimStart(s, IsSpace), IsSpace)
  }

  /** Rust's `s.trim()`. */
  function Trim(s: string): string {
    TrimEnd(TrimStart(s, IsWhiteSpace), IsWhiteSpace)
  }

  predicate NoSpace(s: string) {
    forall c :: c in s ==> !IsSpace(c)
  }

  /** The length of the leading run without white space. */
  function WordLength(s: string): (n: nat)
    ensures n <= |s| && (s != [] && !IsSpace(s[0]) ==> n > 0)
  {
    if s == [] || IsSpace(s[0]) then 0 else 1 + WordLength(s[1..])
  }

  /** `s.split()`. */
  function Words(s: string): seq<string>
    decreases |s|
  {
    if s == [] then []
    else if IsSpace(s[0]) then Words(s[1..])
    else [s[..WordLength(s)]] + Words(s[WordLength(s)..])
  }

  lemma {:induction false} WordLengthOf(word: string, rest: string)
    requires NoSpace(word) && (rest == [] || IsSpace(rest[0]))
    ensures WordLength(word + rest) == |word|
  {
    var s := word + rest;
    if word == [] {
      assert s == rest;
    } else {
      assert s[1..] == word[1..] + rest;
      WordLengthOf(word[1..], rest);
    }
  }

  lemma WordsSplitFirst(word: string, rest: string)
    requires word != [] && NoSpace(word)
    ensures Words(word + " " + rest) == [word] + Words(rest)
  {
    var s := word + " " + rest;
    assert s == word + (" " + rest);
    WordLengthOf(word, " " + rest);
    assert s[..|word|] == word && s[|word|..] == " " + rest;
    assert (" " + rest)[1..] == rest;
  }

  // ---- decimal integers ----

  predicate IsDigit(c: char) {
    '0' <= c <= '9'
  }

  predicate AllDigits(s: string) {
    forall c :: c in s ==> IsDigit(c)
  }

  function NatToText(n: nat): (s: string)
    ensures |s| >= 1 && AllDigits(s)
  {
    var last := ('0' as int + n % 10) as char;
    if n < 10 then [last] else NatToText(n / 10) + [last]
  }

  /** `str(n)`. */
  function IntToText(n: int): (s: string)
    ensures |s| >= 1
  {
    if n < 0 then "-" + NatToText(-n) else NatToText(n)
  }

  function DigitsValue(s: string): nat
    requires AllDigits(s)
  {
    if s == [] then 0
    else
      assert IsDigit(s[|s| - 1]);
      10 * DigitsValue(s[..|s| - 1]) + (s[|s| - 1] as int - '0' as int)
  }

  function ParseNat(s: string): Option<nat> {
    if s != [] && AllDigits(s) then Some(DigitsValue(s)) else None
  }

  function Signed(sign: int, magnitude: Option<nat>): Option<int> {
    if magnitude.None? then None else Some(sign * magnitude.value)
  }

  /** Digits with single underscores between them, as Python allows in numbers. */
  predicate IsDigitPart(s: string) {
    s != [] && IsDigit(s[0])
    && (|s| == 1 || IsDigitPart(s[1..]) || (s[1] == '_' && IsDigitPart(s[2..])))
  }

  function WithoutUnderscores(s: string): (r: string)
    ensures IsDigitPart(s) ==> AllDigits(r) && r != []
  {
    if s == [] then []
    else if s[0] == '_' then WithoutUnderscores(s[1..])
    else [s[0]] + WithoutUnderscores(s[1..])
  }

  function ParseDigitPart(s: string): Option<nat> {
    if IsDigitPart(s) then Some(DigitsValue(WithoutUnderscores(s))) else None
  }

  /** `int(s)`; None is the ValueError. */
  function ParseInt(s: string): Option<int> {
    var t := Strip(s);
    if t == [] then None
    else if t[0] == '-' then Signed(-1, ParseDigitPart(t[1..]))
    else if t[0] == '+' then Signed(1, ParseDigitPart(t[1..]))
    else Signed(1, ParseDigitPart(t))
  }

  lemma {:induction false} PlainDigits(s: string)
    requires s != [] && AllDigits(s)
    ensures IsDigitPart(s) && WithoutUnderscores(s) == s
  {
    assert IsDigit(s[0]);
    if |s| <= 1 {
    } else {
      PlainDigits(s[1..]);
      assert s == [s[0]] + s[1..];
    }
  }

  // ---- floats ----

  function Unsigned(s: string): string {
    if s != [] && (s[0] == '-' || s[0] == '+') then s[1..] else s
  }

  /** Where the first of the two characters stands, or the length. */
  function IndexOf(s: string, c: char, d: char): (k: nat)
    ensures k <= |s|
  {
    if s == [] || s[0] == c || s[0] == d then 0 else 1 + IndexOf(s[1..], c, d)
  }

  predicate IsMantissa(s: string) {
    var k := IndexOf(s, '.', '.');
    if k == |s| then IsDigitPart(s)
    else
      && (k > 0 || |s| > 1)
      && (k > 0 ==> IsDigitPart(s[..k]))
      && (k + 1 < |s| ==> IsDigitPart(s[k + 1..]))
  }

  function Lower(s: string): string {
    seq(|s|, i requires 0 <= i < |s| => if 'A' <= s[i] <= 'Z' then (s[i] as int + 32) as char else s[i])
  }

  /** Whether `float(s)` succeeds. */
  predicate ReadsAsFloat(s: string) {
    var u := Unsigned(Strip(s));
    var k := IndexOf(u, 'e', 'E');
    || Lower(u) in ["inf", "infinity", "nan"]
    || (IsMantissa(u[..k]) && (k == |u| || IsDigitPart(Unsigned(u[k + 1..]))))
  }

  // ---- round trips ----

  lemma {:induction false} NatRoundTrip(n: nat)
    ensures DigitsValue(NatToText(n)) == n
  {
    if n < 10 {
    } else {
      NatRoundTrip(n / 10);
      assert NatToText(n)[..|NatToText(n)| - 1] == NatToText(n / 10);
    }
  }

  lemma IntTextHasNoSpace(n: int)
    ensures NoSpace(IntToText(n))
  {
    var digits := NatToText(if n < 0 then -n else n);
    assert forall c :: c in digits ==> IsDigit(c) && !IsSpace(c);
  }

  lemma StripNoSpace(s: string)
    requires NoSpace(s)
    ensures Strip(s) == s
  {
  }

  /** A number survives being written, padded by spaces or a newline, and read back. */
  lemma IntRoundTrip(n: int)
    ensures ParseInt(IntToText(n)) == Some(n)
    ensures ParseInt(IntToText(n) + "\n") == Some(n)
  {
    var s, digits := IntToText(n), NatToText(if n < 0 then -n else n);
    IntTextHasNoSpace(n);
    NatRoundTrip(if n < 0 then -n else n);
    PlainDigits(digits);
    StripNoSpace(s);
    StripNewline(s);
    hide Strip, IsDigitPart, WithoutUnderscores, NatToText, DigitsValue;
    if n < 0 {
      assert s[1..] == digits;
    } else {
      assert IsDigit(s[0]) && s == digits;
    }
  }

  lemma StripNewline(s: string)
    requires NoSpace(s) && s != []
    ensures Strip(s + "\n") == s
  {
    var t := s + "\n";
    assert t[0] == s[0] && !IsSpace(s[0]);
    assert TrimStart(t, IsSpace) == t;
    assert t[..|t| - 1] == s && TrimEnd(s, IsSpace) == s;
  }
}
