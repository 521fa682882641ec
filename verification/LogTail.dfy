/** The log server's backward tail: remote/logd.py:37-39, 94-106, 120-136. */
module LogTail {
  import opened Bytes
  import opened Maybe
  import opened Text
  import Utf8
  import Counting

  const DEFAULT_LINES: nat := 200
  const MAX_LINES: nat := 10000
  const MAX_BYTES: nat := 5242880
  const BLOCK: nat := 65536
  const NEWLINE: byte := 10

  /** `clamp_lines`; no argument and text that is no number both give the default. */
  function ClampLines(arg: Option<string>): (n: nat)
    ensures 1 <= n <= 10000
    ensures forall k: int :: arg == Some(IntToText(k)) ==>
      n == if k < 1 then 1 else if k > 10000 then 10000 else k
    ensures arg.None? || ParseInt(arg.value).None? ==> n == 200
  {
    ClampOfNumber(arg);
    match arg
    case None => DEFAULT_LINES
    case Some(text) =>
      match ParseInt(text)
      case None => DEFAULT_LINES
      case Some(k) => if k < 1 then 1 else if k > MAX_LINES then MAX_LINES else k
  }

  lemma ClampOfNumber(arg: Option<string>)
    ensures forall k: int :: arg == Some(IntToText(k)) ==> ParseInt(arg.value) == Some(k)
  {
    forall k: int | arg == Some(IntToText(k))
      ensures ParseInt(arg.value) == Some(k)
    {
      IntRoundTrip(k);
    }
  }

  /** `data.count(b'\n')`. */
  function Count(s: seq<byte>): nat {
    if s == [] then 0 else (if s[0] == NEWLINE then 1 else 0) + Count(s[1..])
  }

  /** `pieces[-k:]` for k > 0. */
  function Last<T>(pieces: seq<T>, k: nat): seq<T> {
    if |pieces| <= k then pieces else pieces[|pieces| - k..]
  }

  /** The last n lines and whatever follows the last newline. */
  function LastLines(s: seq<byte>, n: nat): seq<byte> {
    Join(Last(Split(s, NEWLINE), n + 1), NEWLINE)
  }

  /** Where the last lines start: after the newline with n more to come, or at the start of s. */
  predicate IsTailStart(s: seq<byte>, n: nat, p: nat) {
    && p <= |s|
    && if Count(s) <= n then p == 0 else p > 0 && s[p - 1] == NEWLINE && Count(s[p..]) == n
  }

  lemma {:induction false} SplitLength(s: seq<byte>)
    ensures |Split(s, NEWLINE)| == Count(s) + 1
  {
    if s == [] {
    } else {
      SplitLength(s[1..]);
    }
  }

  lemma {:induction false} CountConcat(a: seq<byte>, b: seq<byte>)
    ensures Count(a + b) == Count(a) + Count(b)
  {
    if a == [] {
      assert a + b == b;
    } else {
      assert (a + b)[1..] == a[1..] + b;
      CountConcat(a[1..], b);
    }
  }

  lemma CountSuffix(s: seq<byte>, p: nat)
    requires p <= |s|
    ensures Count(s) == Count(s[..p]) + Count(s[p..])
    ensures p > 0 && s[p - 1] == NEWLINE ==> Count(s[p - 1..]) == 1 + Count(s[p..])
  {
    assert s[..p] + s[p..] == s;
    CountConcat(s[..p], s[p..]);
    if p > 0 {
      assert s[p - 1..][1..] == s[p..];
    }
  }

  lemma TailStartIsUnique(s: seq<byte>, n: nat, p: nat, q: nat)
    requires IsTailStart(s, n, p) && IsTailStart(s, n, q) && p <= q
    ensures p == q
  {
    if p < q {
      var rest := s[p..];
      assert rest[q - 1 - p..] == s[q - 1..];
      CountSuffix(rest, q - 1 - p);
      CountSuffix(s, q);
    }
  }

  /** What is counted, and what the last lines start after, is line feeds. */
  lemma {:induction false} CountsLineFeeds(s: seq<byte>)
    ensures Count(s) == Counting.Count(s, (b: byte) => b == 10)
    ensures forall n, p: nat :: IsTailStart(s, n, p) ==> p == 0 || s[p - 1] == 10
  {
    var isLineFeed := (b: byte) => b == 10;
    if s == [] {
      Counting.CountNothing(isLineFeed);
    } else {
      var rest, last := s[..|s| - 1], s[|s| - 1];
      assert s == rest + [last];
      CountsLineFeeds(rest);
      CountConcat(rest, [last]);
      assert [last][1..] == [];
      Counting.CountSnoc(rest, last, isLineFeed);
    }
  }

  /** The split, cut and joined text is one suffix of the whole. */
  lemma {:induction false} LastLinesIsSuffix(s: seq<byte>, n: nat) returns (p: nat)
    ensures IsTailStart(s, n, p) && LastLines(s, n) == s[p..]
  {
    hide Join, AddToFront;
    SplitLength(s);
    if Count(s) <= n {
      p := 0;
      JoinSplit(s, NEWLINE);
    } else {
      var p' := LastLinesIsSuffix(s[1..], n);
      p := p' + 1;
      SplitLength(s[1..]);
      LastOfLonger(s[0], Split(s[1..], NEWLINE), n + 1);
      assert s[1..][p'..] == s[p..];
    }
  }

  lemma LastOfLonger(c: byte, pieces: seq<seq<byte>>, k: nat)
    requires |pieces| >= 1 && |AddToFront(c, pieces, NEWLINE)| > k
    ensures Last(AddToFront(c, pieces, NEWLINE), k) == Last(pieces, k)
  {
  }

  /** What stopped the reading loop does not matter iff nothing wanted lies before `pos`. */
  predicate ReadEnough(file: seq<byte>, pos: nat, n: nat)
    requires pos <= |file|
  {
    || pos == 0
    || Count(file[pos..]) > n
    || (Count(file[pos..]) == n && file[pos - 1] == NEWLINE)
  }

  lemma TailOfPart(file: seq<byte>, pos: nat, n: nat)
    requires pos <= |file|
    ensures LastLines(file[pos..], n) == LastLines(file, n) <==> ReadEnough(file, pos, n)
  {
    hide LastLines;
    var data := file[pos..];
    var p := LastLinesIsSuffix(file, n);
    var q := LastLinesIsSuffix(data, n);
    CountSuffix(file, pos);
    assert data[q..] == file[pos + q..];
    assert LastLines(data, n) == LastLines(file, n) <==> pos + q == p;
    if ReadEnough(file, pos, n) {
      assert IsTailStart(file, n, pos + q) by {
        if pos > 0 && Count(data) == n {
          CountPrefixWithNewline(file, pos);
        }
      }
      if p <= pos + q {
        TailStartIsUnique(file, n, p, pos + q);
      } else {
        TailStartIsUnique(file, n, pos + q, p);
      }
    }
  }

  lemma CountPrefixWithNewline(file: seq<byte>, pos: nat)
    requires 0 < pos <= |file| && file[pos - 1] == NEWLINE
    ensures Count(file[..pos]) > 0
  {
    assert file[..pos] == file[..pos - 1] + [NEWLINE];
    CountConcat(file[..pos - 1], [NEWLINE]);
  }

  lemma {:induction false} CountNeverGrows(s: seq<byte>, p: nat, q: nat)
    requires p <= q <= |s|
    ensures Count(s[p..]) >= Count(s[q..])
  {
    CountSuffix(s[p..], q - p);
    assert s[p..][q - p..] == s[q..];
  }

  /** The last lines fit into the last `limit` bytes iff nothing wanted lies before those. */
  lemma LastLinesFit(file: seq<byte>, n: nat, limit: nat)
    ensures |LastLines(file, n)| <= limit <==> |file| <= limit || ReadEnough(file, |file| - limit, n)
  {
    hide LastLines;
    var p := LastLinesIsSuffix(file, n);
    if |file| > limit {
      var q := |file| - limit;
      TailOfPart(file, q, n);
      var r := LastLinesIsSuffix(file[q..], n);
      if q < p {
        CountNeverGrows(file, q, p - 1);
        CountSuffix(file, p);
      }
    }
  }

  /** Where the last lines start: at the start of the file or after a newline. */
  lemma LastLinesOfValid(file: seq<byte>, n: nat)
    requires Utf8.DecodeStrict(file).Some?
    ensures Utf8.Encode(Utf8.Decode(LastLines(file, n))) == LastLines(file, n)
  {
    var p := LastLinesIsSuffix(file, n);
    if p > 0 {
      Utf8.ValidAfterAscii(file, p);
    } else {
      assert file[0..] == file;
    }
    Utf8.EncodeDecodeStrict(file[p..]);
  }

  const NOTICE: string := "[... output truncated to 5242880 bytes ...]\n"

  /** `cap_payload`; its tail may start inside a character. */
  function CapPayload(s: string): string {
    var b := Utf8.Encode(s);
    if |b| <= MAX_BYTES then s else NOTICE + Utf8.Decode(b[|b| - MAX_BYTES..])
  }

  lemma {:induction false} EncodeConcat(a: string, b: string)
    ensures Utf8.Encode(a + b) == Utf8.Encode(a) + Utf8.Encode(b)
  {
    if a == [] {
      assert a + b == b;
    } else {
      assert (a + b)[1..] == a[1..] + b;
      EncodeConcat(a[1..], b);
    }
  }

  /** What a cut reply shows: the notice, one replacement character for each of at most three bytes left
      of a character that was cut, and then the end of the text, 5 MiB in all but for the notice. */
  ghost predicate ShowsTheEnd(s: string, reply: string, k: nat, strays: nat) {
    && k <= |s| && strays <= 3 && reply == NOTICE + (Utf8.Replacements(strays) + s[k..])
    && strays + |Utf8.Encode(s[k..])| == MAX_BYTES
  }

  lemma CutShowsTheEnd(s: string)
    requires |Utf8.Encode(s)| > MAX_BYTES
    ensures exists k: nat, strays: nat :: ShowsTheEnd(s, CapPayload(s), k, strays)
  {
    hide Utf8.Encode, Utf8.Decode, NOTICE;
    var k, strays := Utf8.RepairOfCut(s, |Utf8.Encode(s)| - MAX_BYTES);
    assert ShowsTheEnd(s, CapPayload(s), k, strays);
  }

  lemma CappedLength(s: string)
    ensures |Utf8.Encode(CapPayload(s))| <= MAX_BYTES + |Utf8.Encode(NOTICE)| + 6
  {
    hide Utf8.Encode, Utf8.Decode, NOTICE;
    if |Utf8.Encode(s)| > MAX_BYTES {
      CutShowsTheEnd(s);
      var k: nat, strays: nat :| ShowsTheEnd(s, CapPayload(s), k, strays);
      EncodeConcat(NOTICE, Utf8.Replacements(strays) + s[k..]);
      Utf8.ReplacementsLength(strays, s[k..]);
    }
  }

  /** The text that a tail promises. */
  function Promised(file: seq<byte>, n: nat): string {
    Utf8.Decode(LastLines(file, n))
  }

  /** The promised text, with every bad byte replaced, is within the limit. */
  predicate Fits(file: seq<byte>, n: nat) {
    |Utf8.Encode(Promised(file, n))| <= MAX_BYTES
  }

  /** For a valid file that is just the length of its last lines. */
  lemma FitsIfValid(file: seq<byte>, n: nat)
    requires Utf8.DecodeStrict(file).Some?
    ensures Fits(file, n) <==> |LastLines(file, n)| <= MAX_BYTES
  {
    LastLinesOfValid(file, n);
  }

  lemma {:induction false} BadBytesTriple(bs: seq<byte>)
    requires forall b :: b in bs ==> b == 0xFF
    ensures |Utf8.Encode(Utf8.Decode(bs))| == 3 * |bs| && Count(bs) == 0
  {
    if bs == [] {
    } else {
      assert bs[0] in bs && Utf8.First(bs) == Utf8.Bad(1);
      assert forall b :: b in bs[1..] ==> b in bs;
      BadBytesTriple(bs[1..]);
      assert Utf8.Decode(bs)[1..] == Utf8.Decode(bs[1..]);
      assert |Utf8.EncodeChar(Utf8.REPLACEMENT)| == 3;
    }
  }

  /** A file well within the limit that does not fit: two million bad bytes, each replaced by three. */
  lemma SmallFileNeedNotFit(n: nat) returns (file: seq<byte>)
    ensures |file| <= MAX_BYTES && !Fits(file, n)
  {
    file := seq(2_000_000, i => 0xFF as byte);
    BadBytesTriple(file);
    var p := LastLinesIsSuffix(file, n);
    assert file[0..] == file;
  }

  /** Cutting and capping the part that was read gives the promised text iff that fits, unless it
      happens to begin like the notice itself. */
  lemma ReplyIsPromised(file: seq<byte>, n: nat, tail: seq<byte>)
    requires tail == LastLines(file, n) <==> |LastLines(file, n)| <= MAX_BYTES
    ensures var reply := CapPayload(Utf8.Decode(tail));
            && (Fits(file, n) ==> reply == Promised(file, n))
            && (reply == Promised(file, n) && !(NOTICE <= Promised(file, n)) ==> Fits(file, n))
  {
    Utf8.RepairNeverShrinks(LastLines(file, n));
  }

  lemma ShortIsUncut(s: string)
    ensures |Utf8.Encode(s)| <= MAX_BYTES ==> CapPayload(s) == s
  {
  }

  /** The right bytes are selected and none of their text is cut, iff the promised text fits. */
  lemma CompleteIffFits(file: seq<byte>, n: nat, tail: seq<byte>)
    requires tail == LastLines(file, n) <==> |LastLines(file, n)| <= MAX_BYTES
    ensures tail == LastLines(file, n) && |Utf8.Encode(Utf8.Decode(tail))| <= MAX_BYTES <==> Fits(file, n)
  {
    Utf8.RepairNeverShrinks(LastLines(file, n));
  }

  /** `do_tail`. The bytes selected are exactly the last lines of the file iff those are within the
      byte limit, and the reply is exactly the promised text iff its repaired form is. No more than
      one block is read beyond `before`, where the lines seen so far were still too few. */
  method DoTail(file: seq<byte>, arg: Option<string>)
    returns (reply: string, ghost tail: seq<byte>, ghost pos: nat, ghost before: nat, ghost uncut: bool)
    ensures pos <= before <= |file| && before - pos <= BLOCK && |file| - pos <= MAX_BYTES
    ensures before < |file| ==> Count(file[before..]) <= ClampLines(arg)
    ensures tail == LastLines(file[pos..], ClampLines(arg)) && reply == CapPayload(Utf8.Decode(tail))
    ensures tail == LastLines(file, ClampLines(arg)) <==>
      |file| <= MAX_BYTES || ReadEnough(file, |file| - MAX_BYTES, ClampLines(arg))
    ensures tail == LastLines(file, ClampLines(arg)) <==> |LastLines(file, ClampLines(arg))| <= MAX_BYTES
    ensures uncut <==> reply == Utf8.Decode(tail) && |Utf8.Encode(Utf8.Decode(tail))| <= MAX_BYTES
    ensures tail == LastLines(file, ClampLines(arg)) && uncut <==> Fits(file, ClampLines(arg))
    ensures Fits(file, ClampLines(arg)) ==> reply == Promised(file, ClampLines(arg))
    ensures !(NOTICE <= Promised(file, ClampLines(arg))) ==>
      (reply == Promised(file, ClampLines(arg)) <==> Fits(file, ClampLines(arg)))
    ensures |Utf8.Encode(Utf8.Decode(tail))| > MAX_BYTES ==>
      exists k: nat, strays: nat :: ShowsTheEnd(Utf8.Decode(tail), reply, k, strays)
    ensures |Utf8.Encode(reply)| <= MAX_BYTES + |Utf8.Encode(NOTICE)| + 6
  {
    hide ShowsTheEnd, ClampLines, LastLines, IsTailStart, CapPayload, Fits, Promised, Utf8.Encode, Utf8.Decode;
    var n := ClampLines(arg);
    var end, data := |file|, [];
    var at: nat := end;
    before := end;
    while at > 0 && Count(data) <= n && end - at < MAX_BYTES
      invariant at <= end && data == file[at..]
      invariant at == 0 || (end - at) % BLOCK == 0
      invariant end - at <= MAX_BYTES
      invariant at <= before <= end && before - at <= BLOCK
      invariant before < end ==> Count(file[before..]) <= n
      decreases at
    {
      before := at;
      var step := if BLOCK < at then BLOCK else at;
      at := at - step;
      data := file[at..at + step] + data;
    }
    pos, tail := at, LastLines(data, n);
    SelectionIsExact(file, at, n);
    ReplyIsPromised(file, n, tail);
    reply := CapPayload(Utf8.Decode(LastLines(data, n)));
    uncut := |Utf8.Encode(Utf8.Decode(tail))| <= MAX_BYTES;
    ShortIsUncut(Utf8.Decode(tail));
    CompleteIffFits(file, n, tail);
    CappedLength(Utf8.Decode(tail));
    if |Utf8.Encode(Utf8.Decode(tail))| > MAX_BYTES {
      CutShowsTheEnd(Utf8.Decode(tail));
    }
  }

  /** Wherever the loop stops, the selection is right iff the last lines are within the limit. */
  lemma SelectionIsExact(file: seq<byte>, pos: nat, n: nat)
    requires pos <= |file| && |file| - pos <= MAX_BYTES
    requires pos == 0 || Count(file[pos..]) > n || |file| - pos == MAX_BYTES
    ensures LastLines(file[pos..], n) == LastLines(file, n) <==> |LastLines(file, n)| <= MAX_BYTES
    ensures LastLines(file[pos..], n) == LastLines(file, n) <==>
      |file| <= MAX_BYTES || ReadEnough(file, |file| - MAX_BYTES, n)
  {
    TailOfPart(file, pos, n);
    LastLinesFit(file, n, MAX_BYTES);
    if |file| > MAX_BYTES {
      CountNeverGrows(file, |file| - MAX_BYTES, pos);
    }
  }
}
