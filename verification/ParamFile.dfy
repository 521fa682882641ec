/** The parameter file that the Python scripts and the Rust programs share: `save_tmp`, `get_tmp`
    and `update_tmp` of remote/lib/fpga.py:36-63, 96-99 and the reader of gc/src/hw.rs:37-56. */
module ParamFile {
  import opened Maybe
  import opened Text

  /** A float is kept as the text that Python prints for it and reads back. */
  datatype Value = Int(n: int) | Float(text: string) | Str(text: string)

  datatype Entry = Entry(key: string, value: Value)

  /** A dictionary in insertion order. */
  type Table = seq<Entry>

  function FloatList(): seq<string> {
    ["qdistance", "pol0", "pol1", "pol2", "pol3", "vca", "am_bias", "am2_bias", "am2_bias_min",
     "angle0", "angle1", "angle2", "angle3", "vca_calib"]
  }

  function StrList(): seq<string> {
    ["spd_mode", "am_mode", "pm_mode", "feedback", "soft_gate", "insert_zeros", "am2_mode"]
  }

  predicate WellTyped(e: Entry) {
    if e.key in FloatList() then e.value.Float?
    else if e.key in StrList() then e.value.Str?
    else e.value.Int?
  }

  predicate Clean(s: string) {
    '\t' !in s && '\n' !in s && '\r' !in s
  }

  predicate Storable(e: Entry) {
    && WellTyped(e) && Clean(e.key) && (e.value.Int? || Clean(e.value.text))
    && (e.value.Float? ==> ReadsAsFloat(e.value.text))
  }

  ghost predicate StorableTable(t: Table) {
    (forall e :: e in t ==> Storable(e)) && Distinct(t)
  }

  ghost predicate Distinct(t: Table) {
    forall i, j :: 0 <= i < j < |t| ==> t[i].key != t[j].key
  }

  // ---- dictionaries ----

  function Lookup(t: Table, key: string): Option<Value> {
    if t == [] then None
    else if t[0].key == key then Some(t[0].value)
    else Lookup(t[1..], key)
  }

  /** `t[key] = value`. */
  function Updated(t: Table, key: string, value: Value): Table {
    if t == [] then [Entry(key, value)]
    else if t[0].key == key then [Entry(key, value)] + t[1..]
    else [t[0]] + Updated(t[1..], key, value)
  }

  /** One key has a new value and every other key its old one. */
  ghost predicate ChangesOnly(before: Table, after: Table, key: string, value: Value) {
    forall other :: Lookup(after, other) == if other == key then Some(value) else Lookup(before, other)
  }

  lemma {:induction false} LookupUpdated(t: Table, key: string, value: Value, other: string)
    ensures Lookup(Updated(t, key, value), other) == if other == key then Some(value) else Lookup(t, other)
  {
    if t == [] || t[0].key == key {
    } else {
      LookupUpdated(t[1..], key, value, other);
      assert Updated(t, key, value)[1..] == Updated(t[1..], key, value);
    }
  }

  lemma {:induction false} UpdatedNewKey(t: Table, key: string, value: Value)
    requires forall e :: e in t ==> e.key != key
    ensures Updated(t, key, value) == t + [Entry(key, value)]
  {
    if t == [] {
    } else {
      assert t[0] in t;
      UpdatedNewKey(t[1..], key, value);
      assert t == [t[0]] + t[1..];
    }
  }

  lemma {:induction false} UpdatedKeys(t: Table, key: string, value: Value)
    ensures forall e :: e in Updated(t, key, value) ==> e == Entry(key, value) || e in t
    ensures Distinct(t) ==> Distinct(Updated(t, key, value))
  {
    if t == [] {
    } else {
      UpdatedKeys(t[1..], key, value);
      var rest := Updated(t[1..], key, value);
      if t[0].key != key && Distinct(t) {
        assert Distinct(t[1..]);
        forall i, j | 0 <= i < j < |rest| + 1
          ensures ([t[0]] + rest)[i].key != ([t[0]] + rest)[j].key
        {
          if i == 0 {
            assert rest[j - 1] in rest;
          }
        }
      }
    }
  }

  // ---- writing ----

  function Shown(value: Value): string {
    match value
    case Int(n) => IntToText(n)
    case Float(text) => text
    case Str(text) => text
  }

  function LineOf(e: Entry): string {
    e.key + "\t" + Shown(e.value) + "\n"
  }

  function Encode(t: Table): string {
    if t == [] then "" else LineOf(t[0]) + Encode(t[1..])
  }

  lemma {:induction false} EncodeConcat(t: Table, e: Entry)
    ensures Encode(t + [e]) == Encode(t) + LineOf(e)
  {
    hide LineOf;
    if t == [] {
      assert (t + [e])[1..] == [];
    } else {
      EncodeConcat(t[1..], e);
      assert (t + [e])[1..] == t[1..] + [e];
    }
  }

  // ---- reading ----

  /** Opening a file as text turns "\r\n" and "\r" into "\n". */
  function Universal(s: string): string {
    if s == [] then []
    else if s[0] == '\r' then ['\n'] + Universal(if |s| > 1 && s[1] == '\n' then s[2..] else s[1..])
    else [s[0]] + Universal(s[1..])
  }

  /** One turn of the reading loop; None is the IndexError or ValueError. */
  function ParseEntry(line: string): Option<Entry>
    requires line != []
  {
    var s := Split(line[..|line| - 1], '\t');
    if |s| < 2 then None
    else if s[0] in FloatList() then if ReadsAsFloat(s[1]) then Some(Entry(s[0], Float(s[1]))) else None
    else if s[0] in StrList() then Some(Entry(s[0], Str(s[1])))
    else
      match ParseInt(s[1])
      case None => None
      case Some(n) => Some(Entry(s[0], Int(n)))
  }

  function DecodeLines(lines: seq<string>): Option<Table>
    requires [] !in lines
  {
    if lines == [] then Some([])
    else
      var before, last := DecodeLines(lines[..|lines| - 1]), lines[|lines| - 1];
      if before.None? || ParseEntry(last).None? then None
      else
        var e := ParseEntry(last).value;
        Some(Updated(before.value, e.key, e.value))
  }

  lemma {:induction false} LinesAreNotEmpty(s: string)
    ensures [] !in ReadLines(s)
  {
    if s == [] {
    } else {
      LinesAreNotEmpty(s[|FirstLine(s)|..]);
    }
  }

  function Decode(text: string): Option<Table> {
    LinesAreNotEmpty(Universal(text));
    DecodeLines(ReadLines(Universal(text)))
  }

  // ---- the round trip ----

  function LinesOf(t: Table): seq<string> {
    if t == [] then [] else [LineOf(t[0])] + LinesOf(t[1..])
  }

  /** Each of the three line ends becomes one newline, and the text before it stays. */
  lemma {:induction false} UniversalLine(line: string, rest: string)
    requires '\r' !in line
    ensures Universal(line + "\r\n" + rest) == line + "\n" + Universal(rest)
    ensures Universal(line + "\n" + rest) == line + "\n" + Universal(rest)
    ensures rest == [] || rest[0] != '\n' ==> Universal(line + "\r" + rest) == line + "\n" + Universal(rest)
  {
    if line == [] {
      assert (line + "\r\n" + rest)[2..] == rest && (line + "\n" + rest)[1..] == rest;
      assert (line + "\r" + rest)[1..] == rest;
    } else {
      UniversalLine(line[1..], rest);
      assert (line + "\r\n" + rest)[1..] == line[1..] + "\r\n" + rest;
      assert (line + "\n" + rest)[1..] == line[1..] + "\n" + rest;
      assert (line + "\r" + rest)[1..] == line[1..] + "\r" + rest;
    }
  }

  lemma {:induction false} UniversalWithoutReturns(s: string)
    requires '\r' !in s
    ensures Universal(s) == s
  {
    if s == [] {
    } else {
      UniversalWithoutReturns(s[1..]);
    }
  }

  lemma LineIsPlain(e: Entry)
    requires Clean(e.key) && (e.value.Int? || Clean(e.value.text))
    ensures Clean(Shown(e.value))
    ensures '\n' !in e.key + "\t" + Shown(e.value) && '\r' !in LineOf(e)
  {
    if e.value.Int? {
      IntTextHasNoSpace(e.value.n);
      var shown := Shown(e.value);
      assert forall c :: c in shown ==> !IsSpace(c);
      assert IsSpace('\t') && IsSpace('\n') && IsSpace('\r');
    }
  }

  lemma {:induction false} EncodedLines(t: Table)
    requires forall e :: e in t ==> Storable(e)
    ensures '\r' !in Encode(t) && ReadLines(Encode(t)) == LinesOf(t)
  {
    if t == [] {
    } else {
      var e := t[0];
      assert e in t;
      EncodedLines(t[1..]);
      LineIsPlain(e);
      ReadFirstLine(e.key + "\t" + Shown(e.value), Encode(t[1..]));
    }
  }

  lemma ParseOfLine(e: Entry)
    requires Storable(e)
    ensures ParseEntry(LineOf(e)) == Some(e)
  {
    var line, shown := LineOf(e), Shown(e.value);
    LineIsPlain(e);
    hide Split, FloatList, StrList, ParseInt, IntToText;
    assert line[..|line| - 1] == e.key + ['\t'] + shown;
    SplitTwo(e.key, shown);
    if e.value.Int? {
      IntRoundTrip(e.value.n);
    }
  }

  lemma {:induction false} LinesOfConcat(t: Table, e: Entry)
    ensures LinesOf(t + [e]) == LinesOf(t) + [LineOf(e)]
  {
    if t == [] {
      assert (t + [e])[1..] == [];
    } else {
      LinesOfConcat(t[1..], e);
      assert (t + [e])[1..] == t[1..] + [e];
    }
  }

  lemma {:induction false} DecodeEncodedLines(t: Table)
    requires StorableTable(t)
    ensures [] !in LinesOf(t) && DecodeLines(LinesOf(t)) == Some(t)
  {
    if t == [] {
    } else {
      var init, e := t[..|t| - 1], t[|t| - 1];
      assert t == init + [e];
      assert forall e' :: e' in init ==> e'.key != e.key;
      DecodeEncodedLines(init);
      LinesOfConcat(init, e);
      assert LinesOf(t)[..|LinesOf(t)| - 1] == LinesOf(init);
      ParseOfLine(e);
      UpdatedNewKey(init, e.key, e.value);
    }
  }

  // ---- what can be read at all ----

  lemma {:induction false} UniversalHasNoReturns(s: string)
    ensures '\r' !in Universal(s)
  {
    if s == [] {
    } else {
      UniversalHasNoReturns(s[1..]);
      if |s| > 1 {
        UniversalHasNoReturns(s[2..]);
      }
    }
  }

  lemma {:induction false} LinesHoldNoNewline(s: string)
    requires '\r' !in s
    ensures forall line :: line in ReadLines(s) ==> line != [] && '\r' !in line && '\n' !in line[..|line| - 1]
  {
    if s == [] {
    } else {
      var line := FirstLine(s);
      NewlineOnlyAtEnd(s);
      LinesHoldNoNewline(s[|line|..]);
    }
  }

  lemma {:induction false} NewlineOnlyAtEnd(s: string)
    requires s != []
    ensures '\n' !in FirstLine(s)[..|FirstLine(s)| - 1]
  {
    if s[0] == '\n' || |s| == 1 {
    } else {
      NewlineOnlyAtEnd(s[1..]);
      var rest := FirstLine(s[1..]);
      assert FirstLine(s)[..|FirstLine(s)| - 1] == [s[0]] + rest[..|rest| - 1];
    }
  }

  lemma ParsedIsStorable(line: string)
    requires line != [] && '\r' !in line && '\n' !in line[..|line| - 1]
    requires ParseEntry(line).Some?
    ensures Storable(ParseEntry(line).value)
  {
    var body := line[..|line| - 1];
    var s := Split(body, '\t');
    JoinSplit(body, '\t');
    PiecesAreParts(s, '\t');
    assert s[0] in s && s[1] in s;
    assert Clean(s[0]) && Clean(s[1]);
  }

  lemma {:induction false} PiecesAreParts(pieces: seq<string>, sep: char)
    requires |pieces| >= 1
    ensures forall p, c :: p in pieces && c in p ==> c in Join(pieces, sep)
  {
    if |pieces| <= 1 {
    } else {
      PiecesAreParts(pieces[1..], sep);
    }
  }

  lemma {:induction false} DecodedIsStorable(lines: seq<string>)
    requires forall line :: line in lines ==> line != [] && '\r' !in line && '\n' !in line[..|line| - 1]
    requires DecodeLines(lines).Some?
    ensures StorableTable(DecodeLines(lines).value)
  {
    if lines == [] {
    } else {
      var last := lines[|lines| - 1];
      DecodedIsStorable(lines[..|lines| - 1]);
      var before, e := DecodeLines(lines[..|lines| - 1]).value, ParseEntry(last).value;
      ParsedIsStorable(last);
      UpdatedKeys(before, e.key, e.value);
    }
  }

  /** `get_tmp` undoes `save_tmp` exactly for the tables whose values have the type their key asks
      for and whose strings hold no tab, newline or carriage return. */
  lemma RoundTripIffStorable(t: Table)
    ensures Decode(Encode(t)) == Some(t) <==> StorableTable(t)
  {
    if StorableTable(t) {
      EncodedLines(t);
      UniversalWithoutReturns(Encode(t));
      DecodeEncodedLines(t);
    }
    if Decode(Encode(t)) == Some(t) {
      UniversalHasNoReturns(Encode(t));
      LinesHoldNoNewline(Universal(Encode(t)));
      DecodedIsStorable(ReadLines(Universal(Encode(t))));
    }
  }

  // ---- the scripts ----

  /** config/tmp.txt. */
  class TmpFile {
    var content: string

    constructor ()
      ensures content == ""
    {
      content := "";
    }

    /** `save_tmp`: the file is emptied first. */
    method SaveTmp(t: Table)
      modifies this
      ensures content == Encode(t)
    {
      hide Shown;
      content := "";
      for i := 0 to |t|
        modifies this
        invariant content == Encode(t[..i])
      {
        var line := t[i].key + "\t" + Shown(t[i].value) + "\n";
        assert line == LineOf(t[i]);
        content := content + line;
        EncodeConcat(t[..i], t[i]);
        assert t[..i] + [t[i]] == t[..i + 1];
      }
      assert t[..|t|] == t;
    }

    /** `get_tmp`. */
    method GetTmp() returns (result: Option<Table>)
      ensures result == Decode(content)
    {
      LinesAreNotEmpty(Universal(content));
      hide Universal, ReadLines, ParseEntry, Updated;
      var lines := ReadLines(Universal(content));
      var t: Table := [];
      for i := 0 to |lines|
        invariant DecodeLines(lines[..i]) == Some(t)
      {
        assert lines[..i + 1][..i] == lines[..i];
        var parsed := ParseEntry(lines[i]);
        if parsed.None? {
          DecodeFailsEarly(lines, i + 1);
          return None;
        }
        t := Updated(t, parsed.value.key, parsed.value.value);
      }
      assert lines[..|lines|] == lines;
      return Some(t);
    }

    /** `update_tmp`: one key changes, every other key keeps its value. */
    method UpdateTmp(key: string, element: Value) returns (ok: bool)
      modifies this
      ensures ok <==> Decode(old(content)).Some?
      ensures !ok ==> content == old(content)
      ensures ok ==> content == Encode(Updated(Decode(old(content)).value, key, element))
      ensures ok && Storable(Entry(key, element)) ==>
        Decode(content).Some? && ChangesOnly(Decode(old(content)).value, Decode(content).value, key, element)
    {
      var t := GetTmp();
      if t.None? {
        return false;
      }
      UpdateIsReadBack(content, key, element);
      SaveTmp(Updated(t.value, key, element));
      return true;
    }
  }

  lemma {:induction false} DecodeFailsEarly(lines: seq<string>, n: nat)
    requires [] !in lines && n <= |lines| && DecodeLines(lines[..n]).None?
    ensures DecodeLines(lines).None?
    decreases |lines| - n
  {
    if n == |lines| {
      assert lines[..n] == lines;
    } else {
      assert lines[..n + 1][..n] == lines[..n];
      DecodeFailsEarly(lines, n + 1);
    }
  }

  lemma UpdateIsReadBack(content: string, key: string, element: Value)
    requires Decode(content).Some?
    ensures Storable(Entry(key, element)) ==>
      var updated := Updated(Decode(content).value, key, element);
      Decode(Encode(updated)) == Some(updated) && ChangesOnly(Decode(content).value, updated, key, element)
  {
    var t := Decode(content).value;
    UniversalHasNoReturns(content);
    LinesHoldNoNewline(Universal(content));
    DecodedIsStorable(ReadLines(Universal(content)));
    hide Decode, Universal, Encode, FloatList, StrList, Clean, ReadsAsFloat, Storable, Updated, Lookup;
    if Storable(Entry(key, element)) {
      UpdatedKeys(t, key, element);
      RoundTripIffStorable(Updated(t, key, element));
      forall other
        ensures Lookup(Updated(t, key, element), other) == if other == key then Some(element) else Lookup(t, other)
      {
        LookupUpdated(t, key, element, other);
      }
    }
  }

  // ---- the Rust reader ----

  const U32_RANGE: nat := 0x1_0000_0000

  /** The number, or one of the panics of `read_hw_current_int_param`. */
  datatype Found = Number(n: nat) | NotANumber | Missing

  /** `parse::<u32>()`. */
  function ParseU32(s: string): Option<nat> {
    var digits := if s != [] && s[0] == '+' then s[1..] else s;
    match ParseNat(digits)
    case None => None
    case Some(n) => if n < U32_RANGE then Some(n) else None
  }

  /** A line as `lines()` yields it, without "\n" or "\r\n". */
  function WithoutEnd(line: string): string {
    if line == [] || line[|line| - 1] != '\n' then line
    else
      var body := line[..|line| - 1];
      if body != [] && body[|body| - 1] == '\r' then body[..|body| - 1] else body
  }

  /** The `find_map` over the lines. */
  function FindParam(lines: seq<string>, param: string): Found {
    if lines == [] then Missing
    else
      var parts := Split(Trim(WithoutEnd(lines[0])), '\t');
      if parts[0] == param then
        (match ParseU32(parts[|parts| - 1])
         case None => NotANumber
         case Some(n) => Number(n))
      else FindParam(lines[1..], param)
  }

  function ReadHwCurrentIntParam(param: string, content: string): Found {
    FindParam(ReadLines(content), param)
  }

  predicate IsKeyChar(c: char) {
    'a' <= c <= 'z' || 'A' <= c <= 'Z' || '0' <= c <= '9' || c == '_'
  }

  predicate IsKey(key: string) {
    key != [] && forall c :: c in key ==> IsKeyChar(c)
  }

  lemma {:induction false} TrimEndStops(s: string, tail: string)
    requires s != [] && !IsWhiteSpace(s[|s| - 1])
    ensures s <= TrimEnd(s + tail, IsWhiteSpace)
  {
    if tail == [] {
      assert s + tail == s;
    } else {
      var whole := s + tail;
      assert whole[..|whole| - 1] == s + tail[..|tail| - 1];
      TrimEndStops(s, tail[..|tail| - 1]);
    }
  }

  /** The line without its newline starts and, up to the tab, ends without white space. */
  lemma LineBody(e: Entry) returns (body: string)
    requires Storable(e) && IsKey(e.key)
    ensures body == e.key + "\t" + Shown(e.value) == WithoutEnd(LineOf(e))
    ensures TrimStart(body, IsWhiteSpace) == body && !IsWhiteSpace(e.key[|e.key| - 1])
  {
    var line := LineOf(e);
    LineIsPlain(e);
    body := e.key + "\t" + Shown(e.value);
    hide LineOf, Shown, TrimStart;
    assert line[..|line| - 1] == body;
    assert body[|body| - 1] in body;
    assert e.key[0] in e.key && e.key[|e.key| - 1] in e.key;
    KeyCharIsNoSpace(e.key[0]);
    KeyCharIsNoSpace(e.key[|e.key| - 1]);
    StartsWithoutSpace(body);
  }

  lemma StartsWithoutSpace(s: string)
    requires s != [] && !IsWhiteSpace(s[0])
    ensures TrimStart(s, IsWhiteSpace) == s
  {
  }

  lemma KeyCharIsNoSpace(c: char)
    requires IsKeyChar(c)
    ensures !IsWhiteSpace(c)
  {
  }

  /** Trimming the line leaves its key alone and, for a number, its value. */
  lemma FirstPartIsKey(e: Entry)
    requires Storable(e) && IsKey(e.key)
    ensures var parts := Split(Trim(WithoutEnd(LineOf(e))), '\t');
            parts[0] == e.key && (e.value.Int? ==> parts[|parts| - 1] == Shown(e.value))
  {
    var body := LineBody(e);
    LineIsPlain(e);
    hide LineOf, WithoutEnd, Split, ReadsAsFloat, FloatList, StrList;
    if e.value.Int? {
      NumberEndsTheLine(e, body);
      SplitTwo(e.key, Shown(e.value));
    } else {
      TextLine(e.key, Shown(e.value));
    }
  }

  lemma TextLine(key: string, shown: string)
    requires key != [] && !IsWhiteSpace(key[|key| - 1]) && '\t' !in key
    ensures Split(TrimEnd(key + "\t" + shown, IsWhiteSpace), '\t')[0] == key
  {
    hide TrimEnd, Split;
    assert key + "\t" + shown == key + ("\t" + shown);
    TrimEndStops(key, "\t" + shown);
    TrimEndIsPrefix(key + "\t" + shown);
    FirstPieceOfPrefix(key, shown, TrimEnd(key + "\t" + shown, IsWhiteSpace));
  }

  lemma NumberEndsTheLine(e: Entry, body: string)
    requires e.value.Int? && body == e.key + "\t" + Shown(e.value)
    ensures TrimEnd(body, IsWhiteSpace) == body
  {
    var shown := Shown(e.value);
    IntTextHasNoSpace(e.value.n);
    assert shown[|shown| - 1] in shown && body[|body| - 1] == shown[|shown| - 1];
  }

  lemma SplitTwo(key: string, shown: string)
    requires '\t' !in key && '\t' !in shown
    ensures Split(key + "\t" + shown, '\t') == [key, shown]
  {
    SplitAtSeparator(key, shown, '\t');
    SplitFree(key, '\t');
    SplitFree(shown, '\t');
  }

  lemma {:induction false} TrimEndIsPrefix(s: string)
    ensures TrimEnd(s, IsWhiteSpace) <= s
  {
    if s == [] || !IsWhiteSpace(s[|s| - 1]) {
    } else {
      TrimEndIsPrefix(s[..|s| - 1]);
    }
  }

  lemma FirstPieceOfPrefix(key: string, shown: string, part: string)
    requires '\t' !in key && key <= part <= key + "\t" + shown
    ensures Split(part, '\t')[0] == key
  {
    SplitFree(key, '\t');
    if |part| == |key| {
      assert part == key;
    } else {
      var rest := part[|key| + 1..];
      assert part == key + ['\t'] + rest;
      SplitAtSeparator(key, rest, '\t');
    }
  }

  lemma ParseU32OfInt(n: int)
    ensures ParseU32(IntToText(n)) == if 0 <= n < U32_RANGE then Some(n) else None
  {
    var s := IntToText(n);
    if n < 0 {
      assert s[0] == '-' && !IsDigit('-') && s[0] in s;
    } else {
      NatRoundTrip(n);
      assert IsDigit(s[0]);
    }
  }

  lemma {:induction false} RustFindsTheSame(t: Table, param: string)
    requires forall e :: e in t ==> Storable(e) && IsKey(e.key)
    requires Lookup(t, param).Some? ==> Lookup(t, param).value.Int?
    ensures FindParam(LinesOf(t), param) ==
      match Lookup(t, param)
      case None => Missing
      case Some(value) => if 0 <= value.n < U32_RANGE then Number(value.n) else NotANumber
  {
    hide Trim, WithoutEnd, LineOf, ParseU32, FloatList, StrList, IntToText, Split;
    if t == [] {
    } else {
      FirstPartIsKey(t[0]);
      if t[0].key == param {
        ParseU32OfInt(t[0].value.n);
      } else {
        RustFindsTheSame(t[1..], param);
        assert LinesOf(t)[1..] == LinesOf(t[1..]);
      }
    }
  }

  /** The Rust programs find the same integer in the file Python wrote, as long as it fits a u32;
      anything else makes them panic. */
  lemma RustReadsWhatPythonWrote(t: Table, param: string)
    requires StorableTable(t) && forall e :: e in t ==> IsKey(e.key)
    requires Lookup(t, param).Some? ==> Lookup(t, param).value.Int?
    ensures ReadHwCurrentIntParam(param, Encode(t)) ==
      match Lookup(t, param)
      case None => Missing
      case Some(value) => if 0 <= value.n < U32_RANGE then Number(value.n) else NotANumber
  {
    EncodedLines(t);
    RustFindsTheSame(t, param);
  }

  /** After the long delay search the receiver can read the decoy delay iff the fibre delay is at
      least 25. */
  lemma DecoyDelayIsReadable(t: Table, fiberDelay: nat)
    requires StorableTable(t) && forall e :: e in t ==> IsKey(e.key)
    requires fiberDelay < 32000 && Lookup(t, "decoy_fiber_delay") == Some(Int(fiberDelay - 25))
    ensures ReadHwCurrentIntParam("decoy_fiber_delay", Encode(t)).Number? <==> fiberDelay >= 25
  {
    RustReadsWhatPythonWrote(t, "decoy_fiber_delay");
  }
}
