/** The console adapter: how a block of bytes becomes a line of text, and what the reader of such
    a line hands on. */
module Console {
  import opened Base64

  /** The modes are bit sets: bit 0 for the console, bit 1 for the callbacks. */
  datatype Mode = STDOUT | CALLBACK | MIXED {
    function Bits(): nat {
      match this
      case STDOUT => 1
      case CALLBACK => 2
      case MIXED => 3
    }
    predicate ToStdout() { Bits() % 2 == 1 }
    predicate ToCallbacks() { Bits() / 2 % 2 == 1 }
  }

  const PREFIX := "!:"

  function Body(data: seq<Byte>): string { Text(ToSextets(data)) }

  /** What the padding loop appends when its counter starts at start: start + 1 characters,
      or none once the counter has run out. */
  function LoopPads(start: int): string {
    if start < 0 then "" else Pads(start + 1)
  }

  function FirstCounter(n: nat): nat { PaddingFor(n) + 1 }

  /** A line with its padding, or one written after the counter has already run out. */
  function Line(data: seq<Byte>, padded: bool, newline: bool): string {
    PREFIX + Body(data) + (if padded then LoopPads(FirstCounter(|data|)) else "")
    + if newline then "\n" else ""
  }

  /** The line every callback gets: the padding counter is shared with the console output. */
  function CallbackLine(mode: Mode, data: seq<Byte>): string {
    Line(data, !mode.ToStdout(), true)
  }

  // ---------------------------------------------------------------- reading

  datatype Outcome =
    | Ignored
    | Invalid
    | Handed(bytes: seq<Byte>)

  function CorrectLength(length: nat): nat { length / 8 * 8 + 1 }

  function UpToNewline(s: string): string {
    if s == "" || s[0] == '\n' then "" else [s[0]] + UpToNewline(s[1..])
  }

  function EqualsToA(s: string): string {
    seq(|s|, i requires 0 <= i < |s| => if s[i] == '=' then 'A' else s[i])
  }

  /** The bytes handed to RComm: the formula can reach one past the decoded bytes, where the
      string keeps its terminating zero. */
  function HandedOn(binary: seq<Byte>): seq<Byte> {
    (binary + [0])[..CorrectLength(|binary|)]
  }

  function ParseBase64(text: string): Outcome {
    var base64 := EqualsToA(UpToNewline(text));
    if Decodable(base64) then Handed(HandedOn(ToBytes(Values(base64)))) else Invalid
  }

  function ParseLine(line: string): Outcome {
    if |line| > 2 && line[..2] == PREFIX then ParseBase64(line[2..]) else Ignored
  }

  // ---------------------------------------------------------------- the adapter object

  class ConsoleAdapter {
    var mode: Mode
    var stdout: string
    var callbacks: seq<seq<string>>

    constructor ()
      ensures mode == STDOUT && stdout == "" && callbacks == []
    {
      mode, stdout, callbacks := STDOUT, "", [];
    }

    method AddCallback()
      modifies this`callbacks
      ensures callbacks == old(callbacks) + [[]]
    {
      callbacks := callbacks + [[]];
    }

    method SetMode(m: Mode)
      modifies this`mode
      ensures mode == m
    {
      mode := m;
    }

    /** The transmit callback. The console gets the standard line in every mode but CALLBACK; the
        callbacks get it in CALLBACK mode, the bare line in MIXED mode, and nothing in STDOUT mode. */
    method Transmit(data: seq<Byte>)
      requires data != []
      modifies this`stdout, this`callbacks
      ensures stdout == old(stdout)
                        + if mode == CALLBACK then "" else "!:" + Rfc4648(data) + "==" + "\n"
      ensures |callbacks| == |old(callbacks)|
      ensures forall i :: 0 <= i < |callbacks| ==>
                callbacks[i] == old(callbacks)[i]
                                + match mode
                                  case STDOUT => []
                                  case CALLBACK => ["!:" + Rfc4648(data) + "==" + "\n"]
                                  case MIXED => ["!:" + Letters(Rfc4648Values(data)) + "\n"]
    {
      var writePadChars: int := (3 - |data| % 3) % 3 + 1;
      if mode.ToStdout() {
        LineShape(data);
        writePadChars := PrintLine(data, writePadChars);
      }
      if mode.ToCallbacks() {
        CallbackLineShape(data);
        var outStr := ComposeLine(data, writePadChars);
        assert outStr == CallbackLine(mode, data);
        WriteToCallbacks(outStr);
      }
    }

    /** The console half, which runs the padding counter down. */
    method PrintLine(data: seq<Byte>, start: int) returns (writePadChars: int)
      requires start >= -1
      modifies this`stdout
      ensures stdout == old(stdout) + (PREFIX + Body(data) + LoopPads(start) + "\n")
      ensures writePadChars == -1
    {
      writePadChars := start;
      stdout := stdout + PREFIX + Body(data);
      ghost var before := stdout;
      while writePadChars >= 0
        invariant -1 <= writePadChars <= start
        invariant stdout == before + Pads(start - writePadChars)
      {
        stdout := stdout + "=";
        assert Pads(start - writePadChars) + "=" == Pads(start - (writePadChars - 1));
        writePadChars := writePadChars - 1;
      }
      stdout := stdout + "\n";
      assert LoopPads(start) == Pads(start + 1);
    }

    /** The callback half: the same line, with as much padding as the counter still allows. */
    method ComposeLine(data: seq<Byte>, start: int) returns (outStr: string)
      requires start >= -1
      ensures outStr == PREFIX + Body(data) + LoopPads(start) + "\n"
    {
      var writePadChars := start;
      outStr := PREFIX + Body(data);
      while writePadChars >= 0
        invariant -1 <= writePadChars <= start
        invariant outStr == PREFIX + Body(data) + Pads(start - writePadChars)
      {
        outStr := outStr + "=";
        assert Pads(start - writePadChars) + "=" == Pads(start - (writePadChars - 1));
        writePadChars := writePadChars - 1;
      }
      outStr := outStr + "\n";
      assert LoopPads(start) == Pads(start + 1);
    }

    method WriteToCallbacks(outStr: string)
      modifies this`callbacks
      ensures |callbacks| == |old(callbacks)|
      ensures forall i :: 0 <= i < |callbacks| ==> callbacks[i] == old(callbacks)[i] + [outStr]
    {
      for i := 0 to |callbacks|
        invariant |callbacks| == |old(callbacks)|
        invariant forall j :: 0 <= j < i ==> callbacks[j] == old(callbacks)[j] + [outStr]
        invariant forall j :: i <= j < |callbacks| ==> callbacks[j] == old(callbacks)[j]
      {
        callbacks := callbacks[i := callbacks[i] + [outStr]];
      }
    }

    /** parseLine and parseBase64: erase the prefix, cut at the newline, replace, decode. */
    method Parse(text: string) returns (outcome: Outcome)
      ensures outcome == ParseLine(text)
    {
      outcome := Ignored;
      var line := text;
      if |line| > 2 {
        if line[0] == '!' && line[1] == ':' {
          assert line[..2] == PREFIX;
          line := line[2..];
          line := CutAtNewline(line);
          line := ReplaceEquals(line);
          if Decodable(line) {
            outcome := Handed(HandedOn(ToBytes(Values(line))));
          } else {
            outcome := Invalid;
          }
        } else {
          assert line[..2][0] != '!' || line[..2][1] != ':';
        }
      }
    }

    method CutAtNewline(s: string) returns (r: string)
      ensures r == UpToNewline(s)
    {
      var i := 0;
      while i < |s| && s[i] != '\n'
        invariant i <= |s|
        invariant UpToNewline(s) == s[..i] + UpToNewline(s[i..])
      {
        assert s[i..][1..] == s[i + 1..];
        i := i + 1;
      }
      r := s[..i];
    }

    method ReplaceEquals(s: string) returns (r: string)
      ensures r == EqualsToA(s)
    {
      r := s;
      for i := 0 to |s|
        invariant |r| == |s|
        invariant forall j :: 0 <= j < i ==> r[j] == EqualsToA(s)[j]
        invariant forall j :: i <= j < |s| ==> r[j] == s[j]
      {
        if r[i] == '=' {
          r := r[i := 'A'];
        }
      }
    }
  }

  // ---------------------------------------------------------------- the shape of a line

  /** A padded line is the prefix, the standard encoding with its own padding, two more '=',
      and a newline that is its only one. */
  lemma LineShape(data: seq<Byte>)
    ensures Line(data, true, true) == PREFIX + Rfc4648(data) + "==" + "\n"
    ensures '\n' !in PREFIX + Rfc4648(data) + "=="
  {
    StreamIsRfc4648(data);
    LettersAreText(Rfc4648Values(data));
    assert LoopPads(FirstCounter(|data|)) == Pads(PaddingFor(|data|)) + "==";
    assert PREFIX + Rfc4648(data) + "==" == PREFIX + Body(data) + Pads(PaddingFor(|data|)) + "==";
    NoNewline(data, PaddingFor(|data|) + 2);
    assert Pads(PaddingFor(|data|)) + "==" == Pads(PaddingFor(|data|) + 2);
    assert PREFIX + Rfc4648(data) + "==" == PREFIX + Body(data) + Pads(PaddingFor(|data|) + 2);
  }

  lemma NoNewline(data: seq<Byte>, pads: nat)
    ensures '\n' !in PREFIX + Body(data) + Pads(pads)
  {
    ValuesOfText(ToSextets(data));
    assert '\n' !in Body(data) && '\n' !in Pads(pads) && '\n' !in PREFIX;
  }

  // ---------------------------------------------------------------- what is read

  predicate Readable(c: char) { c in ALPHABET || c == '=' }

  /** A line that starts with "!:" and goes on. */
  predicate Marked(line: string) { |line| >= 3 && line[0] == '!' && line[1] == ':' }

  lemma {:induction false} UpToFirst(s: string)
    ensures UpToNewline(s) <= s && '\n' !in UpToNewline(s)
    ensures |UpToNewline(s)| < |s| ==> s[|UpToNewline(s)|] == '\n'
  {
    if s != "" && s[0] != '\n' {
      UpToFirst(s[1..]);
      var rest := UpToNewline(s[1..]);
      assert s == [s[0]] + s[1..];
      assert |rest| < |s[1..]| ==> s[1 + |rest|] == s[1..][|rest|];
    }
  }

  lemma ReadableIsDecodable(s: string)
    ensures Decodable(EqualsToA(s)) <==> forall i :: 0 <= i < |s| ==> Readable(s[i])
  {
    forall i | 0 <= i < |s| ensures ValueOf(EqualsToA(s)[i]) >= 0 <==> Readable(s[i]) {
      KnownCharacters(s[i]);
    }
    if Decodable(EqualsToA(s)) {
      forall i | 0 <= i < |s| ensures Readable(s[i]) {
        assert ValueOf(EqualsToA(s)[i]) >= 0;
      }
    }
  }

  /** Character i of the line counts: no newline comes before it, nor is it one. */
  predicate Counts(line: string, i: nat) {
    2 <= i < |line| && forall j :: 2 <= j <= i ==> line[j] != '\n'
  }

  /** Which lines are ignored, invalid, or handed on, by their characters alone. */
  lemma WhatIsRead(line: string)
    ensures ParseLine(line).Ignored? <==> !Marked(line)
    ensures ParseLine(line).Handed? <==> Marked(line) && forall i: nat :: Counts(line, i) ==> Readable(line[i])
    ensures ParseLine(line).Invalid? <==> Marked(line) && exists i: nat :: Counts(line, i) && !Readable(line[i])
  {
    assert |line| > 2 ==> (line[..2] == PREFIX <==> line[..2][0] == '!' && line[..2][1] == ':');
    if Marked(line) {
      var text := UpToNewline(line[2..]);
      UpToFirst(line[2..]);
      ReadableIsDecodable(text);
      CountedText(line, text);
    }
  }

  lemma CountedText(line: string, text: string)
    requires |line| >= 2 && text <= line[2..] && '\n' !in text
    requires |text| < |line| - 2 ==> line[2..][|text|] == '\n'
    ensures (forall i :: 0 <= i < |text| ==> Readable(text[i]))
            <==> forall i: nat :: Counts(line, i) ==> Readable(line[i])
  {
    forall i: nat | 2 <= i < 2 + |text| ensures line[i] == text[i - 2] && Counts(line, i) {
      forall j | 2 <= j <= i ensures line[j] != '\n' {
        assert line[j] == text[j - 2];
      }
    }
    if |text| < |line| - 2 {
      assert line[2 + |text|] == line[2..][|text|] == '\n';
    }
    forall i: nat | Counts(line, i) ensures i < 2 + |text| {}
    if forall i: nat :: Counts(line, i) ==> Readable(line[i]) {
      forall i | 0 <= i < |text| ensures Readable(text[i]) {
        assert Counts(line, i + 2) && line[i + 2] == text[i];
      }
    }
  }

  /** The bytes handed on, by the standard's own decoding, with '=' read as the value 0: the first
      n / 8 * 8 + 1 of the n decoded bytes, and if there are only n, a zero byte after them. */
  lemma WhatIsHandedOn(line: string)
    requires ParseLine(line).Handed?
    ensures var base64 := EqualsToA(UpToNewline(line[2..]));
            Decodable(base64) &&
            var decoded, bytes := Rfc4648Bytes(Values(base64)), ParseLine(line).bytes;
            |bytes| == |decoded| / 8 * 8 + 1
            && forall i :: 0 <= i < |bytes| ==> bytes[i] == if i < |decoded| then decoded[i] else 0
  {
    BytesAreRfc4648(Values(EqualsToA(UpToNewline(line[2..]))));
  }

  // ---------------------------------------------------------------- the round trip

  lemma {:induction false} CutKeepsText(s: string, rest: string)
    requires '\n' !in s && (rest == "" || rest[0] == '\n')
    ensures UpToNewline(s + rest) == s
  {
    if s == "" {
      assert s + rest == rest;
    } else {
      assert s[0] in s && forall c :: c in s[1..] ==> c in s;
      assert (s + rest)[1..] == s[1..] + rest;
      CutKeepsText(s[1..], rest);
    }
  }

  lemma BodyWithPads(data: seq<Byte>, pads: nat)
    ensures var s := EqualsToA(Body(data) + Pads(pads));
            Decodable(s) && Values(s) == WithZeros(data, pads)
    ensures '\n' !in Body(data) + Pads(pads)
  {
    var xs := ToSextets(data);
    ValuesOfText(xs);
    var s := EqualsToA(Body(data) + Pads(pads));
    forall i | 0 <= i < |s| ensures ValueOf(s[i]) == (if i < |xs| then xs[i] else 0) {
      if i < |xs| {
        assert (Body(data) + Pads(pads))[i] == Text(xs)[i];
        DecodesAlphabet(xs[i]);
      }
    }
  }

  /** Reading a body followed by any number of '=': all whole bytes of the stream, the payload
      first, then zeros; of these the formula hands on as many as it says. */
  lemma ReadsBack(data: seq<Byte>, pads: nat, newline: string)
    requires newline == "" || newline == "\n"
    requires data != []
    ensures var n := 6 * (|ToSextets(data)| + pads) / 8;
            n >= |data|
            && ParseLine(PREFIX + Body(data) + Pads(pads) + newline)
               == Handed(HandedOn(data + Repeat(n - |data|)))
  {
    var text := Body(data) + Pads(pads);
    var line := PREFIX + Body(data) + Pads(pads) + newline;
    assert line[2..] == text + newline && line[..2] == PREFIX;
    BodyWithPads(data, pads);
    CutKeepsText(text, newline);
    RegroupingRoundTrip(data, pads);
    assert |ToSextets(data)| > 0 by { GroupCount(Flatten(data, 8)); }
  }

  /** How many bytes the two kinds of line decode to. */
  lemma DecodedLengths(data: seq<Byte>)
    requires data != []
    ensures 6 * (|ToSextets(data)| + FirstCounter(|data|) + 1) / 8 == (|data| + 2) / 3 * 3 + 1
    ensures 6 * |ToSextets(data)| / 8 == |data|
  {
    GroupCount(Flatten(data, 8));
    var n := |data|;
    assert |ToSextets(data)| == (8 * n + 5) / 6;
    var q, r := n / 3, n % 3;
    assert n == 3 * q + r;
    assert (8 * n + 5) / 6 == 4 * q + (8 * r + 5) / 6;
  }

  lemma HandsOnExactly(data: seq<Byte>, extra: nat)
    requires extra <= 3 && data != []
    ensures HandedOn(data + Repeat(extra)) == data <==> CorrectLength(|data| + extra) == |data|
  {
    var binary: seq<Byte> := data + Repeat(extra);
    assert |HandedOn(binary)| == CorrectLength(|binary|);
    if CorrectLength(|data| + extra) == |data| {
      assert HandedOn(binary) == data;
    }
  }

  /** Printer and reader undo each other for every line the printer can emit (padded on the
      console or as the only output, bare for the callbacks of MIXED mode), read with or without
      its newline, exactly for the payloads whose length is 1 modulo 8. */
  lemma RoundTripIff(data: seq<Byte>, padded: bool, newline: bool)
    requires data != []
    ensures ParseLine(Line(data, padded, newline)) == Handed(data) <==> |data| % 8 == 1
  {
    var n := if padded then (|data| + 2) / 3 * 3 + 1 else |data|;
    LineReadsBack(data, padded, newline);
    HandsOnExactly(data, n - |data|);
    LengthRecovered(|data|, padded);
  }

  lemma BareLine(data: seq<Byte>)
    ensures Line(data, false, true) == PREFIX + Letters(Rfc4648Values(data)) + "\n"
  {
    StreamIsRfc4648(data);
    LettersAreText(Rfc4648Values(data));
    var text := PREFIX + Body(data);
    assert text + "" == text;
  }

  /** The callback line is padded if the callbacks are the only output, and bare if the console
      came first. */
  lemma CallbackLineShape(data: seq<Byte>)
    ensures CallbackLine(MIXED, data) == PREFIX + Letters(Rfc4648Values(data)) + "\n"
    ensures CallbackLine(CALLBACK, data) == PREFIX + Rfc4648(data) + "==" + "\n"
  {
    assert CallbackLine(MIXED, data) == Line(data, false, true);
    assert CallbackLine(CALLBACK, data) == Line(data, true, true);
    BareLine(data);
    LineShape(data);
  }

  lemma LineReadsBack(data: seq<Byte>, padded: bool, newline: bool)
    requires data != []
    ensures var n := if padded then (|data| + 2) / 3 * 3 + 1 else |data|;
            ParseLine(Line(data, padded, newline)) == Handed(HandedOn(data + Repeat(n - |data|)))
  {
    var pads := if padded then FirstCounter(|data|) + 1 else 0;
    var end := if newline then "\n" else "";
    assert Line(data, padded, newline) == PREFIX + Body(data) + Pads(pads) + end;
    DecodedLengths(data);
    ReadsBack(data, pads, end);
  }

  lemma LengthRecovered(length: nat, padded: bool)
    requires length > 0
    ensures CorrectLength(if padded then (length + 2) / 3 * 3 + 1 else length) == length
            <==> length % 8 == 1
  {
  }
}
