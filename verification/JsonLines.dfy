/** A file of JSON records, one to a line, as text. What the JSON encoder writes is a parameter. */
module JsonLines {
  import opened Tasks
  import opened PlanJson

  datatype Codec = Codec(dump: Json -> string, load: string -> Option<Json>)

  predicate IsRecord(j: Json) { j.JObject? || j.JDict? }

  /** What is asked of the encoder and the decoder at a record that is written: its text is read
      back as the record, it starts with a brace, nothing short of it can be read, and control
      characters are escaped in it. */
  ghost predicate FaithfulAt(codec: Codec, j: Json) {
    var text := codec.dump(j);
    && codec.load(text) == Some(j)
    && text != "" && text[0] == '{'
    && (forall n :: 0 <= n < |text| ==> codec.load(text[..n]).None?)
    && (forall i :: 0 <= i < |text| ==> text[i] >= ' ')
  }

  ghost predicate AllFaithful(codec: Codec, records: seq<Json>) {
    forall r :: r in records ==> FaithfulAt(codec, r)
  }

  // ---------- lines ----------

  /** The characters at which `str.splitlines` breaks. */
  predicate IsBreak(c: char) {
    c in {'\n', '\r', '\U{0B}', '\U{0C}', '\U{1C}', '\U{1D}', '\U{1E}', '\U{85}', '\U{2028}', '\U{2029}'}
  }

  function FirstBreak(text: string): (n: nat)
    ensures n <= |text| && (forall i :: 0 <= i < n ==> !IsBreak(text[i])) && (n < |text| ==> IsBreak(text[n]))
  {
    if text == "" || IsBreak(text[0]) then 0 else 1 + FirstBreak(text[1..])
  }

  /** The rest after a break; a carriage return and line feed are one break. */
  function AfterBreak(text: string): string
    requires text != ""
  {
    if |text| >= 2 && text[0] == '\r' && text[1] == '\n' then text[2..] else text[1..]
  }

  function SplitLines(text: string): seq<string>
    decreases |text|
  {
    if text == "" then []
    else
      var n := FirstBreak(text);
      if n == |text| then [text] else [text[..n]] + SplitLines(AfterBreak(text[n..]))
  }

  predicate IsSpace(c: char) {
    IsBreak(c) || c in {' ', '\t', '\U{1F}', '\U{A0}', '\U{1680}', '\U{202F}', '\U{205F}', '\U{3000}'} || '\U{2000}' <= c <= '\U{200A}'
  }

  predicate Blank(line: string) {
    forall i :: 0 <= i < |line| ==> IsSpace(line[i])
  }

  // ---------- reading and writing ----------

  /** The text of the file after appending these records. */
  function Written(codec: Codec, records: seq<Json>): string {
    if records == [] then "" else codec.dump(records[0]) + "\n" + Written(codec, records[1..])
  }

  /** None where reading raises: on a line that is no JSON, or no object. */
  function ReadLines(codec: Codec, lines: seq<string>): Option<seq<Json>> {
    if lines == [] then Some([])
    else if Blank(lines[0]) then ReadLines(codec, lines[1..])
    else match (codec.load(lines[0]), ReadLines(codec, lines[1..]))
      case (Some(record), Some(rest)) => if IsRecord(record) then Some([record] + rest) else None
      case _ => None
  }

  function Read(codec: Codec, text: string): Option<seq<Json>> {
    ReadLines(codec, SplitLines(text))
  }

  predicate BreakFree(text: string) {
    forall i :: 0 <= i < |text| ==> !IsBreak(text[i])
  }

  predicate AllBreakFree(codec: Codec, records: seq<Json>) {
    forall r :: r in records ==> BreakFree(codec.dump(r))
  }

  lemma {:induction false} FirstBreakIs(text: string, n: nat)
    requires n < |text| && IsBreak(text[n]) && forall i :: 0 <= i < n ==> !IsBreak(text[i])
    ensures FirstBreak(text) == n
  {
    if n > 0 {
      FirstBreakIs(text[1..], n - 1);
    }
  }

  lemma {:induction false} SplitAfterLine(line: string, sep: string, rest: string)
    requires sep != "" && IsBreak(sep[0]) && forall i :: 0 <= i < |line| ==> !IsBreak(line[i])
    requires AfterBreak(sep + rest) == rest
    ensures SplitLines(line + sep + rest) == [line] + SplitLines(rest)
  {
    hide IsBreak, AfterBreak;
    var text := line + sep + rest;
    FirstBreakIs(text, |line|);
    assert text[..|line|] == line && text[|line|..] == sep + rest;
  }

  /** How a text is split: at each of ten characters, a carriage return with its line feed being one
      break; a text that ends with a break has no further line. */
  lemma {:induction false} SplitsAtBreak(line: string, c: char, rest: string)
    requires forall x :: x in line ==>
      x !in {'\n', '\r', '\U{0B}', '\U{0C}', '\U{1C}', '\U{1D}', '\U{1E}', '\U{85}', '\U{2028}', '\U{2029}'}
    requires c in {'\n', '\r', '\U{0B}', '\U{0C}', '\U{1C}', '\U{1D}', '\U{1E}', '\U{85}', '\U{2028}', '\U{2029}'}
    ensures SplitLines(line) == if line == "" then [] else [line]
    ensures SplitLines(line + "\r\n" + rest) == [line] + SplitLines(rest)
    ensures c != '\r' || rest == "" || rest[0] != '\n' ==> SplitLines(line + [c] + rest) == [line] + SplitLines(rest)
  {
    assert forall i :: 0 <= i < |line| ==> line[i] in line;
    assert forall i :: 0 <= i < |line| ==> !IsBreak(line[i]);
    assert IsBreak(c) && IsBreak('\r');
    hide IsBreak;
    assert ("\r\n" + rest)[2..] == rest && ([c] + rest)[1..] == rest;
    SplitAfterLine(line, "\r\n", rest);
    if c != '\r' || rest == "" || rest[0] != '\n' {
      SplitAfterLine(line, [c], rest);
    }
  }

  /** Lines of blanks alone are passed over; every other line has to be the text of an object. */
  lemma BlanksArePassedOver(codec: Codec, line: string, lines: seq<string>)
    ensures (forall i :: 0 <= i < |line| ==>
               line[i] in {' ', '\t', '\n', '\r', '\U{0B}', '\U{0C}', '\U{1C}', '\U{1D}', '\U{1E}', '\U{1F}', '\U{85}', '\U{A0}',
                           '\U{1680}', '\U{2000}', '\U{2001}', '\U{2002}', '\U{2003}', '\U{2004}', '\U{2005}', '\U{2006}', '\U{2007}',
                           '\U{2008}', '\U{2009}', '\U{200A}', '\U{2028}', '\U{2029}', '\U{202F}', '\U{205F}', '\U{3000}'})
      ==> ReadLines(codec, [line] + lines) == ReadLines(codec, lines)
    ensures (exists i :: 0 <= i < |line| &&
               line[i] !in {' ', '\t', '\n', '\r', '\U{0B}', '\U{0C}', '\U{1C}', '\U{1D}', '\U{1E}', '\U{1F}', '\U{85}', '\U{A0}',
                            '\U{1680}', '\U{2000}', '\U{2001}', '\U{2002}', '\U{2003}', '\U{2004}', '\U{2005}', '\U{2006}', '\U{2007}',
                            '\U{2008}', '\U{2009}', '\U{200A}', '\U{2028}', '\U{2029}', '\U{202F}', '\U{205F}', '\U{3000}'})
      ==> (ReadLines(codec, [line] + lines) != None <==>
             codec.load(line) != None && (codec.load(line).value.JObject? || codec.load(line).value.JDict?) && ReadLines(codec, lines) != None)
  {
    assert ([line] + lines)[1..] == lines;
    SpacesAre();
  }

  lemma SpacesAre()
    ensures forall c :: IsSpace(c) <==>
      c in {' ', '\t', '\n', '\r', '\U{0B}', '\U{0C}', '\U{1C}', '\U{1D}', '\U{1E}', '\U{1F}', '\U{85}', '\U{A0}',
            '\U{1680}', '\U{2000}', '\U{2001}', '\U{2002}', '\U{2003}', '\U{2004}', '\U{2005}', '\U{2006}', '\U{2007}',
            '\U{2008}', '\U{2009}', '\U{200A}', '\U{2028}', '\U{2029}', '\U{202F}', '\U{205F}', '\U{3000}'}
  {
  }

  /** The first line of a file that starts with this record: the record, up to a break in it. */
  lemma FirstLine(line: string, rest: string)
    requires forall i :: 0 <= i < |line| ==> line[i] >= ' '
    ensures var text := line + "\n" + rest; var n := FirstBreak(line);
      SplitLines(text) != [] && SplitLines(text)[0] == line[..n]
      && (n == |line| ==> SplitLines(text)[1..] == SplitLines(rest))
  {
    var text, n := line + "\n" + rest, FirstBreak(line);
    assert text[n] == if n < |line| then line[n] else '\n';
    assert forall i :: 0 <= i < n ==> text[i] == line[i];
    FirstBreakIs(text, n);
    assert text[..n] == line[..n];
    if n == |line| {
      assert text[n..] == "\n" + rest;
      assert AfterBreak(text[n..]) == rest;
    }
  }

  /** The first line of a file whose first record is `j`: a text that is no blank, and is the
      whole text of the record iff the record is free of breaks. */
  lemma FirstRecordLine(codec: Codec, j: Json, rest: string)
    requires FaithfulAt(codec, j)
    ensures var text := codec.dump(j) + "\n" + rest;
      && SplitLines(text) != [] && !Blank(SplitLines(text)[0])
      && if BreakFree(codec.dump(j)) then SplitLines(text)[0] == codec.dump(j) && SplitLines(text)[1..] == SplitLines(rest)
         else codec.load(SplitLines(text)[0]).None?
  {
    var line := codec.dump(j);
    var n := FirstBreak(line);
    FirstLine(line, rest);
    assert !IsSpace('{') && !IsBreak('{');
    assert n > 0 && line[..n][0] == '{';
    assert n == |line| ==> line[..n] == line;
    hide SplitLines, FirstBreak;
  }

  /** Appended records are read back as they were iff none of their texts holds a character at
      which lines are split; one such record makes the whole file unreadable. */
  lemma {:induction false} ReadBackIff(codec: Codec, records: seq<Json>)
    requires AllFaithful(codec, records) && forall r :: r in records ==> IsRecord(r)
    ensures Read(codec, Written(codec, records)) == if AllBreakFree(codec, records) then Some(records) else None
  {
    if records != [] {
      var rest := Written(codec, records[1..]);
      assert records[0] in records && records == [records[0]] + records[1..];
      ReadBackIff(codec, records[1..]);
      FirstRecordLine(codec, records[0], rest);
      assert codec.load(codec.dump(records[0])) == Some(records[0]);
      hide SplitLines, BreakFree, Blank, FaithfulAt;
    }
  }

  /** An ordinary description can hold such a character: the encoder leaves U+2028 as it is. */
  predicate LeavesSeparators(codec: Codec, j: Json) {
    '\U{2028}' in codec.dump(j)
  }

  lemma OneSeparatorSpoilsTheFile(codec: Codec, before: seq<Json>, j: Json, after: seq<Json>)
    requires AllFaithful(codec, before + [j] + after) && LeavesSeparators(codec, j)
    requires forall r :: r in before + [j] + after ==> IsRecord(r)
    ensures Read(codec, Written(codec, before + [j] + after)).None?
  {
    var records := before + [j] + after;
    assert records[|before|] == j;
    var i :| 0 <= i < |codec.dump(j)| && codec.dump(j)[i] == '\U{2028}';
    assert !BreakFree(codec.dump(j));
    ReadBackIff(codec, records);
  }

  lemma {:induction false} WrittenAppend(codec: Codec, records: seq<Json>, j: Json)
    ensures Written(codec, records + [j]) == Written(codec, records) + (codec.dump(j) + "\n")
  {
    if records == [] {
      assert [] + [j] == [j] && [j][1..] == [];
    } else {
      assert (records + [j])[1..] == records[1..] + [j];
      WrittenAppend(codec, records[1..], j);
    }
  }
}
