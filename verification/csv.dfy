/** `CSV`: splitting one line of text into comma-separated fields, where a
    double quote toggles a mode in which commas belong to the field. */
module Csv {
  import opened Wrappers

  const Quote: char := '"'
  const Comma: char := ','

  // ---------------------------------------------------------------------
  // The scanner of `parseRecord`

  /** The loop state: the fields finished so far, the field being
      accumulated (the `StringBuilder`), and the quotation mode. */
  datatype ScanState = ScanState(fields: seq<string>, current: string, quoted: bool)

  const Start := ScanState([], [], false)

  /** One iteration of the loop over the characters of the line. */
  function Step(s: ScanState, c: char): ScanState {
    if c == Comma && !s.quoted then ScanState(s.fields + [s.current], [], s.quoted)
    else if c == Quote then s.(quoted := !s.quoted)
    else s.(current := s.current + [c])
  }

  /** The loop run over `str`, left to right, from state `s`. */
  function Run(s: ScanState, str: string): ScanState
    decreases |str|
  {
    if str == [] then s else Step(Run(s, str[..|str| - 1]), str[|str| - 1])
  }

  function Scan(line: string): ScanState {
    Run(Start, line)
  }

  /** The fields of a (non-null) line: those the loop finished, then the
      partial field left at the end of the line. */
  function Fields(line: string): (r: seq<string>)
    ensures |r| >= 1
  {
    Scan(line).fields + [Scan(line).current]
  }

  /** `parseRecord(csvLine)`; `None` stands for `null`. */
  function ParseRecord(line: Option<string>): (r: Result<seq<string>>)
    ensures line.None? ==> r == Err(IllegalArgument)
    ensures line.Some? ==> r.Ok? && |r.value| == 1 + SeparatorCount(line.value)
  {
    if line.None? then Err(IllegalArgument)
    else
      FieldCount(line.value);
      Ok(Fields(line.value))
  }

  // ---------------------------------------------------------------------
  // Reference definitions, by character position

  /** How many times `c` occurs in `s`. */
  function Occurrences(s: string, c: char): nat
    decreases |s|
  {
    if s == [] then 0 else Occurrences(s[..|s| - 1], c) + (if s[|s| - 1] == c then 1 else 0)
  }

  /** Position `i` lies inside quotes when an odd number of quotes precede it. */
  predicate InQuotes(line: string, i: nat)
    requires i <= |line|
  {
    Occurrences(line[..i], Quote) % 2 == 1
  }

  /** A separator is a comma outside quotes. */
  predicate IsSeparator(line: string, i: nat)
    requires i < |line|
  {
    line[i] == Comma && !InQuotes(line, i)
  }

  function SeparatorCount(line: string): nat
    decreases |line|
  {
    if line == [] then 0
    else SeparatorCount(line[..|line| - 1]) + (if IsSeparator(line, |line| - 1) then 1 else 0)
  }

  /** The characters of `line` that are neither quotes nor separators, in order. */
  function Kept(line: string): string
    decreases |line|
  {
    if line == [] then []
    else
      var i := |line| - 1;
      Kept(line[..i]) + (if line[i] == Quote || IsSeparator(line, i) then [] else [line[i]])
  }

  /** `line` with every quote removed. */
  function Unquoted(line: string): string
    decreases |line|
  {
    if line == [] then []
    else Unquoted(line[..|line| - 1]) + (if line[|line| - 1] == Quote then [] else [line[|line| - 1]])
  }

  function Concat(fs: seq<string>): string
    decreases |fs|
  {
    if fs == [] then [] else Concat(fs[..|fs| - 1]) + fs[|fs| - 1]
  }

  /** The fields written back out, separated by commas. */
  function Join(fs: seq<string>): string
    requires |fs| >= 1
    decreases |fs|
  {
    if |fs| == 1 then fs[0] else Join(fs[..|fs| - 1]) + [Comma] + fs[|fs| - 1]
  }

  // ---------------------------------------------------------------------
  // What the scanner computes

  /** The loop is in quotation mode exactly when it has met an odd number of quotes. */
  lemma {:induction false} ScanQuoted(line: string)
    ensures Scan(line).quoted <==> InQuotes(line, |line|)
    decreases |line|
  {
    assert line[..|line|] == line;
    if line != [] {
      var p := line[..|line| - 1];
      ScanQuoted(p);
      assert p[..|p|] == p;
    }
  }

  /** Per character: the step agrees with the positional definitions. */
  lemma StepAt(line: string)
    requires line != []
    ensures var i := |line| - 1;
            IsSeparator(line, i) <==> line[i] == Comma && !Scan(line[..i]).quoted
  {
    var p := line[..|line| - 1];
    ScanQuoted(p);
    assert p[..|p|] == p;
  }

  /** The loop finishes one field per separator. */
  lemma {:induction false} ScanFieldCount(line: string)
    ensures |Scan(line).fields| == SeparatorCount(line)
    decreases |line|
  {
    if line != [] {
      ScanFieldCount(line[..|line| - 1]);
      StepAt(line);
    }
  }

  lemma FieldCount(line: string)
    ensures |Fields(line)| == 1 + SeparatorCount(line)
  {
    ScanFieldCount(line);
  }

  /** No quote ever enters a field. */
  lemma {:induction false} ScanNoQuote(line: string)
    ensures Quote !in Scan(line).current
    ensures forall f :: f in Scan(line).fields ==> Quote !in f
    decreases |line|
  {
    if line != [] {
      ScanNoQuote(line[..|line| - 1]);
    }
  }

  lemma FieldsNoQuote(line: string)
    ensures forall f :: f in Fields(line) ==> Quote !in f
  {
    ScanNoQuote(line);
  }

  lemma ConcatSnoc(fs: seq<string>, f: string)
    ensures Concat(fs + [f]) == Concat(fs) + f
  {
    assert (fs + [f])[..|fs|] == fs;
  }

  /** The fields hold, in order, every character that is neither a quote nor
      a separator; nothing is lost, duplicated or moved across fields. */
  lemma {:induction false} ScanContent(line: string)
    ensures Concat(Scan(line).fields) + Scan(line).current == Kept(line)
    decreases |line|
  {
    if line != [] {
      var p := line[..|line| - 1];
      var s := Scan(p);
      ScanContent(p);
      StepAt(line);
      ConcatSnoc(s.fields, s.current);
    }
  }

  lemma FieldsContent(line: string)
    ensures Concat(Fields(line)) == Kept(line)
  {
    ScanContent(line);
    ConcatSnoc(Scan(line).fields, Scan(line).current);
  }

  lemma {:induction false} KeptLength(line: string)
    ensures |Kept(line)| + SeparatorCount(line) + Occurrences(line, Quote) == |line|
    decreases |line|
  {
    if line != [] {
      KeptLength(line[..|line| - 1]);
    }
  }

  /** Every character of the line is in a field, or is a separator, or is a quote. */
  lemma LengthConservation(line: string)
    ensures |Concat(Fields(line))| + SeparatorCount(line) + Occurrences(line, Quote) == |line|
  {
    FieldsContent(line);
    KeptLength(line);
  }

  lemma JoinSnocChar(fs: seq<string>, x: string, c: char)
    ensures Join(fs + [x + [c]]) == Join(fs + [x]) + [c]
  {
    if fs != [] {
      assert (fs + [x + [c]])[..|fs|] == fs;
      assert (fs + [x])[..|fs|] == fs;
    }
  }

  lemma JoinSnoc(fs: seq<string>, x: string)
    requires fs != []
    ensures Join(fs + [x]) == Join(fs) + [Comma] + x
  {
    assert (fs + [x])[..|fs|] == fs;
  }

  lemma {:induction false} ScanJoin(line: string)
    ensures Join(Scan(line).fields + [Scan(line).current]) == Unquoted(line)
    decreases |line|
  {
    if line != [] {
      var p := line[..|line| - 1];
      var s := Scan(p);
      var c := line[|line| - 1];
      ScanJoin(p);
      if c == Comma && !s.quoted {
        JoinSnoc(s.fields + [s.current], []);
        assert s.fields + [s.current] + [[]] == (s.fields + [s.current]) + [[]];
      } else if c != Quote {
        JoinSnocChar(s.fields, s.current, c);
      }
    }
  }

  /** Writing the fields back out with commas restores the line without its
      quotes: only which commas were separators is lost. */
  lemma JoinFields(line: string)
    ensures Join(Fields(line)) == Unquoted(line)
  {
    ScanJoin(line);
  }

  lemma {:induction false} UnquotedPlain(line: string)
    requires Quote !in line
    ensures Unquoted(line) == line
    decreases |line|
  {
    if line != [] {
      var p := line[..|line| - 1];
      assert Quote !in p by { assert forall k :: 0 <= k < |p| ==> p[k] == line[k]; }
      UnquotedPlain(p);
      assert line == p + [line[|line| - 1]];
    }
  }

  /** A line without quotes is restored exactly by joining its fields. */
  lemma RoundTrip(line: string)
    requires Quote !in line
    ensures Join(Fields(line)) == line
  {
    JoinFields(line);
    UnquotedPlain(line);
  }

  // ---------------------------------------------------------------------
  // Parsing what was joined

  /** Characters other than quotes and commas are simply accumulated. */
  lemma {:induction false} RunPlain(s: ScanState, str: string)
    requires Quote !in str && Comma !in str
    ensures Run(s, str) == s.(current := s.current + str)
    decreases |str|
  {
    if str == [] {
      assert s.current + str == s.current;
    } else {
      var p := str[..|str| - 1];
      assert Quote !in p && Comma !in p by { assert forall k :: 0 <= k < |p| ==> p[k] == str[k]; }
      RunPlain(s, p);
      assert s.current + p + [str[|str| - 1]] == s.current + str;
    }
  }

  lemma RunSnoc(s: ScanState, str: string, c: char)
    ensures Run(s, str + [c]) == Step(Run(s, str), c)
  {
    assert (str + [c])[..|str|] == str;
  }

  lemma OccurrencesSnoc(s: string, c: char, x: char)
    ensures Occurrences(s + [c], x) == Occurrences(s, x) + (if c == x then 1 else 0)
  {
    assert (s + [c])[..|s|] == s;
  }

  lemma {:induction false} RunAppend(s: ScanState, a: string, b: string)
    ensures Run(s, a + b) == Run(Run(s, a), b)
    decreases |b|
  {
    if b == [] {
      assert a + b == a;
    } else {
      var p := b[..|b| - 1];
      assert (a + b)[..|a + b| - 1] == a + p;
      RunAppend(s, a, p);
    }
  }

  lemma LastSplit(fs: seq<string>)
    requires |fs| >= 1
    ensures fs[..|fs| - 1] + [fs[|fs| - 1]] == fs
  {
  }

  /** Fields free of commas and quotes. */
  predicate Plain(fs: seq<string>) {
    forall i :: 0 <= i < |fs| ==> Quote !in fs[i] && Comma !in fs[i]
  }

  lemma {:induction false} ScanJoined(fs: seq<string>)
    requires |fs| >= 1 && Plain(fs)
    ensures Scan(Join(fs)) == ScanState(fs[..|fs| - 1], fs[|fs| - 1], false)
    decreases |fs|
  {
    var last := fs[|fs| - 1];
    if |fs| == 1 {
      RunPlain(Start, fs[0]);
    } else {
      var init := fs[..|fs| - 1];
      assert Plain(init) by { assert forall k :: 0 <= k < |init| ==> init[k] == fs[k]; }
      ScanJoined(init);
      var s := Scan(Join(init));
      assert Join(fs) == Join(init) + ([Comma] + last);
      RunAppend(Start, Join(init), [Comma] + last);
      RunAppend(s, [Comma], last);
      assert [Comma][..0] == [];
      var t := Run(s, [Comma]);
      assert init[..|init| - 1] + [init[|init| - 1]] == init;
      assert t == ScanState(init, [], false);
      RunPlain(t, last);
    }
  }

  /** Parsing the comma-joined list of fields that hold no comma and no quote
      gives the fields back. */
  lemma ParseJoined(fs: seq<string>)
    requires |fs| >= 1 && Plain(fs)
    ensures Fields(Join(fs)) == fs
  {
    var s := Scan(Join(fs));
    ScanJoined(fs);
    assert Fields(Join(fs)) == s.fields + [s.current];
    LastSplit(fs);
  }

  /** A line with neither a comma nor a quote is one field, the line itself. */
  lemma SingleField(line: string)
    requires Quote !in line && Comma !in line
    ensures Fields(line) == [line]
  {
    assert Plain([line]);
    ParseJoined([line]);
  }

  // ---------------------------------------------------------------------
  // extractColumn

  lemma {:induction false} SeparatorsAreCommas(line: string)
    ensures SeparatorCount(line) <= Occurrences(line, Comma)
    decreases |line|
  {
    if line != [] {
      SeparatorsAreCommas(line[..|line| - 1]);
    }
  }

  /** `extractColumn(csvLine, csvColumn)`: rejects `null`, a negative column
      and a column beyond the raw number of commas, then takes the field at
      that column, which fails with an index error when quoted commas made
      the record shorter than the raw count suggests. */
  function ExtractColumn(line: Option<string>, col: int): (r: Result<string>)
    ensures line.None? ==> r == Err(IllegalArgument)
    ensures r.Ok? <==> line.Some? && 0 <= col < |Fields(line.value)|
    ensures r.Ok? ==> r.value == Fields(line.value)[col]
    ensures line.Some? && r.Err? ==> r.error == IndexOutOfBounds
  {
    if line.None? then Err(IllegalArgument)
    else if col < 0 then Err(IndexOutOfBounds)
    else if col > Occurrences(line.value, Comma) then
      FieldCount(line.value);
      SeparatorsAreCommas(line.value);
      Err(IndexOutOfBounds)
    else
      var fields := Fields(line.value);
      if col < |fields| then Ok(fields[col]) else Err(IndexOutOfBounds)
  }

  // ---------------------------------------------------------------------
  // Examples

  const IllustrativeLine: string := "col0, col1, a table and a chair"

  lemma JoinIllustrative()
    ensures Join(["col0", " col1", " a table and a chair"]) == IllustrativeLine
  {
    var fs := ["col0", " col1", " a table and a chair"];
    assert Join(fs[..2]) == "col0, col1";
  }

  /** The first record of the illustrative CSV file has three fields; the
      spaces after the commas stay in the fields. */
  lemma IllustrativeRecord()
    ensures Fields(IllustrativeLine) == ["col0", " col1", " a table and a chair"]
  {
    var fs := ["col0", " col1", " a table and a chair"];
    assert Plain(fs);
    JoinIllustrative();
    ParseJoined(fs);
  }

  lemma IllustrativeColumn()
    ensures ExtractColumn(Some(IllustrativeLine), 2) == Ok(" a table and a chair")
  {
    IllustrativeRecord();
  }

  /** A quoted comma passes the raw comma check but leaves one field fewer,
      so the lookup itself fails. */
  lemma QuotedCommaColumn()
    ensures Occurrences("\"a,b\",c", Comma) == 2
    ensures Fields("\"a,b\",c") == ["a,b", "c"]
    ensures ExtractColumn(Some("\"a,b\",c"), 2) == Err(IndexOutOfBounds)
  {
    var line := "\"a,b\",c";
    var l1: string := ['"'];
    var l2 := l1 + ['a'];
    var l3 := l2 + [','];
    var l4 := l3 + ['b'];
    var l5 := l4 + ['"'];
    var l6 := l5 + [','];
    var l7 := l6 + ['c'];
    assert l7 == line;
    RunSnoc(Start, [], '"');
    assert [] + ['"'] == l1;
    assert Run(Start, l1) == ScanState([], [], true);
    RunSnoc(Start, l1, 'a');
    assert Run(Start, l2) == ScanState([], ['a'], true);
    RunSnoc(Start, l2, ',');
    assert Run(Start, l3) == ScanState([], ['a', ','], true);
    RunSnoc(Start, l3, 'b');
    assert Run(Start, l4) == ScanState([], ['a', ',', 'b'], true);
    RunSnoc(Start, l4, '"');
    assert Run(Start, l5) == ScanState([], ['a', ',', 'b'], false);
    RunSnoc(Start, l5, ',');
    assert Run(Start, l6) == ScanState([['a', ',', 'b']], [], false);
    RunSnoc(Start, l6, 'c');
    assert Scan(line) == ScanState(["a,b"], "c", false);
    OccurrencesSnoc([], '"', Comma);
    OccurrencesSnoc(l1, 'a', Comma);
    OccurrencesSnoc(l2, ',', Comma);
    OccurrencesSnoc(l3, 'b', Comma);
    OccurrencesSnoc(l4, '"', Comma);
    OccurrencesSnoc(l5, ',', Comma);
    OccurrencesSnoc(l6, 'c', Comma);
  }
}
