/** The CSV reader of the ticket import (src/utils/csvParser.ts), from the
    already-decoded text on: line splitting, the quote-aware field splitter,
    the header-to-row mapping and the blank-row drop. */
module CsvParser {
  import opened Common
  import opened Text

  // ---------------------------------------------------------------------
  // Lines

  /** A line with one trailing carriage return removed. */
  function DropCarriageReturn(l: string): (r: string)
    ensures l == r || l == r + ['\r']
  {
    if l != [] && l[|l| - 1] == '\r' then l[..|l| - 1] else l
  }

  /** `text.split(/\r\n|\n/)`: the text cut at every line feed, a carriage
      return just before a line feed going with it. A carriage return ending
      the last piece goes too, which `split` would keep; every use trims the
      line or its fields, so no parser output differs. */
  function SplitLines(text: string): (lines: seq<string>)
  {
    Map(SplitAt(text, '\n'), DropCarriageReturn)
  }

  /** A line `trim` does not empty. */
  predicate IsNonBlank(l: string)
  {
    Trim(l) != ""
  }

  /** The lines the parser works on: the non-blank ones, in order. */
  function NonBlankLines(text: string): seq<string>
  {
    Filter(SplitLines(text), IsNonBlank)
  }

  /** Lines free of line breaks, joined with line feeds, split back into
      the same lines. */
  lemma SplitLinesJoin(lines: seq<string>)
    requires |lines| >= 1
    requires forall i :: 0 <= i < |lines| ==> '\n' !in lines[i] && '\r' !in lines[i]
    ensures SplitLines(JoinWith(lines, '\n')) == lines
  {
    SplitJoin(lines, '\n');
    forall i | 0 <= i < |lines|
      ensures DropCarriageReturn(lines[i]) == lines[i]
    {
      if lines[i] != [] {
        assert lines[i][|lines[i]| - 1] in lines[i];
      }
    }
  }

  /** Every line the parser keeps is non-blank, and every line of the text
      that is non-blank is kept. */
  lemma NonBlankLinesSpec(text: string)
    ensures forall i :: 0 <= i < |NonBlankLines(text)| ==> IsNonBlank(NonBlankLines(text)[i])
    ensures forall i :: 0 <= i < |SplitLines(text)| && IsNonBlank(SplitLines(text)[i]) ==>
      SplitLines(text)[i] in NonBlankLines(text)
  {
  }

  // ---------------------------------------------------------------------
  // splitCSV

  /** The commas of `line` that separate fields: those met outside quotes,
      quoting being toggled by every double quote and starting as `inQuotes`. */
  function CommasOutsideQuotes(line: string, inQuotes: bool): nat
    decreases |line|
  {
    if line == [] then 0
    else if line[0] == '"' then CommasOutsideQuotes(line[1..], !inQuotes)
    else (if line[0] == ',' && !inQuotes then 1 else 0) + CommasOutsideQuotes(line[1..], inQuotes)
  }

  /** The raw (untrimmed) fields of `line` read in quote state `inQuotes`:
      a double quote toggles the state and is dropped, a comma outside quotes
      ends the field, every other character is copied. */
  function Segments(line: string, inQuotes: bool): (r: seq<string>)
    ensures |r| == CommasOutsideQuotes(line, inQuotes) + 1
    ensures forall i :: 0 <= i < |r| ==> '"' !in r[i]
    decreases |line|
  {
    if line == [] then [""]
    else if line[0] == '"' then Segments(line[1..], !inQuotes)
    else
      var rest := Segments(line[1..], inQuotes);
      if line[0] == ',' && !inQuotes then [""] + rest
      else [[line[0]] + rest[0]] + rest[1..]
  }

  /** The fields `splitCSV` returns for a line: the raw fields, each trimmed. */
  function CsvFields(line: string): seq<string>
  {
    Map(Segments(line, false), Trim)
  }

  predicate IsQuote(c: char)
  {
    c == '"'
  }

  lemma RegroupFront(c: char, a: string, t: string)
    ensures ([c] + a) + [','] + t == [c] + (a + [','] + t)
  {
  }

  /** Joining after a character added to the front of the first field. */
  lemma JoinGrowsFirst(c: char, rest: seq<string>)
    requires |rest| >= 1
    ensures JoinWith([[c] + rest[0]] + rest[1..], ',') == [c] + JoinWith(rest, ',')
  {
    var r := [[c] + rest[0]] + rest[1..];
    if |rest| > 1 {
      assert r[1..] == rest[1..];
      RegroupFront(c, rest[0], JoinWith(rest[1..], ','));
    }
  }

  /** Joining after an empty first field. */
  lemma JoinAfterEmpty(rest: seq<string>)
    requires |rest| >= 1
    ensures JoinWith([""] + rest, ',') == [','] + JoinWith(rest, ',')
  {
    assert ([""] + rest)[1..] == rest;
    assert "" + [','] + JoinWith(rest, ',') == [','] + JoinWith(rest, ',');
  }

  /** The line's first character, if kept, in front of the rest without quotes. */
  lemma FilterQuotesCons(line: string)
    requires line != []
    ensures Filter(line, (c: char) => !IsQuote(c)) ==
      (if IsQuote(line[0]) then [] else [line[0]]) + Filter(line[1..], (c: char) => !IsQuote(c))
  {
  }

  /** The fields, joined back with commas, give the line without its double
      quotes: nothing but the quotes and the separating commas is dropped. */
  lemma {:induction false} SegmentsJoin(line: string, inQuotes: bool)
    ensures JoinWith(Segments(line, inQuotes), ',') == Filter(line, (c: char) => !IsQuote(c))
    decreases |line|
  {
    if line != [] {
      var q' := if line[0] == '"' then !inQuotes else inQuotes;
      SegmentsJoin(line[1..], q');
      FilterQuotesCons(line);
      var rest := Segments(line[1..], q');
      if line[0] == ',' && !inQuotes {
        JoinAfterEmpty(rest);
      } else if line[0] != '"' {
        JoinGrowsFirst(line[0], rest);
      }
    }
  }

  /** On a line without double quotes the splitter is a plain split at commas. */
  lemma {:induction false} SegmentsWithoutQuotes(line: string)
    requires '"' !in line
    ensures Segments(line, false) == SplitAt(line, ',')
    decreases |line|
  {
    if line != [] {
      assert line[0] in line;
      assert forall i :: 0 <= i < |line[1..]| ==> line[1..][i] in line;
      SegmentsWithoutQuotes(line[1..]);
    }
  }

  /** Between a pair of double quotes every character, commas included, is
      copied into the current field. */
  lemma {:induction false} QuotedRun(s: string, t: string)
    requires '"' !in s
    ensures Segments(s + ['"'] + t, true) == [s + Segments(t, false)[0]] + Segments(t, false)[1..]
    decreases |s|
  {
    var rest := Segments(t, false);
    if s == [] {
      assert s + ['"'] + t == ['"'] + t;
      SegmentsCons('"', t, true);
      assert s + rest[0] == rest[0];
      assert [rest[0]] + rest[1..] == rest;
    } else {
      var tail := s[1..] + ['"'] + t;
      assert s + ['"'] + t == [s[0]] + tail;
      assert s[0] != '"' by { assert s[0] in s; }
      SegmentsCons(s[0], tail, true);
      assert '"' !in s[1..] by {
        assert forall i :: 0 <= i < |s[1..]| ==> s[1..][i] == s[i + 1];
      }
      QuotedRun(s[1..], t);
      RegroupCons(s, rest[0]);
    }
  }

  lemma RegroupCons(s: string, a: string)
    requires s != []
    ensures [s[0]] + (s[1..] + a) == s + a
  {
    assert [s[0]] + s[1..] == s;
  }

  /** `splitCSV(line)` yields (commas outside quotes) + 1 fields, each trimmed
      and free of double quotes. */
  lemma FieldsShape(line: string)
    ensures |CsvFields(line)| == CommasOutsideQuotes(line, false) + 1
    ensures forall i :: 0 <= i < |CsvFields(line)| ==> IsTrimmed(CsvFields(line)[i]) && '"' !in CsvFields(line)[i]
  {
    var segs := Segments(line, false);
    forall i | 0 <= i < |segs|
      ensures IsTrimmed(Trim(segs[i])) && '"' !in Trim(segs[i])
    {
      TrimSpec(segs[i]);
      var a := |segs[i]| - |TrimStart(segs[i])|;
      var t := Trim(segs[i]);
      assert forall k :: 0 <= k < |t| ==> t[k] == segs[i][a + k];
    }
  }

  /** A quoted field keeps its commas: `"a,b",rest` reads as the field `a,b`
      followed by the fields of `rest`. */
  lemma QuotedCommaStays(s: string, t: string)
    requires '"' !in s
    ensures Segments(['"'] + s + ['"'] + t, false) == [s + Segments(t, false)[0]] + Segments(t, false)[1..]
  {
    var u := ['"'] + s + ['"'] + t;
    assert u[0] == '"' && u[1..] == s + ['"'] + t;
    QuotedRun(s, t);
  }

  /** Trimmed fields free of commas and double quotes, written as one
      comma-separated line, are read back unchanged. */
  lemma FieldsRoundTrip(fields: seq<string>)
    requires |fields| >= 1
    requires forall i :: 0 <= i < |fields| ==> IsTrimmed(fields[i]) && ',' !in fields[i] && '"' !in fields[i]
    ensures CsvFields(JoinWith(fields, ',')) == fields
  {
    var line := JoinWith(fields, ',');
    JoinWithAvoids(fields, ',', '"');
    SegmentsWithoutQuotes(line);
    SplitJoin(fields, ',');
    forall i | 0 <= i < |fields|
      ensures Trim(fields[i]) == fields[i]
    {
      TrimOfTrimmed(fields[i]);
    }
  }

  /** One character of the line, read in front of the rest. */
  lemma SegmentsCons(c: char, t: string, inQuotes: bool)
    ensures Segments([c] + t, inQuotes) ==
      if c == '"' then Segments(t, !inQuotes)
      else if c == ',' && !inQuotes then [""] + Segments(t, inQuotes)
      else [[c] + Segments(t, inQuotes)[0]] + Segments(t, inQuotes)[1..]
  {
    assert ([c] + t)[0] == c && ([c] + t)[1..] == t;
  }

  /** The splitter's state after reading `line[..i]`: the finished raw
      fields, the field being read and the quote state account for the
      whole line's raw fields. */
  ghost predicate Scanned(line: string, i: nat, raw: seq<string>, current: string, inQuotes: bool)
    requires i <= |line|
  {
    var rest := Segments(line[i..], inQuotes);
    Segments(line, false) == raw + [current + rest[0]] + rest[1..]
  }

  lemma ScannedStart(line: string)
    ensures Scanned(line, 0, [], "", false)
  {
    var whole := Segments(line, false);
    assert line[0..] == line;
    assert |whole| >= 1 && "" + whole[0] == whole[0];
    assert whole == [] + [whole[0]] + whole[1..];
  }

  /** Reading one character moves the state as the loop body does. */
  lemma ScannedStep(line: string, i: nat, raw: seq<string>, current: string, inQuotes: bool)
    requires i < |line| && Scanned(line, i, raw, current, inQuotes)
    ensures line[i] == '"' ==> Scanned(line, i + 1, raw, current, !inQuotes)
    ensures line[i] == ',' && !inQuotes ==> Scanned(line, i + 1, raw + [current], "", inQuotes)
    ensures line[i] != '"' && !(line[i] == ',' && !inQuotes) ==>
      Scanned(line, i + 1, raw, current + [line[i]], inQuotes)
  {
    var c := line[i];
    var whole := Segments(line, false);
    assert line[i..] == [c] + line[i + 1..];
    SegmentsCons(c, line[i + 1..], inQuotes);
    var s := Segments(line[i..], inQuotes);
    var s' := Segments(line[i + 1..], inQuotes);
    if c == ',' && !inQuotes {
      assert s == [""] + s';
      assert s[0] == "" && s[1..] == s' && current + "" == current;
      assert |s'| >= 1 && [s'[0]] + s'[1..] == s' && "" + s'[0] == s'[0];
      assert whole == (raw + [current]) + ["" + s'[0]] + s'[1..];
    } else if c != '"' {
      assert s[0] == [c] + s'[0] && s[1..] == s'[1..];
      assert current + ([c] + s'[0]) == (current + [c]) + s'[0];
    }
  }

  lemma ScannedEnd(line: string, raw: seq<string>, current: string, inQuotes: bool)
    requires Scanned(line, |line|, raw, current, inQuotes)
    ensures Segments(line, false) == raw + [current]
  {
    assert line[|line|..] == [];
    assert Segments(line[|line|..], inQuotes) == [""];
    assert current + "" == current && [""][1..] == [];
    assert raw + [current] + [] == raw + [current];
  }

  /** The splitter: a loop over the characters updating `current`,
      `inQuotes` and `result`, then pushing the last field. */
  method SplitCsv(line: string) returns (result: seq<string>)
    ensures result == CsvFields(line)
  {
    result := [];
    ghost var raw: seq<string> := [];
    var current := "";
    var inQuotes := false;
    ScannedStart(line);
    for i := 0 to |line|
      invariant result == Map(raw, Trim)
      invariant Scanned(line, i, raw, current, inQuotes)
    {
      var c := line[i];
      ScannedStep(line, i, raw, current, inQuotes);
      if c == '"' {
        inQuotes := !inQuotes;
      } else if c == ',' && !inQuotes {
        MapAppend(raw, current, Trim);
        result := result + [Trim(current)];
        raw := raw + [current];
        current := "";
      } else {
        current := current + [c];
      }
    }
    ScannedEnd(line, raw, current, inQuotes);
    MapAppend(raw, current, Trim);
    result := result + [Trim(current)];
  }

  // ---------------------------------------------------------------------
  // Rows

  /** `s.replace(/^"|"$/g, '')`: one leading and one trailing double quote removed. */
  function StripOuterQuotes(s: string): (r: string)
    ensures |r| <= |s|
    ensures r == s || (s != [] && (s[0] == '"' || s[|s| - 1] == '"'))
  {
    var a := if s != [] && s[0] == '"' then s[1..] else s;
    if a != [] && a[|a| - 1] == '"' then a[..|a| - 1] else a
  }

  /** A string free of double quotes is left as it is by the quote strip. */
  lemma StripOuterQuotesOfPlain(s: string)
    requires '"' !in s
    ensures StripOuterQuotes(s) == s
  {
    if s != [] {
      assert s[0] in s && s[|s| - 1] in s;
    }
  }

  /** A header name: `h.replace(/^"|"$/g, '').trim()`. */
  function HeaderName(h: string): string
  {
    Trim(StripOuterQuotes(h))
  }

  /** The headers of the first line. */
  function HeadersOf(line: string): seq<string>
  {
    Map(CsvFields(line), HeaderName)
  }

  /** Header names are exactly the first line's fields: the fields hold no
      quotes and are trimmed already. */
  lemma HeadersAreFields(line: string)
    ensures HeadersOf(line) == CsvFields(line)
  {
    FieldsShape(line);
    var fs := CsvFields(line);
    forall i | 0 <= i < |fs|
      ensures HeaderName(fs[i]) == fs[i]
    {
      StripOuterQuotesOfPlain(fs[i]);
      TrimOfTrimmed(fs[i]);
    }
  }

  /** The value of column `index`: `cols[index]?.replace(/^"|"$/g, '') || ''`. */
  function Cell(cols: seq<string>, index: nat): (v: string)
    ensures index >= |cols| ==> v == ""
    ensures index < |cols| ==> v == StripOuterQuotes(cols[index])
  {
    if index < |cols| then StripOuterQuotes(cols[index]) else ""
  }

  /** A `Record<string, string>`: its keys in insertion order and their values. */
  datatype Row = Row(keys: seq<string>, values: map<string, string>)

  /** The keys are distinct and are exactly the map's keys. */
  ghost predicate WellFormed(row: Row)
  {
    && (forall i, j :: 0 <= i < j < |row.keys| ==> row.keys[i] != row.keys[j])
    && (forall k :: k in row.keys <==> k in row.values)
  }

  /** `row[k] = v`: a new key goes last, an existing key keeps its place. */
  function Put(row: Row, k: string, v: string): (r: Row)
    ensures WellFormed(row) ==> WellFormed(r)
    ensures r.values == row.values[k := v]
  {
    if k in row.values then Row(row.keys, row.values[k := v]) else Row(row.keys + [k], row.values[k := v])
  }

  /** Position `j` holds the last occurrence of its header. */
  predicate LastOccurrence(headers: seq<string>, j: int)
  {
    0 <= j < |headers| && forall j' :: j < j' < |headers| ==> headers[j'] != headers[j]
  }

  /** The row `headers.forEach((header, index) => row[header] = cell)` builds. */
  function RowOf(headers: seq<string>, cols: seq<string>): Row
  {
    if headers == [] then Row([], map[])
    else Put(RowOf(headers[..|headers| - 1], cols), headers[|headers| - 1], Cell(cols, |headers| - 1))
  }

  /** A row's keys are exactly the header names, each once. */
  lemma {:induction false} RowOfKeys(headers: seq<string>, cols: seq<string>)
    ensures WellFormed(RowOf(headers, cols))
    ensures forall k :: k in RowOf(headers, cols).values <==> k in headers
  {
    if headers != [] {
      var n := |headers| - 1;
      RowOfKeys(headers[..n], cols);
      assert forall k :: k in headers <==> k in headers[..n] || k == headers[n] by {
        assert headers == headers[..n] + [headers[n]];
      }
    }
  }

  /** A header's value is the cell under its last occurrence: a later
      duplicate header overwrites the earlier one's value. */
  lemma {:induction false} RowOfValue(headers: seq<string>, cols: seq<string>, j: nat)
    requires LastOccurrence(headers, j)
    ensures headers[j] in RowOf(headers, cols).values
    ensures RowOf(headers, cols).values[headers[j]] == Cell(cols, j)
  {
    var n := |headers| - 1;
    if j < n {
      assert headers[..n][j] == headers[j];
      assert LastOccurrence(headers[..n], j);
      RowOfValue(headers[..n], cols, j);
    }
  }

  /** The forEach over the headers. */
  method BuildRow(headers: seq<string>, cols: seq<string>) returns (row: Row)
    ensures row == RowOf(headers, cols)
  {
    row := Row([], map[]);
    for index := 0 to |headers|
      invariant row == RowOf(headers[..index], cols)
    {
      assert headers[..index + 1][..index] == headers[..index];
      row := Put(row, headers[index], Cell(cols, index));
    }
    assert headers[..|headers|] == headers;
  }

  /** `Object.values(row).some(v => v)`. */
  predicate HasContent(row: Row)
  {
    exists k :: k in row.values && row.values[k] != ""
  }

  /** What one data line contributes: its row, when some value is non-empty. */
  function LineRows(headers: seq<string>, line: string): seq<Row>
  {
    var row := RowOf(headers, CsvFields(line));
    if HasContent(row) then [row] else []
  }

  /** One data line: its fields, the row built from them, and the row kept
      only when some value is non-empty. */
  method ReadLine(headers: seq<string>, line: string) returns (rows: seq<Row>)
    ensures rows == LineRows(headers, line)
  {
    var cols := SplitCsv(line);
    var row := BuildRow(headers, cols);
    rows := if HasContent(row) then [row] else [];
  }

  /** The rows of the data lines `lines[1..n]`, in line order. */
  function RowsUpTo(headers: seq<string>, lines: seq<string>, n: nat): seq<Row>
    requires n <= |lines|
  {
    if n <= 1 then [] else RowsUpTo(headers, lines, n - 1) + LineRows(headers, lines[n - 1])
  }

  /** At most one row per data line; every row has content and exactly the
      header names as keys. */
  lemma {:induction false} RowsUpToSpec(headers: seq<string>, lines: seq<string>, n: nat)
    requires 1 <= n <= |lines|
    ensures |RowsUpTo(headers, lines, n)| <= n - 1
    ensures forall i :: 0 <= i < |RowsUpTo(headers, lines, n)| ==>
      && HasContent(RowsUpTo(headers, lines, n)[i]) && WellFormed(RowsUpTo(headers, lines, n)[i])
      && forall k :: k in RowsUpTo(headers, lines, n)[i].values <==> k in headers
  {
    if n > 1 {
      RowsUpToSpec(headers, lines, n - 1);
      RowOfKeys(headers, CsvFields(lines[n - 1]));
    }
  }

  /** Rows keep the order of their lines: reading more lines only appends
      rows after those already read. */
  lemma {:induction false} RowsInOrder(headers: seq<string>, lines: seq<string>, n: nat, m: nat)
    requires n <= m <= |lines|
    ensures RowsUpTo(headers, lines, n) <= RowsUpTo(headers, lines, m)
    decreases m
  {
    if n < m {
      RowsInOrder(headers, lines, n, m - 1);
    }
  }

  /** What `parseCSV` resolves with. */
  function CsvRows(text: string): seq<Row>
  {
    var lines := NonBlankLines(text);
    if |lines| < 2 then [] else RowsUpTo(HeadersOf(lines[0]), lines, |lines|)
  }

  /** Nothing comes of fewer than two non-blank lines; otherwise there are
      fewer rows than lines, and each row has content and has exactly the
      first line's fields as keys. */
  lemma CsvRowsSpec(text: string)
    ensures |NonBlankLines(text)| < 2 ==> CsvRows(text) == []
    ensures |NonBlankLines(text)| >= 2 ==>
      && |CsvRows(text)| < |NonBlankLines(text)|
      && forall i :: 0 <= i < |CsvRows(text)| ==>
           && HasContent(CsvRows(text)[i]) && WellFormed(CsvRows(text)[i])
           && forall k :: k in CsvRows(text)[i].values <==> k in CsvFields(NonBlankLines(text)[0])
  {
    var lines := NonBlankLines(text);
    if |lines| >= 2 {
      HeadersAreFields(lines[0]);
      RowsUpToSpec(HeadersOf(lines[0]), lines, |lines|);
    }
  }

  /** `parseCSV` from the decoded text on. */
  method ParseCsv(text: string) returns (results: seq<Row>)
    ensures results == CsvRows(text)
  {
    var lines := NonBlankLines(text);
    if |lines| < 2 {
      return [];
    }
    var headers := ReadHeaders(lines[0]);
    results := ReadRows(headers, lines);
  }

  /** The header names of the first line: its fields, unquoted and trimmed. */
  method ReadHeaders(line: string) returns (headers: seq<string>)
    ensures headers == HeadersOf(line)
  {
    var fields := SplitCsv(line);
    headers := Map(fields, HeaderName);
  }

  /** The row loop of `parseCSV` over the data lines `lines[1..]`. */
  method ReadRows(headers: seq<string>, lines: seq<string>) returns (results: seq<Row>)
    requires |lines| >= 1
    ensures results == RowsUpTo(headers, lines, |lines|)
  {
    results := [];
    for i := 1 to |lines|
      invariant results == RowsUpTo(headers, lines, i)
    {
      var rows := ReadLine(headers, lines[i]);
      results := results + rows;
    }
  }
}
