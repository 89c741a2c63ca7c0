/**
 * The quote-toggling CSV line splitter that three of the ingestion scripts share
 * (`parseCSVLine`). It is a simplified relative of section 2 of RFC 4180: a `"`
 * only flips the quoted mode and is never copied, so a doubled quote is not an
 * escaped quote; a comma splits only outside quotes. One variant trims every
 * field, the other keeps the fields as they are.
 */
module CsvLine {
  import opened Wrappers
  import opened JsString

  /** What the splitter produces from the rest `s` of a line, being in quoted mode
      `inQuotes` with the characters `current` collected into the open field. */
  function Split(s: string, inQuotes: bool, current: string): (r: seq<string>)
    ensures |r| >= 1
    decreases |s|
  {
    if s == [] then [current]
    else if s[0] == '"' then Split(s[1..], !inQuotes, current)
    else if s[0] == ',' && !inQuotes then [current] + Split(s[1..], inQuotes, "")
    else Split(s[1..], inQuotes, current + [s[0]])
  }

  /** The untrimmed fields of a whole line. */
  function RawFields(line: string): seq<string> {
    Split(line, false, "")
  }

  /** Each field trimmed, as `values.push(current.trim())` does. */
  function Trimmed(fields: seq<string>): (r: seq<string>)
    ensures |r| == |fields|
    ensures forall i :: 0 <= i < |r| ==> r[i] == Trim(fields[i])
  {
    seq(|fields|, i requires 0 <= i < |fields| => Trim(fields[i]))
  }

  /** The trimming `parseCSVLine` of process-csv-streaming.js and
      download-lichess-puzzles.js. */
  method ParseCsvLine(line: string) returns (values: seq<string>)
    ensures values == Trimmed(RawFields(line))
  {
    values := [];
    ghost var raw: seq<string> := [];
    var current: string := "";
    var inQuotes := false;
    var i := 0;
    while i < |line|
      invariant 0 <= i <= |line|
      invariant raw + Split(line[i..], inQuotes, current) == RawFields(line)
      invariant values == Trimmed(raw)
    {
      var c := line[i];
      SplitAt(line, i, inQuotes, current);
      if c == '"' {
        inQuotes := !inQuotes;
      } else if c == ',' && !inQuotes {
        assert raw + ([current] + Split(line[i + 1..], inQuotes, ""))
            == (raw + [current]) + Split(line[i + 1..], inQuotes, "");
        TrimmedSnoc(raw, current);
        raw := raw + [current];
        values := values + [Trim(current)];
        current := "";
      } else {
        current := current + [c];
      }
      i := i + 1;
    }
    TrimmedSnoc(raw, current);
    raw := raw + [current];
    values := values + [Trim(current)];
  }

  /** One more character of the line, as the loop reads it. */
  lemma SplitAt(line: string, i: nat, inQuotes: bool, current: string)
    requires i < |line|
    ensures Split(line[i..], inQuotes, current) ==
      if line[i] == '"' then Split(line[i + 1..], !inQuotes, current)
      else if line[i] == ',' && !inQuotes then [current] + Split(line[i + 1..], inQuotes, "")
      else Split(line[i + 1..], inQuotes, current + [line[i]])
  {
    assert line[i..][1..] == line[i + 1..];
    assert line[i..][0] == line[i];
  }

  lemma TrimmedSnoc(fields: seq<string>, f: string)
    ensures Trimmed(fields + [f]) == Trimmed(fields) + [Trim(f)]
  {
  }

  /** The non-trimming `parseCSVLine` of puzzle-importer.js. */
  method ParseCsvLineUntrimmed(line: string) returns (values: seq<string>)
    ensures values == RawFields(line)
  {
    values := [];
    var current: string := "";
    var inQuotes := false;
    var i := 0;
    while i < |line|
      invariant 0 <= i <= |line|
      invariant values + Split(line[i..], inQuotes, current) == RawFields(line)
    {
      var c := line[i];
      SplitAt(line, i, inQuotes, current);
      if c == '"' {
        inQuotes := !inQuotes;
      } else if c == ',' && !inQuotes {
        assert values + ([current] + Split(line[i + 1..], inQuotes, ""))
            == (values + [current]) + Split(line[i + 1..], inQuotes, "");
        values := values + [current];
        current := "";
      } else {
        current := current + [c];
      }
      i := i + 1;
    }
    values := values + [current];
  }

  /** `s` with every `"` removed. */
  function StripQuotes(s: string): (r: string)
    ensures |r| <= |s|
  {
    if s == [] then []
    else if s[0] == '"' then StripQuotes(s[1..])
    else [s[0]] + StripQuotes(s[1..])
  }

  /** The commas of `s` met outside quoted mode, starting in mode `inQuotes`. */
  function UnquotedCommas(s: string, inQuotes: bool): nat {
    if s == [] then 0
    else if s[0] == '"' then UnquotedCommas(s[1..], !inQuotes)
    else (if s[0] == ',' && !inQuotes then 1 else 0) + UnquotedCommas(s[1..], inQuotes)
  }

  /** Joining the fields with commas gives back the line without its quotes: nothing
      but the quotes is dropped, and every in-quote comma stays in its field. */
  lemma {:induction false} JoinSplit(s: string, inQuotes: bool, current: string)
    ensures Join(Split(s, inQuotes, current), ",") == current + StripQuotes(s)
    decreases |s|
  {
    if s == [] {
    } else if s[0] == '"' {
      JoinSplit(s[1..], !inQuotes, current);
    } else if s[0] == ',' && !inQuotes {
      JoinSplit(s[1..], inQuotes, "");
      JoinFront(current, Split(s[1..], inQuotes, ""), StripQuotes(s[1..]));
    } else {
      JoinSplit(s[1..], inQuotes, current + [s[0]]);
      assert (current + [s[0]]) + StripQuotes(s[1..]) == current + ([s[0]] + StripQuotes(s[1..]));
    }
  }

  /** A field in front of others joins with one comma between them. */
  lemma JoinFront(current: string, rest: seq<string>, tail: string)
    requires rest != [] && Join(rest, ",") == "" + tail
    ensures Join([current] + rest, ",") == current + ([','] + tail)
  {
    assert ([current] + rest)[1..] == rest;
    assert "" + tail == tail;
  }

  lemma JoinRawFields(line: string)
    ensures Join(RawFields(line), ",") == StripQuotes(line)
  {
    JoinSplit(line, false, "");
  }

  /** One field per unquoted comma, plus one. */
  lemma {:induction false} SplitCount(s: string, inQuotes: bool, current: string)
    ensures |Split(s, inQuotes, current)| == UnquotedCommas(s, inQuotes) + 1
    decreases |s|
  {
    if s == [] {
    } else if s[0] == '"' {
      SplitCount(s[1..], !inQuotes, current);
    } else if s[0] == ',' && !inQuotes {
      SplitCount(s[1..], inQuotes, "");
    } else {
      SplitCount(s[1..], inQuotes, current + [s[0]]);
    }
  }

  lemma FieldCount(line: string)
    ensures |RawFields(line)| == UnquotedCommas(line, false) + 1
    ensures |Trimmed(RawFields(line))| == UnquotedCommas(line, false) + 1
  {
    SplitCount(line, false, "");
  }

  /** A quote is never copied into a field. */
  lemma {:induction false} SplitNoQuotes(s: string, inQuotes: bool, current: string)
    requires '"' !in current
    ensures forall f :: f in Split(s, inQuotes, current) ==> '"' !in f
    decreases |s|
  {
    if s == [] {
    } else if s[0] == '"' {
      SplitNoQuotes(s[1..], !inQuotes, current);
    } else if s[0] == ',' && !inQuotes {
      SplitNoQuotes(s[1..], inQuotes, "");
    } else {
      SplitNoQuotes(s[1..], inQuotes, current + [s[0]]);
    }
  }

  lemma FieldsHaveNoQuotes(line: string)
    ensures forall f :: f in RawFields(line) ==> '"' !in f
    ensures forall i :: 0 <= i < |Trimmed(RawFields(line))| ==> '"' !in Trimmed(RawFields(line))[i]
  {
    SplitNoQuotes(line, false, "");
    var raw := RawFields(line);
    forall i | 0 <= i < |raw| ensures '"' !in Trimmed(raw)[i] {
      assert raw[i] in raw;
      var t := Trim(raw[i]);
      var a, b :| 0 <= a <= b <= |raw[i]| && t == raw[i][a..b];
      SliceLacks(raw[i], a, b, '"');
    }
  }

  lemma SliceLacks(s: string, a: nat, b: nat, c: char)
    requires a <= b <= |s| && c !in s
    ensures c !in s[a..b]
  {
    forall k | 0 <= k < b - a ensures s[a..b][k] != c {
      assert s[a..b][k] == s[a + k];
    }
  }

  /** On a line without quotes the splitter is `split(',')`. */
  lemma {:induction false} SplitWithoutQuotes(s: string, current: string)
    requires '"' !in s
    ensures Split(s, false, current) == SplitFrom(s, ',', current)
    decreases |s|
  {
    if s != [] {
      assert '"' !in s[1..] by { assert forall k :: 0 <= k < |s[1..]| ==> s[1..][k] == s[k + 1]; }
      if s[0] == ',' {
        SplitWithoutQuotes(s[1..], "");
      } else {
        SplitWithoutQuotes(s[1..], current + [s[0]]);
      }
    }
  }

  lemma RawFieldsWithoutQuotes(line: string)
    requires '"' !in line
    ensures RawFields(line) == SplitOn(line, ',')
  {
    SplitWithoutQuotes(line, "");
  }

  /** Every trimmed field is free of white space at both ends. */
  lemma TrimmedFieldsAreTrim(line: string)
    ensures forall i :: 0 <= i < |Trimmed(RawFields(line))| ==>
      Trim(Trimmed(RawFields(line))[i]) == Trimmed(RawFields(line))[i]
  {
    var t := Trimmed(RawFields(line));
    forall i | 0 <= i < |t| ensures Trim(t[i]) == t[i] {
      TrimIdempotent(RawFields(line)[i]);
    }
  }

  /** The object `headers.forEach((header, index) => obj[header] = values[index])`
      builds from a row whose field count equals the header's: one key per header,
      and a repeated header keeps the value of its last position. */
  function Record(headers: seq<string>, values: seq<string>): map<string, string>
    requires |values| == |headers|
    decreases |headers|
  {
    if headers == [] then map[]
    else
      var n := |headers| - 1;
      Record(headers[..n], values[..n])[headers[n] := values[n]]
  }

  /** The keys are the headers, and a header that does not occur again later holds
      the value of its own position. */
  lemma {:induction false} RecordFacts(headers: seq<string>, values: seq<string>)
    requires |values| == |headers|
    ensures forall h :: h in Record(headers, values) <==> h in headers
    ensures forall i :: 0 <= i < |headers| && headers[i] !in headers[i + 1..] ==>
      Record(headers, values)[headers[i]] == values[i]
    decreases |headers|
  {
    if headers != [] {
      var n := |headers| - 1;
      RecordFacts(headers[..n], values[..n]);
      assert headers == headers[..n] + [headers[n]];
      forall i | 0 <= i < n && headers[i] !in headers[i + 1..]
        ensures Record(headers, values)[headers[i]] == values[i]
      {
        assert headers[n] == headers[i + 1..][n - i - 1];
        assert headers[..n][i + 1..] == headers[i + 1..n];
        assert values[..n][i] == values[i];
      }
    }
  }

  /** `record.Key`: the value stored under a key, or None for `undefined`. */
  function Get(record: map<string, string>, key: string): (r: Option<string>)
    ensures r.Some? <==> key in record
    ensures r.Some? ==> r.value == record[key]
  {
    if key in record then Some(record[key]) else None
  }
}
