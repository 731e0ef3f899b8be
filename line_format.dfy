/**
 * The text format of the data file: one worker per line, `ID;Name;Position;Salary`
 * (`FileHandler.SaveToFile`), read back by splitting each line on `;` and keeping
 * only the lines that give exactly four fields (`FileHandler.ReadFromFile`).
 */
module LineFormat {
  import opened Results
  import opened Workers

  const Separator: char := ';'

  /** Number of occurrences of `c` in `s`. */
  function Occurrences(s: string, c: char): (n: nat)
    ensures n <= |s|
    ensures n == 0 <==> c !in s
  {
    if s == [] then 0 else (if s[0] == c then 1 else 0) + Occurrences(s[1..], c)
  }

  /**
   * `String.Split` on one separator character: the maximal pieces between
   * separators, empty pieces included (`SplitShape` states what they are).
   */
  function Split(s: string, sep: char): (fields: seq<string>)
    ensures |fields| >= 1
  {
    if s == [] then [[]]
    else
      var rest := Split(s[1..], sep);
      if s[0] == sep then [[]] + rest
      else [[s[0]] + rest[0]] + rest[1..]
  }

  /**
   * There is always one more piece than there are separators, and no piece
   * contains the separator.
   */
  lemma {:induction false} SplitShape(s: string, sep: char)
    ensures |Split(s, sep)| == Occurrences(s, sep) + 1
    ensures forall k :: 0 <= k < |Split(s, sep)| ==> sep !in Split(s, sep)[k]
  {
    if s != [] {
      SplitShape(s[1..], sep);
      var rest := Split(s[1..], sep);
      if s[0] != sep {
        var fields := Split(s, sep);
        assert fields[0] == [s[0]] + rest[0];
        forall k | 1 <= k < |fields| ensures sep !in fields[k] {
          assert fields[k] == rest[k];
        }
      }
    }
  }

  /** The pieces glued back together with the separator between them. */
  function Join(fields: seq<string>, sep: char): string
    requires |fields| >= 1
  {
    if |fields| == 1 then fields[0] else fields[0] + [sep] + Join(fields[1..], sep)
  }

  /** The line `SaveToFile` writes for one worker. */
  function FormatLine(w: Worker): string
  {
    w.id + ";" + w.name + ";" + w.position + ";" + w.salary
  }

  /**
   * The per-line step of `ReadFromFile`: split on `;`; a line with exactly four
   * pieces is a worker (salary still unparsed), any other line is skipped.
   */
  function ParseLine(line: string): (r: Option<Worker>)
    ensures r.Some? <==> Occurrences(line, Separator) == 3
  {
    SplitShape(line, Separator);
    var data := Split(line, Separator);
    if |data| == 4 then Some(Worker(data[0], data[1], data[2], data[3])) else None
  }

  /** The data file `SaveToFile` writes for a list: one formatted line per worker, in order. */
  function SaveLines(ws: seq<Worker>): seq<string>
  {
    seq(|ws|, k requires 0 <= k < |ws| => FormatLine(ws[k]))
  }

  /** A field that can be written into a line and read back unchanged. */
  predicate Storable(field: string)
  {
    Separator !in field
  }

  /** All four fields of the worker are storable. */
  predicate StorableWorker(w: Worker)
  {
    Storable(w.id) && Storable(w.name) && Storable(w.position) && Storable(w.salary)
  }

  /** The lines of a file that `ReadFromFile` turns into workers, in file order. */
  function RecordLines(lines: seq<string>): (r: seq<string>)
    ensures |r| <= |lines|
    ensures forall k :: 0 <= k < |r| ==> r[k] in lines && |Split(r[k], Separator)| == 4
    ensures forall l :: l in lines && |Split(l, Separator)| == 4 ==> l in r
  {
    if lines == [] then []
    else (if |Split(lines[0], Separator)| == 4 then [lines[0]] else []) + RecordLines(lines[1..])
  }

  /**
   * The lines kept from two stretches of a file are those of the first stretch
   * followed by those of the second: the filter keeps file order and repeats.
   */
  lemma {:induction false} RecordLinesAppend(a: seq<string>, b: seq<string>)
    ensures RecordLines(a + b) == RecordLines(a) + RecordLines(b)
  {
    if a != [] {
      assert (a + b)[0] == a[0];
      assert (a + b)[1..] == a[1..] + b;
      RecordLinesAppend(a[1..], b);
    } else {
      assert a + b == b;
    }
  }

  /** `double.Parse` throwing `FormatException` on the 4th field of a four-field line. */
  datatype LoadError = MalformedSalary(text: string)

  /**
   * The loop of `ReadFromFile` over the lines of an existing file. `isNumber` says
   * which salary texts `double.Parse` accepts; the first four-field line whose
   * salary it rejects aborts the whole load.
   */
  function LoadLines(lines: seq<string>, isNumber: string -> bool): Result<seq<Worker>, LoadError>
  {
    if lines == [] then Ok([])
    else
      match ParseLine(lines[0])
      case None => LoadLines(lines[1..], isNumber)
      case Some(w) =>
        if !isNumber(w.salary) then Err(MalformedSalary(w.salary))
        else
          match LoadLines(lines[1..], isNumber)
          case Err(e) => Err(e)
          case Ok(ws) => Ok([w] + ws)
  }

  /** `ReadFromFile`: a missing file (`None`) gives the empty list. */
  function Load(file: Option<seq<string>>, isNumber: string -> bool): Result<seq<Worker>, LoadError>
  {
    match file
    case None => Ok([])
    case Some(lines) => LoadLines(lines, isNumber)
  }

  // ---------------------------------------------------------------------------
  // Split and Join are inverse to each other

  lemma {:induction false} SplitPrefix(a: string, t: string, sep: char)
    requires sep !in a
    ensures Split(a + t, sep) == [a + Split(t, sep)[0]] + Split(t, sep)[1..]
  {
    var st := Split(t, sep);
    if a == [] {
      assert a + t == t;
      assert a + st[0] == st[0];
      assert st == [st[0]] + st[1..];
    } else {
      var r := Split(a[1..] + t, sep);
      assert (a + t)[1..] == a[1..] + t;
      assert (a + t)[0] == a[0] != sep;
      SplitPrefix(a[1..], t, sep);
      assert r[0] == a[1..] + st[0] && r[1..] == st[1..];
      assert Split(a + t, sep) == [[a[0]] + r[0]] + r[1..];
      assert [a[0]] + (a[1..] + st[0]) == a + st[0];
    }
  }

  /** Splitting pieces that hold no separator after joining them gives the pieces back. */
  lemma {:induction false} SplitJoin(fields: seq<string>, sep: char)
    requires |fields| >= 1
    requires forall k :: 0 <= k < |fields| ==> sep !in fields[k]
    ensures Split(Join(fields, sep), sep) == fields
  {
    if |fields| == 1 {
      SplitPrefix(fields[0], [], sep);
      assert fields[0] + [] == fields[0];
    } else {
      SplitJoin(fields[1..], sep);
      var t := [sep] + Join(fields[1..], sep);
      SplitPrefix(fields[0], t, sep);
      assert Join(fields, sep) == fields[0] + t;
      assert t[1..] == Join(fields[1..], sep);
      assert Split(t, sep) == [[]] + fields[1..];
      assert fields[0] + [] == fields[0];
      assert fields == [fields[0]] + fields[1..];
    }
  }

  /** Joining the pieces of a split gives the original text back. */
  lemma {:induction false} JoinSplit(s: string, sep: char)
    ensures Join(Split(s, sep), sep) == s
  {
    if s != [] {
      JoinSplit(s[1..], sep);
      var rest := Split(s[1..], sep);
      if s[0] == sep {
        assert ([[]] + rest)[1..] == rest;
        assert s == [sep] + s[1..];
      } else if |rest| == 1 {
        assert s == [s[0]] + s[1..];
      } else {
        assert rest == [rest[0]] + rest[1..];
        assert ([[s[0]] + rest[0]] + rest[1..])[1..] == rest[1..];
        assert s == [s[0]] + s[1..];
      }
    }
  }

  lemma FormatIsJoin(w: Worker)
    ensures FormatLine(w) == Join([w.id, w.name, w.position, w.salary], Separator)
  {
    var f := [w.id, w.name, w.position, w.salary];
    assert f[1..][1..][1..] == [w.salary];
    assert f[1..][1..] == [w.position, w.salary];
    assert f[1..] == [w.name, w.position, w.salary];
    assert Join([w.position, w.salary], Separator) == w.position + ";" + w.salary;
    assert Join([w.name, w.position, w.salary], Separator) == w.name + ";" + (w.position + ";" + w.salary);
  }

  // ---------------------------------------------------------------------------
  // The line format round trip

  /** A worker whose fields hold no `;` is read back from its line unchanged. */
  lemma ParseFormat(w: Worker)
    requires StorableWorker(w)
    ensures ParseLine(FormatLine(w)) == Some(w)
  {
    var f := [w.id, w.name, w.position, w.salary];
    FormatIsJoin(w);
    SplitJoin(f, Separator);
  }

  /** A line that parses is exactly the line its worker is written as. */
  lemma FormatParse(line: string)
    requires ParseLine(line).Some?
    ensures FormatLine(ParseLine(line).value) == line
    ensures StorableWorker(ParseLine(line).value)
  {
    var data := Split(line, Separator);
    SplitShape(line, Separator);
    JoinSplit(line, Separator);
    FormatIsJoin(ParseLine(line).value);
    assert data == [data[0], data[1], data[2], data[3]];
  }

  // ---------------------------------------------------------------------------
  // Loading

  /** Every one of the given four-field lines carries a salary `double.Parse` accepts. */
  predicate SalariesParse(records: seq<string>, isNumber: string -> bool)
  {
    forall k :: 0 <= k < |records| && ParseLine(records[k]).Some? ==> isNumber(ParseLine(records[k]).value.salary)
  }

  lemma SalariesParseCons(l: string, rest: seq<string>, isNumber: string -> bool)
    requires ParseLine(l).Some?
    ensures SalariesParse([l] + rest, isNumber) <==>
      isNumber(ParseLine(l).value.salary) && SalariesParse(rest, isNumber)
  {
    var all := [l] + rest;
    assert all[0] == l;
    assert forall k :: 0 <= k < |rest| ==> all[k + 1] == rest[k];
  }

  /**
   * Loading an existing file succeeds exactly when every four-field line of it
   * carries a salary that `double.Parse` accepts.
   */
  lemma {:induction false} LoadSucceedsIff(lines: seq<string>, isNumber: string -> bool)
    ensures LoadLines(lines, isNumber).Ok? <==> SalariesParse(RecordLines(lines), isNumber)
  {
    if lines != [] {
      LoadSucceedsIff(lines[1..], isNumber);
      var rest := RecordLines(lines[1..]);
      if |Split(lines[0], Separator)| == 4 {
        assert RecordLines(lines) == [lines[0]] + rest;
        SalariesParseCons(lines[0], rest, isNumber);
      } else {
        assert RecordLines(lines) == rest;
      }
    }
  }

  /**
   * The workers a successful load gives, written back out, are exactly the
   * four-field lines of the file in file order: every other line is dropped.
   */
  lemma {:induction false} LoadKeepsRecordLines(lines: seq<string>, isNumber: string -> bool)
    requires LoadLines(lines, isNumber).Ok?
    ensures SaveLines(LoadLines(lines, isNumber).value) == RecordLines(lines)
  {
    if lines != [] {
      var rest := LoadLines(lines[1..], isNumber);
      assert rest.Ok?;
      LoadKeepsRecordLines(lines[1..], isNumber);
      if ParseLine(lines[0]).Some? {
        var w := ParseLine(lines[0]).value;
        FormatParse(lines[0]);
        assert LoadLines(lines, isNumber).value == [w] + rest.value;
        SaveLinesCons(w, rest.value);
        assert RecordLines(lines) == [lines[0]] + RecordLines(lines[1..]);
      } else {
        assert RecordLines(lines) == RecordLines(lines[1..]);
      }
    }
  }

  lemma SaveLinesCons(w: Worker, ws: seq<Worker>)
    ensures SaveLines([w] + ws) == [FormatLine(w)] + SaveLines(ws)
  {
  }

  /** Saving a list of storable workers and loading the file gives the same list back. */
  lemma {:induction false} SaveThenLoad(ws: seq<Worker>, isNumber: string -> bool)
    requires forall k :: 0 <= k < |ws| ==> StorableWorker(ws[k]) && isNumber(ws[k].salary)
    ensures Load(Some(SaveLines(ws)), isNumber) == Ok(ws)
  {
    if ws != [] {
      SaveThenLoad(ws[1..], isNumber);
      ParseFormat(ws[0]);
      var lines := SaveLines(ws);
      assert lines[1..] == SaveLines(ws[1..]);
      assert ws == [ws[0]] + ws[1..];
    }
  }
}
