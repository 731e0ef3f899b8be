/**
 * `FileHandler` and `Logger` of ConsoleApp1/Program.cs, over a model of the two
 * files they use. Both classes open fixed paths (`workers_data.txt`,
 * `workers_log.txt`), so every enterprise of the program reads and writes the
 * same two files: they are one `Disk` object that every enterprise refers to.
 */
module Storage {
  import opened Results
  import opened Workers
  import opened LineFormat

  /** One entry of the audit log, without the `DateTime.Now` prefix. */
  datatype LogEvent =
    | Hired(name: string)
    | Fired(name: string)
    | PositionChanged(name: string, position: string)
    | SalaryChanged(name: string, salary: string)
    | Transferred(name: string)

  /** The text `Logger.LogEntry` receives for each event. */
  function Message(e: LogEvent): string
  {
    match e
    case Hired(n) => "Прием работника " + n + " на предприятие"
    case Fired(n) => "Увольнение работника " + n + " с предприятия"
    case PositionChanged(n, p) => "Изменение должности работнику " + n + ": " + p
    case SalaryChanged(n, s) => "Изменение зарплаты работнику " + n + ": " + s
    case Transferred(n) => "Перевод работника " + n + " на другое предприятие"
  }

  /** The characters at positions 1 and 10 of a log text tell its kind of event. */
  lemma MessageMarks(e: LogEvent)
    ensures |Message(e)| > 10
    ensures e.Hired? <==> Message(e)[1] == 'р'
    ensures e.Transferred? <==> Message(e)[1] == 'е'
    ensures e.Fired? <==> Message(e)[1] == 'в'
    ensures e.PositionChanged? <==> Message(e)[1] == 'з' && Message(e)[10] == 'д'
    ensures e.SalaryChanged? <==> Message(e)[1] == 'з' && Message(e)[10] == 'з'
  {
    var m := Message(e);
    match e
    case Hired(n) =>
      var p := "Прием работника ";
      assert m == p + (n + " на предприятие");
      assert m[1] == p[1] && m[10] == p[10];
    case Fired(n) =>
      var p := "Увольнение работника ";
      assert m == p + (n + " с предприятия");
      assert m[1] == p[1] && m[10] == p[10];
    case PositionChanged(n, q) =>
      var p := "Изменение должности работнику ";
      assert m == p + (n + ": " + q);
      assert m[1] == p[1] && m[10] == p[10];
    case SalaryChanged(n, q) =>
      var p := "Изменение зарплаты работнику ";
      assert m == p + (n + ": " + q);
      assert m[1] == p[1] && m[10] == p[10];
    case Transferred(n) =>
      var p := "Перевод работника ";
      assert m == p + (n + " на другое предприятие");
      assert m[1] == p[1] && m[10] == p[10];
  }

  /** Text that differs only between a fixed prefix and a fixed suffix differs there. */
  lemma Framed(p: string, n1: string, n2: string, q: string)
    requires p + n1 + q == p + n2 + q
    ensures n1 == n2
  {
    var m := p + n1 + q;
    assert |n1| == |n2|;
    assert n1 == m[|p|..|p| + |n1|];
    assert n2 == (p + n2 + q)[|p|..|p| + |n2|];
  }

  /**
   * The text of a log line tells which operation wrote it, and for a hire, a
   * dismissal or a transfer also whom it was about.
   */
  lemma MessageTellsEvent(a: LogEvent, b: LogEvent)
    requires Message(a) == Message(b)
    ensures a.Hired? == b.Hired? && a.Fired? == b.Fired? && a.Transferred? == b.Transferred?
    ensures a.PositionChanged? == b.PositionChanged? && a.SalaryChanged? == b.SalaryChanged?
    ensures a.Hired? || a.Fired? || a.Transferred? ==> a == b
  {
    MessageMarks(a);
    MessageMarks(b);
    match a
    case Hired(n) => Framed("Прием работника ", n, b.name, " на предприятие");
    case Fired(n) => Framed("Увольнение работника ", n, b.name, " с предприятия");
    case Transferred(n) => Framed("Перевод работника ", n, b.name, " на другое предприятие");
    case PositionChanged(_, _) =>
    case SalaryChanged(_, _) =>
  }

  /**
   * The data file (`None` while it does not exist; otherwise its lines) and
   * the log file (the events appended to it, oldest first).
   */
  class Disk {
    var dataFile: Option<seq<string>>
    var logFile: seq<LogEvent>

    constructor (dataFile: Option<seq<string>>, logFile: seq<LogEvent>)
      ensures this.dataFile == dataFile && this.logFile == logFile
    {
      this.dataFile := dataFile;
      this.logFile := logFile;
    }
  }

  /** `FileHandler.SaveToFile`: truncate the data file and write one line per worker. */
  method SaveToFile(disk: Disk, workers: seq<Worker>)
    modifies disk
    ensures disk.dataFile == Some(SaveLines(workers))
    ensures disk.logFile == old(disk.logFile)
  {
    var lines: seq<string> := [];
    for i := 0 to |workers|
      invariant lines == SaveLines(workers[..i])
    {
      assert SaveLines(workers[..i + 1]) == lines + [FormatLine(workers[i])];
      lines := lines + [FormatLine(workers[i])];
    }
    assert workers[..|workers|] == workers;
    disk.dataFile := Some(lines);
  }

  /**
   * `FileHandler.ReadFromFile` on the data file's content: a missing file gives
   * the empty list; otherwise every line that splits into four fields becomes a
   * worker, in file order, and a salary `isNumber` rejects aborts the load.
   */
  method ReadFromFile(file: Option<seq<string>>, isNumber: string -> bool)
    returns (r: Result<seq<Worker>, LoadError>)
    ensures r == Load(file, isNumber)
    ensures file.None? ==> r == Ok([])
  {
    var workers: seq<Worker> := [];
    if file.Some? {
      var lines := file.value;
      var i := 0;
      assert lines[0..] == lines;
      PrependNothing(LoadLines(lines, isNumber));
      while i < |lines|
        invariant 0 <= i <= |lines|
        invariant LoadLines(lines, isNumber) == Prepend(workers, LoadLines(lines[i..], isNumber))
      {
        assert lines[i..][1..] == lines[i + 1..];
        assert lines[i..][0] == lines[i];
        var data := Split(lines[i], Separator);
        if |data| == 4 {
          if !isNumber(data[3]) {
            return Err(MalformedSalary(data[3]));
          }
          var worker := Worker(data[0], data[1], data[2], data[3]);
          assert LoadLines(lines[i..], isNumber) == Prepend([worker], LoadLines(lines[i + 1..], isNumber));
          PrependTwice(workers, [worker], LoadLines(lines[i + 1..], isNumber));
          workers := workers + [worker];
        }
        i := i + 1;
      }
      assert lines[i..] == [];
      assert workers + [] == workers;
    }
    return Ok(workers);
  }

  /** The result of loading the rest of a file, after the workers already read. */
  function Prepend(ws: seq<Worker>, r: Result<seq<Worker>, LoadError>): Result<seq<Worker>, LoadError>
  {
    match r
    case Err(e) => Err(e)
    case Ok(more) => Ok(ws + more)
  }

  lemma PrependNothing(r: Result<seq<Worker>, LoadError>)
    ensures Prepend([], r) == r
  {
    if r.Ok? {
      assert [] + r.value == r.value;
    }
  }

  lemma PrependTwice(a: seq<Worker>, b: seq<Worker>, r: Result<seq<Worker>, LoadError>)
    ensures Prepend(a, Prepend(b, r)) == Prepend(a + b, r)
  {
    if r.Ok? {
      assert a + (b + r.value) == (a + b) + r.value;
    }
  }

  /** `Logger.LogEntry`: append one line to the log file. */
  method LogEntry(disk: Disk, e: LogEvent)
    modifies disk
    ensures disk.logFile == old(disk.logFile) + [e]
    ensures disk.dataFile == old(disk.dataFile)
  {
    disk.logFile := disk.logFile + [e];
  }
}
