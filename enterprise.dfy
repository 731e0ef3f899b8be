/**
 * The `Enterprise` class of ConsoleApp1/Program.cs: a worker list changed in
 * place. A hire, dismissal or change that finds its worker saves the whole list
 * to the data file and logs one entry. A transfer saves only the destination's
 * list (through its `HireWorker`) and logs two entries, the hire and then the
 * transfer; the source's shortened list is not saved. A lookup that fails
 * changes nothing, saves nothing and logs nothing.
 */
module Company {
  import opened Results
  import opened Workers
  import opened LineFormat
  import opened Storage
  import opened Roster

  class Enterprise {
    var workers: seq<Worker>
    /** The files behind this enterprise's `FileHandler` and `Logger`. */
    const disk: Disk

    /**
     * `new Enterprise()`: the list is what the data file loads to. A file that
     * does not load stops the program with an exception, so the constructor
     * needs it to load.
     */
    constructor (disk: Disk, isNumber: string -> bool)
      requires Load(disk.dataFile, isNumber).Ok?
      ensures this.disk == disk
      ensures workers == Load(disk.dataFile, isNumber).value
    {
      this.disk := disk;
      var loaded := ReadFromFile(disk.dataFile, isNumber);
      workers := loaded.value;
    }

    /** `HireWorker`: append the worker, with no check of its ID, then save and log. */
    method HireWorker(worker: Worker)
      modifies this, disk
      ensures workers == old(workers) + [worker]
      ensures disk.dataFile == Some(SaveLines(workers))
      ensures disk.logFile == old(disk.logFile) + [Hired(worker.name)]
    {
      workers := workers + [worker];
      SaveToFile(disk, workers);
      LogEntry(disk, Hired(worker.name));
    }

    /**
     * `FireWorker`: remove the first worker with the ID, then save and log;
     * `found` is false when there is none (the source prints a message then).
     */
    method FireWorker(workerId: string) returns (found: bool)
      modifies this, disk
      ensures found <==> FindFirst(old(workers), workerId).Some?
      ensures workers == Fire(old(workers), workerId)
      ensures found ==>
        && disk.dataFile == Some(SaveLines(workers))
        && disk.logFile == old(disk.logFile) + [Fired(old(workers)[FindFirst(old(workers), workerId).value].name)]
      ensures !found ==> disk.dataFile == old(disk.dataFile) && disk.logFile == old(disk.logFile)
    {
      var i := FindFirst(workers, workerId);
      found := i.Some?;
      if found {
        var worker := workers[i.value];
        workers := RemoveAt(workers, i.value);
        SaveToFile(disk, workers);
        LogEntry(disk, Fired(worker.name));
      }
    }

    /** `ChangePosition`: set the position of the first worker with the ID, then save and log. */
    method ChangePosition(workerId: string, newPosition: string) returns (found: bool)
      modifies this, disk
      ensures found <==> FindFirst(old(workers), workerId).Some?
      ensures workers == SetPosition(old(workers), workerId, newPosition)
      ensures found ==>
        && disk.dataFile == Some(SaveLines(workers))
        && disk.logFile == old(disk.logFile)
           + [PositionChanged(old(workers)[FindFirst(old(workers), workerId).value].name, newPosition)]
      ensures !found ==> disk.dataFile == old(disk.dataFile) && disk.logFile == old(disk.logFile)
    {
      var i := FindFirst(workers, workerId);
      found := i.Some?;
      if found {
        var worker := workers[i.value];
        workers := workers[i.value := worker.(position := newPosition)];
        SaveToFile(disk, workers);
        LogEntry(disk, PositionChanged(worker.name, newPosition));
      }
    }

    /** `ChangeSalary`: set the salary of the first worker with the ID, then save and log. */
    method ChangeSalary(workerId: string, newSalary: string) returns (found: bool)
      modifies this, disk
      ensures found <==> FindFirst(old(workers), workerId).Some?
      ensures workers == SetSalary(old(workers), workerId, newSalary)
      ensures found ==>
        && disk.dataFile == Some(SaveLines(workers))
        && disk.logFile == old(disk.logFile)
           + [SalaryChanged(old(workers)[FindFirst(old(workers), workerId).value].name, newSalary)]
      ensures !found ==> disk.dataFile == old(disk.dataFile) && disk.logFile == old(disk.logFile)
    {
      var i := FindFirst(workers, workerId);
      found := i.Some?;
      if found {
        var worker := workers[i.value];
        workers := workers[i.value := worker.(salary := newSalary)];
        SaveToFile(disk, workers);
        LogEntry(disk, SalaryChanged(worker.name, newSalary));
      }
    }

    /**
     * `TransferWorker`: remove the first worker with the ID from this list (without
     * saving it), hire it into `newEnterprise` (which saves that list and logs the
     * hire), then log the transfer here. `newEnterprise` may be this enterprise.
     */
    method TransferWorker(workerId: string, newEnterprise: Enterprise) returns (found: bool)
      modifies this, disk, newEnterprise, newEnterprise.disk
      ensures found <==> FindFirst(old(workers), workerId).Some?
      ensures !found ==>
        && workers == old(workers) && newEnterprise.workers == old(newEnterprise.workers)
        && disk.dataFile == old(disk.dataFile) && disk.logFile == old(disk.logFile)
        && newEnterprise.disk.dataFile == old(newEnterprise.disk.dataFile)
        && newEnterprise.disk.logFile == old(newEnterprise.disk.logFile)
      ensures found && newEnterprise == this ==>
        var moved := old(workers)[FindFirst(old(workers), workerId).value];
        && workers == TransferWithin(old(workers), workerId)
        && disk.dataFile == Some(SaveLines(workers))
        && disk.logFile == old(disk.logFile) + [Hired(moved.name), Transferred(moved.name)]
      ensures found && newEnterprise != this ==>
        var moved := old(workers)[FindFirst(old(workers), workerId).value];
        && workers == Fire(old(workers), workerId)
        && newEnterprise.workers == old(newEnterprise.workers) + [moved]
        && newEnterprise.disk.dataFile == Some(SaveLines(newEnterprise.workers))
        && (newEnterprise.disk == disk ==>
              disk.logFile == old(disk.logFile) + [Hired(moved.name), Transferred(moved.name)])
        && (newEnterprise.disk != disk ==>
              && disk.dataFile == old(disk.dataFile)
              && disk.logFile == old(disk.logFile) + [Transferred(moved.name)]
              && newEnterprise.disk.logFile == old(newEnterprise.disk.logFile) + [Hired(moved.name)])
    {
      var i := FindFirst(workers, workerId);
      found := i.Some?;
      if found {
        var worker := workers[i.value];
        workers := RemoveAt(workers, i.value);
        newEnterprise.HireWorker(worker);
        LogEntry(disk, Transferred(worker.name));
      }
    }

    /** `ViewWorkers`: the workers, in list order, as they are shown; nothing changes. */
    method ViewWorkers() returns (shown: seq<Worker>)
      ensures |shown| == |workers|
      ensures forall k :: 0 <= k < |workers| ==> shown[k] == workers[k]
    {
      shown := [];
      for k := 0 to |workers|
        invariant shown == workers[..k]
      {
        shown := shown + [workers[k]];
      }
    }
  }

  /**
   * An enterprise opened on the files right after a change was saved starts with
   * the list that was saved, provided its fields hold no `;` and its salaries parse.
   */
  method Reopen(e: Enterprise, isNumber: string -> bool) returns (reopened: Enterprise)
    requires e.disk.dataFile == Some(SaveLines(e.workers))
    requires forall k :: 0 <= k < |e.workers| ==> StorableWorker(e.workers[k]) && isNumber(e.workers[k].salary)
    ensures fresh(reopened) && reopened.disk == e.disk
    ensures reopened.workers == e.workers
  {
    SaveThenLoad(e.workers, isNumber);
    reopened := new Enterprise(e.disk, isNumber);
  }

  /** Hire two clerks, raise the first one's salary, fire the second, fail to fire an unknown ID. */
  method HireChangeFireWalkthrough()
  {
    var disk := new Disk(None, []);
    var e := new Enterprise(disk, s => true);
    assert e.workers == [];
    var ann, bo := Worker("E1", "Ann", "Clerk", "1000"), Worker("E2", "Bo", "Clerk", "1200");
    e.HireWorker(ann);
    e.HireWorker(bo);
    assert e.workers == [ann, bo];
    assert FindFirst(e.workers, "E1") == Some(0);
    var found := e.ChangeSalary("E1", "1500");
    assert found && e.workers == [ann.(salary := "1500"), bo];
    assert FindFirst(e.workers, "E2") == Some(1);
    found := e.FireWorker("E2");
    assert found && e.workers == [ann.(salary := "1500")];
    assert disk.logFile == [Hired("Ann"), Hired("Bo"), SalaryChanged("Ann", "1500"), Fired("Bo")];
    found := e.FireWorker("E9");
    assert !found && e.workers == [ann.(salary := "1500")];
    assert disk.logFile == [Hired("Ann"), Hired("Bo"), SalaryChanged("Ann", "1500"), Fired("Bo")];
  }
}
