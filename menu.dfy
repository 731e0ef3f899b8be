/**
 * The transfer command of the menu loop in `Program.Main` (choice 5): the only
 * part of the console loop that decides which enterprise an operation runs on.
 * The program has two enterprises, `enterprise` and `anotherEnterprise`; the
 * second token of the command picks one of them, "1" the first.
 */
module Menu {
  import opened Results
  import opened Workers
  import opened LineFormat
  import opened Storage
  import opened Roster
  import opened Company

  /** The enterprise a transfer tag names. */
  datatype Choice = Primary | Another

  function Target(tag: string): Choice
  {
    if tag == "1" then Primary else Another
  }

  /**
   * The two worker lists after the transfer command as the program wires it: the
   * chosen enterprise is both the source and the destination of the transfer.
   */
  function WiredTransfer(tag: string, primary: seq<Worker>, another: seq<Worker>, id: string)
    : (seq<Worker>, seq<Worker>)
  {
    match Target(tag)
    case Primary => (TransferWithin(primary, id), another)
    case Another => (primary, TransferWithin(another, id))
  }

  /**
   * The two worker lists after the transfer the command's prompt asks for: the
   * worker leaves `enterprise` for the chosen enterprise.
   */
  function IntendedTransfer(tag: string, primary: seq<Worker>, another: seq<Worker>, id: string)
    : (seq<Worker>, seq<Worker>)
  {
    match Target(tag)
    case Primary => (TransferWithin(primary, id), another)
    case Another =>
      match FindFirst(primary, id)
      case None => (primary, another)
      case Some(i) => (Fire(primary, id), another + [primary[i]])
  }

  /**
   * As wired, the transfer command never moves a worker to the other enterprise:
   * each enterprise keeps exactly the workers it had.
   */
  lemma WiredTransferKeepsEachList(tag: string, primary: seq<Worker>, another: seq<Worker>, id: string)
    ensures var (p, a) := WiredTransfer(tag, primary, another, id);
      multiset(p) == multiset(primary) && multiset(a) == multiset(another)
  {
    var chosen := if Target(tag) == Primary then primary else another;
    if FindFirst(chosen, id).Some? {
      TransferWithinMovesToEnd(chosen, id);
    }
  }

  /** A worker of `enterprise` asked to move to the other enterprise stays where it is. */
  lemma WiredTransferCounterexample()
    ensures var w := Worker("E1", "Ann", "Clerk", "1000");
      && WiredTransfer("2", [w], [], "E1") == ([w], [])
      && IntendedTransfer("2", [w], [], "E1") == ([], [w])
  {
    var w := Worker("E1", "Ann", "Clerk", "1000");
    assert FindFirst([w], "E1") == Some(0);
    assert FindFirst([], "E1") == None;
    assert "2" != "1";
    assert Fire([w], "E1") == [];
    assert [] + [w] == [w];
  }

  /**
   * As intended, a transfer to the other enterprise moves the first worker with
   * the ID from `enterprise` to the end of the other one, and the two together
   * keep the same workers.
   */
  lemma IntendedTransferMoves(tag: string, primary: seq<Worker>, another: seq<Worker>, id: string)
    requires tag != "1"
    requires FindFirst(primary, id).Some?
    ensures var moved := primary[FindFirst(primary, id).value];
      var (p, a) := IntendedTransfer(tag, primary, another, id);
      && p == Fire(primary, id)
      && a == another + [moved]
      && multiset(p) + multiset(a) == multiset(primary) + multiset(another)
  {
    TransferBetweenConserves(primary, another, id);
  }

  /** The enterprise object a transfer tag picks: "1" is `enterprise`, anything else `anotherEnterprise`. */
  function Pick(tag: string, enterprise: Enterprise, anotherEnterprise: Enterprise): (chosen: Enterprise)
    ensures Target(tag) == Primary ==> chosen == enterprise
    ensures Target(tag) == Another ==> chosen == anotherEnterprise
  {
    match Target(tag)
    case Primary => enterprise
    case Another => anotherEnterprise
  }

  /**
   * Lines 253-254 as written: `target.TransferWorker(id, target)`. The chosen
   * enterprise moves its own worker to the end of its own list, saves that list
   * and logs a hire and a transfer; the files of the other enterprise, when they
   * are other files, are left alone.
   */
  method TransferCommand(enterprise: Enterprise, anotherEnterprise: Enterprise, workerId: string, tag: string)
    returns (found: bool)
    requires enterprise != anotherEnterprise
    modifies enterprise, anotherEnterprise, enterprise.disk, anotherEnterprise.disk
    ensures (enterprise.workers, anotherEnterprise.workers)
         == WiredTransfer(tag, old(enterprise.workers), old(anotherEnterprise.workers), workerId)
    ensures var chosen := Pick(tag, enterprise, anotherEnterprise);
      && (found <==> FindFirst(old(chosen.workers), workerId).Some?)
      && (found ==>
            var moved := old(chosen.workers)[FindFirst(old(chosen.workers), workerId).value];
            && chosen.disk.dataFile == Some(SaveLines(chosen.workers))
            && chosen.disk.logFile == old(chosen.disk.logFile) + [Hired(moved.name), Transferred(moved.name)])
      && (!found ==>
            chosen.disk.dataFile == old(chosen.disk.dataFile) && chosen.disk.logFile == old(chosen.disk.logFile))
    ensures tag == "1" && anotherEnterprise.disk != enterprise.disk ==>
      && anotherEnterprise.disk.dataFile == old(anotherEnterprise.disk.dataFile)
      && anotherEnterprise.disk.logFile == old(anotherEnterprise.disk.logFile)
    ensures tag != "1" && anotherEnterprise.disk != enterprise.disk ==>
      && enterprise.disk.dataFile == old(enterprise.disk.dataFile)
      && enterprise.disk.logFile == old(enterprise.disk.logFile)
  {
    var target := if tag == "1" then enterprise else anotherEnterprise;
    found := target.TransferWorker(workerId, target);
  }

  /**
   * The transfer command as its prompt describes it: `enterprise.TransferWorker(id, target)`.
   * With tag "1" it is a self-transfer of `enterprise`; otherwise the worker
   * leaves `enterprise` unsaved, `anotherEnterprise` saves its grown list, and
   * the hire and the transfer are logged on the files of the enterprise that did
   * each.
   */
  method IntendedTransferCommand(enterprise: Enterprise, anotherEnterprise: Enterprise, workerId: string, tag: string)
    returns (found: bool)
    requires enterprise != anotherEnterprise
    modifies enterprise, anotherEnterprise, enterprise.disk, anotherEnterprise.disk
    ensures found <==> FindFirst(old(enterprise.workers), workerId).Some?
    ensures (enterprise.workers, anotherEnterprise.workers)
         == IntendedTransfer(tag, old(enterprise.workers), old(anotherEnterprise.workers), workerId)
    ensures !found ==>
      && enterprise.disk.dataFile == old(enterprise.disk.dataFile)
      && enterprise.disk.logFile == old(enterprise.disk.logFile)
      && anotherEnterprise.disk.dataFile == old(anotherEnterprise.disk.dataFile)
      && anotherEnterprise.disk.logFile == old(anotherEnterprise.disk.logFile)
    ensures found && tag == "1" ==>
      var moved := old(enterprise.workers)[FindFirst(old(enterprise.workers), workerId).value];
      && enterprise.disk.dataFile == Some(SaveLines(enterprise.workers))
      && enterprise.disk.logFile == old(enterprise.disk.logFile) + [Hired(moved.name), Transferred(moved.name)]
    ensures tag == "1" && anotherEnterprise.disk != enterprise.disk ==>
      && anotherEnterprise.disk.dataFile == old(anotherEnterprise.disk.dataFile)
      && anotherEnterprise.disk.logFile == old(anotherEnterprise.disk.logFile)
    ensures found && tag != "1" ==>
      var moved := old(enterprise.workers)[FindFirst(old(enterprise.workers), workerId).value];
      && anotherEnterprise.disk.dataFile == Some(SaveLines(anotherEnterprise.workers))
      && (anotherEnterprise.disk == enterprise.disk ==>
            enterprise.disk.logFile == old(enterprise.disk.logFile) + [Hired(moved.name), Transferred(moved.name)])
      && (anotherEnterprise.disk != enterprise.disk ==>
            && enterprise.disk.dataFile == old(enterprise.disk.dataFile)
            && enterprise.disk.logFile == old(enterprise.disk.logFile) + [Transferred(moved.name)]
            && anotherEnterprise.disk.logFile == old(anotherEnterprise.disk.logFile) + [Hired(moved.name)])
  {
    var target := if tag == "1" then enterprise else anotherEnterprise;
    found := enterprise.TransferWorker(workerId, target);
  }
}
