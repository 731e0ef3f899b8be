# Worker register — a Dafny model

This project models the personnel register of `ConsoleApp1/Program.cs`: an
`Enterprise` owns a list of `Worker` records (ID, name, position, salary). It can
hire, fire, change a position, change a salary, transfer a worker to another
enterprise, and list its workers. A hire, a dismissal or a change that finds its
worker rewrites the whole data file (`FileHandler.SaveToFile`) and appends one
line to the audit log (`Logger.LogEntry`). A transfer goes through the
destination's `HireWorker`: it saves the destination's list, never re-saves the
source's shortened list, and appends two lines, the hire and then the transfer.
When the ID is not found, nothing changes, nothing is saved and nothing is
logged. The data file holds one worker per line as
`ID;Name;Position;Salary`. `FileHandler.ReadFromFile` reads it back, keeping
only the lines that split on `;` into exactly four fields.

Modules, one per part of the program:

- `Workers`: the `Worker` record.
- `LineFormat`: the line format, `String.Split`, the loading loop as a function, and the round trips.
- `Storage`: the data and log files (`Disk`), `SaveToFile`, `ReadFromFile`, `LogEntry`.
- `Roster`: the worker list as a value. It defines the first-match lookup and what each operation does to the list, with the lemmas about them.
- `Company`: the `Enterprise` class. Its methods change `workers` in place and write to the `Disk`.
- `Menu`: the transfer command of the menu loop, which picks the source and destination enterprises.
- `Results`: `Option` and `Result`.

`FileHandler` and `Logger` use fixed paths, `workers_data.txt` and
`workers_log.txt` (Program.cs:111, 149). Because of this, the program's two
enterprises share one data file and one log file. In the model every
`Enterprise` holds a reference to one shared `Disk` object, so the two
enterprises do not have a file each. `TransferWorker` is still specified for
destinations on another disk too.

The salary is a `double` in the source, but the register only stores and copies
it. The model keeps it as the text of the 4th field. `double.Parse` during a
load is a parameter, `isNumber`, that says which texts it accepts. The first
four-field line with a salary it rejects makes the load fail (`Err`), just as
the source's `FormatException` aborts `ReadFromFile`.

The definitions that model the code, each used by the contracts in the table
below:

- `LineFormat.FormatLine`: the line `SaveToFile` writes for one worker (Program.cs:119).
- `LineFormat.Split`, `LineFormat.ParseLine`: `line.Split(';')` and the four-field test (Program.cs:134-137).
- `LineFormat.LoadLines`, `LineFormat.Load`: the loop of `ReadFromFile` and its missing-file case (Program.cs:126-143).
- `LineFormat.SaveLines`: the lines `SaveToFile` writes (Program.cs:115-121).
- `Roster.FindFirst`: `FirstOrDefault(w => w.ID == id)` (Program.cs:42, 57, 72, 87).
- `Roster.Fire`, `Roster.SetPosition`, `Roster.SetSalary`, `Roster.TransferWithin`: the list after `FireWorker`, `ChangePosition`, `ChangeSalary` and a transfer to the same enterprise (Program.cs:42-45, 57-60, 72-75, 87-91).
- `Storage.LogEvent`, `Storage.Message`: the log entries and their texts (Program.cs:37, 47, 62, 77, 92).
- `Menu.Target`, `Menu.Pick`, `Menu.WiredTransfer`, `Menu.IntendedTransfer`: the enterprise a transfer tag picks and the two lists after the command as wired and as intended (Program.cs:253-254).

## Model

| member | source | states |
|---|---|---|
| `LineFormat.SplitShape` | ConsoleApp1/Program.cs:134 | `line.Split(';')` gives one more field than there are separators, and no field contains the separator |
| `LineFormat.ParseLine` | ConsoleApp1/Program.cs:134-137 | a line yields a worker exactly when it holds three `;`, i.e. splits into four fields |
| `LineFormat.SplitJoin` | ConsoleApp1/Program.cs:134 | splitting fields that hold no `;` after joining them with `;` gives the same fields |
| `LineFormat.JoinSplit` | ConsoleApp1/Program.cs:134 | joining the fields of any split with `;` gives the original line |
| `LineFormat.ParseFormat` | ConsoleApp1/Program.cs:119-137 | the line written for a worker whose fields hold no `;` parses back to the same four fields |
| `LineFormat.FormatParse` | ConsoleApp1/Program.cs:119-137 | a line that parses is exactly the line its worker is written as, and its fields hold no `;` |
| `LineFormat.RecordLines` | ConsoleApp1/Program.cs:132-139 | the lines kept are lines of the file that split into four fields, and every such line is kept |
| `LineFormat.RecordLinesAppend` | ConsoleApp1/Program.cs:132-139 | the lines kept from a file are kept in file order, repeats included: those of a first stretch of the file come before those of the rest |
| `LineFormat.LoadSucceedsIff` | ConsoleApp1/Program.cs:132-139 | loading an existing file succeeds if and only if every four-field line has a salary that parses |
| `LineFormat.LoadKeepsRecordLines` | ConsoleApp1/Program.cs:132-139 | after a successful load, writing the workers out gives exactly the four-field lines of the file, in file order; all other lines are dropped |
| `LineFormat.SaveThenLoad` | ConsoleApp1/Program.cs:113-144 | saving workers whose fields hold no `;` and whose salaries parse, then loading the file, gives the same list |
| `Storage.SaveToFile` | ConsoleApp1/Program.cs:113-122 | the data file becomes one formatted line per worker, in list order; the log is untouched |
| `Storage.ReadFromFile` | ConsoleApp1/Program.cs:124-144 | the loop's result equals `Load`: a missing file gives the empty list, else the four-field lines' workers in order or the salary error |
| `Storage.LogEntry` | ConsoleApp1/Program.cs:151-157 | appends exactly one entry to the log and leaves the data file alone |
| `Storage.MessageTellsEvent` | ConsoleApp1/Program.cs:37-92 | the text of a log line tells which operation wrote it, and for a hire, a dismissal or a transfer also the worker's name |
| `Roster.FindFirst` | ConsoleApp1/Program.cs:42 | `FirstOrDefault`: the index found holds the ID and no earlier worker does; there is no result exactly when no worker holds the ID |
| `Roster.HireKeepsLookups` | ConsoleApp1/Program.cs:33-38 | hiring, even a duplicate ID, never changes a lookup that already succeeded; a lookup that failed finds the new worker exactly when the IDs match |
| `Roster.FireUndoesHire` | ConsoleApp1/Program.cs:33-48 | firing a just-hired worker whose ID was not in use restores the previous list |
| `Roster.FireRemovesFirstMatch` | ConsoleApp1/Program.cs:40-48 | firing removes exactly the first worker with the ID: one fewer, earlier workers in place, later ones moved up by one, the multiset short by that worker |
| `Roster.FireThenFindNext` | ConsoleApp1/Program.cs:40-48 | after firing, the same ID finds the next worker that had it, or nothing |
| `Roster.SetPositionChangesOneField` | ConsoleApp1/Program.cs:55-62 | only the position of the first match changes; its ID, name and salary, every other worker, the length and every lookup stay the same |
| `Roster.SetPositionIdempotent` | ConsoleApp1/Program.cs:55-62 | changing a position twice to the same value equals changing it once |
| `Roster.SetSalaryChangesOneField` | ConsoleApp1/Program.cs:70-77 | only the salary of the first match changes; its ID, name and position, every other worker, the length and every lookup stay the same |
| `Roster.SetSalaryIdempotent` | ConsoleApp1/Program.cs:70-77 | changing a salary twice to the same value equals changing it once |
| `Roster.TransferWithinMovesToEnd` | ConsoleApp1/Program.cs:85-92 | a transfer of an enterprise's worker to itself keeps the same multiset and length, and the moved worker ends up last after the others in their order |
| `Roster.TransferBetweenConserves` | ConsoleApp1/Program.cs:85-92 | a transfer between two enterprises keeps their combined count and combined multiset of workers |
| `Company.Enterprise.constructor` | ConsoleApp1/Program.cs:28-31 | the new enterprise's list is what the data file loads to |
| `Company.Reopen` | ConsoleApp1/Program.cs:28-31 | an enterprise constructed on the files right after a save starts with the saved list, when its fields hold no `;` and its salaries parse |
| `Company.Enterprise.HireWorker` | ConsoleApp1/Program.cs:33-38 | the worker is appended with no ID check; the file then holds the new list, and one hire entry is logged |
| `Company.Enterprise.FireWorker` | ConsoleApp1/Program.cs:40-53 | found if and only if the ID is in use; then the first match is removed, the list saved, and one entry logged; otherwise list, file and log are unchanged |
| `Company.Enterprise.ChangePosition` | ConsoleApp1/Program.cs:55-68 | found if and only if the ID is in use; then the first match's position is set, the list saved, and one entry with the new position logged; otherwise nothing changes |
| `Company.Enterprise.ChangeSalary` | ConsoleApp1/Program.cs:70-83 | found if and only if the ID is in use; then the first match's salary is set, the list saved, and one entry with the new salary logged; otherwise nothing changes |
| `Company.Enterprise.TransferWorker` | ConsoleApp1/Program.cs:85-98 | covers a destination that is the same enterprise, another enterprise on the same files, or one on other files; shows which lists, files and log entries change and that the source list is not re-saved; when the ID is unknown nothing changes |
| `Company.Enterprise.ViewWorkers` | ConsoleApp1/Program.cs:100-106 | the workers shown are the list, in order, and nothing changes |
| `Menu.TransferCommand` | ConsoleApp1/Program.cs:253-254 | as wired, the chosen enterprise is both source and destination: the two lists become `WiredTransfer` of the old ones; found if and only if the chosen enterprise has the ID; then its files hold its list and gain a hire and a transfer entry, otherwise they are unchanged; the other enterprise's files, when they are other files, are untouched |
| `Menu.WiredTransferKeepsEachList` | ConsoleApp1/Program.cs:253-254 | as wired, each enterprise keeps exactly the workers it had, whatever the tag |
| `Menu.WiredTransferCounterexample` | ConsoleApp1/Program.cs:253-254 | tag "2" on a worker only `enterprise` has: as wired it stays; as intended it moves to `anotherEnterprise` |
| `Menu.IntendedTransferCommand` | ConsoleApp1/Program.cs:249-254 | `enterprise.TransferWorker(id, target)`: found if and only if `enterprise` has the ID; the two lists become `IntendedTransfer` of the old ones; the destination's list is saved and the hire and the transfer are logged on the files of the enterprise that did each; nothing changes when the ID is unknown |
| `Menu.IntendedTransferMoves` | ConsoleApp1/Program.cs:249-254 | as intended, a tag other than "1" moves the first match from `enterprise` to the end of `anotherEnterprise`, and the two together keep the same workers |

## Left out

- The console menu loop (Program.cs:162-276): reading choices, splitting tokens on spaces, prompts and printed messages. The one exception is the transfer command's choice of enterprises (`Menu`). A "worker not found" message is the `found == false` result.
- Real file I/O: `StreamWriter`, `StreamReader`, `File.Exists`, and I/O exceptions. The data file is modelled as an optional sequence of lines, and the log as the sequence of entries appended.
- A field containing a line break would split a line in the real file. The model's file is already a sequence of lines, so this is not captured. Fields typed at the console cannot contain one.
- `DateTime.Now` timestamps in log lines are dropped. A log entry is a `LogEvent`, and `Storage.Message` gives its text.
- `double` salaries: their formatting (`{worker.Salary}`), `double.Parse`, and the menu's `double.TryParse`. A salary is the text of its field, and `ChangeSalary` takes that text. Which texts parse is the `isNumber` parameter. The source re-formats a loaded salary when it saves again ("1000.50" is written back as "1000.5"), so `LineFormat.LoadKeepsRecordLines` and `LineFormat.SaveThenLoad` hold in the model, which keeps the salary text verbatim, but only up to that re-formatting in the source.
- `Company.Enterprise.constructor`: requires the data file to load. In the source, a four-field line with a non-numeric salary throws out of the constructor and ends the program. That failure itself is modelled by `Storage.ReadFromFile` returning `Err`.
- Object identity of `Worker`: the source's workers are objects, the model's are values. `List.Remove(worker)` removes by reference. Here it is removal at the index `FirstOrDefault` found. These agree because no worker object ever sits twice in one list.
- `Environment.Exit` and the process lifetime.

## Findings

| source | as written | input that shows it | evidently intended | confidence | as-written member | corrected member |
|---|---|---|---|---|---|---|
| ConsoleApp1/Program.cs:253-254 | `targetEnterprise.TransferWorker(id, targetEnterprise)`: the enterprise the tag picks is both source and destination, so no worker ever changes enterprise | tag "2", worker `E1` held only by `enterprise`: `E1` stays in `enterprise` and `anotherEnterprise` is unchanged | `enterprise.TransferWorker(id, targetEnterprise)`: move the worker to the enterprise the tag picks, as the prompt "transfer the worker to another enterprise" says | medium; not executed | `Menu.TransferCommand`, `Menu.WiredTransferCounterexample` | `Menu.IntendedTransferCommand`, `Menu.IntendedTransferMoves` |
