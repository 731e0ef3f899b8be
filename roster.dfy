/**
 * The worker list of an `Enterprise` as a value, and what each operation of the
 * register does to it. Every lookup is `FirstOrDefault(w => w.ID == id)`: a
 * linear scan on exact ID equality where the first match wins; IDs may repeat.
 */
module Roster {
  import opened Results
  import opened Workers

  /** The index of the first worker with the given ID, or `None` when there is none. */
  function FindFirst(ws: seq<Worker>, id: string): (r: Option<nat>)
    ensures r.Some? ==> r.value < |ws| && ws[r.value].id == id
    ensures r.Some? ==> forall j :: 0 <= j < r.value ==> ws[j].id != id
    ensures r.None? <==> forall j :: 0 <= j < |ws| ==> ws[j].id != id
  {
    if ws == [] then None
    else if ws[0].id == id then Some(0)
    else
      match FindFirst(ws[1..], id)
      case None => None
      case Some(k) => Some(k + 1)
  }

  /** The list without its `i`-th entry (`List.Remove` on the object found). */
  function RemoveAt(ws: seq<Worker>, i: nat): seq<Worker>
    requires i < |ws|
  {
    ws[..i] + ws[i + 1..]
  }

  /** The list after `FireWorker(id)`. */
  function Fire(ws: seq<Worker>, id: string): seq<Worker>
  {
    match FindFirst(ws, id)
    case None => ws
    case Some(i) => RemoveAt(ws, i)
  }

  /** The list after `ChangePosition(id, position)`. */
  function SetPosition(ws: seq<Worker>, id: string, position: string): seq<Worker>
  {
    match FindFirst(ws, id)
    case None => ws
    case Some(i) => ws[i := ws[i].(position := position)]
  }

  /** The list after `ChangeSalary(id, salary)`. */
  function SetSalary(ws: seq<Worker>, id: string, salary: string): seq<Worker>
  {
    match FindFirst(ws, id)
    case None => ws
    case Some(i) => ws[i := ws[i].(salary := salary)]
  }

  /**
   * The list after `TransferWorker(id, e)` called with `e` the enterprise itself:
   * the worker is removed and then hired back at the end.
   */
  function TransferWithin(ws: seq<Worker>, id: string): seq<Worker>
  {
    match FindFirst(ws, id)
    case None => ws
    case Some(i) => RemoveAt(ws, i) + [ws[i]]
  }

  /** Exactly one worker in the list has this ID at position `i` before all others. */
  lemma FirstMatchIs(ws: seq<Worker>, id: string, i: nat)
    requires i < |ws| && ws[i].id == id
    requires forall j :: 0 <= j < i ==> ws[j].id != id
    ensures FindFirst(ws, id) == Some(i)
  {
    assert FindFirst(ws, id).Some?;
  }

  /** Two lists whose IDs agree position by position answer every lookup alike. */
  lemma SameIdsSameLookups(a: seq<Worker>, b: seq<Worker>, id: string)
    requires |a| == |b|
    requires forall j :: 0 <= j < |a| ==> a[j].id == b[j].id
    ensures FindFirst(a, id) == FindFirst(b, id)
  {
    match FindFirst(a, id)
    case None =>
    case Some(i) => FirstMatchIs(b, id, i);
  }

  // ---------------------------------------------------------------------------
  // HireWorker

  /**
   * Hiring never hides an earlier worker: a lookup that found someone before the
   * hire finds the same position after it, even when the new worker has the same
   * ID; a lookup that found no one finds the new worker exactly when the IDs match.
   */
  lemma HireKeepsLookups(ws: seq<Worker>, w: Worker, id: string)
    ensures FindFirst(ws, id).Some? ==> FindFirst(ws + [w], id) == FindFirst(ws, id)
    ensures FindFirst(ws, id).None? ==>
      FindFirst(ws + [w], id) == (if w.id == id then Some(|ws|) else None)
  {
    var hired := ws + [w];
    match FindFirst(ws, id)
    case Some(i) =>
      FirstMatchIs(hired, id, i);
    case None =>
      if w.id == id {
        FirstMatchIs(hired, id, |ws|);
      } else {
        assert forall j :: 0 <= j < |hired| ==> hired[j].id != id by {
          forall j | 0 <= j < |hired| ensures hired[j].id != id {
            if j < |ws| { assert hired[j] == ws[j]; }
          }
        }
      }
  }

  /** Firing a freshly hired worker whose ID was not yet in use gives the old list back. */
  lemma FireUndoesHire(ws: seq<Worker>, w: Worker)
    requires FindFirst(ws, w.id).None?
    ensures Fire(ws + [w], w.id) == ws
  {
    HireKeepsLookups(ws, w, w.id);
    assert (ws + [w])[..|ws|] == ws;
  }

  // ---------------------------------------------------------------------------
  // FireWorker

  /**
   * Firing an ID in use removes exactly the first worker with that ID: one entry
   * fewer, the same workers with that one copy taken out, everyone before it in
   * place and everyone after it moved up by one.
   */
  lemma FireRemovesFirstMatch(ws: seq<Worker>, id: string)
    requires FindFirst(ws, id).Some?
    ensures var i := FindFirst(ws, id).value;
      var r := Fire(ws, id);
      && |r| == |ws| - 1
      && (forall j :: 0 <= j < i ==> r[j] == ws[j])
      && (forall j :: i <= j < |r| ==> r[j] == ws[j + 1])
      && multiset(r) + multiset{ws[i]} == multiset(ws)
  {
    var i := FindFirst(ws, id).value;
    assert ws == ws[..i] + [ws[i]] + ws[i + 1..];
  }

  /** A lookup result moved `n` places further down the list. */
  function Shift(r: Option<nat>, n: nat): Option<nat>
  {
    match r
    case None => None
    case Some(k) => Some(k + n)
  }

  /** Workers without the ID in front of a list push its lookup down by their number. */
  lemma {:induction false} FindFirstPastPrefix(head: seq<Worker>, tail: seq<Worker>, id: string)
    requires forall j :: 0 <= j < |head| ==> head[j].id != id
    ensures FindFirst(head + tail, id) == Shift(FindFirst(tail, id), |head|)
  {
    if head == [] {
      assert head + tail == tail;
      match FindFirst(tail, id)
      case None =>
      case Some(k) =>
    } else {
      assert (head + tail)[1..] == head[1..] + tail;
      assert (head + tail)[0] == head[0];
      FindFirstPastPrefix(head[1..], tail, id);
    }
  }

  /** After firing, a lookup of the same ID finds the next worker that had it, if any. */
  lemma FireThenFindNext(ws: seq<Worker>, id: string)
    requires FindFirst(ws, id).Some?
    ensures var i := FindFirst(ws, id).value;
      FindFirst(Fire(ws, id), id) == Shift(FindFirst(ws[i + 1..], id), i)
  {
    var i := FindFirst(ws, id).value;
    var head := ws[..i];
    assert Fire(ws, id) == head + ws[i + 1..];
    assert forall j :: 0 <= j < |head| ==> head[j] == ws[j];
    FindFirstPastPrefix(head, ws[i + 1..], id);
  }

  // ---------------------------------------------------------------------------
  // ChangePosition and ChangeSalary

  /**
   * Changing a position touches only the `position` of the first worker with the
   * ID: the length, every other worker, and that worker's ID, name and salary stay;
   * so every lookup, of any ID, gives the same answer afterwards.
   */
  lemma SetPositionChangesOneField(ws: seq<Worker>, id: string, position: string, x: string)
    ensures |SetPosition(ws, id, position)| == |ws|
    ensures FindFirst(ws, id).Some? ==>
      var i := FindFirst(ws, id).value;
      var r := SetPosition(ws, id, position);
      && r[i].position == position
      && r[i].id == ws[i].id && r[i].name == ws[i].name && r[i].salary == ws[i].salary
      && forall j :: 0 <= j < |ws| && j != i ==> r[j] == ws[j]
    ensures FindFirst(SetPosition(ws, id, position), x) == FindFirst(ws, x)
  {
    SameIdsSameLookups(SetPosition(ws, id, position), ws, x);
  }

  /** Changing a position twice to the same value is the same as doing it once. */
  lemma SetPositionIdempotent(ws: seq<Worker>, id: string, position: string)
    ensures SetPosition(SetPosition(ws, id, position), id, position) == SetPosition(ws, id, position)
  {
    SetPositionChangesOneField(ws, id, position, id);
  }

  /**
   * Changing a salary touches only the `salary` of the first worker with the ID:
   * the length, every other worker, and that worker's ID, name and position stay;
   * so every lookup, of any ID, gives the same answer afterwards.
   */
  lemma SetSalaryChangesOneField(ws: seq<Worker>, id: string, salary: string, x: string)
    ensures |SetSalary(ws, id, salary)| == |ws|
    ensures FindFirst(ws, id).Some? ==>
      var i := FindFirst(ws, id).value;
      var r := SetSalary(ws, id, salary);
      && r[i].salary == salary
      && r[i].id == ws[i].id && r[i].name == ws[i].name && r[i].position == ws[i].position
      && forall j :: 0 <= j < |ws| && j != i ==> r[j] == ws[j]
    ensures FindFirst(SetSalary(ws, id, salary), x) == FindFirst(ws, x)
  {
    SameIdsSameLookups(SetSalary(ws, id, salary), ws, x);
  }

  /** Changing a salary twice to the same value is the same as doing it once. */
  lemma SetSalaryIdempotent(ws: seq<Worker>, id: string, salary: string)
    ensures SetSalary(SetSalary(ws, id, salary), id, salary) == SetSalary(ws, id, salary)
  {
    SetSalaryChangesOneField(ws, id, salary, id);
  }

  // ---------------------------------------------------------------------------
  // TransferWorker

  /**
   * A transfer of an enterprise's worker to that same enterprise keeps the same
   * workers and the same length and moves the first worker with the ID to the end,
   * the others keeping their order.
   */
  lemma TransferWithinMovesToEnd(ws: seq<Worker>, id: string)
    requires FindFirst(ws, id).Some?
    ensures var i := FindFirst(ws, id).value;
      var r := TransferWithin(ws, id);
      && |r| == |ws|
      && multiset(r) == multiset(ws)
      && r[|r| - 1] == ws[i]
      && r[..|r| - 1] == Fire(ws, id)
  {
    var i := FindFirst(ws, id).value;
    var r := TransferWithin(ws, id);
    FireRemovesFirstMatch(ws, id);
    assert r == Fire(ws, id) + [ws[i]];
    assert r[..|r| - 1] == Fire(ws, id);
  }

  /**
   * A transfer between two different enterprises moves one worker from the
   * source's list to the end of the destination's: together they hold the same
   * workers as before.
   */
  lemma TransferBetweenConserves(source: seq<Worker>, destination: seq<Worker>, id: string)
    requires FindFirst(source, id).Some?
    ensures var moved := source[FindFirst(source, id).value];
      && |Fire(source, id)| + |destination + [moved]| == |source| + |destination|
      && multiset(Fire(source, id)) + multiset(destination + [moved])
         == multiset(source) + multiset(destination)
  {
    FireRemovesFirstMatch(source, id);
  }
}
