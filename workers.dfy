/** The `Worker` record of ConsoleApp1/Program.cs. */
module Workers {

  /**
   * One employee. `id` is get-only in the source; the other three are settable
   * properties, of which the register changes `position` and `salary`.
   * The salary is kept as the text it is written to the data file as (its 4th
   * field): the register only stores and copies it, never computes with it.
   */
  datatype Worker = Worker(id: string, name: string, position: string, salary: string)
}
