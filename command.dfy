/**
 * What every SAM command shares: the failures a call can raise, status tables
 * keyed by the 16-bit status word, and the status check run on each response.
 * The base class `Command` and its shared `STATUS_TABLE` are not part of this
 * model, so the shared table is a parameter everywhere it is used.
 */
module Command {
  import opened Wrappers

  /** The classified command exceptions, as tags instead of exception classes. */
  datatype ErrorKind =
    | CounterOverflow
    | IllegalParameter
    | SecurityContext
    | DataAccess
    | OtherKind(name: string)   // kinds that only the shared base table uses

  /** Everything a call in this model can raise. */
  datatype Failure =
    | IllegalState(message: string)
    | IllegalArgument(message: string)
    | CommandError(kind: ErrorKind, message: string, statusWord: int)
    | UnknownStatus(statusWord: int)
    | IndexOutOfBounds

  /** One table entry: a message, and the error kind to raise (none for success or warning). */
  datatype StatusProperties = StatusProperties(message: string, errorKind: Option<ErrorKind>)

  type StatusTable = map<int, StatusProperties>

  /** A command's table: a copy of the base table with the command's own entries put over it. */
  function Overlay(base: StatusTable, own: StatusTable): (t: StatusTable)
    ensures t.Keys == base.Keys + own.Keys
    ensures forall sw :: sw in own ==> t[sw] == own[sw]
    ensures forall sw :: sw in base && sw !in own ==> t[sw] == base[sw]
  {
    base + own
  }

  /**
   * The status check run before a response is parsed: a tabulated code without
   * an error kind passes, one with an error kind raises it with the table's
   * message, and a code absent from the table raises the unknown-status error.
   */
  function CheckStatus(table: StatusTable, sw: int): (r: Outcome<Failure>)
    ensures r.Pass? <==> sw in table && table[sw].errorKind.None?
    ensures r.Fail? && sw in table ==>
      r.error == CommandError(table[sw].errorKind.value, table[sw].message, sw)
    ensures sw !in table ==> r == Fail(UnknownStatus(sw))
  {
    if sw !in table then Fail(UnknownStatus(sw))
    else match table[sw].errorKind
      case None => Pass
      case Some(kind) => Fail(CommandError(kind, table[sw].message, sw))
  }

  /** A command's own entry decides the check, whatever the base table says about that code. */
  lemma OwnEntryDecides(base: StatusTable, own: StatusTable, sw: int)
    requires sw in own
    ensures CheckStatus(Overlay(base, own), sw) == CheckStatus(own, sw)
  {
  }

  /** A code the command does not tabulate is checked exactly as the base table would. */
  lemma BaseEntryOtherwise(base: StatusTable, own: StatusTable, sw: int)
    requires sw !in own
    ensures CheckStatus(Overlay(base, own), sw) == CheckStatus(base, sw)
  {
  }
}
