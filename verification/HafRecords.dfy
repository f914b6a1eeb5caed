/** Typed records of a BSP India HAF statement. Amounts are signed integers in paise. */
module HafRecords {
  import opened Wrappers
  import opened Calendar

  datatype Header = Header(
    country: string,
    currency: string,
    agent: string,
    periodStart: Date,
    periodEnd: Date,
    fileSequence: string)

  datatype Record =
    | Ticketing(ticketNumber: string, airline: string, issueDate: Date,
                gross: int, commission: int, taxes: int, net: int, narration: Option<string>)
    | Refund(documentNumber: string, originalTicket: string, airline: string, issueDate: Date,
             net: int, narration: Option<string>)
    | Exchange(newTicketNumber: string, originalTicket: string, airline: string, issueDate: Date,
               net: int, narration: Option<string>)
    | DebitMemo(memoNumber: string, airline: string, issueDate: Date, amount: int, narration: Option<string>)
    | CreditMemo(memoNumber: string, airline: string, issueDate: Date, amount: int, narration: Option<string>)

  datatype Trailer = Trailer(recordCount: int, netControlTotal: int)

  datatype HafFile = HafFile(header: Header, transactions: seq<Record>, trailer: Trailer, sourceRef: string)

  /** The signed amount a record contributes to the remittance. */
  function NetOf(r: Record): int {
    match r
    case Ticketing(_, _, _, _, _, _, net, _) => net
    case Refund(_, _, _, _, net, _) => net
    case Exchange(_, _, _, _, net, _) => net
    case DebitMemo(_, _, _, amount, _) => amount
    case CreditMemo(_, _, _, amount, _) => amount
  }

  function DocumentNumber(r: Record): string {
    match r
    case Ticketing(number, _, _, _, _, _, _, _) => number
    case Refund(number, _, _, _, _, _) => number
    case Exchange(number, _, _, _, _, _) => number
    case DebitMemo(number, _, _, _, _) => number
    case CreditMemo(number, _, _, _, _) => number
  }

  function SumNet(rs: seq<Record>): int {
    if rs == [] then 0 else SumNet(rs[..|rs| - 1]) + NetOf(rs[|rs| - 1])
  }
}
