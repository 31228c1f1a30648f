/** The ledger's record type, shared by the Ledger Store and the View Projector. */
module Transactions {

  /** What `parseFloat` makes of the amount field, in whole cents: a number,
      or NaN when the text does not start with one. */
  datatype ParsedAmount = NotANumber | Number(cents: int)

  /** One ledger entry, as `addTransaction` builds it. `kind` holds the
      record's `type` field (a reserved word in Dafny); it is whatever string
      the form's type input held, normally "income" or "expense". `amount`
      is signed and in cents; `date` is the display text of the creation time. */
  datatype Transaction = Transaction(
    id: int,
    description: string,
    amount: int,
    category: string,
    kind: string,
    date: string)

  const Income: string := "income"
  const Expense: string := "expense"

  /** The sign convention: an income record is positive, every other record
      is negative. */
  predicate SignConsistent(t: Transaction)
    ensures SignConsistent(t) ==> t.amount != 0
  {
    if t.kind == Income then t.amount > 0 else t.amount < 0
  }

  /** Every record of the list obeys the sign convention. */
  predicate AllSignConsistent(s: seq<Transaction>)
  {
    forall i :: 0 <= i < |s| ==> SignConsistent(s[i])
  }

  /** Every record's type is one of the two the form offers. */
  predicate KindsAreKnown(s: seq<Transaction>)
  {
    forall i :: 0 <= i < |s| ==> s[i].kind == Income || s[i].kind == Expense
  }
}
