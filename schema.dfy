/**
 * Record shapes and insert validation of the ledger (shared/schema.ts).
 * Money is counted in integer cents (so the schema's 0.01 is 1) and
 * timestamps in integer milliseconds since the epoch.
 */
module Schema {
  import opened Wrappers

  /** Input to card creation; the schema has no `pin` field. */
  datatype InsertCard = InsertCard(name: string, number: Option<string>, initialValue: int)

  /** Input to transaction creation. */
  datatype InsertTransaction = InsertTransaction(
    cardId: string,
    description: string,
    location: Option<string>,
    amount: int)

  datatype Transaction = Transaction(
    id: string,
    cardId: string,
    description: string,
    location: Option<string>,
    amount: int,
    date: int)

  /** A stored card; `pin` is only ever written by the client's card update. */
  datatype Card = Card(
    id: string,
    name: string,
    number: Option<string>,
    pin: Option<string>,
    initialValue: int,
    createdAt: int,
    isArchived: bool,
    transactions: seq<Transaction>)

  /** A partial card update: `None` stands for a field that is undefined. */
  datatype CardPatch = CardPatch(
    name: Option<string>,
    number: Option<string>,
    initialValue: Option<int>,
    pin: Option<string>)

  /** A partial transaction update: `None` stands for a field that is undefined. */
  datatype TransactionPatch = TransactionPatch(description: Option<string>, amount: Option<int>)

  /** The schema's smallest transaction amount, 0.01, in cents. */
  const MinAmount: int := 1

  /** insertCardSchema: a name of at least one character and an initial value of at least 0. */
  predicate ValidInsertCard(c: InsertCard) {
    |c.name| >= 1 && c.initialValue >= 0
  }

  /** insertTransactionSchema: any card id, a description of at least one character, an amount of at least 0.01. */
  predicate ValidInsertTransaction(t: InsertTransaction) {
    |t.description| >= 1 && t.amount >= MinAmount
  }

  /** The boundaries the schema draws: 0 is a valid initial value, 0.01 the least valid amount, the empty card id is allowed. */
  lemma {:induction false} SchemaBoundaries(name: string, description: string)
    requires |name| >= 1 && |description| >= 1
    ensures ValidInsertCard(InsertCard(name, None, 0)) && !ValidInsertCard(InsertCard(name, None, -1))
    ensures !ValidInsertCard(InsertCard("", None, 100))
    ensures ValidInsertTransaction(InsertTransaction("", description, None, 1))
    ensures !ValidInsertTransaction(InsertTransaction("", description, None, 0))
    ensures !ValidInsertTransaction(InsertTransaction("", "", None, 100))
  {
  }
}
