/**
 * The add-transaction form's submit handler
 * (client/src/components/add-transaction-modal.tsx): schema check, card
 * lookup, balance check, then the store's append. It is the only place the
 * client refuses to overspend a card.
 */
module AddTransactionModal {
  import opened Wrappers
  import opened Schema
  import opened Ledger
  import opened ClientStorage

  /** The form's fields; the card id comes from the modal's props. */
  datatype TransactionForm = TransactionForm(description: string, location: Option<string>, amount: int)

  /** How a submission ends: an error shown on the form or in a toast, or a recorded transaction. */
  datatype AddOutcome = SchemaRejected | CardNotFound | InsufficientBalance | Added

  function Insert(cardId: string, form: TransactionForm): InsertTransaction
  {
    InsertTransaction(cardId, form.description, form.location, form.amount)
  }

  /**
   * handleSubmit. Only an accepted submission changes the store, and then by
   * appending exactly one transaction with the form's amount to the first
   * card with the id; the card's balance drops by that amount and stays at
   * least 0, reaching exactly 0 when the amount is the whole balance.
   */
  method HandleSubmit(store: LocalStorageService, cardId: string, form: TransactionForm, id: string, date: int)
    returns (outcome: AddOutcome)
    modifies store
    ensures outcome == SchemaRejected <==> !ValidInsertTransaction(Insert(cardId, form))
    ensures outcome == CardNotFound <==>
      ValidInsertTransaction(Insert(cardId, form)) && FindCard(old(store.cards), cardId).None?
    ensures outcome == InsufficientBalance <==>
      && ValidInsertTransaction(Insert(cardId, form))
      && FindCard(old(store.cards), cardId).Some?
      && form.amount > Balance(old(store.cards)[FindCard(old(store.cards), cardId).value])
    ensures outcome != Added ==> store.cards == old(store.cards)
    ensures outcome == Added ==>
      var k := FindCard(old(store.cards), cardId).value;
      var before := old(store.cards)[k];
      && store.cards == old(store.cards)[k := before.(transactions := before.transactions
                                                      + [Transaction(id, cardId, form.description, form.location, form.amount, date)])]
      && Balance(store.cards[k]) == Balance(before) - form.amount
      && Balance(store.cards[k]) >= 0
      && (form.amount == Balance(before) ==> Balance(store.cards[k]) == 0)
  {
    var data := Insert(cardId, form);
    if !ValidInsertTransaction(data) {
      return SchemaRejected;
    }
    var card := store.GetCard(cardId);
    if card.None? {
      return CardNotFound;
    }
    var currentBalance := Balance(card.value);
    if data.amount > currentBalance {
      return InsufficientBalance;
    }
    var added := store.AddTransaction(data, id, date);
    outcome := Added;
  }

  /**
   * Why the guard is there: every amount it refuses, had it been recorded,
   * would have left the card with a negative balance.
   */
  lemma {:induction false} RefusedAmountWouldOverdraw(card: Card, t: Transaction)
    requires t.amount > Balance(card)
    ensures Balance(card.(transactions := card.transactions + [t])) < 0
  {
    BalanceAfterAppend(card, t);
  }

  /**
   * A card of $50.00: after $20.00 the balance is $30.00 and 40% is used;
   * after a further $30.00 it is $0.00 and 100% is used; then even $0.01
   * exceeds the balance and is refused.
   */
  lemma {:induction false} FiftyDollarCard(t1: Transaction, t2: Transaction, t3: Transaction)
    requires t1.amount == 2000 && t2.amount == 3000 && t3.amount == 1
    ensures var card := Card("c", "Gift", None, None, 5000, 0, false, [t1]);
            Balance(card) == 3000 && UsagePercentage(card) == 40.0
    ensures var card := Card("c", "Gift", None, None, 5000, 0, false, [t1, t2]);
            && Balance(card) == 0 && UsagePercentage(card) == 100.0
            && t3.amount > Balance(card)
  {
    assert [t1, t2] == [t1] + [t2];
    SpentAppend([t1], [t2]);
  }
}
