/**
 * The edit-transaction form's submit handler
 * (client/src/components/edit-transaction-modal.tsx): trims the
 * description, checks it and the amount, then applies the store's
 * transaction update. Unlike adding, editing never compares the amount with
 * the card's balance.
 */
module EditTransactionModal {
  import opened Wrappers
  import opened Schema
  import opened Ledger
  import opened Strings
  import opened ClientStorage

  /** The form's fields as typed; `amount` is what `parseFloat` makes of the amount field, in cents, and `None` is NaN. */
  datatype TransactionEditForm = TransactionEditForm(description: string, amount: Option<int>)

  /** How a submission ends. `NotUpdated` is the store finding no such card or transaction; nothing is shown then. */
  datatype EditOutcome = NoTransaction | DescriptionRequired | InvalidAmount | Updated | NotUpdated

  /**
   * handleSubmit. Nothing changes unless a transaction is selected, the
   * trimmed description is non-empty, the amount is a number above 0 and
   * the store finds the card and the transaction. Then the first matching
   * transaction takes the trimmed description and the new amount, keeps
   * its id, card id, location and date, and the card's balance moves by the
   * difference of the amounts, below 0 if the new amount is large enough.
   */
  method HandleSubmit(store: LocalStorageService, cardId: string, transaction: Option<Transaction>, form: TransactionEditForm)
    returns (outcome: EditOutcome)
    modifies store
    ensures transaction.None? ==> outcome == NoTransaction
    ensures outcome == DescriptionRequired <==> transaction.Some? && IsBlank(form.description)
    ensures outcome == InvalidAmount <==>
      && transaction.Some? && !IsBlank(form.description)
      && (form.amount.None? || form.amount.value <= 0)
    ensures outcome == Updated <==>
      && transaction.Some? && !IsBlank(form.description)
      && form.amount.Some? && form.amount.value > 0
      && FindCard(old(store.cards), cardId).Some?
      && FindTransaction(old(store.cards)[FindCard(old(store.cards), cardId).value].transactions, transaction.value.id).Some?
    ensures outcome != Updated ==> store.cards == old(store.cards)
    ensures outcome == Updated ==>
      var k := FindCard(old(store.cards), cardId).value;
      var ts := old(store.cards)[k].transactions;
      var j := FindTransaction(ts, transaction.value.id).value;
      var edited := PatchTransaction(ts[j], TransactionPatch(Some(Trim(form.description)), form.amount));
      && store.cards == old(store.cards)[k := old(store.cards)[k].(transactions := ts[j := edited])]
      && edited.description == Trim(form.description) && edited.amount == form.amount.value
      && edited.id == ts[j].id && edited.cardId == ts[j].cardId
      && edited.location == ts[j].location && edited.date == ts[j].date
      && Balance(store.cards[k]) == Balance(old(store.cards)[k]) + ts[j].amount - form.amount.value
  {
    if transaction.None? {
      return NoTransaction;
    }
    var updates := TransactionPatch(Some(Trim(form.description)), form.amount);
    if updates.description.value == [] {
      return DescriptionRequired;
    }
    if updates.amount.None? || updates.amount.value <= 0 {
      return InvalidAmount;
    }
    var success := store.UpdateTransaction(cardId, transaction.value.id, updates);
    outcome := if success then Updated else NotUpdated;
  }

  /**
   * An accepted edit can overdraw a card: raising the only transaction of a
   * card that had a balance of 0 by one cent leaves it at -1.
   */
  lemma {:induction false} EditCanOverdraw(card: Card, p: TransactionPatch)
    requires |card.transactions| == 1 && Balance(card) == 0
    requires p.amount == Some(card.transactions[0].amount + 1)
    ensures Balance(card.(transactions := card.transactions[0 := PatchTransaction(card.transactions[0], p)])) == -1
  {
    BalanceAfterPatch(card, 0, p);
  }
}
