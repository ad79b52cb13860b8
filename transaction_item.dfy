/**
 * The "Balance after" figure a transaction row shows
 * (client/src/components/transaction-item.tsx). The row looks the card up
 * again, takes the transactions before the first one with the row's id
 * (`findIndex` then `slice(0, index)`) and subtracts their total from the
 * initial value. The row's own amount is therefore not part of the figure,
 * and an id that is not in the list gives `findIndex == -1`, so
 * `slice(0, -1)`: every transaction except the last.
 */
module TransactionItem {
  import opened Wrappers
  import opened Schema
  import opened Ledger

  /** The transactions `slice(0, findIndex(...))` keeps. */
  function CountedBefore(ts: seq<Transaction>, transactionId: string): seq<Transaction>
  {
    match FindTransaction(ts, transactionId)
    case Some(i) => ts[..i]
    case None => if ts == [] then [] else ts[..|ts| - 1]
  }

  /** The figure shown for one row of a card's list. */
  function ShownBalance(card: Card, transactionId: string): int
  {
    card.initialValue - Spent(CountedBefore(card.transactions, transactionId))
  }

  /**
   * The row as a whole: nothing is rendered when no card has the row's card
   * id; otherwise the figure is taken from the first card with that id.
   */
  function BalanceAfter(cards: seq<Card>, cardId: string, transactionId: string): (r: Option<int>)
    ensures r.None? <==> forall j :: 0 <= j < |cards| ==> cards[j].id != cardId
    ensures r.Some? ==> exists k :: 0 <= k < |cards| && cards[k].id == cardId && r.value == ShownBalance(cards[k], transactionId)
                                    && forall j :: 0 <= j < k ==> cards[j].id != cardId
  {
    match FindCard(cards, cardId)
    case None => None
    case Some(k) => Some(ShownBalance(cards[k], transactionId))
  }

  /** The oldest transaction shows the card's initial value. */
  lemma {:induction false} FirstShowsInitialValue(card: Card)
    requires card.transactions != []
    ensures ShownBalance(card, card.transactions[0].id) == card.initialValue
  {
  }

  /**
   * For a transaction that is the first with its id, the figure is the
   * initial value less everything recorded before it.
   */
  lemma {:induction false} ShownBalanceIsPrefix(card: Card, i: nat)
    requires i < |card.transactions|
    requires forall j :: 0 <= j < i ==> card.transactions[j].id != card.transactions[i].id
    ensures ShownBalance(card, card.transactions[i].id) == card.initialValue - Spent(card.transactions[..i])
  {
    assert FindTransaction(card.transactions, card.transactions[i].id) == Some(i);
  }

  /**
   * Walking down the list, each row's figure is the previous row's figure
   * less the previous row's amount (ids distinct so far).
   */
  lemma {:induction false} ShownBalanceStep(card: Card, i: nat)
    requires i + 1 < |card.transactions|
    requires forall j, l :: 0 <= j < l <= i + 1 ==> card.transactions[j].id != card.transactions[l].id
    ensures ShownBalance(card, card.transactions[i + 1].id)
         == ShownBalance(card, card.transactions[i].id) - card.transactions[i].amount
  {
    var ts := card.transactions;
    ShownBalanceIsPrefix(card, i);
    ShownBalanceIsPrefix(card, i + 1);
    assert ts[..i + 1] == ts[..i] + [ts[i]];
    SpentAppend(ts[..i], [ts[i]]);
  }

  /**
   * The last row's figure less its own amount is the card's balance: the
   * figure is the balance before the row's transaction, not after it.
   */
  lemma {:induction false} LastShowsBalanceBeforeIt(card: Card)
    requires card.transactions != []
    requires forall j :: 0 <= j < |card.transactions| - 1 ==>
               card.transactions[j].id != card.transactions[|card.transactions| - 1].id
    ensures ShownBalance(card, card.transactions[|card.transactions| - 1].id)
              - card.transactions[|card.transactions| - 1].amount
         == Balance(card)
  {
    var ts := card.transactions;
    var n := |ts| - 1;
    ShownBalanceIsPrefix(card, n);
    assert ts == ts[..n] + [ts[n]];
    SpentAppend(ts[..n], [ts[n]]);
  }

  /**
   * An id that is not in the list shows the balance with the last
   * transaction added back, the same as the last row's figure.
   */
  lemma {:induction false} UnknownIdShowsAllButLast(card: Card, transactionId: string)
    requires card.transactions != []
    requires forall j :: 0 <= j < |card.transactions| ==> card.transactions[j].id != transactionId
    ensures ShownBalance(card, transactionId)
         == Balance(card) + card.transactions[|card.transactions| - 1].amount
  {
    var ts := card.transactions;
    var n := |ts| - 1;
    assert ts == ts[..n] + [ts[n]];
    SpentAppend(ts[..n], [ts[n]]);
  }

  /** Editing a transaction's description or amount leaves that row's figure as it was. */
  lemma {:induction false} OwnEditDoesNotMoveFigure(card: Card, i: nat, p: TransactionPatch)
    requires i < |card.transactions|
    requires forall j :: 0 <= j < i ==> card.transactions[j].id != card.transactions[i].id
    ensures ShownBalance(card.(transactions := card.transactions[i := PatchTransaction(card.transactions[i], p)]),
                         card.transactions[i].id)
         == ShownBalance(card, card.transactions[i].id)
  {
    var ts := card.transactions;
    var edited := card.(transactions := ts[i := PatchTransaction(ts[i], p)]);
    ShownBalanceIsPrefix(card, i);
    ShownBalanceIsPrefix(edited, i);
    assert edited.transactions[..i] == ts[..i];
  }
}
