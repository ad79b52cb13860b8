/**
 * The client's card store (client/src/lib/storage.ts, LocalStorageService):
 * a list of cards changed in place, and the balance and usage derived from a
 * card. Every mutator that succeeds ends by saving; saving is the `Save` snapshot of the
 * Load module and has no effect on the store itself.
 */
module ClientStorage {
  import opened Wrappers
  import opened Schema
  import opened Ledger
  import opened Load

  /**
   * getUsagePercentage, in exact arithmetic: the share of the initial value
   * spent, in percent, capped at 100, and 0 for a card worth nothing.
   */
  function UsagePercentage(card: Card): (r: real)
    ensures card.initialValue == 0 ==> r == 0.0
    ensures r <= 100.0
    ensures card.initialValue > 0 && Spent(card.transactions) >= 0 ==> 0.0 <= r
    ensures card.initialValue > 0 && Spent(card.transactions) >= card.initialValue ==> r == 100.0
    ensures card.initialValue > 0 && Spent(card.transactions) < card.initialValue ==>
      r * card.initialValue as real == Spent(card.transactions) as real * 100.0
  {
    if card.initialValue == 0 then 0.0
    else
      var share := Spent(card.transactions) as real / card.initialValue as real * 100.0;
      if share < 100.0 then share else 100.0
  }

  /** `filter(card => card.isArchived == archived)`: the matching cards, and only those. */
  function FilterArchived(cards: seq<Card>, archived: bool): (r: seq<Card>)
    ensures forall c :: c in r <==> c in cards && c.isArchived == archived
    ensures |r| <= |cards|
  {
    if cards == [] then []
    else (if cards[0].isArchived == archived then [cards[0]] else []) + FilterArchived(cards[1..], archived)
  }

  /**
   * The filter keeps the stored order: filtering a list split in two filters
   * each part and keeps the parts in order.
   */
  lemma {:induction false} FilterArchivedAppend(a: seq<Card>, b: seq<Card>, archived: bool)
    ensures FilterArchived(a + b, archived) == FilterArchived(a, archived) + FilterArchived(b, archived)
    decreases |a|
  {
    if a != [] {
      assert (a + b)[1..] == a[1..] + b;
      FilterArchivedAppend(a[1..], b, archived);
    } else {
      assert a + b == b;
    }
  }

  /** The active and the archived cards together are exactly all cards, each once. */
  lemma {:induction false} ActiveArchivedPartition(cards: seq<Card>)
    ensures multiset(FilterArchived(cards, false)) + multiset(FilterArchived(cards, true)) == multiset(cards)
  {
    if cards != [] {
      var rest := cards[1..];
      ActiveArchivedPartition(rest);
      assert cards == [cards[0]] + rest;
      var a, b := FilterArchived(rest, false), FilterArchived(rest, true);
      if cards[0].isArchived {
        assert FilterArchived(cards, false) == a;
        assert FilterArchived(cards, true) == [cards[0]] + b;
      } else {
        assert FilterArchived(cards, false) == [cards[0]] + a;
        assert FilterArchived(cards, true) == b;
      }
    }
  }

  /** When ids are unique, a deleted card (with all its transactions) can no longer be looked up. */
  lemma {:induction false} DeletedCardUnreachable(cards: seq<Card>, k: nat)
    requires k < |cards|
    requires forall i, j :: 0 <= i < j < |cards| ==> cards[i].id != cards[j].id
    ensures FindCard(RemoveAt(cards, k), cards[k].id).None?
  {
    var r := RemoveAt(cards, k);
    forall j | 0 <= j < |r|
      ensures r[j].id != cards[k].id
    {
      if j < k { assert r[j] == cards[j]; } else { assert r[j] == cards[j + 1]; }
    }
  }

  /** Ids come from the clock and may repeat: a card added under a used id is shadowed by the older one. */
  lemma {:induction false} AddedCardShadowed(cards: seq<Card>, card: Card)
    requires FindCard(cards, card.id).Some?
    ensures FindCard(cards + [card], card.id) == FindCard(cards, card.id)
  {
    if cards[0].id != card.id {
      assert (cards + [card])[1..] == cards[1..] + [card];
      AddedCardShadowed(cards[1..], card);
    }
  }

  class LocalStorageService {
    var cards: seq<Card>

    /** The store as loaded from what was saved. */
    constructor(stored: Stored)
      ensures cards == LoadCards(stored)
    {
      cards := LoadCards(stored);
    }

    /** getAllCards: a copy of the list; as a value it is the list itself. */
    function GetAllCards(): seq<Card>
      reads this
    {
      cards
    }

    /** getActiveCards: the cards not archived, in stored order (FilterArchivedAppend). */
    function GetActiveCards(): (r: seq<Card>)
      reads this
      ensures forall c :: c in r <==> c in cards && !c.isArchived
    {
      FilterArchived(cards, false)
    }

    /** getArchivedCards: the archived cards, in stored order (FilterArchivedAppend). */
    function GetArchivedCards(): (r: seq<Card>)
      reads this
      ensures forall c :: c in r <==> c in cards && c.isArchived
    {
      FilterArchived(cards, true)
    }

    /** getCard: the first card with that id. */
    function GetCard(id: string): (r: Option<Card>)
      reads this
      ensures r.Some? <==> exists i :: 0 <= i < |cards| && cards[i].id == id
      ensures r.Some? ==> r.value.id == id && r.value in cards
      ensures r.Some? ==> exists i :: 0 <= i < |cards| && cards[i] == r.value && forall j :: 0 <= j < i ==> cards[j].id != id
    {
      match FindCard(cards, id)
      case None => None
      case Some(k) => Some(cards[k])
    }

    /** addCard: a new active card without transactions, appended after all others. */
    method AddCard(input: InsertCard, id: string, createdAt: int) returns (card: Card)
      modifies this
      ensures card == Card(id, input.name, input.number, None, input.initialValue, createdAt, false, [])
      ensures cards == old(cards) + [card]
    {
      card := Card(id, input.name, input.number, None, input.initialValue, createdAt, false, []);
      cards := cards + [card];
    }

    /** deleteCard: removes the first card with that id, and its transactions with it. */
    method DeleteCard(id: string) returns (deleted: bool)
      modifies this
      ensures deleted <==> FindCard(old(cards), id).Some?
      ensures deleted ==> cards == RemoveAt(old(cards), FindCard(old(cards), id).value)
      ensures !deleted ==> cards == old(cards)
    {
      var found := FindCard(cards, id);
      if found.None? {
        return false;
      }
      cards := RemoveAt(cards, found.value);
      deleted := true;
    }

    /** addTransaction: appended to the end of the first matching card's list, with no balance check. */
    method AddTransaction(input: InsertTransaction, id: string, date: int) returns (r: Option<Transaction>)
      modifies this
      ensures r.None? <==> FindCard(old(cards), input.cardId).None?
      ensures r.None? ==> cards == old(cards)
      ensures r.Some? ==> r.value == Transaction(id, input.cardId, input.description, input.location, input.amount, date)
      ensures r.Some? ==>
        var k := FindCard(old(cards), input.cardId).value;
        && cards == old(cards)[k := old(cards)[k].(transactions := old(cards)[k].transactions + [r.value])]
        && Balance(cards[k]) == Balance(old(cards)[k]) - input.amount
    {
      var found := FindCard(cards, input.cardId);
      if found.None? {
        return None;
      }
      var k := found.value;
      var t := Transaction(id, input.cardId, input.description, input.location, input.amount, date);
      BalanceAfterAppend(cards[k], t);
      cards := cards[k := cards[k].(transactions := cards[k].transactions + [t])];
      r := Some(t);
    }

    /** deleteTransaction: removes the first transaction with that id from the first matching card. */
    method DeleteTransaction(cardId: string, transactionId: string) returns (deleted: bool)
      modifies this
      ensures deleted <==>
        FindCard(old(cards), cardId).Some? &&
        FindTransaction(old(cards)[FindCard(old(cards), cardId).value].transactions, transactionId).Some?
      ensures !deleted ==> cards == old(cards)
      ensures deleted ==>
        var k := FindCard(old(cards), cardId).value;
        var ts := old(cards)[k].transactions;
        var j := FindTransaction(ts, transactionId).value;
        && cards == old(cards)[k := old(cards)[k].(transactions := RemoveAt(ts, j))]
        && Balance(cards[k]) == Balance(old(cards)[k]) + ts[j].amount
    {
      var found := FindCard(cards, cardId);
      if found.None? {
        return false;
      }
      var k := found.value;
      var at := FindTransaction(cards[k].transactions, transactionId);
      if at.None? {
        return false;
      }
      BalanceAfterRemove(cards[k], at.value);
      cards := cards[k := cards[k].(transactions := RemoveAt(cards[k].transactions, at.value))];
      deleted := true;
    }

    /** archiveCard: sets the flag of the first matching card; archiving twice is archiving once. */
    method ArchiveCard(id: string) returns (found: bool)
      modifies this
      ensures found <==> FindCard(old(cards), id).Some?
      ensures !found ==> cards == old(cards)
      ensures found ==>
        var k := FindCard(old(cards), id).value;
        && cards == old(cards)[k := old(cards)[k].(isArchived := true)]
        && (old(cards)[k].isArchived ==> cards == old(cards))
    {
      var at := FindCard(cards, id);
      if at.None? {
        return false;
      }
      cards := cards[at.value := cards[at.value].(isArchived := true)];
      found := true;
    }

    /** unarchiveCard: clears the flag of the first matching card; idempotent likewise. */
    method UnarchiveCard(id: string) returns (found: bool)
      modifies this
      ensures found <==> FindCard(old(cards), id).Some?
      ensures !found ==> cards == old(cards)
      ensures found ==>
        var k := FindCard(old(cards), id).value;
        && cards == old(cards)[k := old(cards)[k].(isArchived := false)]
        && (!old(cards)[k].isArchived ==> cards == old(cards))
    {
      var at := FindCard(cards, id);
      if at.None? {
        return false;
      }
      cards := cards[at.value := cards[at.value].(isArchived := false)];
      found := true;
    }

    /** updateCard: overwrites the supplied fields of the first matching card, without validation. */
    method UpdateCard(id: string, updates: CardPatch) returns (found: bool)
      modifies this
      ensures found <==> FindCard(old(cards), id).Some?
      ensures !found ==> cards == old(cards)
      ensures found ==>
        var k := FindCard(old(cards), id).value;
        cards == old(cards)[k := PatchCard(old(cards)[k], updates)]
    {
      var at := FindCard(cards, id);
      if at.None? {
        return false;
      }
      cards := cards[at.value := PatchCard(cards[at.value], updates)];
      found := true;
    }

    /** updateTransaction: overwrites the supplied fields of the first matching transaction, with no balance check. */
    method UpdateTransaction(cardId: string, transactionId: string, updates: TransactionPatch) returns (found: bool)
      modifies this
      ensures found <==>
        FindCard(old(cards), cardId).Some? &&
        FindTransaction(old(cards)[FindCard(old(cards), cardId).value].transactions, transactionId).Some?
      ensures !found ==> cards == old(cards)
      ensures found ==>
        var k := FindCard(old(cards), cardId).value;
        var ts := old(cards)[k].transactions;
        var j := FindTransaction(ts, transactionId).value;
        && cards == old(cards)[k := old(cards)[k].(transactions := ts[j := PatchTransaction(ts[j], updates)])]
        && Balance(cards[k]) == Balance(old(cards)[k]) + ts[j].amount - PatchTransaction(ts[j], updates).amount
    {
      var owner := FindCard(cards, cardId);
      if owner.None? {
        return false;
      }
      var k := owner.value;
      var at := FindTransaction(cards[k].transactions, transactionId);
      if at.None? {
        return false;
      }
      var ts := cards[k].transactions;
      BalanceAfterPatch(cards[k], at.value, updates);
      cards := cards[k := cards[k].(transactions := ts[at.value := PatchTransaction(ts[at.value], updates)])];
      found := true;
    }
  }
}
