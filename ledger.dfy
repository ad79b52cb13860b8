/**
 * Sums and lookups over cards and transactions shared by both stores and the
 * components: the spent total, the balance, first-match search by id, removal
 * at an index and the two partial-update rules.
 */
module Ledger {
  import opened Wrappers
  import opened Schema

  /** Total of the amounts, folded from the left as `reduce` does. */
  function Spent(ts: seq<Transaction>): int
  {
    if ts == [] then 0 else Spent(ts[..|ts| - 1]) + ts[|ts| - 1].amount
  }

  /** getBalance: the initial value less everything spent. */
  function Balance(card: Card): int
  {
    card.initialValue - Spent(card.transactions)
  }

  lemma {:induction false} SpentAppend(a: seq<Transaction>, b: seq<Transaction>)
    ensures Spent(a + b) == Spent(a) + Spent(b)
    decreases |b|
  {
    if b == [] {
      assert a + b == a;
    } else {
      var n := |b| - 1;
      assert (a + b)[..|a + b| - 1] == a + b[..n];
      SpentAppend(a, b[..n]);
    }
  }

  lemma {:induction false} SpentPrepend(t: Transaction, ts: seq<Transaction>)
    ensures Spent([t] + ts) == t.amount + Spent(ts)
  {
    SpentAppend([t], ts);
  }

  /** Removing the element at k takes exactly its amount off the total. */
  lemma {:induction false} SpentRemoveAt(ts: seq<Transaction>, k: nat)
    requires k < |ts|
    ensures Spent(RemoveAt(ts, k)) == Spent(ts) - ts[k].amount
  {
    var front, back := ts[..k], ts[k + 1..];
    assert RemoveAt(ts, k) == front + back;
    assert ts == front + ([ts[k]] + back);
    SpentAppend(front, back);
    SpentAppend(front, [ts[k]] + back);
    SpentPrepend(ts[k], back);
  }

  /** Replacing the element at k changes the total by the difference of the two amounts. */
  lemma {:induction false} SpentReplaceAt(ts: seq<Transaction>, k: nat, t: Transaction)
    requires k < |ts|
    ensures Spent(ts[k := t]) == Spent(ts) - ts[k].amount + t.amount
  {
    var n := |ts| - 1;
    if k == n {
      assert ts[k := t][..n] == ts[..n];
    } else {
      SpentReplaceAt(ts[..n], k, t);
      assert ts[k := t][..n] == ts[..n][k := t];
    }
  }

  lemma {:induction false} SpentNonNegative(ts: seq<Transaction>)
    requires forall i :: 0 <= i < |ts| ==> ts[i].amount >= 0
    ensures Spent(ts) >= 0
  {
    if ts != [] {
      SpentNonNegative(ts[..|ts| - 1]);
    }
  }

  function Reverse<T>(s: seq<T>): (r: seq<T>)
    ensures |r| == |s|
    ensures forall i :: 0 <= i < |s| ==> r[i] == s[|s| - 1 - i]
  {
    if s == [] then [] else [s[|s| - 1]] + Reverse(s[..|s| - 1])
  }

  /** The order of the transactions does not change what was spent. */
  lemma {:induction false} SpentReverse(ts: seq<Transaction>)
    ensures Spent(Reverse(ts)) == Spent(ts)
  {
    if ts != [] {
      var n := |ts| - 1;
      SpentReverse(ts[..n]);
      SpentPrepend(ts[n], Reverse(ts[..n]));
    }
  }

  /** `splice(k, 1)`: the sequence without its element at k. */
  function RemoveAt<T>(s: seq<T>, k: nat): (r: seq<T>)
    requires k < |s|
    ensures |r| == |s| - 1
    ensures forall i :: 0 <= i < k ==> r[i] == s[i]
    ensures forall i :: k <= i < |r| ==> r[i] == s[i + 1]
  {
    s[..k] + s[k + 1..]
  }

  /** `findIndex(card => card.id === id)`: the first card with that id, if any. */
  function FindCard(cards: seq<Card>, id: string): (r: Option<nat>)
    ensures r.Some? ==> r.value < |cards| && cards[r.value].id == id
    ensures r.Some? ==> forall j :: 0 <= j < r.value ==> cards[j].id != id
    ensures r.None? <==> forall j :: 0 <= j < |cards| ==> cards[j].id != id
  {
    if cards == [] then None
    else if cards[0].id == id then Some(0)
    else match FindCard(cards[1..], id)
      case None => None
      case Some(k) => Some(k + 1)
  }

  /** `findIndex(t => t.id === id)`: the first transaction with that id, if any. */
  function FindTransaction(ts: seq<Transaction>, id: string): (r: Option<nat>)
    ensures r.Some? ==> r.value < |ts| && ts[r.value].id == id
    ensures r.Some? ==> forall j :: 0 <= j < r.value ==> ts[j].id != id
    ensures r.None? <==> forall j :: 0 <= j < |ts| ==> ts[j].id != id
  {
    if ts == [] then None
    else if ts[0].id == id then Some(0)
    else match FindTransaction(ts[1..], id)
      case None => None
      case Some(k) => Some(k + 1)
  }

  /** Overwrites exactly the supplied card fields; id, dates, flag and transactions stay. */
  function PatchCard(card: Card, p: CardPatch): (r: Card)
    ensures r.id == card.id && r.createdAt == card.createdAt
    ensures r.isArchived == card.isArchived && r.transactions == card.transactions
    ensures r.name == (if p.name.Some? then p.name.value else card.name)
    ensures r.number == (if p.number.Some? then p.number else card.number)
    ensures r.initialValue == (if p.initialValue.Some? then p.initialValue.value else card.initialValue)
    ensures r.pin == (if p.pin.Some? then p.pin else card.pin)
  {
    var c1 := if p.name.Some? then card.(name := p.name.value) else card;
    var c2 := if p.number.Some? then c1.(number := p.number) else c1;
    var c3 := if p.initialValue.Some? then c2.(initialValue := p.initialValue.value) else c2;
    if p.pin.Some? then c3.(pin := p.pin) else c3
  }

  /** Overwrites exactly the supplied transaction fields; id, card id, location and date stay. */
  function PatchTransaction(t: Transaction, p: TransactionPatch): (r: Transaction)
    ensures r.id == t.id && r.cardId == t.cardId && r.location == t.location && r.date == t.date
    ensures r.description == (if p.description.Some? then p.description.value else t.description)
    ensures r.amount == (if p.amount.Some? then p.amount.value else t.amount)
  {
    var t1 := if p.description.Some? then t.(description := p.description.value) else t;
    if p.amount.Some? then t1.(amount := p.amount.value) else t1
  }

  /** Appending a transaction lowers the balance by exactly its amount. */
  lemma {:induction false} BalanceAfterAppend(card: Card, t: Transaction)
    ensures Balance(card.(transactions := card.transactions + [t])) == Balance(card) - t.amount
  {
    SpentAppend(card.transactions, [t]);
  }

  /** Prepending a transaction lowers the balance by exactly its amount. */
  lemma {:induction false} BalanceAfterPrepend(card: Card, t: Transaction)
    ensures Balance(card.(transactions := [t] + card.transactions)) == Balance(card) - t.amount
  {
    SpentPrepend(t, card.transactions);
  }

  /** Removing the transaction at k raises the balance by exactly its amount. */
  lemma {:induction false} BalanceAfterRemove(card: Card, k: nat)
    requires k < |card.transactions|
    ensures Balance(card.(transactions := RemoveAt(card.transactions, k)))
         == Balance(card) + card.transactions[k].amount
  {
    SpentRemoveAt(card.transactions, k);
  }

  /** Patching the transaction at k moves the balance by the old amount less the new one. */
  lemma {:induction false} BalanceAfterPatch(card: Card, k: nat, p: TransactionPatch)
    requires k < |card.transactions|
    ensures Balance(card.(transactions := card.transactions[k := PatchTransaction(card.transactions[k], p)]))
         == Balance(card) + card.transactions[k].amount - PatchTransaction(card.transactions[k], p).amount
  {
    SpentReplaceAt(card.transactions, k, PatchTransaction(card.transactions[k], p));
  }
}
