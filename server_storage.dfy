/**
 * The server's in-memory card store (server/storage.ts, MemStorage). The
 * JavaScript Map is modelled as a map from id to card together with its
 * iteration order: a new key goes last, a key set again keeps its place, and
 * a deleted key leaves the order. The asynchronous wrappers are calls here.
 */
module ServerStorage {
  import opened Wrappers
  import opened Schema
  import opened Ledger

  datatype Store = Store(cards: map<string, Card>, order: seq<string>)

  predicate Distinct(keys: seq<string>)
  {
    forall i, j :: 0 <= i < j < |keys| ==> keys[i] != keys[j]
  }

  /** The order lists each key once, exactly the keys present, and every card is stored under its own id. */
  ghost predicate StoreValid(s: Store)
  {
    && Distinct(s.order)
    && (forall k :: k in s.cards <==> k in s.order)
    && (forall k :: k in s.cards ==> s.cards[k].id == k)
  }

  /** `Map.set(card.id, card)`: every write of the store has this form. */
  function Put(s: Store, card: Card): (r: Store)
    ensures StoreValid(s) ==> StoreValid(r)
    ensures card.id in r.cards && r.cards[card.id] == card
    ensures forall k :: k != card.id ==> (k in r.cards <==> k in s.cards)
    ensures forall k :: k != card.id && k in s.cards ==> r.cards[k] == s.cards[k]
    ensures card.id in s.cards ==> r.order == s.order
    ensures card.id !in s.cards ==> r.order == s.order + [card.id]
  {
    Store(s.cards[card.id := card], if card.id in s.cards then s.order else s.order + [card.id])
  }

  /** Setting the same key twice leaves only the second value. */
  lemma {:induction false} PutTwice(s: Store, a: Card, b: Card)
    requires a.id == b.id
    ensures Put(Put(s, a), b) == Put(s, b)
  {
    assert Put(Put(s, a), b).cards == Put(s, b).cards;
  }

  /**
   * The order with one key taken out, the rest in their order: unchanged
   * when the key is absent (WithoutAt gives the case where it is present).
   */
  function Without(keys: seq<string>, key: string): (r: seq<string>)
    ensures forall k :: k in r <==> k in keys && k != key
    ensures Distinct(keys) ==> Distinct(r)
    ensures |r| <= |keys|
    ensures key !in keys ==> r == keys
  {
    if keys == [] then []
    else
      var rest := Without(keys[1..], key);
      if keys[0] == key then rest
      else
        assert Distinct(keys) ==> keys[0] !in keys[1..];
        assert keys == [keys[0]] + keys[1..];
        [keys[0]] + rest
  }

  /** In an order without repeats, taking a key out splices out its one position. */
  lemma {:induction false} WithoutAt(keys: seq<string>, i: nat)
    requires Distinct(keys) && i < |keys|
    ensures Without(keys, keys[i]) == RemoveAt(keys, i)
  {
    if i == 0 {
      assert keys[0] !in keys[1..];
      assert RemoveAt(keys, 0) == keys[1..];
    } else {
      assert keys[1..][i - 1] == keys[i];
      WithoutAt(keys[1..], i - 1);
      RemoveAtTail(keys, i);
    }
  }

  /** Splicing out a later position keeps the head in front. */
  lemma {:induction false} RemoveAtTail(keys: seq<string>, i: nat)
    requires 0 < i < |keys|
    ensures RemoveAt(keys, i) == [keys[0]] + RemoveAt(keys[1..], i - 1)
  {
    assert keys[1..][..i - 1] == keys[1..i];
    assert keys[1..][i..] == keys[i + 1..];
    assert keys[..i] == [keys[0]] + keys[1..i];
  }

  /** `Map.delete(id)` */
  function Remove(s: Store, id: string): (r: Store)
    ensures StoreValid(s) ==> StoreValid(r)
    ensures id !in r.cards
    ensures forall k :: k != id ==> (k in r.cards <==> k in s.cards)
    ensures forall k :: k != id && k in s.cards ==> r.cards[k] == s.cards[k]
    ensures id !in s.order ==> r.order == s.order
    ensures Distinct(s.order) ==> forall i :: 0 <= i < |s.order| && s.order[i] == id ==> r.order == RemoveAt(s.order, i)
  {
    assert Distinct(s.order) ==> forall i :: 0 <= i < |s.order| && s.order[i] == id ==> Without(s.order, id) == RemoveAt(s.order, i) by {
      if Distinct(s.order) {
        forall i | 0 <= i < |s.order| && s.order[i] == id { WithoutAt(s.order, i); }
      }
    }
    Store(s.cards - {id}, Without(s.order, id))
  }

  /** The store after setting each card in turn under its own id. */
  function PutAll(s: Store, cs: seq<Card>): (r: Store)
    ensures StoreValid(s) ==> StoreValid(r)
  {
    if cs == [] then s else Put(PutAll(s, cs[..|cs| - 1]), cs[|cs| - 1])
  }

  /** Setting one card more extends the fold by one step. */
  lemma {:induction false} PutAllStep(s: Store, cs: seq<Card>, i: nat)
    requires i < |cs|
    ensures PutAll(s, cs[..i + 1]) == Put(PutAll(s, cs[..i]), cs[i])
  {
    assert cs[..i + 1][..i] == cs[..i];
  }

  /** Exactly the keys already present and the ids of the cards set are present afterwards. */
  lemma {:induction false} PutAllKeys(s: Store, cs: seq<Card>)
    ensures forall k :: k in PutAll(s, cs).cards <==> k in s.cards || exists i :: 0 <= i < |cs| && cs[i].id == k
  {
    forall k | k in PutAll(s, cs).cards
      ensures k in s.cards || exists i :: 0 <= i < |cs| && cs[i].id == k
    {
      PutAllKeyOrigin(s, cs, k);
    }
    forall k | k in s.cards || exists i :: 0 <= i < |cs| && cs[i].id == k
      ensures k in PutAll(s, cs).cards
    {
      PutAllKeyPresent(s, cs, k);
    }
  }

  lemma {:induction false} PutAllKeyOrigin(s: Store, cs: seq<Card>, k: string)
    requires k in PutAll(s, cs).cards
    ensures k in s.cards || exists i :: 0 <= i < |cs| && cs[i].id == k
  {
    if cs != [] {
      var n := |cs| - 1;
      if k != cs[n].id {
        PutAllKeyOrigin(s, cs[..n], k);
        if k !in s.cards {
          var i :| 0 <= i < n && cs[..n][i].id == k;
          assert cs[i].id == k;
        }
      }
    }
  }

  lemma {:induction false} PutAllKeyPresent(s: Store, cs: seq<Card>, k: string)
    requires k in s.cards || exists i :: 0 <= i < |cs| && cs[i].id == k
    ensures k in PutAll(s, cs).cards
  {
    if cs != [] {
      var n := |cs| - 1;
      if k != cs[n].id {
        if k !in s.cards {
          var i :| 0 <= i < |cs| && cs[i].id == k;
          assert cs[..n][i].id == k;
        }
        PutAllKeyPresent(s, cs[..n], k);
      }
    }
  }

  /** Of several cards set under one id, the last is the one kept. */
  lemma {:induction false} PutAllLastWins(s: Store, cs: seq<Card>, i: nat)
    requires i < |cs|
    requires forall j :: i < j < |cs| ==> cs[j].id != cs[i].id
    ensures cs[i].id in PutAll(s, cs).cards && PutAll(s, cs).cards[cs[i].id] == cs[i]
  {
    var n := |cs| - 1;
    if i < n {
      PutAllLastWins(s, cs[..n], i);
      assert cs[..n][i] == cs[i];
    }
  }

  /** A key that none of the cards set carries keeps its card. */
  lemma {:induction false} PutAllKeepsOthers(s: Store, cs: seq<Card>, k: string)
    requires k in s.cards
    requires forall i :: 0 <= i < |cs| ==> cs[i].id != k
    ensures k in PutAll(s, cs).cards && PutAll(s, cs).cards[k] == s.cards[k]
  {
    if cs != [] {
      PutAllKeepsOthers(s, cs[..|cs| - 1], k);
    }
  }

  /** The store after `clear()` and then setting each card in turn. */
  function Replaced(cs: seq<Card>): (r: Store)
    ensures StoreValid(r)
  {
    PutAll(Store(map[], []), cs)
  }

  /** replaceAll: exactly the ids of the given cards are present afterwards, and no earlier entry survives. */
  lemma {:induction false} ReplacedKeys(cs: seq<Card>)
    ensures forall k :: k in Replaced(cs).cards <==> exists j :: 0 <= j < |cs| && cs[j].id == k
  {
    PutAllKeys(Store(map[], []), cs);
  }

  /** replaceAll: of several cards with one id, the last is kept. */
  lemma {:induction false} ReplacedContents(cs: seq<Card>, i: nat)
    requires i < |cs|
    requires forall j :: i < j < |cs| ==> cs[j].id != cs[i].id
    ensures cs[i].id in Replaced(cs).cards && Replaced(cs).cards[cs[i].id] == cs[i]
  {
    PutAllLastWins(Store(map[], []), cs, i);
  }

  /** The cards in the store's iteration order, as `Array.from(values())` gives them. */
  function Values(s: Store): (r: seq<Card>)
    requires StoreValid(s)
    ensures |r| == |s.order|
    ensures forall i :: 0 <= i < |r| ==> r[i] == s.cards[s.order[i]] && r[i].id == s.order[i]
    ensures forall k :: k in s.cards ==> s.cards[k] in r
  {
    var r := seq(|s.order|, i requires 0 <= i < |s.order| => s.cards[s.order[i]]);
    assert forall k :: k in s.cards ==> exists i :: 0 <= i < |s.order| && s.order[i] == k && r[i] == s.cards[k];
    r
  }

  /** Writing the listed cards back with replaceAll rebuilds exactly the store they were listed from. */
  lemma {:induction false} ValuesReplacedRoundTrip(s: Store)
    requires StoreValid(s)
    ensures Replaced(Values(s)) == s
  {
    var vs := Values(s);
    PrefixReplaced(s, vs, |vs|);
    assert vs[..|vs|] == vs;
    assert s.order[..|vs|] == s.order;
    assert Replaced(vs).cards == s.cards;
  }

  lemma {:induction false} PrefixReplaced(s: Store, vs: seq<Card>, n: nat)
    requires StoreValid(s) && |vs| == |s.order| && n <= |vs|
    requires forall i :: 0 <= i < |vs| ==> vs[i] == s.cards[s.order[i]] && vs[i].id == s.order[i]
    ensures Replaced(vs[..n]).order == s.order[..n]
    ensures forall k :: k in Replaced(vs[..n]).cards ==> k in s.cards && Replaced(vs[..n]).cards[k] == s.cards[k]
  {
    if n > 0 {
      PrefixReplaced(s, vs, n - 1);
      PutAllStep(Store(map[], []), vs, n - 1);
      assert Replaced(vs[..n]) == Put(Replaced(vs[..n - 1]), vs[n - 1]);
      PutNextKey(s, Replaced(vs[..n - 1]), n - 1);
    }
  }

  /** One step of the above: setting the card of the next key in the order. */
  lemma {:induction false} PutNextKey(s: Store, prev: Store, m: nat)
    requires StoreValid(s) && StoreValid(prev) && m < |s.order|
    requires prev.order == s.order[..m]
    requires forall k :: k in prev.cards ==> k in s.cards && prev.cards[k] == s.cards[k]
    ensures Put(prev, s.cards[s.order[m]]).order == s.order[..m + 1]
    ensures forall k :: k in Put(prev, s.cards[s.order[m]]).cards ==>
      k in s.cards && Put(prev, s.cards[s.order[m]]).cards[k] == s.cards[k]
  {
    NotInPrefix(s.order, m);
    assert s.order[..m + 1] == s.order[..m] + [s.order[m]];
  }

  lemma {:induction false} NotInPrefix(keys: seq<string>, m: nat)
    requires Distinct(keys) && m < |keys|
    ensures keys[m] !in keys[..m]
  {
  }

  class MemStorage {
    var cards: map<string, Card>
    var order: seq<string>

    function State(): Store
      reads this
    {
      Store(cards, order)
    }

    ghost predicate Valid()
      reads this
    {
      StoreValid(State())
    }

    constructor()
      ensures Valid() && State() == Store(map[], [])
    {
      cards := map[];
      order := [];
    }

    /** `this.cards.set(card.id, card)` */
    method Set(card: Card)
      modifies this
      ensures State() == Put(old(State()), card)
    {
      if card.id !in cards {
        order := order + [card.id];
      }
      cards := cards[card.id := card];
    }

    /** getCard: the card stored under that id, which carries that id. */
    function GetCard(id: string): (r: Option<Card>)
      reads this
      requires Valid()
      ensures r.Some? <==> id in order
      ensures r.Some? ==> r.value.id == id
      ensures r.Some? ==> id in cards && r.value == cards[id]
    {
      if id in cards then Some(cards[id]) else None
    }

    /** getAllCards: every stored card once, in the map's iteration order. */
    function GetAllCards(): (r: seq<Card>)
      reads this
      requires Valid()
      ensures |r| == |order|
      ensures forall k :: k in cards ==> cards[k] in r
    {
      Values(State())
    }

    /** createCard: a new active card without transactions, stored under the new id. */
    method CreateCard(input: InsertCard, id: string, createdAt: int) returns (card: Card)
      requires Valid()
      modifies this
      ensures Valid()
      ensures card == Card(id, input.name, input.number, None, input.initialValue, createdAt, false, [])
      ensures State() == Put(old(State()), card)
    {
      card := Card(id, input.name, input.number, None, input.initialValue, createdAt, false, []);
      Set(card);
    }

    /** updateCard: `{...card, ...updates}` stored back; null and no change for an unknown id. */
    method UpdateCard(id: string, updates: CardPatch) returns (r: Option<Card>)
      requires Valid()
      modifies this
      ensures Valid()
      ensures r.None? <==> id !in old(cards)
      ensures r.None? ==> State() == old(State())
      ensures r.Some? ==> r.value == PatchCard(old(cards)[id], updates) && State() == Put(old(State()), r.value)
    {
      if id !in cards {
        return None;
      }
      var updated := PatchCard(cards[id], updates);
      Set(updated);
      r := Some(updated);
    }

    /** deleteCard: true exactly when the id was present; afterwards it is absent. */
    method DeleteCard(id: string) returns (deleted: bool)
      requires Valid()
      modifies this
      ensures Valid()
      ensures deleted <==> id in old(cards)
      ensures State() == Remove(old(State()), id)
    {
      deleted := id in cards;
      cards := cards - {id};
      order := Without(order, id);
    }

    /** addTransaction: the new transaction goes in front of the card's list (`unshift`). */
    method AddTransaction(input: InsertTransaction, id: string, date: int) returns (r: Option<Transaction>)
      requires Valid()
      modifies this
      ensures Valid()
      ensures r.None? <==> input.cardId !in old(cards)
      ensures r.None? ==> State() == old(State())
      ensures r.Some? ==>
        var card := old(cards)[input.cardId];
        && r.value == Transaction(id, input.cardId, input.description, input.location, input.amount, date)
        && State() == Put(old(State()), card.(transactions := [r.value] + card.transactions))
    {
      if input.cardId !in cards {
        return None;
      }
      var card := cards[input.cardId];
      var t := Transaction(id, input.cardId, input.description, input.location, input.amount, date);
      Set(card.(transactions := [t] + card.transactions));
      r := Some(t);
    }

    /** deleteTransaction: removes the first transaction with that id; false and no change otherwise. */
    method DeleteTransaction(cardId: string, transactionId: string) returns (deleted: bool)
      requires Valid()
      modifies this
      ensures Valid()
      ensures deleted <==>
        cardId in old(cards) && FindTransaction(old(cards)[cardId].transactions, transactionId).Some?
      ensures !deleted ==> State() == old(State())
      ensures deleted ==>
        var card := old(cards)[cardId];
        var j := FindTransaction(card.transactions, transactionId).value;
        State() == Put(old(State()), card.(transactions := RemoveAt(card.transactions, j)))
    {
      if cardId !in cards {
        return false;
      }
      var card := cards[cardId];
      var at := FindTransaction(card.transactions, transactionId);
      if at.None? {
        return false;
      }
      Set(card.(transactions := RemoveAt(card.transactions, at.value)));
      deleted := true;
    }

    /** replaceAll: clears the map, then sets each card under its id in turn. */
    method ReplaceAll(newCards: seq<Card>)
      modifies this
      ensures Valid()
      ensures State() == Replaced(newCards)
    {
      cards := map[];
      order := [];
      var i := 0;
      while i < |newCards|
        invariant 0 <= i <= |newCards|
        invariant State() == Replaced(newCards[..i])
      {
        assert newCards[..i + 1][..i] == newCards[..i];
        Set(newCards[i]);
        i := i + 1;
      }
      assert newCards[..i] == newCards;
    }
  }
}
