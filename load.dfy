/**
 * Load-time normalisation of the client store (client/src/lib/storage.ts,
 * loadCards). The browser storage read and JSON parsing are not modelled: the
 * stored text arrives already parsed, absent, or unparseable.
 */
module Load {
  import opened Wrappers
  import opened Schema
  import opened Ledger

  /** A card as it was saved, possibly by an older version without `isArchived` or `transactions`. */
  datatype RawCard = RawCard(
    id: string,
    name: string,
    number: Option<string>,
    pin: Option<string>,
    initialValue: int,
    createdAt: int,
    isArchived: Option<bool>,
    transactions: Option<seq<Transaction>>)

  /**
   * What the storage key held: nothing; text whose load throws (it does not
   * parse, or the parsed JSON is not an array of cards, so that `map` or
   * `sort` fails); or a parsed card array.
   */
  datatype Stored = Absent | Unparseable | Parsed(cards: seq<RawCard>)

  predicate SortedByDate(ts: seq<Transaction>)
  {
    forall i, j :: 0 <= i < j < |ts| ==> ts[i].date <= ts[j].date
  }

  /** Places t after every element whose date is not later than its own. */
  function InsertByDate(t: Transaction, s: seq<Transaction>): seq<Transaction>
  {
    if s == [] then [t]
    else if s[|s| - 1].date <= t.date then s + [t]
    else InsertByDate(t, s[..|s| - 1]) + [s[|s| - 1]]
  }

  lemma {:induction false} InsertByDatePermutes(t: Transaction, s: seq<Transaction>)
    ensures multiset(InsertByDate(t, s)) == multiset(s) + multiset{t}
  {
    if s != [] && s[|s| - 1].date > t.date {
      var n := |s| - 1;
      InsertByDatePermutes(t, s[..n]);
      assert s == s[..n] + [s[n]];
    }
  }

  lemma {:induction false} InsertByDateSpent(t: Transaction, s: seq<Transaction>)
    ensures Spent(InsertByDate(t, s)) == Spent(s) + t.amount
  {
    if s == [] {
    } else if s[|s| - 1].date <= t.date {
      SpentAppend(s, [t]);
    } else {
      var n := |s| - 1;
      InsertByDateSpent(t, s[..n]);
      SpentAppend(InsertByDate(t, s[..n]), [s[n]]);
      assert s == s[..n] + [s[n]];
      SpentAppend(s[..n], [s[n]]);
    }
  }

  lemma {:induction false} SortedInit(ts: seq<Transaction>)
    requires SortedByDate(ts) && ts != []
    ensures SortedByDate(ts[..|ts| - 1])
  {
    var init := ts[..|ts| - 1];
    forall i, j | 0 <= i < j < |init|
      ensures init[i].date <= init[j].date
    {
      assert init[i] == ts[i] && init[j] == ts[j];
    }
  }

  /** A sorted sequence stays sorted when an element no earlier than all of its own is added at the end. */
  lemma {:induction false} SortedSnoc(s: seq<Transaction>, t: Transaction)
    requires SortedByDate(s)
    requires forall x :: x in s ==> x.date <= t.date
    ensures SortedByDate(s + [t])
  {
    var r := s + [t];
    forall i, j | 0 <= i < j < |r|
      ensures r[i].date <= r[j].date
    {
      if j == |s| {
        assert r[i] in s;
      }
    }
  }

  lemma {:induction false} InsertByDateSorted(t: Transaction, s: seq<Transaction>)
    requires SortedByDate(s)
    ensures SortedByDate(InsertByDate(t, s))
  {
    if s == [] {
    } else if s[|s| - 1].date <= t.date {
      forall x | x in s
        ensures x.date <= t.date
      {
        var i :| 0 <= i < |s| && s[i] == x;
      }
      SortedSnoc(s, t);
    } else {
      var n := |s| - 1;
      var init := s[..n];
      SortedInit(s);
      InsertByDateSorted(t, init);
      InsertByDatePermutes(t, init);
      var rest := InsertByDate(t, init);
      forall x | x in rest
        ensures x.date <= s[n].date
      {
        assert x in multiset(rest);
        if x != t {
          var i :| 0 <= i < n && init[i] == x;
        }
      }
      SortedSnoc(rest, s[n]);
    }
  }

  /** The comparator sort `(a, b) => a.date - b.date`, stable as the language requires. */
  function SortByDate(ts: seq<Transaction>): seq<Transaction>
  {
    if ts == [] then []
    else InsertByDate(ts[|ts| - 1], SortByDate(ts[..|ts| - 1]))
  }

  lemma {:induction false} SortByDateSorted(ts: seq<Transaction>)
    ensures SortedByDate(SortByDate(ts))
  {
    if ts != [] {
      var n := |ts| - 1;
      SortByDateSorted(ts[..n]);
      InsertByDateSorted(ts[n], SortByDate(ts[..n]));
    }
  }

  lemma {:induction false} SortByDatePermutes(ts: seq<Transaction>)
    ensures multiset(SortByDate(ts)) == multiset(ts)
  {
    if ts != [] {
      var n := |ts| - 1;
      var rest := SortByDate(ts[..n]);
      calc {
        multiset(SortByDate(ts));
        multiset(InsertByDate(ts[n], rest));
        { InsertByDatePermutes(ts[n], rest); }
        multiset(rest) + multiset{ts[n]};
        { SortByDatePermutes(ts[..n]); }
        multiset(ts[..n]) + multiset{ts[n]};
        multiset(ts[..n] + [ts[n]]);
        { assert ts[..n] + [ts[n]] == ts; }
        multiset(ts);
      }
    }
  }

  lemma {:induction false} SortByDateSpent(ts: seq<Transaction>)
    ensures Spent(SortByDate(ts)) == Spent(ts)
  {
    if ts != [] {
      var n := |ts| - 1;
      var rest := SortByDate(ts[..n]);
      SortByDateSpent(ts[..n]);
      InsertByDateSpent(ts[n], rest);
      assert ts == ts[..n] + [ts[n]];
      SpentAppend(ts[..n], [ts[n]]);
    }
  }

  /** Sorting yields date order, the same transactions, and the same total spent. */
  lemma {:induction false} SortByDateCorrect(ts: seq<Transaction>)
    ensures SortedByDate(SortByDate(ts))
    ensures multiset(SortByDate(ts)) == multiset(ts)
    ensures Spent(SortByDate(ts)) == Spent(ts)
  {
    SortByDateSorted(ts);
    SortByDatePermutes(ts);
    SortByDateSpent(ts);
  }

  /** An element no earlier than the last goes at the end. */
  lemma {:induction false} InsertLatest(t: Transaction, s: seq<Transaction>)
    requires s == [] || s[|s| - 1].date <= t.date
    ensures InsertByDate(t, s) == s + [t]
  {
  }

  /** A sequence already in date order is left exactly as it is, so sorting twice is sorting once. */
  lemma {:induction false} SortByDateKeepsSorted(ts: seq<Transaction>)
    requires SortedByDate(ts)
    ensures SortByDate(ts) == ts
  {
    if ts != [] {
      var n := |ts| - 1;
      var init := ts[..n];
      SortedInit(ts);
      SortByDateKeepsSorted(init);
      assert n > 0 ==> init[n - 1].date <= ts[n].date;
      InsertLatest(ts[n], init);
      assert init + [ts[n]] == ts;
    }
  }

  lemma {:induction false} SortByDateIdempotent(ts: seq<Transaction>)
    ensures SortByDate(SortByDate(ts)) == SortByDate(ts)
  {
    SortByDateCorrect(ts);
    SortByDateKeepsSorted(SortByDate(ts));
  }

  /** One card as loaded: a missing flag reads as false, missing transactions as none, and they are put in date order. */
  function Normalize(raw: RawCard): (c: Card)
    ensures c.id == raw.id && c.name == raw.name && c.number == raw.number && c.pin == raw.pin
    ensures c.initialValue == raw.initialValue && c.createdAt == raw.createdAt
    ensures c.isArchived <==> raw.isArchived == Some(true)
    ensures SortedByDate(c.transactions)
    ensures raw.transactions.None? ==> c.transactions == []
    ensures raw.transactions.Some? ==> multiset(c.transactions) == multiset(raw.transactions.value)
    ensures Balance(c) == raw.initialValue - (if raw.transactions.Some? then Spent(raw.transactions.value) else 0)
  {
    var ts := if raw.transactions.Some? then raw.transactions.value else [];
    SortByDateCorrect(ts);
    Card(raw.id, raw.name, raw.number, raw.pin, raw.initialValue, raw.createdAt,
         raw.isArchived == Some(true), SortByDate(ts))
  }

  /** loadCards: the normalised cards, or no cards when nothing or nothing readable was stored. */
  function LoadCards(stored: Stored): (cards: seq<Card>)
    ensures !stored.Parsed? ==> cards == []
    ensures stored.Parsed? ==> |cards| == |stored.cards|
    ensures stored.Parsed? ==> forall i :: 0 <= i < |cards| ==> cards[i] == Normalize(stored.cards[i])
  {
    if stored.Parsed? then seq(|stored.cards|, i requires 0 <= i < |stored.cards| => Normalize(stored.cards[i]))
    else []
  }

  /** saveCards: every field is written out, so the flag and the transactions are present. */
  function Save(cards: seq<Card>): (raw: seq<RawCard>)
    ensures |raw| == |cards|
  {
    seq(|cards|, i requires 0 <= i < |cards| =>
      var c := cards[i];
      RawCard(c.id, c.name, c.number, c.pin, c.initialValue, c.createdAt, Some(c.isArchived), Some(c.transactions)))
  }

  /** Saving and loading again gives back the same store whenever each card's transactions are in date order. */
  lemma {:induction false} SaveLoadRoundTrip(cards: seq<Card>)
    requires forall i :: 0 <= i < |cards| ==> SortedByDate(cards[i].transactions)
    ensures LoadCards(Parsed(Save(cards))) == cards
  {
    var loaded := LoadCards(Parsed(Save(cards)));
    forall i | 0 <= i < |cards|
      ensures loaded[i] == cards[i]
    {
      SortByDateKeepsSorted(cards[i].transactions);
    }
  }

  /** Loading is idempotent: a loaded store saved and loaded again is unchanged. */
  lemma {:induction false} LoadIdempotent(stored: Stored)
    ensures LoadCards(Parsed(Save(LoadCards(stored)))) == LoadCards(stored)
  {
    SaveLoadRoundTrip(LoadCards(stored));
  }
}
