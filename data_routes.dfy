/**
 * The bulk download and upload handlers (server/data-routes.ts). HTTP,
 * multipart parsing and status plumbing are not modelled: a request carries
 * an optional file and a mode, and the handler answers with a status and a
 * message. Fresh ids and the clock are parameters: `cardIds(i)` is the id
 * drawn for the i-th uploaded card, `txIds(i, j)` the one drawn for its j-th
 * transaction, and `now` the time of the request.
 */
module DataRoutes {
  import opened Wrappers
  import opened Schema
  import opened Ledger
  import opened ServerStorage

  /**
   * The uploaded file: text that is not JSON, or JSON whose shape (an object
   * with a `cards` array whose entries have every field with its JSON type)
   * holds or not, together with the cards it denotes.
   */
  datatype UploadBody = NotJson | Json(wellTyped: bool, cards: seq<Card>)

  datatype UploadRequest = UploadRequest(file: Option<UploadBody>, mode: string)

  datatype Response = Ok(message: string) | BadRequest(message: string) | ServerError(message: string)

  /** A transaction of the upload schema: the insert schema plus an id and a date. */
  predicate ValidUploadedTransaction(t: Transaction)
  {
    ValidInsertTransaction(InsertTransaction(t.cardId, t.description, t.location, t.amount))
  }

  /** A card of the upload schema: the insert schema plus id, creation time, flag and valid transactions. */
  predicate ValidUploadedCard(c: Card)
  {
    && ValidInsertCard(InsertCard(c.name, c.number, c.initialValue))
    && forall j :: 0 <= j < |c.transactions| ==> ValidUploadedTransaction(c.transactions[j])
  }

  /** uploadDataSchema.parse: all-or-nothing, and keys outside the schema, such as `pin`, are dropped. */
  function ParseUpload(body: UploadBody): (r: Option<seq<Card>>)
    requires body.Json?
    ensures r.Some? <==> body.wellTyped && forall i :: 0 <= i < |body.cards| ==> ValidUploadedCard(body.cards[i])
    ensures r.Some? ==> |r.value| == |body.cards|
    ensures r.Some? ==> forall i :: 0 <= i < |r.value| ==> r.value[i] == body.cards[i].(pin := None)
  {
    if body.wellTyped && forall i :: 0 <= i < |body.cards| ==> ValidUploadedCard(body.cards[i]) then
      Some(seq(|body.cards|, i requires 0 <= i < |body.cards| => body.cards[i].(pin := None)))
    else None
  }

  /** The uploaded transactions as mode "add" re-creates them: fresh ids, the new card's id, the request time. */
  function RecreatedTransactions(u: Card, i: nat, cardId: string, txIds: (nat, nat) -> string, now: int): (ts: seq<Transaction>)
    ensures |ts| == |u.transactions|
    ensures forall j :: 0 <= j < |ts| ==>
      && ts[j].id == txIds(i, j) && ts[j].cardId == cardId && ts[j].date == now
      && ts[j].description == u.transactions[j].description
      && ts[j].location == u.transactions[j].location
      && ts[j].amount == u.transactions[j].amount
  {
    seq(|u.transactions|, j requires 0 <= j < |u.transactions| =>
      var t := u.transactions[j];
      Transaction(txIds(i, j), cardId, t.description, t.location, t.amount, now))
  }

  lemma {:induction false} RecreatedSpent(ts: seq<Transaction>, rs: seq<Transaction>)
    requires |rs| == |ts| && forall j :: 0 <= j < |ts| ==> rs[j].amount == ts[j].amount
    ensures Spent(rs) == Spent(ts)
  {
    if ts != [] {
      RecreatedSpent(ts[..|ts| - 1], rs[..|rs| - 1]);
    }
  }

  /** The i-th uploaded card after `createCard` and its first n `addTransaction` calls. */
  function RecreatedPrefix(u: Card, i: nat, n: nat, cardIds: nat -> string, txIds: (nat, nat) -> string, now: int): Card
    requires n <= |u.transactions|
  {
    Card(cardIds(i), u.name, u.number, None, u.initialValue, now, false,
         Reverse(RecreatedTransactions(u, i, cardIds(i), txIds, now)[..n]))
  }

  /**
   * The card that mode "add" makes of the i-th uploaded card: a fresh id, the
   * request time, not archived whatever was uploaded, no pin, and the
   * transactions re-created in reverse order, with the same balance.
   */
  function RecreatedCard(u: Card, i: nat, cardIds: nat -> string, txIds: (nat, nat) -> string, now: int): Card
  {
    RecreatedPrefix(u, i, |u.transactions|, cardIds, txIds, now)
  }

  /**
   * What mode "add" makes of the i-th uploaded card: a fresh id, the request
   * time, not archived whatever was uploaded, no pin, and the same balance.
   */
  lemma {:induction false} RecreatedCardShape(u: Card, i: nat, cardIds: nat -> string, txIds: (nat, nat) -> string, now: int)
    ensures var c := RecreatedCard(u, i, cardIds, txIds, now);
      && c.id == cardIds(i) && c.createdAt == now && !c.isArchived && c.pin.None?
      && c.name == u.name && c.number == u.number && c.initialValue == u.initialValue
      && Balance(c) == Balance(u)
  {
    var rs := RecreatedTransactions(u, i, cardIds(i), txIds, now);
    assert rs[..|u.transactions|] == rs;
    RecreatedSpent(u.transactions, rs);
    SpentReverse(rs);
  }

  /**
   * The re-created transactions of a card run in the reverse of the uploaded
   * order, each with a fresh id, the new card's id and the request time, and
   * its description, location and amount as uploaded.
   */
  lemma {:induction false} RecreatedCardTransactions(u: Card, i: nat, cardIds: nat -> string, txIds: (nat, nat) -> string, now: int)
    ensures var c := RecreatedCard(u, i, cardIds, txIds, now);
      && |c.transactions| == |u.transactions|
      && forall j :: 0 <= j < |c.transactions| ==>
        && c.transactions[j].id == txIds(i, |u.transactions| - 1 - j)
        && c.transactions[j].cardId == cardIds(i) && c.transactions[j].date == now
        && c.transactions[j].description == u.transactions[|u.transactions| - 1 - j].description
        && c.transactions[j].location == u.transactions[|u.transactions| - 1 - j].location
        && c.transactions[j].amount == u.transactions[|u.transactions| - 1 - j].amount
  {
    var rs := RecreatedTransactions(u, i, cardIds(i), txIds, now);
    assert rs[..|u.transactions|] == rs;
  }

  /** The cards mode "add" sets, one per uploaded card, in upload order. */
  function RecreatedCards(us: seq<Card>, cardIds: nat -> string, txIds: (nat, nat) -> string, now: int): (cs: seq<Card>)
    ensures |cs| == |us|
    ensures forall i :: 0 <= i < |us| ==> cs[i] == RecreatedCard(us[i], i, cardIds, txIds, now) && cs[i].id == cardIds(i)
  {
    seq(|us|, i requires 0 <= i < |us| => RecreatedCard(us[i], i, cardIds, txIds, now))
  }

  /** Mode "add" leaves every existing card whose id was not drawn again exactly as it was. */
  lemma {:induction false} AddKeepsExisting(s: Store, us: seq<Card>, cardIds: nat -> string, txIds: (nat, nat) -> string, now: int, k: string)
    requires k in s.cards
    requires forall i :: 0 <= i < |us| ==> cardIds(i) != k
    ensures var r := PutAll(s, RecreatedCards(us, cardIds, txIds, now));
      k in r.cards && r.cards[k] == s.cards[k]
  {
    PutAllKeepsOthers(s, RecreatedCards(us, cardIds, txIds, now), k);
  }

  /** Mode "add" stores the re-created i-th card under its fresh id unless a later card drew the same id. */
  lemma {:induction false} AddStoresRecreated(s: Store, us: seq<Card>, cardIds: nat -> string, txIds: (nat, nat) -> string, now: int, i: nat)
    requires i < |us|
    requires forall j :: i < j < |us| ==> cardIds(j) != cardIds(i)
    ensures var r := PutAll(s, RecreatedCards(us, cardIds, txIds, now));
      cardIds(i) in r.cards && r.cards[cardIds(i)] == RecreatedCard(us[i], i, cardIds, txIds, now)
  {
    PutAllLastWins(s, RecreatedCards(us, cardIds, txIds, now), i);
  }

  /** Mode "add" for one uploaded card: `createCard`, then `addTransaction` for each of its transactions in turn. */
  method AddUploadedCard(store: MemStorage, u: Card, i: nat, cardIds: nat -> string, txIds: (nat, nat) -> string, now: int)
    requires store.Valid()
    modifies store
    ensures store.Valid()
    ensures store.State() == Put(old(store.State()), RecreatedCard(u, i, cardIds, txIds, now))
  {
    var created := store.CreateCard(InsertCard(u.name, u.number, u.initialValue), cardIds(i), now);
    assert created == RecreatedPrefix(u, i, 0, cardIds, txIds, now);
    var rs := RecreatedTransactions(u, i, cardIds(i), txIds, now);
    var j := 0;
    while j < |u.transactions|
      invariant 0 <= j <= |u.transactions|
      invariant store.Valid()
      invariant store.State() == Put(old(store.State()), RecreatedPrefix(u, i, j, cardIds, txIds, now))
    {
      var t := u.transactions[j];
      var card := RecreatedPrefix(u, i, j, cardIds, txIds, now);
      var added := store.AddTransaction(InsertTransaction(created.id, t.description, t.location, t.amount), txIds(i, j), now);
      assert rs[..j + 1] == rs[..j] + [rs[j]];
      assert Reverse(rs[..j + 1]) == [rs[j]] + Reverse(rs[..j]);
      PutTwice(old(store.State()), card, card.(transactions := [rs[j]] + card.transactions));
      j := j + 1;
    }
  }

  /** Mode "add": every uploaded card re-created through the store, in upload order. */
  method AddAll(store: MemStorage, us: seq<Card>, cardIds: nat -> string, txIds: (nat, nat) -> string, now: int)
    requires store.Valid()
    modifies store
    ensures store.Valid()
    ensures store.State() == PutAll(old(store.State()), RecreatedCards(us, cardIds, txIds, now))
  {
    var cs := RecreatedCards(us, cardIds, txIds, now);
    ghost var start := store.State();
    var i := 0;
    while i < |us|
      invariant 0 <= i <= |us| == |cs|
      invariant store.Valid()
      invariant store.State() == PutAll(start, cs[..i])
    {
      AddUploadedCard(store, us[i], i, cardIds, txIds, now);
      PutAllStep(start, cs, i);
      i := i + 1;
    }
    assert cs[..i] == cs;
  }

  /** The upload handler: checks the request, then replaces the store or re-creates every card through it. */
  method Upload(store: MemStorage, req: UploadRequest, cardIds: nat -> string, txIds: (nat, nat) -> string, now: int)
    returns (resp: Response)
    requires store.Valid()
    modifies store
    ensures store.Valid()
    ensures req.file.None? ==> resp == BadRequest("No file uploaded")
    ensures req.file.Some? && req.mode != "add" && req.mode != "replace" ==> resp == BadRequest("Invalid upload mode")
    ensures req.file.Some? && (req.mode == "add" || req.mode == "replace") && req.file.value.NotJson? ==>
      resp == ServerError("Error processing file")
    ensures req.file.Some? && (req.mode == "add" || req.mode == "replace") && req.file.value.Json? && ParseUpload(req.file.value).None? ==>
      resp == BadRequest("Invalid data format")
    ensures resp.Ok? <==>
      && req.file.Some? && (req.mode == "add" || req.mode == "replace")
      && req.file.value.Json? && ParseUpload(req.file.value).Some?
    ensures !resp.Ok? ==> store.State() == old(store.State())
    ensures resp.Ok? && req.mode == "replace" ==>
      store.State() == Replaced(ParseUpload(req.file.value).value)
    ensures resp.Ok? && req.mode == "add" ==>
      store.State() == PutAll(old(store.State()), RecreatedCards(ParseUpload(req.file.value).value, cardIds, txIds, now))
  {
    if req.file.None? {
      return BadRequest("No file uploaded");
    }
    if req.mode != "add" && req.mode != "replace" {
      return BadRequest("Invalid upload mode");
    }
    var body := req.file.value;
    if body.NotJson? {
      return ServerError("Error processing file");
    }
    var parsed := ParseUpload(body);
    if parsed.None? {
      return BadRequest("Invalid data format");
    }
    if req.mode == "replace" {
      store.ReplaceAll(parsed.value);
    } else {
      AddAll(store, parsed.value, cardIds, txIds, now);
    }
    resp := Ok("Data uploaded successfully");
  }

  /**
   * Downloading and uploading the result with mode "replace" gives back the
   * store, except that pins are lost: the upload schema has no `pin` field.
   */
  lemma {:induction false} DownloadReplaceRoundTrip(s: Store)
    requires StoreValid(s)
    requires forall k :: k in s.cards ==> ValidUploadedCard(s.cards[k])
    ensures ParseUpload(Json(true, Values(s))).Some?
    ensures Replaced(ParseUpload(Json(true, Values(s))).value) == WithoutPins(s)
  {
    var vs := Values(s);
    assert forall i :: 0 <= i < |vs| ==> ValidUploadedCard(vs[i]);
    var parsed := ParseUpload(Json(true, vs)).value;
    assert parsed == Values(WithoutPins(s));
    ValuesReplacedRoundTrip(WithoutPins(s));
  }

  /** The store with every card's pin cleared; it is the store itself when no card has a pin. */
  function WithoutPins(s: Store): (r: Store)
    ensures StoreValid(s) ==> StoreValid(r)
    ensures r.order == s.order && r.cards.Keys == s.cards.Keys
    ensures (forall k :: k in s.cards ==> s.cards[k].pin.None?) ==> r == s
  {
    var r := Store(map k | k in s.cards :: s.cards[k].(pin := None), s.order);
    assert (forall k :: k in s.cards ==> s.cards[k].pin.None?) ==> r.cards == s.cards;
    r
  }
}
