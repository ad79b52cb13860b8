/**
 * The edit-card form's submit handler
 * (client/src/components/edit-card-modal.tsx): trims the text fields, turns
 * a blank number or PIN into "not supplied", checks the name and the initial
 * value, then applies the store's card update.
 */
module EditCardModal {
  import opened Wrappers
  import opened Schema
  import opened Ledger
  import opened Strings
  import opened ClientStorage

  /**
   * The form's fields as typed. `initialValue` is what `parseFloat` makes of
   * the balance field, in cents; `None` is NaN.
   */
  datatype CardForm = CardForm(name: string, number: string, pin: string, initialValue: Option<int>)

  /** How a submission ends. `NotUpdated` is the store reporting no card with the id; the form then stays open silently. */
  datatype EditOutcome = NoCard | NameRequired | InvalidInitialValue | Updated | NotUpdated

  /** `s.trim() || undefined`. */
  function BlankToNone(s: string): (r: Option<string>)
    ensures r.None? <==> IsBlank(s)
    ensures r.Some? ==> r.value == Trim(s) && r.value != []
  {
    var t := Trim(s);
    if t == [] then None else Some(t)
  }

  /**
   * handleSubmit. Nothing changes unless a card is selected, the trimmed
   * name is non-empty, the initial value is a number above 0 and the store
   * has a card with the id. Then the first such card takes the trimmed name
   * and the new initial value; its number and PIN are replaced only when the
   * form's are not blank, so neither can be cleared here. The accepted values
   * always pass the creation schema, which is looser: it also takes 0.
   */
  method HandleSubmit(store: LocalStorageService, card: Option<Card>, form: CardForm) returns (outcome: EditOutcome)
    modifies store
    ensures card.None? ==> outcome == NoCard
    ensures outcome == NameRequired <==> card.Some? && IsBlank(form.name)
    ensures outcome == InvalidInitialValue <==>
      && card.Some? && !IsBlank(form.name)
      && (form.initialValue.None? || form.initialValue.value <= 0)
    ensures outcome == Updated <==>
      && card.Some? && !IsBlank(form.name)
      && form.initialValue.Some? && form.initialValue.value > 0
      && FindCard(old(store.cards), card.value.id).Some?
    ensures outcome != Updated ==> store.cards == old(store.cards)
    ensures |store.cards| == |old(store.cards)|
    ensures outcome == Updated ==>
      var k := FindCard(old(store.cards), card.value.id).value;
      var before := old(store.cards)[k];
      var after := store.cards[k];
      && store.cards == old(store.cards)[k := after]
      && after == PatchCard(before, CardPatch(Some(Trim(form.name)), BlankToNone(form.number),
                                              form.initialValue, BlankToNone(form.pin)))
      && after.name == Trim(form.name)
      && after.initialValue == form.initialValue.value
      && (IsBlank(form.number) ==> after.number == before.number)
      && (IsBlank(form.pin) ==> after.pin == before.pin)
      && ValidInsertCard(InsertCard(after.name, after.number, after.initialValue))
  {
    if card.None? {
      return NoCard;
    }
    var updates := CardPatch(Some(Trim(form.name)), BlankToNone(form.number), form.initialValue, BlankToNone(form.pin));
    if updates.name.value == [] {
      return NameRequired;
    }
    if updates.initialValue.None? || updates.initialValue.value <= 0 {
      return InvalidInitialValue;
    }
    var success := store.UpdateCard(card.value.id, updates);
    outcome := if success then Updated else NotUpdated;
  }

  /**
   * The edit never checks the new initial value against what has been
   * spent: lowering it below the total spent leaves the card with a
   * negative balance.
   */
  lemma {:induction false} EditCanMakeBalanceNegative(card: Card, newValue: int)
    requires 0 < newValue < Spent(card.transactions)
    ensures Balance(PatchCard(card, CardPatch(None, None, Some(newValue), None))) < 0
  {
  }
}
