/** The form handlers that drive the collection layer. Field values arrive
    already trimmed and parsed; a parse that failed (`NaN`) is `None`. */
module Handlers {
  import opened Wrappers
  import opened Units
  import opened Text
  import opened PriceEngine
  import opened History
  import opened Presets
  import opened LocalStore

  /** Why a calculation was refused: a field is empty or not a number, or
      a number is not greater than zero. */
  datatype Refusal = MissingField | NotPositive

  datatype Submitted =
    | Refused(reason: Refusal)
    | Calculated(precoFinal: real, store: Store)

  /** The first gate of the calculation form: a name, and two fields that
      parsed as numbers. An empty name is falsy and a failed parse is `NaN`. */
  function FieldsPresent(nome: string, preco: Option<real>, quantidade: Option<int>): (r: bool)
    ensures r ==> nome != [] && preco != None && quantidade != None
    ensures nome != [] && preco.Some? && quantidade.Some? ==> r
  {
    |nome| > 0 && preco.Some? && quantidade.Some?
  }

  /** The submit handler: checks the fields, computes the cost, records it
      in the history and refreshes the price of a saved preset of that name.
      The identifier and display date of the new entry come from the clock
      and are parameters here. */
  function Submit(s: Store, nome: string, preco: Option<real>, quantidade: Option<int>,
                  unidade: Unit, id: int, data: string): (r: Submitted)
    ensures r == Refused(MissingField) <==> !FieldsPresent(nome, preco, quantidade)
    ensures r == Refused(NotPositive) <==>
      FieldsPresent(nome, preco, quantidade) && (preco.value <= 0.0 || quantidade.value <= 0)
    ensures r.Calculated? ==>
      && r.precoFinal * DefaultBasis == preco.value * quantidade.value as real
      && r.precoFinal > 0.0
      && ReadHistory(r.store) == Add(ReadHistory(s),
           HistoryEntry(id, nome, preco.value, quantidade.value, r.precoFinal, unidade, data))
      && ReadPresets(r.store) == Refresh(ReadPresets(s), nome, preco.value, unidade)
  {
    if !FieldsPresent(nome, preco, quantidade) then Refused(MissingField)
    else if preco.value <= 0.0 || quantidade.value <= 0 then Refused(NotPositive)
    else
      var p, q := preco.value, quantidade.value;
      var custo := Cost(p, q as real);
      var s1 := AddToHistory(s, id, nome, p, q, custo, unidade, data);
      Calculated(custo, RefreshIngredientPrice(s1, nome, p, unidade))
  }

  datatype SaveClicked = SaveRefused | SaveDone(added: Added)

  /** The "save ingredient" button: needs a name and a number, but unlike
      the calculation it does not insist that the price be positive. */
  function SaveIngredient(s: Store, nome: string, preco: Option<real>, unidade: Unit): (r: SaveClicked)
    ensures r.SaveRefused? <==> |nome| == 0 || preco.None?
    ensures r.SaveDone? ==> r.added == AddIngredient(s, nome, preco.value, unidade)
    ensures r.SaveDone? ==> r.added.store.history == s.history
    ensures r.SaveDone? ==>
      var f := Find(ReadPresets(r.added.store), nome);
      f.Some? && f.value.preco == preco.value && f.value.unidade == Some(unidade)
  {
    if |nome| == 0 || preco.None? then SaveRefused
    else
      UpsertThenFind(ReadPresets(s), nome, preco.value, unidade);
      SaveDone(AddIngredient(s, nome, preco.value, unidade))
  }

  /** Whether the save button is shown while the name is typed: only for a
      non-empty name that no saved preset has, ignoring case. */
  function ShowSaveButton(s: Store, nome: string): (r: bool)
    ensures r <==> |nome| > 0 && forall j :: 0 <= j < |ReadPresets(s)| ==> !SameName(ReadPresets(s)[j].nome, nome)
  {
    |nome| > 0 && Find(ReadPresets(s), nome).None?
  }

  /** Once a name has been saved, the save button is hidden for it, in any
      letter case. */
  lemma SavedNameHidesButton(s: Store, nome: string, preco: real, unidade: Unit, typed: string)
    requires SameName(nome, typed)
    ensures !ShowSaveButton(AddIngredient(s, nome, preco, unidade).store, typed)
  {
    UpsertThenFind(ReadPresets(s), nome, preco, unidade);
    var ps := ReadPresets(AddIngredient(s, nome, preco, unidade).store);
    var i := FindIndex(ps, nome).value;
    assert SameName(ps[i].nome, typed);
  }

  /** The live check on number inputs: a negative value is reset to zero. */
  function ClampNonNegative(v: real): (r: real)
    ensures r >= 0.0
    ensures v >= 0.0 ==> r == v
    ensures v < 0.0 ==> r == 0.0
  {
    if v < 0.0 then 0.0 else v
  }
}
