/** The browser's local storage as the collection layer sees it: one slot
    per key, either absent or holding a stored list. The text encoding of
    the lists is not modelled; reading an absent slot gives the empty list,
    as `JSON.parse(getItem(key) || '[]')` does. Each operation below is one
    read-modify-write of the script. */
module LocalStore {
  import opened Wrappers
  import opened Units
  import opened History
  import opened Presets

  /** `presets` is the slot of the key `ingredientesSalvos`, `history` that
      of the key `calculadoraHistorico`. */
  datatype Store = Store(presets: Option<seq<Preset>>, history: Option<seq<HistoryEntry>>)

  /** Nothing stored yet: the state on a first visit. */
  const Empty: Store := Store(None, None)

  function ReadPresets(s: Store): (r: seq<Preset>)
    ensures s.presets.None? ==> r == []
    ensures s.presets.Some? ==> r == s.presets.value
  {
    s.presets.GetOr([])
  }

  function ReadHistory(s: Store): (r: seq<HistoryEntry>)
    ensures s.history.None? ==> r == []
    ensures s.history.Some? ==> r == s.history.value
  {
    s.history.GetOr([])
  }

  /** The invariant every operation keeps: preset names are unique and the
      log is within its capacity. */
  ghost predicate Valid(s: Store) {
    Unique(ReadPresets(s)) && |ReadHistory(s)| <= Capacity
  }

  lemma EmptyValid()
    ensures Valid(Empty)
  {
  }

  /** `adicionarAoHistorico`: records a calculation as the newest entry; the
      preset slot is untouched. */
  function AddToHistory(s: Store, id: int, ingrediente: string, precoPorUnidade: real,
                        quantidade: int, precoFinal: real, unidade: Unit, data: string): (r: Store)
    ensures ReadHistory(r) == Add(ReadHistory(s),
      HistoryEntry(id, ingrediente, precoPorUnidade, quantidade, precoFinal, unidade, data))
    ensures |ReadHistory(r)| <= Capacity
    ensures r.presets == s.presets
  {
    var e := HistoryEntry(id, ingrediente, precoPorUnidade, quantidade, precoFinal, unidade, data);
    s.(history := Some(Add(ReadHistory(s), e)))
  }

  /** `removerDoHistorico`: deletes the entries with identifier `id`. */
  function RemoveFromHistory(s: Store, id: int): (r: Store)
    ensures r.history.Some?
    ensures ReadHistory(r) == RemoveById(ReadHistory(s), id)
    ensures forall e :: e in ReadHistory(r) <==> e in ReadHistory(s) && e.id != id
    ensures |ReadHistory(r)| <= |ReadHistory(s)|
    ensures r.presets == s.presets
  {
    s.(history := Some(RemoveById(ReadHistory(s), id)))
  }

  /** `limparHistorico`: when the user confirms, the history key is deleted;
      otherwise nothing happens. */
  function ClearHistory(s: Store, confirmed: bool): (r: Store)
    ensures confirmed ==> r.history.None? && ReadHistory(r) == []
    ensures !confirmed ==> r == s
    ensures r.presets == s.presets
  {
    if confirmed then s.(history := None) else s
  }

  /** The seeding branch of `carregarIngredientesSalvos`: when the stored
      preset list is empty or absent, the defaults are written; otherwise
      the store is left as it is. */
  function LoadPresets(s: Store): (r: Store)
    ensures |ReadPresets(s)| == 0 ==> r.presets == Some(Defaults)
    ensures |ReadPresets(s)| > 0 ==> r == s
    ensures ReadPresets(r) == Seed(ReadPresets(s))
    ensures r.history == s.history
  {
    if |ReadPresets(s)| == 0 then s.(presets := Some(Defaults)) else s
  }

  /** Loading a second time changes nothing. */
  lemma LoadPresetsIdempotent(s: Store)
    ensures LoadPresets(LoadPresets(s)) == LoadPresets(s)
  {
  }

  /** The outcome of `adicionarIngrediente`: the new store and whether the
      preset was created rather than updated. */
  datatype Added = Added(store: Store, created: bool)

  /** `adicionarIngrediente`: saves a preset, then reloads the list (which
      never re-seeds here, since the list just saved is not empty). */
  function AddIngredient(s: Store, nome: string, preco: real, unidade: Unit): (r: Added)
    ensures var u := Upsert(ReadPresets(s), nome, preco, unidade);
      r.store.presets == Some(u.presets) && r.created == u.created
    ensures r.store.history == s.history
  {
    var u := Upsert(ReadPresets(s), nome, preco, unidade);
    Added(LoadPresets(s.(presets := Some(u.presets))), u.created)
  }

  /** `removerIngrediente`: when the user confirms, deletes the presets
      named exactly `nome` and reloads the list. Reloading re-seeds the
      defaults when the removal left the list empty. */
  function RemoveIngredient(s: Store, nome: string, confirmed: bool): (r: Store)
    ensures !confirmed ==> r == s
    ensures confirmed ==> ReadPresets(r) == Seed(RemoveByName(ReadPresets(s), nome))
    ensures r.history == s.history
  {
    if confirmed then LoadPresets(s.(presets := Some(RemoveByName(ReadPresets(s), nome))))
    else s
  }

  /** Removing the only preset left brings the eight defaults back. */
  lemma RemoveLastRestoresDefaults(s: Store)
    requires |ReadPresets(s)| == 1
    ensures ReadPresets(RemoveIngredient(s, ReadPresets(s)[0].nome, true)) == Defaults
  {
    var ps := ReadPresets(s);
    assert ps == [ps[0]];
    assert RemoveByName(ps, ps[0].nome) == [];
  }

  /** `atualizarPrecoIngrediente`: refreshes the price and unit of a saved
      preset after a calculation. Without a match nothing is written, so an
      absent key stays absent. */
  function RefreshIngredientPrice(s: Store, nome: string, preco: real, unidade: Unit): (r: Store)
    ensures ReadPresets(r) == Refresh(ReadPresets(s), nome, preco, unidade)
    ensures FindIndex(ReadPresets(s), nome).None? ==> r == s
    ensures FindIndex(ReadPresets(s), nome).Some? ==>
      ReadPresets(r) == Upsert(ReadPresets(s), nome, preco, unidade).presets
    ensures r.history == s.history
  {
    if FindIndex(ReadPresets(s), nome).Some? then
      RefreshIsUpsertUpdate(ReadPresets(s), nome, preco, unidade);
      s.(presets := Some(Refresh(ReadPresets(s), nome, preco, unidade)))
    else s
  }

  /** Every store operation keeps the invariant. */
  lemma OperationsPreserveValid(s: Store, id: int, e: HistoryEntry, nome: string,
                                preco: real, unidade: Unit, confirmed: bool)
    requires Valid(s)
    ensures Valid(AddToHistory(s, e.id, e.ingrediente, e.precoPorUnidade, e.quantidade,
                               e.precoFinal, e.unidade, e.data))
    ensures Valid(RemoveFromHistory(s, id))
    ensures Valid(ClearHistory(s, confirmed))
    ensures Valid(LoadPresets(s))
    ensures Valid(AddIngredient(s, nome, preco, unidade).store)
    ensures Valid(RemoveIngredient(s, nome, confirmed))
    ensures Valid(RefreshIngredientPrice(s, nome, preco, unidade))
  {
    DefaultsUnique();
    UpsertPreservesUnique(ReadPresets(s), nome, preco, unidade);
    RemovePreservesUnique(ReadPresets(s), nome);
    RefreshPreservesUnique(ReadPresets(s), nome, preco, unidade);
  }

}
