# Kitchen cost calculator — collection layer in Dafny

This project models the in-memory core of a browser calculator for recipe
costs. The calculator turns a bulk price (per kilogram or per litre) into the
cost of a gram quantity. It keeps two lists in the browser's local storage:

- a **history** of past calculations, newest first, at most 20 entries;
- a list of **presets**, saved ingredients with a remembered price and unit,
  looked up by name without regard to letter case.

Everything is written as pure functions over immutable datatypes:

- `PriceEngine` holds the cost formula over exact reals.
- `History` holds the bounded newest-first log.
- `Presets` holds the preset list: case-insensitive lookup, save
  (update-or-append), price refresh, case-sensitive removal and first-use
  seeding.
- `LocalStore` treats local storage as one optional slot per key
  (`ingredientesSalvos`, `calculadoraHistorico`). An absent slot reads as the
  empty list. Each store function is one read-modify-write of the script.
- `Handlers` holds the form gates: submit, the save button, the live
  "show save button" check, and the non-negative clamp on number inputs.
- `Text` (ASCII lower-casing), `Sequences` (filter, reverse), `Units` and
  `Wrappers` (an `Option`) are helpers.

A few behaviours of the script are easy to miss; the model keeps each as
written:

- Preset removal compares names exactly, so it is case-sensitive
  (script.js:176). Every lookup ignores case (script.js:156, 276, 302).
- The eight default presets are stored with no unit (script.js:114-123).
  Only the display reads a missing unit as kilograms (script.js:130-132).
- The save button accepts any parsed price, including zero and negative
  ones (script.js:259). Only the calculation form requires positive values
  (script.js:239).
- Reloading the presets after a removal re-seeds the defaults when the
  removal emptied the list (script.js:125, 178). So removing the last preset
  brings all eight defaults back (`LocalStore.RemoveLastRestoresDefaults`).

## Model

| member | source | states |
|---|---|---|
| PriceEngine.CostWithBasis | script.js:2-4 | the cost times the basis equals price times grams |
| PriceEngine.Cost | script.js:2-4 | under the default basis of 1000 g the cost times 1000 is price times grams, and positive inputs give a positive cost |
| PriceEngine.CostZero | script.js:2-4 | a zero price or a zero quantity costs nothing |
| PriceEngine.CostLinearInPrice | script.js:2-4 | the cost is additive and homogeneous in the price |
| PriceEngine.CostLinearInQuantity | script.js:2-4 | the cost is additive and homogeneous in the quantity |
| PriceEngine.CostMonotoneInQuantity | script.js:2-4 | with a positive price, more grams cost strictly more |
| PriceEngine.CostExample | script.js:2-4 | 250 g at 29.00 per kg cost 7.25 |
| Text.LowerChar | script.js:156 | the result is never an ASCII upper-case letter; 'A'..'Z' map to their lower-case partners 'a'..'z' and every other character is kept |
| Text.Lower | script.js:156 | same length, and each character is the lower-case form of the input's character at that position |
| Text.SameName | script.js:156 | two names match exactly when they have equal length and agree character by character after ASCII lower-casing |
| Text.LowerIdempotent | script.js:156 | lower-casing twice is lower-casing once |
| Sequences.Filter | script.js:75 | the result keeps exactly the elements satisfying the predicate, and is the input when every element does |
| Sequences.FilterConcat | script.js:75 | filtering a concatenation is the concatenation of the filtered parts, so order is kept |
| History.Truncate | script.js:36-38 | the result is the prefix of the log of length min(length, 20): exactly the first 20 entries of a longer log, and a log within capacity kept whole |
| History.Add | script.js:33-38 | the new entry is first, the rest is the old log's prefix in its old order, and the length is min(old length + 1, 20) |
| History.RemoveById | script.js:75 | an entry survives exactly when it was present and its id differs; nothing changes when no entry has that id |
| History.RemoveByIdConcat | script.js:75 | removal distributes over concatenation, so survivors keep their relative order |
| History.AddThenRemove | script.js:33-38 | adding an entry with a fresh id and removing that id restores the log, cut to its first 19 entries when the add pushed entries out |
| History.AddAll | script.js:33-38 | after one or more adds the log holds at most 20 entries |
| History.AddAllNewestFirst | script.js:33-38 | after any series of adds the log is the added entries in reverse order followed by the previous log, cut to 20; for a non-empty series this holds even when the stored log was longer than 20 |
| Presets.DisplayUnit | script.js:130-132 | a preset's own unit, or kilograms when it has none |
| Presets.FindIndex | script.js:156 | the index of the first preset whose name matches case-insensitively, or none exactly when no preset matches |
| Presets.Find | script.js:302 | a found preset is the first preset whose name matches ignoring case; none exactly when no preset matches |
| Presets.UpdateAt | script.js:159-160 | the preset at the index gets the new price and unit and keeps its name; every other preset is untouched |
| Presets.Upsert | script.js:152-168 | created exactly when no name matches; then one preset is appended at the end; otherwise the length is kept and only the first match changes price and unit, keeping its name and position |
| Presets.Refresh | script.js:300-309 | the length never changes, and with no match the list is unchanged |
| Presets.RefreshIsUpsertUpdate | script.js:300-309 | with a match, the refresh equals the update branch of the save |
| Presets.RemoveByName | script.js:176 | a preset survives exactly when its name differs, case-sensitively; nothing changes when no name is equal |
| Presets.RemoveByNameConcat | script.js:176 | removal distributes over concatenation, so survivors keep their order |
| Presets.RemoveIsCaseSensitive | script.js:176 | removing "chocolate" leaves "Chocolate" in place although lookup finds it |
| Presets.Seed | script.js:112-127 | an empty list becomes the eight defaults in source order; a non-empty list is kept |
| Presets.SeedIdempotent | script.js:112-127 | seeding twice is seeding once |
| Presets.DefaultsUnique | script.js:114-123 | the eight default names are pairwise different ignoring case |
| Presets.UniqueCons | script.js:156 | a list is name-unique exactly when its tail is and its head's name differs from all later names |
| Presets.UpsertPreservesUnique | script.js:156-166 | saving keeps lower-cased names unique |
| Presets.RefreshPreservesUnique | script.js:304-306 | a price refresh keeps lower-cased names unique |
| Presets.RemovePreservesUnique | script.js:176 | removal keeps lower-cased names unique |
| Presets.UpsertThenFind | script.js:156-164 | after saving a name, looking it up returns the price and unit just written |
| Presets.UpsertOtherName | script.js:156-166 | saving one name does not change the lookup of a different name |
| Presets.UpsertAll | script.js:152-168 | a series of saves never shrinks the list and grows it by at most one per save |
| Presets.UpsertAllUnique | script.js:156-166 | any series of saves keeps names unique |
| Presets.UpsertAllLastWins | script.js:156-166 | from any starting list, after any series of saves each name looks up the price and unit of its latest save |
| LocalStore.ReadPresets | script.js:153 | an absent key reads as the empty preset list |
| LocalStore.ReadHistory | script.js:21 | an absent key reads as the empty log |
| LocalStore.EmptyValid | script.js:109 | a store with nothing saved satisfies the invariant |
| LocalStore.AddToHistory | script.js:20-41 | the stored log becomes the add of the new entry to the old log, stays within 20, and presets are untouched |
| LocalStore.RemoveFromHistory | script.js:73-78 | the history key is always written, and holds the log filtered by id in its original order: exactly the entries with a different id survive; presets are untouched |
| LocalStore.ClearHistory | script.js:81-86 | with confirmation the history key is absent and reads as empty; without it nothing changes |
| LocalStore.LoadPresets | script.js:108-127 | an empty or absent list is replaced by the defaults; otherwise the store is unchanged |
| LocalStore.LoadPresetsIdempotent | script.js:124-125 | loading twice is loading once |
| LocalStore.AddIngredient | script.js:152-170 | the stored list and the created flag are those of the save, and the reload does not re-seed |
| LocalStore.RemoveIngredient | script.js:173-181 | with confirmation the stored list is the seeding of the case-sensitive removal; without it nothing changes |
| LocalStore.RemoveLastRestoresDefaults | script.js:175-178 | removing the only preset left stores the eight defaults |
| LocalStore.RefreshIngredientPrice | script.js:300-310 | the preset list length is kept, a store without a match is untouched, and a match is updated as the save would |
| LocalStore.OperationsPreserveValid | script.js:20-181 | every store operation keeps preset names unique and the log within 20 entries |
| Handlers.Submit | script.js:226-251 | refused for a missing field exactly when name, price or quantity is absent, and for non-positive values exactly when they are present but one is not positive; otherwise the cost satisfies the formula and is positive, the log gets the new entry and the preset price is refreshed |
| Handlers.FieldsPresent | script.js:234 | the calculation passes the first gate exactly when it has a non-empty name and a price and a quantity that parsed as numbers |
| Handlers.SaveIngredient | script.js:254-265 | refused exactly when the name is empty or the price is not a number; otherwise the result is the preset save of those values, the history is untouched, and the saved name looks up the given price and unit |
| Handlers.ShowSaveButton | script.js:273-283 | shown exactly when the name is non-empty and no saved name matches it ignoring case |
| Handlers.SavedNameHidesButton | script.js:273-283 | after saving a name, the button stays hidden for that name in any letter case |
| Handlers.ClampNonNegative | script.js:289-296 | the result is never negative, is the input when that is non-negative and zero otherwise |

## Left out

- Text.LowerChar: maps only 'A'..'Z'; a non-ASCII upper-case letter such as `Ç` is returned unchanged, while `toLowerCase` would fold it.
- Text.SameName: compares names under ASCII lower-casing, so `AÇÚCAR` and `Açúcar` do not match here although they match in the browser.
- Text.Lower: lower-cases ASCII letters only; `toLowerCase` also folds non-ASCII letters (such as `Ç` in a user-typed name), because Unicode case mapping is a library table.
- PriceEngine.CostWithBasis: requires a non-zero basis; a zero basis gives `Infinity` or `NaN` in the browser. The script always uses the default basis of 1000.
- PriceEngine.Cost: prices are exact reals; IEEE double rounding is not modelled.
- Handlers.Submit: `Infinity` parsed from a field is not modelled; a parsed number is a finite real or an integer.
- Trimming of form fields (`trim()`), and `parseFloat`/`parseInt` themselves: the handlers take the trimmed, parsed values, with `None` standing for `NaN`.
- JSON encoding and decoding of the stored lists, and corrupt stored text: the store holds typed lists directly.
- `Date.now()` and `toLocaleString`: the id and display date of a history entry are parameters.
- `confirm` dialogs: a boolean parameter gates removal and clearing. `alert` messages are the `Refused` results.
- DOM rendering: `atualizarHistorico`, `exibirResultado`, the markup part of `carregarIngredientesSalvos`, `usarIngredientePreSalvo`, `adicionarEventListenersIngredientes`, `atualizarLabelsUnidade`, and `mostrarMensagem` with its timer. The `created` flag of a save stands for the choice of message.
- `formatarMoeda` and `formatarNumero`: number and currency formatting for display.
- `exportarHistorico` (CSV download): file output. Its price column reads `precoPorKg`, which history entries never carry, so that column is always `undefined`.
- Several browser tabs sharing one storage: the model has one actor, and each operation is a single read-modify-write.
