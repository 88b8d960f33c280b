/** The saved ingredient presets: an ordered list of named bulk prices in
    which names are compared case-insensitively. */
module Presets {
  import opened Wrappers
  import opened Units
  import opened Text
  import opened Sequences

  /** One saved ingredient. The built-in defaults carry no unit (`None`),
      which the display reads as kilograms. */
  datatype Preset = Preset(nome: string, preco: real, unidade: Option<Unit>)

  /** The unit a preset is shown and used with: its own, or kilograms. */
  function DisplayUnit(p: Preset): (r: Unit)
    ensures p.unidade.Some? ==> r == p.unidade.value
    ensures p.unidade.None? ==> r == Kg
  {
    p.unidade.GetOr(Kg)
  }

  predicate Matches(p: Preset, nome: string) {
    SameName(p.nome, nome)
  }

  /** No two presets have the same name once lower-cased. */
  ghost predicate Unique(ps: seq<Preset>) {
    forall i, j :: 0 <= i < j < |ps| ==> !SameName(ps[i].nome, ps[j].nome)
  }

  /** The position of the first preset whose name matches `nome`
      case-insensitively, if any. */
  function FindIndex(ps: seq<Preset>, nome: string): (r: Option<nat>)
    ensures r.Some? ==> r.value < |ps| && Matches(ps[r.value], nome)
    ensures r.Some? ==> forall j :: 0 <= j < r.value ==> !Matches(ps[j], nome)
    ensures r.None? <==> forall j :: 0 <= j < |ps| ==> !Matches(ps[j], nome)
  {
    if |ps| == 0 then None
    else if Matches(ps[0], nome) then Some(0)
    else match FindIndex(ps[1..], nome)
      case None => None
      case Some(i) => Some(i + 1)
  }

  /** `ingredientes.find(...)`: the first preset matching `nome`. */
  function Find(ps: seq<Preset>, nome: string): (r: Option<Preset>)
    ensures r.Some? ==> r.value in ps && Matches(r.value, nome)
    ensures r.Some? ==> FindIndex(ps, nome).Some? && r.value == ps[FindIndex(ps, nome).value]
    ensures r.None? <==> forall j :: 0 <= j < |ps| ==> !Matches(ps[j], nome)
  {
    match FindIndex(ps, nome)
    case Some(i) => Some(ps[i])
    case None => None
  }

  /** Overwrites price and unit of the preset at `i`, keeping its name and
      position and every other preset. */
  function UpdateAt(ps: seq<Preset>, i: nat, preco: real, unidade: Unit): (r: seq<Preset>)
    requires i < |ps|
    ensures |r| == |ps|
    ensures r[i] == Preset(ps[i].nome, preco, Some(unidade))
    ensures forall j :: 0 <= j < |ps| && j != i ==> r[j] == ps[j]
  {
    ps[i := ps[i].(preco := preco, unidade := Some(unidade))]
  }

  /** The outcome of saving a preset: the new list, and whether the name was
      new (which decides between the "saved" and "updated" messages). */
  datatype Upserted = Upserted(presets: seq<Preset>, created: bool)

  /** Saves `nome` at `preco` per `unidade`. When a preset of that name
      exists, the first one takes the new price and unit in place;
      otherwise a new preset is appended at the end. */
  function Upsert(ps: seq<Preset>, nome: string, preco: real, unidade: Unit): (r: Upserted)
    ensures r.created <==> forall j :: 0 <= j < |ps| ==> !Matches(ps[j], nome)
    ensures r.created ==> r.presets == ps + [Preset(nome, preco, Some(unidade))]
    ensures !r.created ==>
      && FindIndex(ps, nome).Some?
      && var i := FindIndex(ps, nome).value;
      && |r.presets| == |ps|
      && r.presets[i] == Preset(ps[i].nome, preco, Some(unidade))
      && forall j :: 0 <= j < |ps| && j != i ==> r.presets[j] == ps[j]
  {
    match FindIndex(ps, nome)
    case Some(i) => Upserted(UpdateAt(ps, i, preco, unidade), false)
    case None => Upserted(ps + [Preset(nome, preco, Some(unidade))], true)
  }

  /** The price refresh after a calculation: a preset matching `nome` takes
      the new price and unit; without a match nothing is added. */
  function Refresh(ps: seq<Preset>, nome: string, preco: real, unidade: Unit): (r: seq<Preset>)
    ensures |r| == |ps|
    ensures FindIndex(ps, nome).None? ==> r == ps
  {
    match FindIndex(ps, nome)
    case Some(i) => UpdateAt(ps, i, preco, unidade)
    case None => ps
  }

  /** A refresh of a saved name is exactly the update branch of `Upsert`. */
  lemma RefreshIsUpsertUpdate(ps: seq<Preset>, nome: string, preco: real, unidade: Unit)
    requires FindIndex(ps, nome).Some?
    ensures !Upsert(ps, nome, preco, unidade).created
    ensures Refresh(ps, nome, preco, unidade) == Upsert(ps, nome, preco, unidade).presets
  {
  }

  /** Deletes the presets whose name is exactly `nome`. Unlike every lookup,
      this comparison is case-sensitive. */
  function RemoveByName(ps: seq<Preset>, nome: string): (r: seq<Preset>)
    ensures forall p :: p in r <==> p in ps && p.nome != nome
    ensures (forall i :: 0 <= i < |ps| ==> ps[i].nome != nome) ==> r == ps
  {
    Filter(ps, (p: Preset) => p.nome != nome)
  }

  /** Removal keeps the survivors in their original relative order. */
  lemma RemoveByNameConcat(a: seq<Preset>, b: seq<Preset>, nome: string)
    ensures RemoveByName(a + b, nome) == RemoveByName(a, nome) + RemoveByName(b, nome)
  {
    FilterConcat(a, b, (p: Preset) => p.nome != nome);
  }

  /** Removal by a differently-cased name leaves the matching preset in
      place, although every lookup finds it under that name. */
  lemma RemoveIsCaseSensitive()
    ensures var ps := [Preset("Chocolate", 29.0, None)];
      && Find(ps, "chocolate").Some?
      && RemoveByName(ps, "chocolate") == ps
  {
    var ps := [Preset("Chocolate", 29.0, None)];
    assert Lower("Chocolate") == Lower("chocolate");
  }

  /** The eight presets written on first use, in display order. */
  const Defaults: seq<Preset> := [
    Preset("Chocolate", 29.00, None),
    Preset("Manteiga/Margarina", 17.50, None),
    Preset("Açúcar", 4.09, None),
    Preset("Farinha de Trigo", 4.60, None),
    Preset("Cacau", 19.80, None),
    Preset("Leite em Pó", 12.50, None),
    Preset("Fermento", 8.90, None),
    Preset("Sal", 2.50, None)
  ]

  /** First-use seeding: an empty list becomes the defaults, any other list
      is kept. */
  function Seed(ps: seq<Preset>): (r: seq<Preset>)
    ensures |ps| == 0 ==> r == Defaults
    ensures |ps| > 0 ==> r == ps
    ensures |r| > 0
  {
    if |ps| == 0 then Defaults else ps
  }

  lemma SeedIdempotent(ps: seq<Preset>)
    ensures Seed(Seed(ps)) == Seed(ps)
  {
  }

  /** The defaults have pairwise different names. */
  lemma DefaultsUnique()
    ensures Unique(Defaults)
  {
    forall i, j | 0 <= i < j < |Defaults|
      ensures !SameName(Defaults[i].nome, Defaults[j].nome)
    {
      if LowerChar(Defaults[i].nome[0]) != LowerChar(Defaults[j].nome[0]) {
        DifferAt(Defaults[i].nome, Defaults[j].nome, 0);
      } else {
        DifferAt(Defaults[i].nome, Defaults[j].nome, 1);
      }
    }
  }

  /** Saving keeps names unique. */
  lemma UpsertPreservesUnique(ps: seq<Preset>, nome: string, preco: real, unidade: Unit)
    requires Unique(ps)
    ensures Unique(Upsert(ps, nome, preco, unidade).presets)
  {
    var r := Upsert(ps, nome, preco, unidade).presets;
    if !Upsert(ps, nome, preco, unidade).created {
      var k := FindIndex(ps, nome).value;
      forall i, j | 0 <= i < j < |r|
        ensures !SameName(r[i].nome, r[j].nome)
      {
        assert r[i].nome == ps[i].nome && r[j].nome == ps[j].nome;
      }
    } else {
      forall i, j | 0 <= i < j < |r|
        ensures !SameName(r[i].nome, r[j].nome)
      {
        if j == |ps| {
          assert !Matches(ps[i], nome);
        }
      }
    }
  }

  /** A refresh keeps names unique, since it changes no name. */
  lemma RefreshPreservesUnique(ps: seq<Preset>, nome: string, preco: real, unidade: Unit)
    requires Unique(ps)
    ensures Unique(Refresh(ps, nome, preco, unidade))
  {
    var r := Refresh(ps, nome, preco, unidade);
    forall i | 0 <= i < |r|
      ensures r[i].nome == ps[i].nome
    {
    }
  }

  /** A list with a first element is unique exactly when its tail is and
      the first name differs from every later one. */
  lemma UniqueCons(x: Preset, t: seq<Preset>)
    ensures Unique([x] + t) <==> Unique(t) && forall q :: q in t ==> !SameName(x.nome, q.nome)
  {
    var l := [x] + t;
    if Unique(l) {
      forall i, j | 0 <= i < j < |t|
        ensures !SameName(t[i].nome, t[j].nome)
      {
        assert l[i + 1] == t[i] && l[j + 1] == t[j];
      }
      forall q | q in t
        ensures !SameName(x.nome, q.nome)
      {
        var k :| 0 <= k < |t| && t[k] == q;
        assert l[0] == x && l[k + 1] == q;
        assert !SameName(l[0].nome, l[k + 1].nome);
      }
    }
    if Unique(t) && forall q :: q in t ==> !SameName(x.nome, q.nome) {
      forall i, j | 0 <= i < j < |l|
        ensures !SameName(l[i].nome, l[j].nome)
      {
        assert l[j] == t[j - 1];
        if i > 0 {
          assert l[i] == t[i - 1];
        }
      }
    }
  }

  /** Removal keeps names unique. */
  lemma {:induction false} RemovePreservesUnique(ps: seq<Preset>, nome: string)
    requires Unique(ps)
    ensures Unique(RemoveByName(ps, nome))
  {
    if |ps| > 0 {
      var tail := ps[1..];
      assert ps == [ps[0]] + tail;
      UniqueCons(ps[0], tail);
      RemovePreservesUnique(tail, nome);
      RemoveByNameConcat([ps[0]], tail, nome);
      var rt := RemoveByName(tail, nome);
      if ps[0].nome != nome {
        assert RemoveByName([ps[0]], nome) == [ps[0]];
        UniqueCons(ps[0], rt);
      } else {
        assert RemoveByName([ps[0]], nome) == [];
        assert RemoveByName(ps, nome) == rt;
      }
    }
  }

  /** After saving a name, looking it up gives the price and unit just
      written, whichever branch was taken. */
  lemma UpsertThenFind(ps: seq<Preset>, nome: string, preco: real, unidade: Unit)
    ensures var f := Find(Upsert(ps, nome, preco, unidade).presets, nome);
      f.Some? && f.value.preco == preco && f.value.unidade == Some(unidade)
  {
    var u := Upsert(ps, nome, preco, unidade);
    if u.created {
      var n := |ps|;
      assert u.presets[n] == Preset(nome, preco, Some(unidade));
      assert Matches(u.presets[n], nome);
      assert forall j :: 0 <= j < n ==> u.presets[j] == ps[j];
    } else {
      var i := FindIndex(ps, nome).value;
      assert Matches(u.presets[i], nome) by {
        assert u.presets[i].nome == ps[i].nome;
      }
      assert forall j :: 0 <= j < i ==> u.presets[j] == ps[j];
    }
  }

  /** Saving one name does not change what another name looks up. */
  lemma UpsertOtherName(ps: seq<Preset>, nome: string, preco: real, unidade: Unit, other: string)
    requires !SameName(nome, other)
    ensures Find(Upsert(ps, nome, preco, unidade).presets, other) == Find(ps, other)
  {
    var u := Upsert(ps, nome, preco, unidade);
    var r := u.presets;
    forall j | 0 <= j < |ps|
      ensures r[j].nome == ps[j].nome
      ensures Matches(ps[j], other) ==> r[j] == ps[j]
    {
      if !u.created && j == FindIndex(ps, nome).value {
        assert Matches(ps[j], nome);
      }
    }
    if u.created {
      assert !Matches(r[|ps|], other);
    }
    var a, b := FindIndex(r, other), FindIndex(ps, other);
    if b.Some? {
      assert Matches(r[b.value], other);
      assert a.Some? && a.value <= b.value;
      assert a.value == b.value by {
        if a.value < b.value {
          assert Matches(ps[a.value], other);
        }
      }
    }
  }

  /** One save request. */
  datatype Save = Save(nome: string, preco: real, unidade: Unit)

  /** Applies the saves one after the other, first to last. */
  function UpsertAll(ps: seq<Preset>, saves: seq<Save>): (r: seq<Preset>)
    ensures |ps| <= |r| <= |ps| + |saves|
  {
    if |saves| == 0 then ps
    else
      var s := saves[|saves| - 1];
      Upsert(UpsertAll(ps, saves[..|saves| - 1]), s.nome, s.preco, s.unidade).presets
  }

  /** After any series of saves, each name that was saved looks up the price
      and unit of its most recent save, whatever the starting list. */
  lemma {:induction false} UpsertAllLastWins(ps: seq<Preset>, saves: seq<Save>, k: nat)
    requires k < |saves|
    requires forall m :: k < m < |saves| ==> !SameName(saves[m].nome, saves[k].nome)
    ensures var f := Find(UpsertAll(ps, saves), saves[k].nome);
      f.Some? && f.value.preco == saves[k].preco && f.value.unidade == Some(saves[k].unidade)
  {
    var init, s := saves[..|saves| - 1], saves[|saves| - 1];
    if k == |saves| - 1 {
      UpsertThenFind(UpsertAll(ps, init), s.nome, s.preco, s.unidade);
    } else {
      UpsertAllLastWins(ps, init, k);
      assert !SameName(s.nome, saves[k].nome);
      UpsertOtherName(UpsertAll(ps, init), s.nome, s.preco, s.unidade, saves[k].nome);
    }
  }

  /** Any series of saves keeps names unique. */
  lemma {:induction false} UpsertAllUnique(ps: seq<Preset>, saves: seq<Save>)
    requires Unique(ps)
    ensures Unique(UpsertAll(ps, saves))
  {
    if |saves| > 0 {
      var init, s := saves[..|saves| - 1], saves[|saves| - 1];
      UpsertAllUnique(ps, init);
      UpsertPreservesUnique(UpsertAll(ps, init), s.nome, s.preco, s.unidade);
    }
  }
}
