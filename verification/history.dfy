/** The calculation history: a newest-first log of past calculations that
    keeps at most `Capacity` entries. */
module History {
  import opened Units
  import opened Sequences

  /** One recorded calculation. `id` is the creation timestamp in
      milliseconds and `data` its display form; both are supplied by the
      caller, since the clock is outside the model. */
  datatype HistoryEntry = HistoryEntry(
    id: int,
    ingrediente: string,
    precoPorUnidade: real,
    quantidade: int,
    precoFinal: real,
    unidade: Unit,
    data: string)

  /** The log keeps only the 20 most recent calculations. */
  const Capacity: nat := 20

  function Min(a: int, b: int): int {
    if a < b then a else b
  }

  /** The log cut back to its first `Capacity` entries (`splice(20)` when
      it is longer). */
  function Truncate(h: seq<HistoryEntry>): (r: seq<HistoryEntry>)
    ensures |r| == Min(|h|, Capacity)
    ensures r <= h
    ensures |h| <= Capacity ==> r == h
  {
    if |h| > Capacity then h[..Capacity] else h
  }

  /** Records `e` as the newest calculation. The new entry comes first, the
      older entries follow in their previous order, and only the oldest ones
      beyond the capacity are dropped, even when the stored log was already
      longer than the capacity. */
  function Add(h: seq<HistoryEntry>, e: HistoryEntry): (r: seq<HistoryEntry>)
    ensures |r| == Min(|h| + 1, Capacity)
    ensures r[0] == e
    ensures r[1..] == h[..|r| - 1]
  {
    Truncate([e] + h)
  }

  /** Deletes every entry with identifier `id`; all others keep their
      relative order (see `RemoveByIdConcat`). */
  function RemoveById(h: seq<HistoryEntry>, id: int): (r: seq<HistoryEntry>)
    ensures forall e :: e in r <==> e in h && e.id != id
    ensures (forall i :: 0 <= i < |h| ==> h[i].id != id) ==> r == h
  {
    Filter(h, (e: HistoryEntry) => e.id != id)
  }

  /** Removal works piecewise: the survivors of `a` stay in front of the
      survivors of `b`, so relative order is preserved. */
  lemma RemoveByIdConcat(a: seq<HistoryEntry>, b: seq<HistoryEntry>, id: int)
    ensures RemoveById(a + b, id) == RemoveById(a, id) + RemoveById(b, id)
  {
    FilterConcat(a, b, (e: HistoryEntry) => e.id != id);
  }

  /** Adding an entry with a fresh identifier and then removing it gives
      back the old log, minus the oldest entry if the add pushed it out. */
  lemma AddThenRemove(h: seq<HistoryEntry>, e: HistoryEntry)
    requires forall i :: 0 <= i < |h| ==> h[i].id != e.id
    ensures RemoveById(Add(h, e), e.id) == h[..Min(|h|, Capacity - 1)]
    ensures |h| < Capacity ==> RemoveById(Add(h, e), e.id) == h
  {
    var r := Add(h, e);
    var k := Min(|h|, Capacity - 1);
    assert r == [e] + h[..k];
    RemoveByIdConcat([e], h[..k], e.id);
    assert RemoveById([e], e.id) == [];
    assert RemoveById(h[..k], e.id) == h[..k];
  }

  /** Adds `es` one after the other, first to last. */
  function AddAll(h: seq<HistoryEntry>, es: seq<HistoryEntry>): (r: seq<HistoryEntry>)
    ensures |r| <= Capacity || (|es| == 0 && r == h)
  {
    if |es| == 0 then h else Add(AddAll(h, es[..|es| - 1]), es[|es| - 1])
  }

  lemma TruncateAbsorbs(a: seq<HistoryEntry>, b: seq<HistoryEntry>)
    ensures Truncate(a + Truncate(b)) == Truncate(a + b)
  {
    if |b| > Capacity {
      var t := b[..Capacity];
      if |a| >= Capacity {
        assert (a + t)[..Capacity] == a[..Capacity] == (a + b)[..Capacity];
      } else {
        assert (a + t)[..Capacity] == (a + b)[..Capacity];
      }
    }
  }

  lemma ReverseSnoc(es: seq<HistoryEntry>)
    requires |es| > 0
    ensures Reverse(es) == [es[|es| - 1]] + Reverse(es[..|es| - 1])
  {
  }

  /** After any series of adds the log holds the newest entries first: the
      added entries in reverse order of addition, then the previous log, cut
      to the capacity. */
  lemma {:induction false} AddAllNewestFirst(h: seq<HistoryEntry>, es: seq<HistoryEntry>)
    requires |es| > 0 || |h| <= Capacity
    ensures AddAll(h, es) == Truncate(Reverse(es) + h)
  {
    if |es| == 0 {
      assert Reverse(es) + h == h;
    } else {
      var init, last := es[..|es| - 1], es[|es| - 1];
      var rest := Reverse(init) + h;
      ReverseSnoc(es);
      assert Reverse(es) + h == [last] + rest;
      if |init| > 0 || |h| <= Capacity {
        AddAllNewestFirst(h, init);
        TruncateAbsorbs([last], rest);
      } else {
        assert init == [];
        assert rest == h;
      }
    }
  }
}
