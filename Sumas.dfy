/**
 * Sums of `Inserciones` over insertion events, and the regrouping fact that
 * the pivot's totals rest on: summing the per-key sums over a list that holds
 * every key once gives the sum over all events.
 */
module Sumas {
  import opened Comun

  /** Sum of the counts of all events. */
  function Suma(evs: seq<Evento>): nat {
    if evs == [] then 0 else evs[0].inserciones + Suma(evs[1..])
  }

  /** The events whose `clave` is `k`, in their original order. */
  function Filtrar<K(==)>(evs: seq<Evento>, clave: Evento -> K, k: K): (r: seq<Evento>)
    ensures |r| <= |evs|
    ensures forall e :: e in r <==> e in evs && clave(e) == k
  {
    if evs == [] then []
    else if clave(evs[0]) == k then [evs[0]] + Filtrar(evs[1..], clave, k)
    else Filtrar(evs[1..], clave, k)
  }

  /** Sum of the counts of the events whose `clave` is `k`. */
  function SumaPor<K(==)>(evs: seq<Evento>, clave: Evento -> K, k: K): nat {
    Suma(Filtrar(evs, clave, k))
  }

  /** The per-key sums added up over the keys `ks`. */
  function SumaSobre<K(==)>(evs: seq<Evento>, clave: Evento -> K, ks: seq<K>): nat {
    if ks == [] then 0 else SumaPor(evs, clave, ks[0]) + SumaSobre(evs, clave, ks[1..])
  }

  /** The filter on every key at once, peeled off its first event. */
  lemma FiltrarPrimero<K>(evs: seq<Evento>, clave: Evento -> K)
    requires evs != []
    ensures forall k :: |Filtrar(evs, clave, k)| == (if clave(evs[0]) == k then 1 else 0) + |Filtrar(evs[1..], clave, k)|
  {
  }

  /** Filtering on two keys gives the same events in either order. */
  lemma {:induction false} FiltrarConmuta<K, J>(evs: seq<Evento>, c1: Evento -> K, k1: K, c2: Evento -> J, k2: J)
    ensures Filtrar(Filtrar(evs, c1, k1), c2, k2) == Filtrar(Filtrar(evs, c2, k2), c1, k1)
  {
    if evs != [] {
      FiltrarConmuta(evs[1..], c1, k1, c2, k2);
    }
  }

  /** Filtering first on a key implied by a second one changes nothing. */
  lemma {:induction false} FiltrarImplicado<K, J>(evs: seq<Evento>, c1: Evento -> K, k1: K, c2: Evento -> J, k2: J)
    requires forall e | e in evs :: c2(e) == k2 ==> c1(e) == k1
    ensures Filtrar(Filtrar(evs, c1, k1), c2, k2) == Filtrar(evs, c2, k2)
  {
    if evs != [] {
      FiltrarImplicado(evs[1..], c1, k1, c2, k2);
    }
  }

  /** No event carries key `k`: the filter keeps nothing. */
  lemma {:induction false} FiltrarVacio<K>(evs: seq<Evento>, clave: Evento -> K, k: K)
    requires forall e | e in evs :: clave(e) != k
    ensures Filtrar(evs, clave, k) == []
  {
    if evs != [] {
      FiltrarVacio(evs[1..], clave, k);
    }
  }

  /** Peeling the first event off every per-key sum at once. */
  lemma {:induction false} SumaSobrePrimero<K>(evs: seq<Evento>, clave: Evento -> K, ks: seq<K>)
    requires evs != [] && Distintos(ks)
    ensures SumaSobre(evs, clave, ks)
            == (if clave(evs[0]) in ks then evs[0].inserciones else 0) + SumaSobre(evs[1..], clave, ks)
  {
    if ks != [] {
      assert Distintos(ks[1..]);
      SumaSobrePrimero(evs, clave, ks[1..]);
      assert clave(evs[0]) in ks <==> clave(evs[0]) == ks[0] || clave(evs[0]) in ks[1..];
      assert clave(evs[0]) == ks[0] ==> clave(evs[0]) !in ks[1..];
    }
  }

  /**
   * Regrouping: when `ks` lists every key of `evs` once, the per-key sums over
   * `ks` add up to the sum over all events.
   */
  lemma {:induction false} Particion<K>(evs: seq<Evento>, clave: Evento -> K, ks: seq<K>)
    requires Distintos(ks)
    requires forall e | e in evs :: clave(e) in ks
    ensures SumaSobre(evs, clave, ks) == Suma(evs)
  {
    if evs == [] {
      SumaSobreVacia(clave, ks);
    } else {
      SumaSobrePrimero(evs, clave, ks);
      Particion(evs[1..], clave, ks);
    }
  }

  lemma {:induction false} SumaSobreVacia<K>(clave: Evento -> K, ks: seq<K>)
    ensures SumaSobre([], clave, ks) == 0
  {
    if ks != [] {
      SumaSobreVacia(clave, ks[1..]);
    }
  }
}
