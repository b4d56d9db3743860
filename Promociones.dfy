/**
 * `filter_promotions`: the products that have at least one insertion event
 * inside an inclusive date window, each once, in order of first occurrence.
 */
module Promociones {
  import opened Comun

  /** `start <= Fecha <= end`, both ends inclusive. */
  predicate EnVentana(e: Evento, inicio: Fecha, fin: Fecha) {
    FechaLe(inicio, e.fecha) && FechaLe(e.fecha, fin)
  }

  /** Event `e` falls in the window and names product `p`. */
  predicate Lleva(e: Evento, inicio: Fecha, fin: Fecha, p: string) {
    EnVentana(e, inicio, fin) && e.producto == Some(p)
  }

  /** `filtered["Producto"].dropna()`: the products of the events in the window, in event order. */
  function ProductosEnVentana(evs: seq<Evento>, inicio: Fecha, fin: Fecha): (r: seq<string>)
    ensures forall p :: p in r <==> exists i :: 0 <= i < |evs| && Lleva(evs[i], inicio, fin, p)
  {
    if evs == [] then []
    else
      var resto := ProductosEnVentana(evs[1..], inicio, fin);
      assert forall i :: 1 <= i < |evs| ==> evs[i] == evs[1..][i - 1];
      assert forall i :: 0 <= i < |evs| - 1 ==> evs[1..][i] == evs[i + 1];
      if EnVentana(evs[0], inicio, fin) && evs[0].producto.Some? then [evs[0].producto.value] + resto
      else resto
  }

  /** Index of the first event in the window that names `p`. */
  function PrimerEvento(evs: seq<Evento>, inicio: Fecha, fin: Fecha, p: string): (k: nat)
    requires exists i :: 0 <= i < |evs| && Lleva(evs[i], inicio, fin, p)
    ensures k < |evs| && Lleva(evs[k], inicio, fin, p)
    ensures forall i :: 0 <= i < k ==> !Lleva(evs[i], inicio, fin, p)
  {
    if Lleva(evs[0], inicio, fin, p) then 0
    else
      var i :| 0 <= i < |evs| && Lleva(evs[i], inicio, fin, p);
      assert evs[1..][i - 1] == evs[i];
      1 + PrimerEvento(evs[1..], inicio, fin, p)
  }

  /** First occurrences keep their order when the events are reduced to their products. */
  lemma {:induction false} OrdenDePrimeras(evs: seq<Evento>, inicio: Fecha, fin: Fecha, p: string, q: string)
    requires p in ProductosEnVentana(evs, inicio, fin) && q in ProductosEnVentana(evs, inicio, fin)
    ensures Primera(ProductosEnVentana(evs, inicio, fin), p) < Primera(ProductosEnVentana(evs, inicio, fin), q)
            <==> PrimerEvento(evs, inicio, fin, p) < PrimerEvento(evs, inicio, fin, q)
  {
    var ps, resto := ProductosEnVentana(evs, inicio, fin), ProductosEnVentana(evs[1..], inicio, fin);
    if Lleva(evs[0], inicio, fin, p) || Lleva(evs[0], inicio, fin, q) {
    } else if EnVentana(evs[0], inicio, fin) && evs[0].producto.Some? {
      assert ps == [evs[0].producto.value] + resto;
      assert p in resto && q in resto;
      OrdenDePrimeras(evs[1..], inicio, fin, p, q);
    } else {
      OrdenDePrimeras(evs[1..], inicio, fin, p, q);
    }
  }

  /**
   * `filter_promotions(df, start_date, end_date)`: each product named by an
   * event inside the window exactly once, nothing else, and listed in the
   * order in which their first events inside the window appear.
   */
  function FiltrarPromociones(evs: seq<Evento>, inicio: Fecha, fin: Fecha): (r: seq<string>)
    ensures Distintos(r)
    ensures forall p :: p in r <==> exists i :: 0 <= i < |evs| && Lleva(evs[i], inicio, fin, p)
    ensures forall k :: 0 <= k < |r| ==> exists i :: 0 <= i < |evs| && Lleva(evs[i], inicio, fin, r[k])
    ensures forall i, j :: 0 <= i < j < |r| ==> PrimerEvento(evs, inicio, fin, r[i]) < PrimerEvento(evs, inicio, fin, r[j])
  {
    var ps := ProductosEnVentana(evs, inicio, fin);
    var r := Unicos(ps);
    MismosElementos(r, ps);
    PrimerasEnOrden(evs, inicio, fin, ps, r);
    r
  }

  /** Listing the products by first occurrence lists them by first event in the window. */
  lemma PrimerasEnOrden(evs: seq<Evento>, inicio: Fecha, fin: Fecha, ps: seq<string>, r: seq<string>)
    requires ps == ProductosEnVentana(evs, inicio, fin)
    requires forall k :: 0 <= k < |r| ==> r[k] in ps
    requires forall i, j :: 0 <= i < j < |r| ==> Primera(ps, r[i]) < Primera(ps, r[j])
    ensures forall k :: 0 <= k < |r| ==> exists i :: 0 <= i < |evs| && Lleva(evs[i], inicio, fin, r[k])
    ensures forall i, j :: 0 <= i < j < |r| ==> PrimerEvento(evs, inicio, fin, r[i]) < PrimerEvento(evs, inicio, fin, r[j])
  {
    forall k | 0 <= k < |r| ensures exists i :: 0 <= i < |evs| && Lleva(evs[i], inicio, fin, r[k]) {
      assert r[k] in ProductosEnVentana(evs, inicio, fin);
      var i :| 0 <= i < |evs| && Lleva(evs[i], inicio, fin, r[k]);
    }
    forall i, j | 0 <= i < j < |r|
      ensures PrimerEvento(evs, inicio, fin, r[i]) < PrimerEvento(evs, inicio, fin, r[j])
    {
      OrdenDePrimeras(evs, inicio, fin, r[i], r[j]);
    }
  }
}
