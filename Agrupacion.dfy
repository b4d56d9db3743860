/**
 * The grouping stage of `generar_plan`: events grouped by (program, date)
 * with the summed count and the most frequent start time of each group, and
 * the one start time chosen per program from those groups.
 */
module Agrupacion {
  import opened Comun
  import opened Sumas

  function ProgramaDe(e: Evento): string { e.programa }

  /** The grouping key `["Título Programa", "Fecha"]`. */
  function ClaveDe(e: Evento): (string, Fecha) { (e.programa, e.fecha) }

  /** One row of `df_grouped`: a (program, date) pair with its `Inserciones` and `Hora`. */
  datatype Grupo = Grupo(programa: string, fecha: Fecha, inserciones: nat, hora: Option<Hora>)

  function ClaveGrupo(g: Grupo): (string, Fecha) { (g.programa, g.fecha) }

  function HoraDe(e: Evento): Option<Hora> { e.hora }

  // ---------------------------------------------------------------------------
  // The most frequent start time

  /** The start times present among `evs`, in event order; absent ones are skipped. */
  function Horas(evs: seq<Evento>): (hs: seq<Hora>)
    ensures forall e :: e in evs && e.hora.Some? ==> e.hora.value in hs
    ensures forall t :: t in hs ==> exists e :: e in evs && e.hora == Some(t)
  {
    if evs == [] then []
    else
      assert forall e :: e in evs <==> e == evs[0] || e in evs[1..];
      match evs[0].hora
      case Some(t) => [t] + Horas(evs[1..])
      case None => Horas(evs[1..])
  }

  /** Each start time occurs in `Horas(evs)` as often as there are events starting at it, which is what `mode()` counts. */
  lemma {:induction false} FrecuenciasDeHoras(evs: seq<Evento>)
    ensures forall t :: multiset(Horas(evs))[t] == |Filtrar(evs, HoraDe, Some(t))|
  {
    if evs != [] {
      FrecuenciasDeHoras(evs[1..]);
      FiltrarPrimero(evs, HoraDe);
      var resto := Horas(evs[1..]);
      match evs[0].hora
      case Some(t) =>
        assert Horas(evs) == [t] + resto;
        assert forall u :: multiset([t] + resto)[u] == multiset([t])[u] + multiset(resto)[u];
      case None =>
        assert Horas(evs) == resto;
    }
  }

  /** The start times present in group `k` of `evs`. */
  function HorasGrupo(evs: seq<Evento>, k: (string, Fecha)): seq<Hora> {
    Horas(Filtrar(evs, ClaveDe, k))
  }

  function Frecuencia(hs: seq<Hora>, t: Hora): nat {
    multiset(hs)[t]
  }

  /** `a` ranks at least as high as `b` as a mode: more frequent, or as frequent and not later. */
  predicate Supera(hs: seq<Hora>, a: Hora, b: Hora) {
    Frecuencia(hs, a) > Frecuencia(hs, b)
    || (Frecuencia(hs, a) == Frecuencia(hs, b) && Segundos(a) <= Segundos(b))
  }

  /**
   * `t` is the value `x.mode().iloc[0]` picks: one of the most frequent
   * times, and the earliest of them, since pandas returns the modes sorted.
   */
  predicate EsModa(hs: seq<Hora>, t: Hora) {
    t in hs && forall u :: u in hs ==> Supera(hs, t, u)
  }

  /** The candidate in `cands` that ranks highest as a mode of `hs`. */
  function MejorEntre(cands: seq<Hora>, hs: seq<Hora>): (r: Option<Hora>)
    ensures r.None? <==> cands == []
    ensures r.Some? ==> r.value in cands && forall c :: c in cands ==> Supera(hs, r.value, c)
  {
    if cands == [] then None
    else
      assert forall c :: c in cands <==> c == cands[0] || c in cands[1..];
      match MejorEntre(cands[1..], hs)
      case None => Some(cands[0])
      case Some(b) => if Supera(hs, cands[0], b) then Some(cands[0]) else Some(b)
  }

  /** `x.mode().iloc[0] if not x.mode().empty else None`. */
  function Moda(hs: seq<Hora>): (r: Option<Hora>)
    ensures r.None? <==> hs == []
    ensures r.Some? ==> EsModa(hs, r.value)
  {
    MejorEntre(hs, hs)
  }

  /** Among valid times there is one mode only, so `Moda` is the one the source picks. */
  lemma ModaUnica(hs: seq<Hora>, t: Hora)
    requires forall u :: u in hs ==> HoraValida(u)
    requires EsModa(hs, t)
    ensures Moda(hs) == Some(t)
  {
    var m := Moda(hs).value;
    assert Supera(hs, t, m) && Supera(hs, m, t);
    SegundosInyectiva(t, m);
  }

  // ---------------------------------------------------------------------------
  // Grouping

  /** Every (program, date) key of the events, once. */
  function Claves(evs: seq<Evento>): (ks: seq<(string, Fecha)>)
    ensures Distintos(ks)
    ensures (set k | k in ks) == (set e | e in evs :: ClaveDe(e))
  {
    var todas := seq(|evs|, i requires 0 <= i < |evs| => ClaveDe(evs[i]));
    var ks := Unicos(todas);
    MismosElementos(ks, todas);
    ClavesDeTodas(evs, todas);
    ks
  }

  lemma ClavesDeTodas(evs: seq<Evento>, todas: seq<(string, Fecha)>)
    requires |todas| == |evs| && forall i | 0 <= i < |evs| :: todas[i] == ClaveDe(evs[i])
    ensures (set k | k in todas) == (set e | e in evs :: ClaveDe(e))
  {
    var deEventos := set e | e in evs :: ClaveDe(e);
    forall k | k in todas ensures k in deEventos {
      var j :| 0 <= j < |todas| && todas[j] == k;
      assert evs[j] in evs;
    }
    forall k | k in deEventos ensures k in todas {
      var e :| e in evs && ClaveDe(e) == k;
      var j :| 0 <= j < |evs| && evs[j] == e;
      assert todas[j] == k;
    }
  }

  /** The group of key `k`: the summed count and the mode of the start times of its events. */
  function GrupoDe(evs: seq<Evento>, k: (string, Fecha)): (g: Grupo)
    ensures ClaveGrupo(g) == k
  {
    Grupo(k.0, k.1, SumaPor(evs, ClaveDe, k), Moda(HorasGrupo(evs, k)))
  }

  /**
   * `gs` groups `evs` by (program, date): one group per pair present in the
   * events, no other, each once; each group's count is the sum of the counts
   * of its events and its time the mode of their start times.
   */
  ghost predicate EsAgrupacion(evs: seq<Evento>, gs: seq<Grupo>) {
    && (forall i, j :: 0 <= i < j < |gs| ==> ClaveGrupo(gs[i]) != ClaveGrupo(gs[j]))
    && (set g | g in gs :: ClaveGrupo(g)) == (set e | e in evs :: ClaveDe(e))
    && (forall g :: g in gs ==> g.inserciones == SumaPor(evs, ClaveDe, ClaveGrupo(g)))
    && (forall g :: g in gs ==> g.hora == Moda(HorasGrupo(evs, ClaveGrupo(g))))
  }

  /**
   * `df_filtrado.groupby(["Título Programa", "Fecha"]).agg(...)`: one group
   * per (program, date) pair present in the events, no other, each once;
   * its `Inserciones` is the sum of the counts of its events and its `Hora`
   * the mode of their start times (absent when none of them has one).
   */
  function Agrupar(evs: seq<Evento>): (gs: seq<Grupo>)
    ensures EsAgrupacion(evs, gs)
  {
    var ks := Claves(evs);
    var gs := seq(|ks|, i requires 0 <= i < |ks| => GrupoDe(evs, ks[i]));
    AgruparCubre(evs, ks, gs);
    gs
  }

  /** Building one group per listed key: the group keys are the event keys, and each group is the one of its key. */
  lemma AgruparCubre(evs: seq<Evento>, ks: seq<(string, Fecha)>, gs: seq<Grupo>)
    requires (set k | k in ks) == (set e | e in evs :: ClaveDe(e))
    requires |gs| == |ks| && forall i :: 0 <= i < |ks| ==> gs[i] == GrupoDe(evs, ks[i])
    ensures (set g | g in gs :: ClaveGrupo(g)) == (set e | e in evs :: ClaveDe(e))
    ensures forall g | g in gs :: g == GrupoDe(evs, ClaveGrupo(g))
  {
    var claves := set g | g in gs :: ClaveGrupo(g);
    forall k | k in ks ensures k in claves {
      var i :| 0 <= i < |ks| && ks[i] == k;
      assert gs[i] in gs;
    }
    forall k | k in claves ensures k in ks {
      var g :| g in gs && ClaveGrupo(g) == k;
      var i :| 0 <= i < |gs| && gs[i] == g;
    }
    assert claves == set k | k in ks;
    forall g | g in gs ensures g == GrupoDe(evs, ClaveGrupo(g)) {
      var i :| 0 <= i < |gs| && gs[i] == g;
    }
  }

  // ---------------------------------------------------------------------------
  // One start time per program

  predicate GrupoConHora(g: Grupo, p: string) {
    g.programa == p && g.hora.Some?
  }

  /** The position of the earliest-dated group of `p` that has a start time. */
  function PrimerConHora(gs: seq<Grupo>, p: string): (r: Option<nat>)
    ensures r.Some? ==> r.value < |gs| && GrupoConHora(gs[r.value], p)
    ensures r.Some? ==> forall j :: 0 <= j < |gs| && GrupoConHora(gs[j], p) ==> FechaLe(gs[r.value].fecha, gs[j].fecha)
    ensures r.None? ==> forall j :: 0 <= j < |gs| ==> !GrupoConHora(gs[j], p)
  {
    if gs == [] then None
    else
      assert forall j :: 1 <= j < |gs| ==> gs[j] == gs[1..][j - 1];
      match PrimerConHora(gs[1..], p)
      case None => if GrupoConHora(gs[0], p) then Some(0) else None
      case Some(k) =>
        if GrupoConHora(gs[0], p) && FechaLe(gs[0].fecha, gs[k + 1].fecha) then Some(0) else Some(k + 1)
  }

  /**
   * `df_grouped.groupby("Título Programa")["Hora"].first()` for program `p`:
   * the groups are in date order and `first()` skips absent values, so this
   * is the `Hora` of the earliest-dated group of `p` that has one.
   */
  function HoraInicio(gs: seq<Grupo>, p: string): Option<Hora> {
    match PrimerConHora(gs, p)
    case Some(i) => gs[i].hora
    case None => None
  }

  /**
   * The start time shown for program `p`: absent exactly when none of `p`'s
   * events has a start time; otherwise the mode of the start times of `p`'s
   * events on the earliest date on which one of them has a start time.
   */
  ghost predicate EsHoraRepresentativa(evs: seq<Evento>, p: string, h: Option<Hora>) {
    && (h.None? <==> forall e :: e in evs && e.programa == p ==> e.hora.None?)
    && (h.Some? ==>
          exists e :: e in evs && e.programa == p && e.hora.Some?
            && EsModa(HorasGrupo(evs, ClaveDe(e)), h.value)
            && forall e' :: e' in evs && e'.programa == p && e'.hora.Some? ==> FechaLe(e.fecha, e'.fecha))
  }

  /** The group an event belongs to. */
  lemma GrupoDeEvento(evs: seq<Evento>, gs: seq<Grupo>, e: Evento) returns (j: nat)
    requires EsAgrupacion(evs, gs)
    requires e in evs
    ensures j < |gs| && ClaveGrupo(gs[j]) == ClaveDe(e)
  {
    var claves := set g | g in gs :: ClaveGrupo(g);
    assert claves == (set e | e in evs :: ClaveDe(e));
    assert ClaveDe(e) in claves;
    var g :| g in gs && ClaveGrupo(g) == ClaveDe(e);
    j :| 0 <= j < |gs| && gs[j] == g;
  }

  /** A group has a time exactly when one of its events has one. */
  lemma HoraDeGrupo(evs: seq<Evento>, g: Grupo)
    requires g.hora == Moda(HorasGrupo(evs, ClaveGrupo(g)))
    ensures g.hora.None? ==> forall e :: e in evs && ClaveDe(e) == ClaveGrupo(g) ==> e.hora.None?
  {
    var hs := HorasGrupo(evs, ClaveGrupo(g));
    if g.hora.None? {
      assert hs == [];
      forall e | e in evs && ClaveDe(e) == ClaveGrupo(g) ensures e.hora.None? {
        assert e in Filtrar(evs, ClaveDe, ClaveGrupo(g));
      }
    }
  }

  /** An event of a group with a time that has a time itself. */
  lemma EventoConHora(evs: seq<Evento>, g: Grupo) returns (e: Evento)
    requires g.hora == Moda(HorasGrupo(evs, ClaveGrupo(g)))
    requires g.hora.Some?
    ensures e in evs && ClaveDe(e) == ClaveGrupo(g) && e.hora.Some?
  {
    var hs := HorasGrupo(evs, ClaveGrupo(g));
    e :| e in Filtrar(evs, ClaveDe, ClaveGrupo(g)) && e.hora == Some(hs[0]);
  }

  lemma SinHoraInicio(evs: seq<Evento>, gs: seq<Grupo>, p: string)
    requires EsAgrupacion(evs, gs)
    requires PrimerConHora(gs, p).None?
    ensures forall e :: e in evs && e.programa == p ==> e.hora.None?
  {
    forall e | e in evs && e.programa == p ensures e.hora.None? {
      var j := GrupoDeEvento(evs, gs, e);
      HoraDeGrupo(evs, gs[j]);
    }
  }

  lemma ConHoraInicio(evs: seq<Evento>, gs: seq<Grupo>, p: string, i: nat)
    requires EsAgrupacion(evs, gs)
    requires PrimerConHora(gs, p) == Some(i)
    ensures exists e :: e in evs && e.programa == p && e.hora.Some?
              && EsModa(HorasGrupo(evs, ClaveDe(e)), gs[i].hora.value)
              && forall e' :: e' in evs && e'.programa == p && e'.hora.Some? ==> FechaLe(e.fecha, e'.fecha)
  {
    var e := EventoConHora(evs, gs[i]);
    forall e' | e' in evs && e'.programa == p && e'.hora.Some? ensures FechaLe(e.fecha, e'.fecha) {
      var j := GrupoDeEvento(evs, gs, e');
      HoraDeGrupo(evs, gs[j]);
      assert GrupoConHora(gs[j], p);
    }
  }

  /** The time the grouping picks for each program is the representative one. */
  lemma HoraInicioEsRepresentativa(evs: seq<Evento>, gs: seq<Grupo>, p: string)
    requires EsAgrupacion(evs, gs)
    ensures EsHoraRepresentativa(evs, p, HoraInicio(gs, p))
  {
    match PrimerConHora(gs, p)
    case None => SinHoraInicio(evs, gs, p);
    case Some(i) => ConHoraInicio(evs, gs, p, i);
  }

  /** At most one time is representative for a program whose times are all valid. */
  lemma HoraRepresentativaUnica(evs: seq<Evento>, p: string, h1: Option<Hora>, h2: Option<Hora>)
    requires forall e :: e in evs ==> EventoValido(e)
    requires EsHoraRepresentativa(evs, p, h1) && EsHoraRepresentativa(evs, p, h2)
    ensures h1 == h2
  {
    if h1.Some? {
      var e1 := Testigo(evs, p, h1);
      var e2 := Testigo(evs, p, h2);
      FechaLeAntisimetrica(e1.fecha, e2.fecha);
      var k := ClaveDe(e1);
      assert ClaveDe(e2) == k;
      var hs := HorasGrupo(evs, k);
      assert EsModa(hs, h1.value) && EsModa(hs, h2.value);
      HorasValidasDeGrupo(evs, k);
      ModaUnica(hs, h1.value);
      ModaUnica(hs, h2.value);
    }
  }

  /** The event on the earliest timed date that a representative time comes from. */
  lemma Testigo(evs: seq<Evento>, p: string, h: Option<Hora>) returns (e: Evento)
    requires EsHoraRepresentativa(evs, p, h) && h.Some?
    ensures e in evs && e.programa == p && e.hora.Some?
    ensures EsModa(HorasGrupo(evs, ClaveDe(e)), h.value)
    ensures forall e' :: e' in evs && e'.programa == p && e'.hora.Some? ==> FechaLe(e.fecha, e'.fecha)
  {
    e :| e in evs && e.programa == p && e.hora.Some?
      && EsModa(HorasGrupo(evs, ClaveDe(e)), h.value)
      && forall e' :: e' in evs && e'.programa == p && e'.hora.Some? ==> FechaLe(e.fecha, e'.fecha);
  }

  /** The start times of a group of valid events are valid. */
  lemma HorasValidasDeGrupo(evs: seq<Evento>, k: (string, Fecha))
    requires forall e :: e in evs ==> EventoValido(e)
    ensures forall u | u in HorasGrupo(evs, k) :: HoraValida(u)
  {
    forall u | u in HorasGrupo(evs, k) ensures HoraValida(u) {
      var e :| e in Filtrar(evs, ClaveDe, k) && e.hora == Some(u);
    }
  }

  /** A representative time is one of the program's own start times, so it is a valid one. */
  lemma HoraRepresentativaValida(evs: seq<Evento>, p: string, h: Option<Hora>)
    requires forall e | e in evs :: EventoValido(e)
    requires EsHoraRepresentativa(evs, p, h)
    ensures h.Some? ==> HoraValida(h.value)
  {
    if h.Some? {
      var e := Testigo(evs, p, h);
      HorasValidasDeGrupo(evs, ClaveDe(e));
    }
  }
}
