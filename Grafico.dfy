/**
 * `preparar_dataset_grafico`: the chart dataset drawn from a plan. The
 * `Total` row is dropped, every program row keeps its title, start time and
 * total, gains its time slot, and the rows are sorted by start time with the
 * programs that have none at the end.
 */
module Grafico {
  import opened Comun
  import opened Franjas
  import opened Agrupacion
  import opened Pivote
  import opened Plan

  /** One row of the chart: `Título Programa`, `Hora Inicio`, `Total`, `Franja Horaria`. */
  datatype FilaGrafico = FilaGrafico(titulo: string, hora: Option<Hora>, total: Celda, franja: string)

  /**
   * `sort_values("Hora Inicio")`: start times ascending; a missing time is
   * NA and goes last, after every time of day (all below 86400 seconds).
   */
  function ClaveGrafico(x: FilaGrafico): int {
    match x.hora
    case None => 86400
    case Some(t) => Segundos(t)
  }

  /** Start times as the plan holds them: valid clock times or missing. */
  predicate HorasValidas(filas: seq<Fila>) {
    forall f | f in filas && f.hora.Some? :: HoraValida(f.hora.value)
  }

  /** The chart columns of one program row, with `asignar_franja_horaria` applied to its start time. */
  function AFilaGrafico(f: Fila): FilaGrafico
    requires f.etiqueta.Programa?
    requires f.hora.Some? ==> HoraValida(f.hora.value)
  {
    FilaGrafico(f.etiqueta.titulo, f.hora, f.total, AsignarFranjaHoraria(f.hora))
  }

  /** Program rows projected to chart rows, position by position. */
  function Proyectar(filas: seq<Fila>): (r: seq<FilaGrafico>)
    requires forall i | 0 <= i < |filas| :: filas[i].etiqueta.Programa?
    requires forall i | 0 <= i < |filas| :: filas[i].hora.Some? ==> HoraValida(filas[i].hora.value)
    ensures |r| == |filas|
    ensures forall i | 0 <= i < |filas| :: r[i] == AFilaGrafico(filas[i])
  {
    seq(|filas|, i requires 0 <= i < |filas| => AFilaGrafico(filas[i]))
  }

  /**
   * The chart dataset of `plan`: sorted by start time, a permutation of its
   * program rows' projections, one chart row for each program row and
   * nothing else, each carrying the slot of its own start time.
   */
  function PrepararDatasetGrafico(plan: Tabla): (r: seq<FilaGrafico>)
    requires HorasValidas(plan.filas)
    ensures Ordenada(r, ClaveGrafico)
    ensures |r| == |FilasDePrograma(plan.filas)|
    ensures multiset(r) == multiset(Proyectar(FilasDePrograma(plan.filas)))
    ensures forall f | f in plan.filas && f.etiqueta.Programa? :: AFilaGrafico(f) in r
    ensures forall x | x in r :: exists f :: f in plan.filas && f.etiqueta.Programa? && x == AFilaGrafico(f)
    ensures forall x | x in r :: x.franja == AsignarFranjaHoraria(x.hora)
  {
    var ps := FilasDePrograma(plan.filas);
    assert forall i | 0 <= i < |ps| :: ps[i] in plan.filas;
    var q := Proyectar(ps);
    var r := Ordenar(q, ClaveGrafico);
    assert |r| == |multiset(r)| == |multiset(q)| == |q|;
    MiembrosDelGrafico(plan.filas, ps, q, r);
    r
  }

  /** A permutation of the projected program rows holds each program row's projection and nothing else. */
  lemma MiembrosDelGrafico(filas: seq<Fila>, ps: seq<Fila>, q: seq<FilaGrafico>, r: seq<FilaGrafico>)
    requires HorasValidas(filas)
    requires forall f :: f in ps <==> f in filas && f.etiqueta.Programa?
    requires |q| == |ps| && forall i | 0 <= i < |ps| :: ps[i].etiqueta.Programa? && q[i] == AFilaGrafico(ps[i])
    requires multiset(r) == multiset(q)
    ensures forall f | f in filas && f.etiqueta.Programa? :: AFilaGrafico(f) in r
    ensures forall x | x in r :: exists f :: f in filas && f.etiqueta.Programa? && x == AFilaGrafico(f)
  {
    forall f | f in filas && f.etiqueta.Programa? ensures AFilaGrafico(f) in r {
      var i :| 0 <= i < |ps| && ps[i] == f;
      assert q[i] in multiset(q);
    }
    forall x | x in r ensures exists f :: f in filas && f.etiqueta.Programa? && x == AFilaGrafico(f) {
      assert x in multiset(q);
      var i :| 0 <= i < |q| && q[i] == x;
      assert ps[i] in ps;
    }
  }

  // ---------------------------------------------------------------------------
  // The chart of a plan

  /** Keeping only the program rows keeps their labels distinct. */
  lemma {:induction false} ProgramasDistintos(filas: seq<Fila>)
    requires forall i, j :: 0 <= i < j < |filas| ==> filas[i].etiqueta != filas[j].etiqueta
    ensures forall i, j :: 0 <= i < j < |FilasDePrograma(filas)| ==>
              FilasDePrograma(filas)[i].etiqueta != FilasDePrograma(filas)[j].etiqueta
  {
    if filas != [] {
      var resto := FilasDePrograma(filas[1..]);
      ProgramasDistintos(filas[1..]);
      if filas[0].etiqueta.Programa? {
        var r := [filas[0]] + resto;
        forall i, j | 0 <= i < j < |r| ensures r[i].etiqueta != r[j].etiqueta {
          if i == 0 {
            assert r[j] == resto[j - 1] && r[j] in filas[1..];
          } else {
            assert r[i] == resto[i - 1] && r[j] == resto[j - 1];
          }
        }
      }
    }
  }

  /** The projected rows of distinct program rows have distinct titles. */
  lemma TitulosDistintos(ps: seq<Fila>, q: seq<FilaGrafico>)
    requires forall i | 0 <= i < |ps| :: ps[i].etiqueta.Programa?
    requires forall i | 0 <= i < |ps| :: ps[i].hora.Some? ==> HoraValida(ps[i].hora.value)
    requires forall i, j :: 0 <= i < j < |ps| ==> ps[i].etiqueta != ps[j].etiqueta
    requires q == Proyectar(ps)
    ensures forall i, j :: 0 <= i < j < |q| ==> q[i].titulo != q[j].titulo
  {
    forall i, j | 0 <= i < j < |q| ensures q[i].titulo != q[j].titulo {
      assert ps[i].etiqueta == Programa(q[i].titulo) && ps[j].etiqueta == Programa(q[j].titulo);
    }
  }

  /**
   * The chart of a finished plan: one row per program of the events and no
   * other, titles all different, each row with the program's total
   * insertions (blank when zero), its representative start time and the slot
   * of that time, rows ascending by start time.
   */
  lemma GraficoDelPlan(evs: seq<Evento>, plan: Tabla)
    requires forall e | e in evs :: EventoValido(e)
    requires EsPlan(evs, plan, true)
    ensures HorasValidas(plan.filas)
    ensures (set x | x in PrepararDatasetGrafico(plan) :: x.titulo) == (set e | e in evs :: e.programa)
    ensures forall i, j :: 0 <= i < j < |PrepararDatasetGrafico(plan)| ==>
              PrepararDatasetGrafico(plan)[i].titulo != PrepararDatasetGrafico(plan)[j].titulo
    ensures forall x | x in PrepararDatasetGrafico(plan) ::
              && x.total == Mostrar(TotalPrograma(evs, x.titulo))
              && EsHoraRepresentativa(evs, x.titulo, x.hora)
              && x.franja == AsignarFranjaHoraria(x.hora)
  {
    PlanConHoraPrimero(evs, plan, true);
    assert HorasValidas(plan.filas) by {
      forall f | f in plan.filas && f.hora.Some? ensures HoraValida(f.hora.value) {
        var i :| 0 <= i < |plan.filas| && plan.filas[i] == f;
      }
    }
    var ps := FilasDePrograma(plan.filas);
    assert forall i | 0 <= i < |ps| :: ps[i] in plan.filas;
    var q := Proyectar(ps);
    var r := PrepararDatasetGrafico(plan);
    ProgramasDistintos(plan.filas);
    TitulosDistintos(ps, q);
    DistintosPor(q, r, (x: FilaGrafico) => x.titulo);
    forall x | x in r
      ensures x.total == Mostrar(TotalPrograma(evs, x.titulo)) && EsHoraRepresentativa(evs, x.titulo, x.hora)
    {
      var f :| f in plan.filas && f.etiqueta.Programa? && x == AFilaGrafico(f);
      assert FilaDePrograma(evs, plan.dias, f, true);
    }
    TitulosDelGrafico(plan.filas, r);
    TitulosDelPlan(evs, plan.filas);
  }

  /** The programme titles among the rows of a plan are exactly the programmes of the events. */
  lemma TitulosDelPlan(evs: seq<Evento>, filas: seq<Fila>)
    requires (set f | f in filas :: f.etiqueta) == (set e | e in evs :: Programa(e.programa)) + {FilaTotal}
    ensures (set f | f in filas && f.etiqueta.Programa? :: f.etiqueta.titulo) == (set e | e in evs :: e.programa)
  {
    var etiquetas := set f | f in filas :: f.etiqueta;
    var programas := set e | e in evs :: Programa(e.programa);
    var titulos := set f | f in filas && f.etiqueta.Programa? :: f.etiqueta.titulo;
    var nombres := set e | e in evs :: e.programa;
    forall t | t in titulos ensures t in nombres {
      var f :| f in filas && f.etiqueta.Programa? && f.etiqueta.titulo == t;
      assert f.etiqueta in etiquetas;
      var e :| e in evs && Programa(e.programa) == f.etiqueta;
    }
    forall t | t in nombres ensures t in titulos {
      var e :| e in evs && e.programa == t;
      assert Programa(t) in programas;
      assert Programa(t) in etiquetas;
      var f :| f in filas && f.etiqueta == Programa(t);
    }
  }

  /** The chart rows carry the titles of the program rows, no more and no fewer. */
  lemma TitulosDelGrafico(filas: seq<Fila>, r: seq<FilaGrafico>)
    requires HorasValidas(filas)
    requires forall f | f in filas && f.etiqueta.Programa? :: AFilaGrafico(f) in r
    requires forall x | x in r :: exists f :: f in filas && f.etiqueta.Programa? && x == AFilaGrafico(f)
    ensures (set x | x in r :: x.titulo) == (set f | f in filas && f.etiqueta.Programa? :: f.etiqueta.titulo)
  {
    var deGrafico := set x | x in r :: x.titulo;
    var deFilas := set f | f in filas && f.etiqueta.Programa? :: f.etiqueta.titulo;
    forall t | t in deGrafico ensures t in deFilas {
      var x :| x in r && x.titulo == t;
      var f :| f in filas && f.etiqueta.Programa? && x == AFilaGrafico(f);
    }
    forall t | t in deFilas ensures t in deGrafico {
      var f :| f in filas && f.etiqueta.Programa? && f.etiqueta.titulo == t;
      assert AFilaGrafico(f) in r;
    }
  }
}
