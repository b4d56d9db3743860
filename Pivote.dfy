/**
 * The program × day table that `generar_plan` builds: its date columns and
 * their order, its cells and rows, the counts each cell is meant to hold,
 * and the sums pandas takes over rows and columns of it.
 */
module Pivote {
  import opened Comun
  import opened Sumas
  import opened Agrupacion

  // ---------------------------------------------------------------------------
  // Date columns

  /** `strftime("%d/%m")`: the column label of a date; the year is dropped. */
  function EtiquetaDia(f: Fecha): (x: string)
    ensures |x| == 5 && x[2] == '/'
  {
    Dos(f.dia) + "/" + Dos(f.mes)
  }

  function ColumnaDe(e: Evento): string { EtiquetaDia(e.fecha) }

  function ColumnaGrupo(g: Grupo): string { EtiquetaDia(g.fecha) }

  /**
   * The column sort key `int(x[:2]) + int(x[3:]) * 100`. Labels always have
   * the form dd/mm, so the guard for shorter strings is never taken.
   */
  function ClaveColumna(x: string): int {
    if |x| < 3 then 0 else Leer(x[..2]) + Leer(x[3..]) * 100
  }

  lemma ClaveDeEtiqueta(f: Fecha)
    requires FechaValida(f)
    ensures ClaveColumna(EtiquetaDia(f)) == f.dia + 100 * f.mes
  {
    var x := EtiquetaDia(f);
    assert x[..2] == Dos(f.dia) && x[3..] == Dos(f.mes);
    LeerDos(f.dia);
    LeerDos(f.mes);
  }

  /** Two dates share a column exactly when they fall on the same day of the same month. */
  lemma MismaColumna(a: Fecha, b: Fecha)
    requires FechaValida(a) && FechaValida(b)
    ensures EtiquetaDia(a) == EtiquetaDia(b) <==> a.dia == b.dia && a.mes == b.mes
  {
    ClaveDeEtiqueta(a);
    ClaveDeEtiqueta(b);
  }

  /** Columns are ordered by month, then day; the year plays no part. */
  lemma OrdenDeColumnas(a: Fecha, b: Fecha)
    requires FechaValida(a) && FechaValida(b)
    ensures ClaveColumna(EtiquetaDia(a)) < ClaveColumna(EtiquetaDia(b))
            <==> a.mes < b.mes || (a.mes == b.mes && a.dia < b.dia)
  {
    ClaveDeEtiqueta(a);
    ClaveDeEtiqueta(b);
  }

  // ---------------------------------------------------------------------------
  // Cells, rows, the table

  /** The row index: a program title, or the appended `Total` row. */
  datatype Etiqueta = Programa(titulo: string) | FilaTotal

  /** A numeric cell, or one blanked by `replace(0, "")`. */
  datatype Celda = Num(n: int) | Vacia

  function Valor(c: Celda): int {
    match c
    case Num(n) => n
    case Vacia => 0
  }

  /** `replace(0, "")`: a zero is shown blank and any other count as itself. */
  function Mostrar(n: int): (c: Celda)
    ensures Valor(c) == n
    ensures c == Vacia <==> n == 0
  {
    if n == 0 then Vacia else Num(n)
  }

  /** One row: its index, the `Hora Inicio` and `Total` columns, and the date cells. */
  datatype Fila = Fila(etiqueta: Etiqueta, hora: Option<Hora>, total: Celda, celdas: map<string, Celda>)

  /** The table: the date columns in order, and the rows in order. */
  datatype Tabla = Tabla(dias: seq<string>, filas: seq<Fila>)

  datatype Columna = ColHoraInicio | ColTotal | ColDia(etiqueta: string)

  /** All columns: `Hora Inicio` (inserted at 0), `Total` (inserted at 1), then the dates. */
  function Columnas(t: Tabla): (cs: seq<Columna>)
    ensures |cs| == |t.dias| + 2 && cs[0] == ColHoraInicio && cs[1] == ColTotal
    ensures forall i :: 0 <= i < |t.dias| ==> cs[i + 2] == ColDia(t.dias[i])
  {
    [ColHoraInicio, ColTotal] + seq(|t.dias|, i requires 0 <= i < |t.dias| => ColDia(t.dias[i]))
  }

  // ---------------------------------------------------------------------------
  // What the cells are meant to hold

  /** Insertions of program `p` on the dates labelled `c`. */
  function Conteo(evs: seq<Evento>, p: string, c: string): nat {
    Suma(Filtrar(Filtrar(evs, ProgramaDe, p), ColumnaDe, c))
  }

  /** All insertions of program `p`. */
  function TotalPrograma(evs: seq<Evento>, p: string): nat {
    SumaPor(evs, ProgramaDe, p)
  }

  /** All insertions on the dates labelled `c`. */
  function ConteoDia(evs: seq<Evento>, c: string): nat {
    SumaPor(evs, ColumnaDe, c)
  }

  /** A cell is blank exactly when no insertion of that program falls on that day. */
  lemma {:induction false} ConteoCero(evs: seq<Evento>, p: string, c: string)
    requires forall e | e in evs :: e.inserciones > 0
    ensures Conteo(evs, p, c) == 0 <==> forall e | e in evs :: !(e.programa == p && ColumnaDe(e) == c)
  {
    var r := Filtrar(Filtrar(evs, ProgramaDe, p), ColumnaDe, c);
    SumaCero(r);
  }

  lemma {:induction false} SumaCero(evs: seq<Evento>)
    requires forall e | e in evs :: e.inserciones > 0
    ensures Suma(evs) == 0 <==> evs == []
  {
    if evs != [] {
      assert evs[0] in evs;
    }
  }

  // ---------------------------------------------------------------------------
  // The sums pandas takes

  /** The value a row shows in date column `c`; a missing cell counts as 0. */
  function ValorEn(f: Fila, c: string): int {
    if c in f.celdas then Valor(f.celdas[c]) else 0
  }

  /** Sum of a row over the date columns `dias` (`sum(axis=1)` without `Hora Inicio`). */
  function SumaFila(f: Fila, dias: seq<string>): int {
    if dias == [] then 0 else ValorEn(f, dias[0]) + SumaFila(f, dias[1..])
  }

  /** Sum of date column `c` over `filas` (`sum()` of one column). */
  function SumaColumna(filas: seq<Fila>, c: string): int {
    if filas == [] then 0 else ValorEn(filas[0], c) + SumaColumna(filas[1..], c)
  }

  /** Sum of the `Total` column over `filas`. */
  function SumaTotales(filas: seq<Fila>): int {
    if filas == [] then 0 else Valor(filas[0].total) + SumaTotales(filas[1..])
  }

  /** Sum of every date cell of `filas` (`sum().sum()`). */
  function SumaTabla(filas: seq<Fila>, dias: seq<string>): int {
    if filas == [] then 0 else SumaFila(filas[0], dias) + SumaTabla(filas[1..], dias)
  }

  lemma {:induction false} SumaTablaConcat(a: seq<Fila>, b: seq<Fila>, dias: seq<string>)
    ensures SumaTabla(a + b, dias) == SumaTabla(a, dias) + SumaTabla(b, dias)
  {
    if a == [] {
      assert a + b == b;
    } else {
      assert (a + b)[1..] == a[1..] + b;
      SumaTablaConcat(a[1..], b, dias);
    }
  }

  // ---------------------------------------------------------------------------
  // The pivot over groups

  /** `aggfunc="sum", fill_value=0`: the summed `Inserciones` of the groups of `p` labelled `c`. */
  function SumaGrupos(gs: seq<Grupo>, p: string, c: string): nat {
    if gs == [] then 0
    else (if gs[0].programa == p && ColumnaGrupo(gs[0]) == c then gs[0].inserciones else 0) + SumaGrupos(gs[1..], p, c)
  }

  function ClavesGrupos(gs: seq<Grupo>): (ks: seq<(string, Fecha)>)
    ensures |ks| == |gs| && forall i :: 0 <= i < |gs| ==> ks[i] == ClaveGrupo(gs[i])
  {
    seq(|gs|, i requires 0 <= i < |gs| => ClaveGrupo(gs[i]))
  }

  /** The events of group `g` restricted to program `p` and column `c`. */
  lemma SumaDeUnGrupo(evs: seq<Evento>, g: Grupo, p: string, c: string)
    requires g.inserciones == SumaPor(evs, ClaveDe, ClaveGrupo(g))
    ensures SumaPor(Filtrar(Filtrar(evs, ProgramaDe, p), ColumnaDe, c), ClaveDe, ClaveGrupo(g))
            == (if g.programa == p && ColumnaGrupo(g) == c then g.inserciones else 0)
  {
    var ep := Filtrar(evs, ProgramaDe, p);
    var e := Filtrar(ep, ColumnaDe, c);
    var k := ClaveGrupo(g);
    if g.programa == p && ColumnaGrupo(g) == c {
      FiltrarImplicado(ep, ColumnaDe, c, ClaveDe, k);
      FiltrarImplicado(evs, ProgramaDe, p, ClaveDe, k);
    } else {
      FiltrarVacio(e, ClaveDe, k);
    }
  }

  lemma {:induction false} SumaGruposPorClaves(evs: seq<Evento>, gs: seq<Grupo>, p: string, c: string)
    requires forall g | g in gs :: g.inserciones == SumaPor(evs, ClaveDe, ClaveGrupo(g))
    ensures SumaGrupos(gs, p, c) == SumaSobre(Filtrar(Filtrar(evs, ProgramaDe, p), ColumnaDe, c), ClaveDe, ClavesGrupos(gs))
  {
    if gs != [] {
      assert ClavesGrupos(gs)[1..] == ClavesGrupos(gs[1..]);
      SumaDeUnGrupo(evs, gs[0], p, c);
      SumaGruposPorClaves(evs, gs[1..], p, c);
    }
  }

  /** A pivot cell holds the insertions of that program on that day and month. */
  lemma CeldaDePivote(evs: seq<Evento>, gs: seq<Grupo>, p: string, c: string)
    requires EsAgrupacion(evs, gs)
    ensures SumaGrupos(gs, p, c) == Conteo(evs, p, c)
  {
    var e := Filtrar(Filtrar(evs, ProgramaDe, p), ColumnaDe, c);
    var ks := ClavesGrupos(gs);
    SumaGruposPorClaves(evs, gs, p, c);
    forall x | x in e ensures ClaveDe(x) in ks {
      var j := GrupoDeEvento(evs, gs, x);
      assert ks[j] == ClaveDe(x);
    }
    Particion(e, ClaveDe, ks);
  }

  // ---------------------------------------------------------------------------
  // Row and column totals

  lemma {:induction false} SumaFilaConteos(evs: seq<Evento>, f: Fila, p: string, dias: seq<string>)
    requires forall c | c in dias :: ValorEn(f, c) == Conteo(evs, p, c)
    ensures SumaFila(f, dias) == SumaSobre(Filtrar(evs, ProgramaDe, p), ColumnaDe, dias)
  {
    if dias != [] {
      SumaFilaConteos(evs, f, p, dias[1..]);
    }
  }

  /** A program row whose date cells hold its counts adds up to all of its insertions. */
  lemma TotalDeFila(evs: seq<Evento>, f: Fila, p: string, dias: seq<string>)
    requires Distintos(dias)
    requires forall e | e in evs :: ColumnaDe(e) in dias
    requires forall c | c in dias :: ValorEn(f, c) == Conteo(evs, p, c)
    ensures SumaFila(f, dias) == TotalPrograma(evs, p)
  {
    SumaFilaConteos(evs, f, p, dias);
    Particion(Filtrar(evs, ProgramaDe, p), ColumnaDe, dias);
  }

  lemma {:induction false} SumaColumnaConteos(evs: seq<Evento>, filas: seq<Fila>, ps: seq<string>, c: string)
    requires |filas| == |ps|
    requires forall i | 0 <= i < |ps| :: ValorEn(filas[i], c) == Conteo(evs, ps[i], c)
    ensures SumaColumna(filas, c) == SumaSobre(Filtrar(evs, ColumnaDe, c), ProgramaDe, ps)
  {
    if ps != [] {
      FiltrarConmuta(evs, ProgramaDe, ps[0], ColumnaDe, c);
      SumaColumnaConteos(evs, filas[1..], ps[1..], c);
    }
  }

  /** A date column over rows that hold every program once adds up to that day's insertions. */
  lemma TotalDeColumna(evs: seq<Evento>, filas: seq<Fila>, ps: seq<string>, c: string)
    requires |filas| == |ps| && Distintos(ps)
    requires forall e | e in evs :: e.programa in ps
    requires forall i | 0 <= i < |ps| :: ValorEn(filas[i], c) == Conteo(evs, ps[i], c)
    ensures SumaColumna(filas, c) == ConteoDia(evs, c)
  {
    SumaColumnaConteos(evs, filas, ps, c);
    Particion(Filtrar(evs, ColumnaDe, c), ProgramaDe, ps);
  }

  lemma {:induction false} SumaTotalesProgramas(evs: seq<Evento>, filas: seq<Fila>, ps: seq<string>)
    requires |filas| == |ps|
    requires forall i | 0 <= i < |ps| :: Valor(filas[i].total) == TotalPrograma(evs, ps[i])
    ensures SumaTotales(filas) == SumaSobre(evs, ProgramaDe, ps)
  {
    if ps != [] {
      SumaTotalesProgramas(evs, filas[1..], ps[1..]);
    }
  }

  lemma {:induction false} SumaTablaProgramas(evs: seq<Evento>, filas: seq<Fila>, ps: seq<string>, dias: seq<string>)
    requires |filas| == |ps|
    requires forall i | 0 <= i < |ps| :: SumaFila(filas[i], dias) == TotalPrograma(evs, ps[i])
    ensures SumaTabla(filas, dias) == SumaSobre(evs, ProgramaDe, ps)
  {
    if ps != [] {
      SumaTablaProgramas(evs, filas[1..], ps[1..], dias);
    }
  }

  lemma {:induction false} SumaFilaDias(evs: seq<Evento>, f: Fila, dias: seq<string>)
    requires forall c | c in dias :: ValorEn(f, c) == ConteoDia(evs, c)
    ensures SumaFila(f, dias) == SumaSobre(evs, ColumnaDe, dias)
  {
    if dias != [] {
      SumaFilaDias(evs, f, dias[1..]);
    }
  }
}
