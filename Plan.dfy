/**
 * `generar_plan`: from the events to the finished program × day plan, one
 * step of the source at a time, with what each step leaves in the table.
 */
module Plan {
  import opened Comun
  import opened Sumas
  import opened Agrupacion
  import opened Pivote

  // ---------------------------------------------------------------------------
  // The steps

  /** The pivot's index: each program of the groups once. */
  function ProgramasGrupos(gs: seq<Grupo>): (ps: seq<string>)
    ensures Distintos(ps)
    ensures (set p | p in ps) == (set g | g in gs :: g.programa)
  {
    var todos := seq(|gs|, i requires 0 <= i < |gs| => gs[i].programa);
    var ps := Unicos(todos);
    forall p | p in ps ensures p in (set g | g in gs :: g.programa) {
      var i :| 0 <= i < |ps| && ps[i] == p;
      var j :| 0 <= j < |todos| && todos[j] == p;
      assert gs[j] in gs;
    }
    forall g | g in gs ensures g.programa in (set p | p in ps) {
      var j :| 0 <= j < |gs| && gs[j] == g;
      assert todos[j] in ps;
    }
    ps
  }

  /** The pivot's columns: each `dd/mm` label of the groups once. */
  function DiasGrupos(gs: seq<Grupo>): (ds: seq<string>)
    ensures Distintos(ds)
    ensures (set c | c in ds) == (set g | g in gs :: ColumnaGrupo(g))
  {
    var todos := seq(|gs|, i requires 0 <= i < |gs| => ColumnaGrupo(gs[i]));
    var ds := Unicos(todos);
    forall c | c in ds ensures c in (set g | g in gs :: ColumnaGrupo(g)) {
      var i :| 0 <= i < |ds| && ds[i] == c;
      var j :| 0 <= j < |todos| && todos[j] == c;
      assert gs[j] in gs;
    }
    forall g | g in gs ensures ColumnaGrupo(g) in (set c | c in ds) {
      var j :| 0 <= j < |gs| && gs[j] == g;
      assert todos[j] in ds;
    }
    ds
  }

  /** The pivot row of program `p`: one summed cell per date column. */
  function FilaPivote(gs: seq<Grupo>, dias: seq<string>, p: string): Fila {
    Fila(Programa(p), None, Num(0), map c | c in dias :: Num(SumaGrupos(gs, p, c)))
  }

  /**
   * `pivot_table(index="Título Programa", columns="Fecha", values="Inserciones",
   * aggfunc="sum", fill_value=0)`. `Hora Inicio` and `Total` are not columns
   * yet; their fields hold `None` and 0 until they are inserted.
   */
  function Pivotar(gs: seq<Grupo>): Tabla {
    var dias := DiasGrupos(gs);
    var ps := ProgramasGrupos(gs);
    Tabla(dias, seq(|ps|, i requires 0 <= i < |ps| => FilaPivote(gs, dias, ps[i])))
  }

  /** `pivot.insert(0, "Hora Inicio", pivot.index.map(horas))`. */
  function InsertarHoraInicio(t: Tabla, gs: seq<Grupo>): Tabla {
    t.(filas := seq(|t.filas|, i requires 0 <= i < |t.filas| =>
      match t.filas[i].etiqueta
      case Programa(p) => t.filas[i].(hora := HoraInicio(gs, p))
      case FilaTotal => t.filas[i]))
  }

  /** `pivot.insert(1, "Total", ...sum(axis=1))`: each row's sum over the date columns. */
  function InsertarTotal(t: Tabla): Tabla {
    t.(filas := seq(|t.filas|, i requires 0 <= i < |t.filas| =>
      t.filas[i].(total := Num(SumaFila(t.filas[i], t.dias)))))
  }

  /**
   * `pivot.loc["Total"] = pivot.sum(numeric_only=True)` followed by
   * `pivot.loc["Total", "Hora Inicio"] = ""`: a row holding the sum of every
   * numeric column and no start time.
   */
  function AgregarFilaTotal(t: Tabla): Tabla {
    var total := Fila(FilaTotal, None, Num(SumaTotales(t.filas)), map c | c in t.dias :: Num(SumaColumna(t.filas, c)));
    t.(filas := t.filas + [total])
  }

  /** Replaces the `Total` cell of the `Total` row by `s`. */
  function FijarTotalGeneral(t: Tabla, s: int): Tabla {
    t.(filas := seq(|t.filas|, i requires 0 <= i < |t.filas| =>
      if t.filas[i].etiqueta == FilaTotal then t.filas[i].(total := Num(s)) else t.filas[i]))
  }

  /**
   * `pivot.loc["Total", "Total"] = pivot.drop(columns=["Hora Inicio", "Total"]).sum().sum()`
   * as written: the `Total` row already exists, so its date cells are summed too.
   */
  function RecalcularTotalGeneral(t: Tabla): Tabla {
    FijarTotalGeneral(t, SumaTabla(t.filas, t.dias))
  }

  /** The program rows of a table, in order. */
  function FilasDePrograma(filas: seq<Fila>): (r: seq<Fila>)
    ensures forall f :: f in r <==> f in filas && f.etiqueta.Programa?
  {
    if filas == [] then []
    else if filas[0].etiqueta.Programa? then [filas[0]] + FilasDePrograma(filas[1..])
    else FilasDePrograma(filas[1..])
  }

  /** The intended grand total: the date cells of the program rows only. */
  function RecalcularTotalGeneralCorregido(t: Tabla): Tabla {
    FijarTotalGeneral(t, SumaTabla(FilasDePrograma(t.filas), t.dias))
  }

  /**
   * `hora_a_minutos`: minutes since midnight, seconds as a fraction of a
   * minute, and 999999 when there is no start time.
   */
  function HoraAMinutos(h: Option<Hora>): real {
    match h
    case None => 999999.0
    case Some(t) => (t.h * 60 + t.m) as real + t.s as real / 60.0
  }

  /** The `_orden` key in whole seconds. */
  function ClaveFila(f: Fila): int {
    match f.hora
    case None => 999999 * 60
    case Some(t) => Segundos(t)
  }

  /** The key in seconds is sixty times `hora_a_minutos`, so both sort rows alike. */
  lemma ClaveFilaEnMinutos(f: Fila)
    ensures ClaveFila(f) as real == 60.0 * HoraAMinutos(f.hora)
  {
    match f.hora
    case None =>
    case Some(t) =>
      assert 60.0 * (t.s as real / 60.0) == t.s as real;
  }

  /** `astype(int)` and `replace(0, "")` applied to one column of a row. */
  function AEnteros(f: Fila, col: Columna): Fila {
    match col
    case ColHoraInicio => f
    case ColTotal => f.(total := Mostrar(Valor(f.total)))
    case ColDia(c) => if c in f.celdas then f.(celdas := f.celdas[c := Mostrar(Valor(f.celdas[c]))]) else f
  }

  /** A row once the columns `hechas` have been cast and blanked. */
  function Suprimido(f: Fila, hechas: seq<Columna>): Fila {
    f.(total := if ColTotal in hechas then Mostrar(Valor(f.total)) else f.total,
       celdas := map c | c in f.celdas :: if ColDia(c) in hechas then Mostrar(Valor(f.celdas[c])) else f.celdas[c])
  }

  lemma SuprimidoNada(f: Fila)
    ensures Suprimido(f, []) == f
  {
    assert Suprimido(f, []).celdas == f.celdas;
  }

  lemma SuprimidoPaso(f: Fila, hechas: seq<Columna>, col: Columna)
    ensures AEnteros(Suprimido(f, hechas), col) == Suprimido(f, hechas + [col])
  {
    var a, b := AEnteros(Suprimido(f, hechas), col), Suprimido(f, hechas + [col]);
    assert forall x :: x in hechas + [col] <==> x in hechas || x == col;
    assert a.celdas == b.celdas;
  }

  // ---------------------------------------------------------------------------
  // What the plan holds

  /** `replace(0, "")` applied or not yet applied. */
  function Formato(suprimido: bool, n: int): Celda {
    if suprimido then Mostrar(n) else Num(n)
  }

  /** The date columns: every `dd/mm` of the events once, ascending by `day + 100 * month`. */
  ghost predicate DiasDelPlan(evs: seq<Evento>, dias: seq<string>) {
    && (set c | c in dias) == (set e | e in evs :: ColumnaDe(e))
    && forall i, j :: 0 <= i < j < |dias| ==> ClaveColumna(dias[i]) < ClaveColumna(dias[j])
  }

  /** Every program of the events once. */
  ghost predicate ProgramasDelPlan(evs: seq<Evento>, ps: seq<string>) {
    Distintos(ps) && (set p | p in ps) == (set e | e in evs :: e.programa)
  }

  /** The date cells of program `p`: one per column, each the program's insertions that day. */
  ghost predicate CeldasDe(evs: seq<Evento>, dias: seq<string>, f: Fila, p: string, suprimido: bool) {
    && f.celdas.Keys == (set c | c in dias)
    && forall c :: c in dias ==> f.celdas[c] == Formato(suprimido, Conteo(evs, p, c))
  }

  /** A program row: its representative start time, its counts per day and its total. */
  ghost predicate FilaDePrograma(evs: seq<Evento>, dias: seq<string>, f: Fila, suprimido: bool) {
    && f.etiqueta.Programa?
    && EsHoraRepresentativa(evs, f.etiqueta.titulo, f.hora)
    && CeldasDe(evs, dias, f, f.etiqueta.titulo, suprimido)
    && f.total == Formato(suprimido, TotalPrograma(evs, f.etiqueta.titulo))
  }

  /** The `Total` row: no start time, each day's insertions, and `total` in its `Total` cell. */
  ghost predicate FilaDeTotales(evs: seq<Evento>, dias: seq<string>, f: Fila, total: int, suprimido: bool) {
    && f.etiqueta == FilaTotal
    && f.hora.None?
    && f.celdas.Keys == (set c | c in dias)
    && (forall c :: c in dias ==> f.celdas[c] == Formato(suprimido, ConteoDia(evs, c)))
    && f.total == Formato(suprimido, total)
  }

  /**
   * The rows of the plan of `evs`, in any order: one per program and one
   * `Total` row, each label once, every row's cells as above, the `Total`
   * row's `Total` cell all the insertions (line 89 corrected).
   */
  ghost predicate FilasDelPlan(evs: seq<Evento>, dias: seq<string>, filas: seq<Fila>, suprimido: bool) {
    && (forall i, j :: 0 <= i < j < |filas| ==> filas[i].etiqueta != filas[j].etiqueta)
    && (set f | f in filas :: f.etiqueta) == (set e | e in evs :: Programa(e.programa)) + {FilaTotal}
    && (forall f :: f in filas && f.etiqueta.Programa? ==> FilaDePrograma(evs, dias, f, suprimido))
    && (forall f :: f in filas && f.etiqueta == FilaTotal ==> FilaDeTotales(evs, dias, f, Suma(evs), suprimido))
  }

  /** The finished plan: its date columns, its rows, and the rows ascending by start time. */
  ghost predicate EsPlan(evs: seq<Evento>, t: Tabla, suprimido: bool) {
    && DiasDelPlan(evs, t.dias)
    && FilasDelPlan(evs, t.dias, t.filas, suprimido)
    && Ordenada(t.filas, ClaveFila)
  }

  // ---------------------------------------------------------------------------
  // The table after each step

  /** After the pivot and the column sort: program rows in the order `ps`, with their counts. */
  ghost predicate Pivoteada(evs: seq<Evento>, t: Tabla, ps: seq<string>) {
    && DiasDelPlan(evs, t.dias)
    && ProgramasDelPlan(evs, ps)
    && |t.filas| == |ps|
    && forall i :: 0 <= i < |ps| ==> t.filas[i].etiqueta == Programa(ps[i]) && CeldasDe(evs, t.dias, t.filas[i], ps[i], false)
  }

  /** After `Hora Inicio` is inserted. */
  ghost predicate ConHoras(evs: seq<Evento>, t: Tabla, ps: seq<string>) {
    && Pivoteada(evs, t, ps)
    && forall i :: 0 <= i < |ps| ==> EsHoraRepresentativa(evs, ps[i], t.filas[i].hora)
  }

  /** After the `Total` column is inserted: every row is a finished program row, still unblanked. */
  ghost predicate ConTotales(evs: seq<Evento>, t: Tabla, ps: seq<string>) {
    && ConHoras(evs, t, ps)
    && forall i :: 0 <= i < |ps| ==> t.filas[i].total == Num(TotalPrograma(evs, ps[i]))
  }

  /** After the `Total` row is appended, with `total` in its `Total` cell. */
  ghost predicate ConFilaTotal(evs: seq<Evento>, t: Tabla, ps: seq<string>, total: int) {
    && |t.filas| == |ps| + 1
    && ConTotales(evs, Tabla(t.dias, t.filas[..|ps|]), ps)
    && FilaDeTotales(evs, t.dias, t.filas[|ps|], total, false)
  }

  // ---------------------------------------------------------------------------
  // Each step keeps the table on course

  /** `pivot.reindex(sorted(pivot.columns, key=...), axis=1)`. */
  function OrdenarDias(t: Tabla): Tabla {
    t.(dias := Ordenar(t.dias, ClaveColumna))
  }

  /** The event a group comes from. */
  lemma EventoDeGrupo(evs: seq<Evento>, gs: seq<Grupo>, g: Grupo) returns (e: Evento)
    requires EsAgrupacion(evs, gs)
    requires g in gs
    ensures e in evs && ClaveDe(e) == ClaveGrupo(g)
  {
    var claves := set g | g in gs :: ClaveGrupo(g);
    assert claves == (set e | e in evs :: ClaveDe(e));
    assert ClaveGrupo(g) in claves;
    e :| e in evs && ClaveDe(e) == ClaveGrupo(g);
  }

  /** The groups carry the same programs as the events. */
  lemma ProgramasDeGrupos(evs: seq<Evento>, gs: seq<Grupo>)
    requires EsAgrupacion(evs, gs)
    ensures (set g | g in gs :: g.programa) == (set e | e in evs :: e.programa)
  {
    forall g | g in gs ensures g.programa in (set e | e in evs :: e.programa) {
      var e := EventoDeGrupo(evs, gs, g);
    }
    forall e | e in evs ensures e.programa in (set g | g in gs :: g.programa) {
      var j := GrupoDeEvento(evs, gs, e);
      assert gs[j] in gs;
    }
  }

  /** The groups carry the same day labels as the events. */
  lemma DiasDeGrupos(evs: seq<Evento>, gs: seq<Grupo>)
    requires EsAgrupacion(evs, gs)
    ensures (set g | g in gs :: ColumnaGrupo(g)) == (set e | e in evs :: ColumnaDe(e))
  {
    forall g | g in gs ensures ColumnaGrupo(g) in (set e | e in evs :: ColumnaDe(e)) {
      var e := EventoDeGrupo(evs, gs, g);
    }
    forall e | e in evs ensures ColumnaDe(e) in (set g | g in gs :: ColumnaGrupo(g)) {
      var j := GrupoDeEvento(evs, gs, e);
      assert gs[j] in gs;
    }
  }

  /** Sorting distinct day labels of valid dates by their key orders them strictly. */
  lemma DiasOrdenados(evs: seq<Evento>, antes: seq<string>, dias: seq<string>)
    requires forall e | e in evs :: EventoValido(e)
    requires Distintos(antes) && (set c | c in antes) == (set e | e in evs :: ColumnaDe(e))
    requires multiset(dias) == multiset(antes) && Ordenada(dias, ClaveColumna)
    ensures DiasDelPlan(evs, dias)
  {
    assert forall c :: c in dias <==> c in antes by {
      forall c ensures c in dias <==> c in antes {
        assert c in dias <==> c in multiset(dias);
        assert c in antes <==> c in multiset(antes);
      }
    }
    DistintosPor(antes, dias, (c: string) => c);
    forall i, j | 0 <= i < j < |dias| ensures ClaveColumna(dias[i]) < ClaveColumna(dias[j]) {
      var etiquetas := set e | e in evs :: ColumnaDe(e);
      assert dias[i] in antes && dias[j] in antes;
      assert dias[i] in etiquetas && dias[j] in etiquetas;
      var a :| a in evs && ColumnaDe(a) == dias[i];
      var b :| b in evs && ColumnaDe(b) == dias[j];
      ClaveDeEtiqueta(a.fecha);
      ClaveDeEtiqueta(b.fecha);
      MismaColumna(a.fecha, b.fecha);
    }
  }

  /** Lines 79-82: one row per program in the index order, its cells the program's daily counts. */
  lemma PasoPivote(evs: seq<Evento>, gs: seq<Grupo>)
    requires forall e | e in evs :: EventoValido(e)
    requires EsAgrupacion(evs, gs)
    ensures Pivoteada(evs, OrdenarDias(Pivotar(gs)), ProgramasGrupos(gs))
  {
    var t0 := Pivotar(gs);
    var t := OrdenarDias(t0);
    var ps := ProgramasGrupos(gs);
    ProgramasDeGrupos(evs, gs);
    DiasDeGrupos(evs, gs);
    DiasOrdenados(evs, t0.dias, t.dias);
    assert (set c | c in t0.dias) == (set c | c in t.dias);
    forall i | 0 <= i < |ps| ensures t.filas[i].etiqueta == Programa(ps[i]) && CeldasDe(evs, t.dias, t.filas[i], ps[i], false) {
      assert t.filas[i] == FilaPivote(gs, t0.dias, ps[i]);
      forall c | c in t.dias ensures t.filas[i].celdas[c] == Num(Conteo(evs, ps[i], c)) {
        CeldaDePivote(evs, gs, ps[i], c);
      }
    }
  }

  lemma ProgramasCubiertos(evs: seq<Evento>, ps: seq<string>)
    requires ProgramasDelPlan(evs, ps)
    ensures forall e | e in evs :: e.programa in ps
  {
    var conjunto := set e | e in evs :: e.programa;
    forall e | e in evs ensures e.programa in ps {
      assert e.programa in conjunto;
    }
  }

  lemma DiasCubiertos(evs: seq<Evento>, dias: seq<string>)
    requires DiasDelPlan(evs, dias)
    ensures Distintos(dias)
    ensures forall e | e in evs :: ColumnaDe(e) in dias
  {
    var etiquetas := set e | e in evs :: ColumnaDe(e);
    forall e | e in evs ensures ColumnaDe(e) in dias {
      assert ColumnaDe(e) in etiquetas;
    }
  }

  /** Lines 83-84: each program row gets its representative start time; nothing else changes. */
  lemma PasoHora(evs: seq<Evento>, gs: seq<Grupo>, t: Tabla, ps: seq<string>)
    requires EsAgrupacion(evs, gs)
    requires Pivoteada(evs, t, ps)
    ensures ConHoras(evs, InsertarHoraInicio(t, gs), ps)
  {
    var t' := InsertarHoraInicio(t, gs);
    forall i | 0 <= i < |ps| ensures t'.filas[i] == t.filas[i].(hora := HoraInicio(gs, ps[i])) {
    }
    forall i | 0 <= i < |ps| ensures EsHoraRepresentativa(evs, ps[i], t'.filas[i].hora) {
      HoraInicioEsRepresentativa(evs, gs, ps[i]);
    }
  }

  /** Line 86: each program row's `Total` is all the insertions of the program. */
  lemma PasoTotal(evs: seq<Evento>, t: Tabla, ps: seq<string>)
    requires ConHoras(evs, t, ps)
    ensures ConTotales(evs, InsertarTotal(t), ps)
  {
    var t' := InsertarTotal(t);
    var etiquetas := set e | e in evs :: ColumnaDe(e);
    assert Distintos(t.dias);
    forall e | e in evs ensures ColumnaDe(e) in t.dias {
      assert ColumnaDe(e) in etiquetas;
    }
    forall i | 0 <= i < |ps| ensures t'.filas[i].total == Num(TotalPrograma(evs, ps[i])) {
      TotalDeFila(evs, t.filas[i], ps[i], t.dias);
    }
  }

  /** Line 87 and 88: the appended row holds each day's insertions and, in `Total`, all of them. */
  lemma PasoFilaTotal(evs: seq<Evento>, t: Tabla, ps: seq<string>)
    requires ConTotales(evs, t, ps)
    ensures ConFilaTotal(evs, AgregarFilaTotal(t), ps, Suma(evs))
  {
    var t' := AgregarFilaTotal(t);
    assert t'.filas[..|ps|] == t.filas;
    var programas := set e | e in evs :: e.programa;
    forall e | e in evs ensures e.programa in ps {
      assert e.programa in programas;
    }
    forall c | c in t.dias ensures SumaColumna(t.filas, c) == ConteoDia(evs, c) {
      TotalDeColumna(evs, t.filas, ps, c);
    }
    SumaTotalesProgramas(evs, t.filas, ps);
    Particion(evs, ProgramaDe, ps);
  }

  /** With the `Total` row appended, the program rows and the `Total` row each add up to all insertions. */
  lemma SumasDelPlan(evs: seq<Evento>, t: Tabla, ps: seq<string>, total: int)
    requires ConFilaTotal(evs, t, ps, total)
    ensures SumaTabla(t.filas[..|ps|], t.dias) == Suma(evs)
    ensures SumaFila(t.filas[|ps|], t.dias) == Suma(evs)
  {
    var programas := t.filas[..|ps|];
    var conjunto := set e | e in evs :: e.programa;
    var etiquetas := set e | e in evs :: ColumnaDe(e);
    assert Distintos(t.dias);
    forall e | e in evs ensures ColumnaDe(e) in t.dias && e.programa in ps {
      assert ColumnaDe(e) in etiquetas && e.programa in conjunto;
    }
    forall i | 0 <= i < |ps| ensures SumaFila(programas[i], t.dias) == TotalPrograma(evs, ps[i]) {
      TotalDeFila(evs, programas[i], ps[i], t.dias);
    }
    SumaTablaProgramas(evs, programas, ps, t.dias);
    Particion(evs, ProgramaDe, ps);
    SumaFilaDias(evs, t.filas[|ps|], t.dias);
    Particion(evs, ColumnaDe, t.dias);
  }

  /** Line 89 as written: the `Total` row's `Total` becomes twice the insertions. */
  lemma PasoTotalGeneral(evs: seq<Evento>, t: Tabla, ps: seq<string>)
    requires ConFilaTotal(evs, t, ps, Suma(evs))
    ensures ConFilaTotal(evs, RecalcularTotalGeneral(t), ps, 2 * Suma(evs))
  {
    SumaTablaComoEscrita(evs, t, ps);
    CambiarTotalGeneral(evs, t, ps, Suma(evs), 2 * Suma(evs));
    assert RecalcularTotalGeneral(t) == FijarTotalGeneral(t, 2 * Suma(evs));
  }

  /** What line 89 sums as written: the program rows' cells and the `Total` row's cells, each all the insertions. */
  lemma SumaTablaComoEscrita(evs: seq<Evento>, t: Tabla, ps: seq<string>)
    requires ConFilaTotal(evs, t, ps, Suma(evs))
    ensures SumaTabla(t.filas, t.dias) == 2 * Suma(evs)
  {
    var n := |ps|;
    var programas := t.filas[..n];
    assert t.filas == programas + [t.filas[n]];
    SumaTablaConcat(programas, [t.filas[n]], t.dias);
    SumasDelPlan(evs, t, ps, Suma(evs));
    assert SumaTabla([t.filas[n]], t.dias) == SumaFila(t.filas[n], t.dias);
  }

  /** Setting the `Total` row's `Total` to `x` leaves every other part of the table as it was. */
  lemma CambiarTotalGeneral(evs: seq<Evento>, t: Tabla, ps: seq<string>, total: int, x: int)
    requires ConFilaTotal(evs, t, ps, total)
    ensures ConFilaTotal(evs, FijarTotalGeneral(t, x), ps, x)
  {
    var t' := FijarTotalGeneral(t, x);
    var n := |ps|;
    assert t'.filas[..n] == t.filas[..n];
    assert t'.filas[n] == t.filas[n].(total := Num(x));
  }
  /**
   * The defect at line 89: whenever there is at least one insertion, the
   * `Total` row's `Total` is twice the sum of that row's own date cells.
   */
  lemma TotalGeneralDuplicado(evs: seq<Evento>, t: Tabla, ps: seq<string>)
    requires ConFilaTotal(evs, t, ps, Suma(evs))
    requires Suma(evs) > 0
    ensures Valor(RecalcularTotalGeneral(t).filas[|ps|].total) == 2 * SumaFila(RecalcularTotalGeneral(t).filas[|ps|], t.dias)
    ensures Valor(RecalcularTotalGeneral(t).filas[|ps|].total) != SumaFila(RecalcularTotalGeneral(t).filas[|ps|], t.dias)
  {
    PasoTotalGeneral(evs, t, ps);
    SumasDelPlan(evs, RecalcularTotalGeneral(t), ps, 2 * Suma(evs));
  }

  lemma {:induction false} ProgramasPrimero(filas: seq<Fila>, n: nat)
    requires |filas| == n + 1
    requires forall i | 0 <= i < n :: filas[i].etiqueta.Programa?
    requires filas[n].etiqueta == FilaTotal
    ensures FilasDePrograma(filas) == filas[..n]
  {
    if n > 0 {
      ProgramasPrimero(filas[1..], n - 1);
      assert filas[..n] == [filas[0]] + filas[1..][..n - 1];
    }
  }

  /** What the corrected line 89 sums: the program rows' date cells, all the insertions. */
  lemma GranTotalCorregido(evs: seq<Evento>, t: Tabla, ps: seq<string>)
    requires ConFilaTotal(evs, t, ps, Suma(evs))
    ensures SumaTabla(FilasDePrograma(t.filas), t.dias) == Suma(evs)
    ensures SumaTotales(t.filas[..|ps|]) == Suma(evs)
  {
    ProgramasPrimero(t.filas, |ps|);
    SumasDelPlan(evs, t, ps, Suma(evs));
    SumaTotalesProgramas(evs, t.filas[..|ps|], ps);
    ProgramasCubiertos(evs, ps);
    Particion(evs, ProgramaDe, ps);
  }

  /**
   * Line 89 corrected: summing the program rows only, the `Total` row's
   * `Total` is all the insertions, the sum of its own date cells, and the sum
   * of the program rows' totals.
   */
  lemma TotalGeneralCorregido(evs: seq<Evento>, t: Tabla, ps: seq<string>)
    requires ConFilaTotal(evs, t, ps, Suma(evs))
    ensures ConFilaTotal(evs, RecalcularTotalGeneralCorregido(t), ps, Suma(evs))
    ensures Valor(RecalcularTotalGeneralCorregido(t).filas[|ps|].total) == SumaFila(RecalcularTotalGeneralCorregido(t).filas[|ps|], t.dias)
    ensures Valor(RecalcularTotalGeneralCorregido(t).filas[|ps|].total) == SumaTotales(t.filas[..|ps|])
  {
    var t' := RecalcularTotalGeneralCorregido(t);
    GranTotalCorregido(evs, t, ps);
    assert t'.filas[..|ps|] == t.filas[..|ps|];
    assert t'.filas[|ps|] == t.filas[|ps|].(total := Num(Suma(evs)));
    SumasDelPlan(evs, t, ps, Suma(evs));
  }

  /** Rows labelled by the programs `ps` in order, then `Total`: each label once, and the right labels. */
  lemma EtiquetasEnOrden(evs: seq<Evento>, filas: seq<Fila>, ps: seq<string>)
    requires ProgramasDelPlan(evs, ps)
    requires |filas| == |ps| + 1 && filas[|ps|].etiqueta == FilaTotal
    requires forall i | 0 <= i < |ps| :: filas[i].etiqueta == Programa(ps[i])
    ensures forall i, j :: 0 <= i < j < |filas| ==> filas[i].etiqueta != filas[j].etiqueta
    ensures (set f | f in filas :: f.etiqueta) == (set e | e in evs :: Programa(e.programa)) + {FilaTotal}
  {
    var n := |ps|;
    var programas := set e | e in evs :: e.programa;
    assert (set p | p in ps) == programas;
    var izq := set f | f in filas :: f.etiqueta;
    var der := (set e | e in evs :: Programa(e.programa)) + {FilaTotal};
    forall l | l in izq ensures l in der {
      var i :| 0 <= i < |filas| && filas[i].etiqueta == l;
      if i < n {
        assert ps[i] in programas;
        var e :| e in evs && e.programa == ps[i];
      }
    }
    forall l | l in der ensures l in izq {
      if l == FilaTotal {
        assert filas[n] in filas;
      } else {
        var e :| e in evs && l == Programa(e.programa);
        assert e.programa in programas;
        var i :| 0 <= i < n && ps[i] == e.programa;
        assert filas[i] in filas;
      }
    }
  }

  lemma EtiquetasAntesDeOrdenar(evs: seq<Evento>, t: Tabla, ps: seq<string>, total: int)
    requires ConFilaTotal(evs, t, ps, total)
    ensures forall i, j :: 0 <= i < j < |t.filas| ==> t.filas[i].etiqueta != t.filas[j].etiqueta
    ensures (set f | f in t.filas :: f.etiqueta) == (set e | e in evs :: Programa(e.programa)) + {FilaTotal}
  {
    var n := |ps|;
    assert forall i | 0 <= i < n :: t.filas[i] == t.filas[..n][i];
    EtiquetasEnOrden(evs, t.filas, ps);
  }

  /** Before the sort, every row already is what the plan promises for it. */
  lemma FilasAntesDeOrdenar(evs: seq<Evento>, t: Tabla, ps: seq<string>)
    requires ConFilaTotal(evs, t, ps, Suma(evs))
    ensures FilasDelPlan(evs, t.dias, t.filas, false)
  {
    EtiquetasAntesDeOrdenar(evs, t, ps, Suma(evs));
    RenglonesAntesDeOrdenar(evs, t, ps);
  }

  /** Before the sort, each program row and the `Total` row hold what the plan promises for them. */
  lemma RenglonesAntesDeOrdenar(evs: seq<Evento>, t: Tabla, ps: seq<string>)
    requires ConFilaTotal(evs, t, ps, Suma(evs))
    ensures forall f :: f in t.filas && f.etiqueta.Programa? ==> FilaDePrograma(evs, t.dias, f, false)
    ensures forall f :: f in t.filas && f.etiqueta == FilaTotal ==> FilaDeTotales(evs, t.dias, f, Suma(evs), false)
  {
    var n := |ps|;
    var u := Tabla(t.dias, t.filas[..n]);
    forall f | f in t.filas && f.etiqueta.Programa? ensures FilaDePrograma(evs, t.dias, f, false) {
      var i :| 0 <= i < |t.filas| && t.filas[i] == f;
      assert i != n;
      assert u.filas[i] == f;
    }
    forall f | f in t.filas && f.etiqueta == FilaTotal ensures FilaDeTotales(evs, t.dias, f, Suma(evs), false) {
      var i :| 0 <= i < |t.filas| && t.filas[i] == f;
      if i < n {
        assert false;
      }
    }
  }

  /** Reordering the rows keeps everything the plan promises about them. */
  lemma FilasPermutadas(evs: seq<Evento>, dias: seq<string>, a: seq<Fila>, b: seq<Fila>, suprimido: bool)
    requires FilasDelPlan(evs, dias, a, suprimido)
    requires multiset(a) == multiset(b)
    ensures FilasDelPlan(evs, dias, b, suprimido)
  {
    assert forall f :: f in b <==> f in a by {
      forall f ensures f in b <==> f in a {
        assert f in b <==> f in multiset(b);
        assert f in a <==> f in multiset(a);
      }
    }
    DistintosPor(a, b, (f: Fila) => f.etiqueta);
    assert (set f | f in b :: f.etiqueta) == (set f | f in a :: f.etiqueta);
  }

  /** Lines 90-95: sorted by start time, the rows are still the plan's rows. */
  lemma PasoOrden(evs: seq<Evento>, t: Tabla, ps: seq<string>)
    requires ConFilaTotal(evs, t, ps, Suma(evs))
    ensures EsPlan(evs, t.(filas := Ordenar(t.filas, ClaveFila)), false)
  {
    FilasAntesDeOrdenar(evs, t, ps);
    FilasPermutadas(evs, t.dias, t.filas, Ordenar(t.filas, ClaveFila), false);
  }

  /**
   * The columns the loop converts (every column but `Hora Inicio`) are
   * exactly `Total` and the date columns.
   */
  lemma ColumnasNumericas(t: Tabla)
    ensures ColHoraInicio in Columnas(t)
    ensures forall c :: c in Columnas(t) && c != ColHoraInicio <==> c == ColTotal || (c.ColDia? && c.etiqueta in t.dias)
  {
    var cs := Columnas(t);
    assert cs[0] == ColHoraInicio && cs[1] == ColTotal;
    forall c: Columna | c.ColDia? && c.etiqueta in t.dias ensures c in cs {
      var k :| 0 <= k < |t.dias| && t.dias[k] == c.etiqueta;
      assert cs[k + 2] == c;
    }
    forall c | c in cs && c != ColHoraInicio && c != ColTotal ensures c.ColDia? && c.etiqueta in t.dias {
      var k :| 0 <= k < |cs| && cs[k] == c;
      assert k >= 2 && cs[k] == ColDia(t.dias[k - 2]);
    }
  }

  /** Lines 97-100 on a program row: its counts and total, blanked when zero. */
  lemma FilaDeProgramaFormateada(evs: seq<Evento>, t: Tabla, f: Fila)
    requires FilaDePrograma(evs, t.dias, f, false)
    ensures FilaDePrograma(evs, t.dias, Suprimido(f, Columnas(t)), true)
  {
    var g := Suprimido(f, Columnas(t));
    var p := f.etiqueta.titulo;
    ColumnasNumericas(t);
    assert g.etiqueta == f.etiqueta && g.hora == f.hora;
    assert g.total == Mostrar(TotalPrograma(evs, p));
    CeldasFormateadas(evs, t, f, p);
  }

  lemma CeldasFormateadas(evs: seq<Evento>, t: Tabla, f: Fila, p: string)
    requires CeldasDe(evs, t.dias, f, p, false)
    ensures CeldasDe(evs, t.dias, Suprimido(f, Columnas(t)), p, true)
  {
    var g := Suprimido(f, Columnas(t));
    ColumnasNumericas(t);
    assert g.celdas.Keys == f.celdas.Keys;
  }

  /** Lines 97-100 on the `Total` row. */
  lemma FilaDeTotalesFormateada(evs: seq<Evento>, t: Tabla, f: Fila)
    requires FilaDeTotales(evs, t.dias, f, Suma(evs), false)
    ensures FilaDeTotales(evs, t.dias, Suprimido(f, Columnas(t)), Suma(evs), true)
  {
    var g := Suprimido(f, Columnas(t));
    ColumnasNumericas(t);
    assert g.celdas.Keys == f.celdas.Keys;
  }

  /** Lines 97-100 over all rows: the plan, now with zeros blanked, still sorted. */
  lemma PasoFormato(evs: seq<Evento>, t: Tabla, filas: seq<Fila>)
    requires EsPlan(evs, t, false)
    requires |filas| == |t.filas|
    requires forall i :: 0 <= i < |filas| ==> filas[i] == Suprimido(t.filas[i], Columnas(t))
    ensures EsPlan(evs, t.(filas := filas), true)
  {
    forall i | 0 <= i < |filas| ensures filas[i].etiqueta == t.filas[i].etiqueta && filas[i].hora == t.filas[i].hora {
    }
    MismoOrden(t.filas, filas);
    FilasFormateadas(evs, t, filas);
  }

  /** Rows that keep their labels and start times keep the labels' distinctness and the rows' order. */
  lemma MismoOrden(a: seq<Fila>, b: seq<Fila>)
    requires |a| == |b| && forall i :: 0 <= i < |a| ==> b[i].etiqueta == a[i].etiqueta && b[i].hora == a[i].hora
    requires forall i, j :: 0 <= i < j < |a| ==> a[i].etiqueta != a[j].etiqueta
    requires Ordenada(a, ClaveFila)
    ensures forall i, j :: 0 <= i < j < |b| ==> b[i].etiqueta != b[j].etiqueta
    ensures Ordenada(b, ClaveFila)
    ensures (set f | f in a :: f.etiqueta) == (set f | f in b :: f.etiqueta)
  {
    assert forall i :: 0 <= i < |a| ==> ClaveFila(b[i]) == ClaveFila(a[i]);
    MismasEtiquetas(a, b);
  }

  /** Every row, formatted, is the formatted row the plan promises. */
  lemma FilasFormateadas(evs: seq<Evento>, t: Tabla, filas: seq<Fila>)
    requires forall f :: f in t.filas && f.etiqueta.Programa? ==> FilaDePrograma(evs, t.dias, f, false)
    requires forall f :: f in t.filas && f.etiqueta == FilaTotal ==> FilaDeTotales(evs, t.dias, f, Suma(evs), false)
    requires |filas| == |t.filas|
    requires forall i :: 0 <= i < |filas| ==> filas[i] == Suprimido(t.filas[i], Columnas(t))
    ensures forall f :: f in filas && f.etiqueta.Programa? ==> FilaDePrograma(evs, t.dias, f, true)
    ensures forall f :: f in filas && f.etiqueta == FilaTotal ==> FilaDeTotales(evs, t.dias, f, Suma(evs), true)
  {
    forall f | f in filas && f.etiqueta.Programa? ensures FilaDePrograma(evs, t.dias, f, true) {
      var i :| 0 <= i < |filas| && filas[i] == f;
      assert t.filas[i] in t.filas;
      FilaDeProgramaFormateada(evs, t, t.filas[i]);
    }
    forall f | f in filas && f.etiqueta == FilaTotal ensures FilaDeTotales(evs, t.dias, f, Suma(evs), true) {
      var i :| 0 <= i < |filas| && filas[i] == f;
      assert t.filas[i] in t.filas;
      FilaDeTotalesFormateada(evs, t, t.filas[i]);
    }
  }

  lemma MismasEtiquetas(a: seq<Fila>, b: seq<Fila>)
    requires |a| == |b| && forall i :: 0 <= i < |a| ==> a[i].etiqueta == b[i].etiqueta
    ensures (set f | f in a :: f.etiqueta) == (set f | f in b :: f.etiqueta)
  {
    forall f | f in a ensures f.etiqueta in (set f | f in b :: f.etiqueta) {
      var i :| 0 <= i < |a| && a[i] == f;
      assert b[i] in b;
    }
    forall f | f in b ensures f.etiqueta in (set f | f in a :: f.etiqueta) {
      var i :| 0 <= i < |b| && b[i] == f;
      assert a[i] in a;
    }
  }

  // ---------------------------------------------------------------------------
  // The whole builder

  /**
   * Lines 97-100: for every column but `Hora Inicio`, in column order, cast
   * it to integers and blank its zeros; the result is every row with all its
   * numeric columns done.
   */
  method AEnterosTodas(t: Tabla) returns (filas: seq<Fila>)
    ensures |filas| == |t.filas|
    ensures forall i :: 0 <= i < |filas| ==> filas[i] == Suprimido(t.filas[i], Columnas(t))
  {
    var columnas := Columnas(t);
    filas := t.filas;
    forall i | 0 <= i < |filas| ensures filas[i] == Suprimido(t.filas[i], columnas[..0]) {
      SuprimidoNada(t.filas[i]);
    }
    for k := 0 to |columnas|
      invariant |filas| == |t.filas|
      invariant forall i :: 0 <= i < |filas| ==> filas[i] == Suprimido(t.filas[i], columnas[..k])
    {
      assert columnas[..k + 1] == columnas[..k] + [columnas[k]];
      forall i | 0 <= i < |filas| ensures AEnteros(filas[i], columnas[k]) == Suprimido(t.filas[i], columnas[..k + 1]) {
        SuprimidoPaso(t.filas[i], columnas[..k], columnas[k]);
      }
      if columnas[k] != ColHoraInicio {
        filas := seq(|filas|, i requires 0 <= i < |filas| => AEnteros(filas[i], columnas[k]));
      }
    }
    assert columnas[..|columnas|] == columnas;
  }

  /**
   * `generar_plan(df_filtrado)`. The caller hands over the events its
   * filters kept, at least one. The plan has every `dd/mm` of the events as a
   * column, ascending by `day + 100 * month`; one row per program holding its
   * representative start time, its insertions per day and in all; a `Total`
   * row holding each day's insertions and, in its `Total` cell, all the
   * insertions (line 89 corrected); rows ascending by start time; zeros
   * blanked.
   */
  method GenerarPlan(evs: seq<Evento>) returns (plan: Tabla)
    requires evs != []
    requires forall e | e in evs :: EventoValido(e)
    ensures DiasDelPlan(evs, plan.dias)
    ensures FilasDelPlan(evs, plan.dias, plan.filas, true)
    ensures Ordenada(plan.filas, ClaveFila)
  {
    var grupos := Agrupar(evs);
    var pivot := OrdenarDias(Pivotar(grupos));
    ghost var ps := ProgramasGrupos(grupos);
    PasoPivote(evs, grupos);

    PasoHora(evs, grupos, pivot, ps);
    pivot := InsertarHoraInicio(pivot, grupos);
    PasoTotal(evs, pivot, ps);
    pivot := InsertarTotal(pivot);
    PasoFilaTotal(evs, pivot, ps);
    pivot := AgregarFilaTotal(pivot);
    TotalGeneralCorregido(evs, pivot, ps);
    pivot := RecalcularTotalGeneralCorregido(pivot);
    PasoOrden(evs, pivot, ps);
    pivot := pivot.(filas := Ordenar(pivot.filas, ClaveFila));

    var filas := AEnterosTodas(pivot);
    PasoFormato(evs, pivot, filas);
    plan := pivot.(filas := filas);
  }

  /**
   * In rows sorted by `_orden`, every row with a valid start time comes
   * before every row without one, the `Total` row among the latter.
   */
  lemma ConHoraPrimero(filas: seq<Fila>)
    requires Ordenada(filas, ClaveFila)
    requires forall i | 0 <= i < |filas| && filas[i].hora.Some? :: HoraValida(filas[i].hora.value)
    ensures forall i, j | 0 <= i < |filas| && 0 <= j < |filas| :: filas[i].hora.Some? && filas[j].hora.None? ==> i < j
  {
    forall i, j | 0 <= i < |filas| && 0 <= j < |filas| && filas[i].hora.Some? && filas[j].hora.None? ensures i < j {
      SegundosAcotados(filas[i].hora.value);
      assert ClaveFila(filas[i]) < ClaveFila(filas[j]);
    }
  }

  /** Every start time in the plan is valid, so the plan lists timed programs first. */
  lemma PlanConHoraPrimero(evs: seq<Evento>, t: Tabla, suprimido: bool)
    requires forall e | e in evs :: EventoValido(e)
    requires EsPlan(evs, t, suprimido)
    ensures forall i | 0 <= i < |t.filas| && t.filas[i].hora.Some? :: HoraValida(t.filas[i].hora.value)
    ensures forall i, j | 0 <= i < |t.filas| && 0 <= j < |t.filas| :: t.filas[i].hora.Some? && t.filas[j].hora.None? ==> i < j
  {
    forall i | 0 <= i < |t.filas| && t.filas[i].hora.Some? ensures HoraValida(t.filas[i].hora.value) {
      var f := t.filas[i];
      assert f in t.filas;
      if f.etiqueta.Programa? {
        HoraRepresentativaValida(evs, f.etiqueta.titulo, f.hora);
      }
    }
    ConHoraPrimero(t.filas);
  }

  /**
   * In the plan every row's `Total` is the sum of its own date cells: a
   * program's insertions, and for the `Total` row all of them.
   */
  lemma TotalesCuadran(evs: seq<Evento>, t: Tabla, suprimido: bool)
    requires EsPlan(evs, t, suprimido)
    ensures forall f | f in t.filas :: Valor(f.total) == SumaFila(f, t.dias)
  {
    DiasCubiertos(evs, t.dias);
    forall f | f in t.filas ensures Valor(f.total) == SumaFila(f, t.dias) {
      if f.etiqueta.Programa? {
        var p := f.etiqueta.titulo;
        assert FilaDePrograma(evs, t.dias, f, suprimido);
        forall c | c in t.dias ensures ValorEn(f, c) == Conteo(evs, p, c) {
          assert Valor(Formato(suprimido, Conteo(evs, p, c))) == Conteo(evs, p, c);
        }
        TotalDeFila(evs, f, p, t.dias);
      } else {
        assert FilaDeTotales(evs, t.dias, f, Suma(evs), suprimido);
        forall c | c in t.dias ensures ValorEn(f, c) == ConteoDia(evs, c) {
          assert Valor(Formato(suprimido, ConteoDia(evs, c))) == ConteoDia(evs, c);
        }
        SumaFilaDias(evs, f, t.dias);
        Particion(evs, ColumnaDe, t.dias);
      }
    }
  }
}
