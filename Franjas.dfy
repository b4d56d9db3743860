/**
 * The time-slot (franja horaria) classifier: a constant table of nine named,
 * closed `HH:MM` intervals searched in order, first match wins. Bounds are
 * compared with the clock time as TEXT, the way Python's `<=` compares two
 * strings, after the time has been rendered as `HH:MM` (seconds dropped).
 */
module Franjas {
  import opened Comun

  datatype Rango = Rango(nombre: string, inicio: string, fin: string)

  const SIN_FRANJA: string := "Sin franja"

  /** The table of slots, in the dictionary's insertion order. */
  const FRANJAS_HORARIAS: seq<Rango> := [
    Rango("Madrugada",        "00:00", "05:59"),
    Rango("Despertador",      "06:00", "08:00"),
    Rango("Mañana",           "08:01", "12:00"),
    Rango("Acceso sobremesa", "12:01", "13:00"),
    Rango("Sobremesa",        "13:01", "15:00"),
    Rango("Tarde",            "15:01", "17:59"),
    Rango("Acceso prime",     "18:00", "19:59"),
    Rango("Prime time 1",     "20:00", "22:00"),
    Rango("Prime time 2",     "22:01", "23:59")
  ]

  /** Python's `a <= b` on strings: lexicographic by code point, a prefix first. */
  predicate LexLe(a: string, b: string) {
    if a == [] then true
    else if b == [] then false
    else if a[0] != b[0] then a[0] < b[0]
    else LexLe(a[1..], b[1..])
  }

  /** The text `HH:MM` of a minute of the day (`0 <= x < 1440`). */
  function Texto(x: nat): (s: string)
    requires x < 1440
    ensures |s| == 5
  {
    [Digito(x / 60 / 10), Digito(x / 60 % 10), ':', Digito(x % 60 / 10), Digito(x % 60 % 10)]
  }

  /** `hora.strftime("%H:%M")`. */
  function HoraMinuto(t: Hora): (s: string)
    requires HoraValida(t)
    ensures s == Texto(t.h * 60 + t.m)
  {
    var x := t.h * 60 + t.m;
    assert x / 60 == t.h && x % 60 == t.m;
    Dos(t.h) + ":" + Dos(t.m)
  }

  predicate EnRango(r: Rango, s: string) {
    LexLe(r.inicio, s) && LexLe(s, r.fin)
  }

  /** The position of the first slot of `tabla` whose interval holds `s`. */
  function Buscar(tabla: seq<Rango>, s: string): (r: Option<nat>)
    ensures r.Some? ==> r.value < |tabla| && EnRango(tabla[r.value], s)
    ensures r.Some? ==> forall j :: 0 <= j < r.value ==> !EnRango(tabla[j], s)
    ensures r.None? ==> forall j :: 0 <= j < |tabla| ==> !EnRango(tabla[j], s)
  {
    if tabla == [] then None
    else if EnRango(tabla[0], s) then Some(0)
    else match Buscar(tabla[1..], s)
      case None => None
      case Some(k) => Some(k + 1)
  }

  /**
   * `asignar_franja_horaria`: "Sin franja" for an absent time, otherwise the
   * name of the first slot holding the time's `HH:MM` text ("Sin franja" if
   * none does).
   */
  function AsignarFranjaHoraria(hora: Option<Hora>): (r: string)
    requires hora.Some? ==> HoraValida(hora.value)
    ensures hora.None? ==> r == SIN_FRANJA
  {
    match hora
    case None => SIN_FRANJA
    case Some(t) =>
      match Buscar(FRANJAS_HORARIAS, HoraMinuto(t))
      case Some(i) => FRANJAS_HORARIAS[i].nombre
      case None => SIN_FRANJA
  }

  // ---------------------------------------------------------------------------
  // The table read as minutes of the day

  /** The closed interval of slot `i` in minutes of the day. */
  const LIMITES: seq<(nat, nat)> := [
    (0, 359), (360, 480), (481, 720), (721, 780), (781, 900),
    (901, 1079), (1080, 1199), (1200, 1320), (1321, 1439)
  ]

  // The bounds of each slot, one slot at a time.

  lemma BordesMadrugada()
    ensures FRANJAS_HORARIAS[0].inicio == Texto(0) && FRANJAS_HORARIAS[0].fin == Texto(359)
  {
  }

  lemma BordesDespertador()
    ensures FRANJAS_HORARIAS[1].inicio == Texto(360) && FRANJAS_HORARIAS[1].fin == Texto(480)
  {
  }

  lemma BordesManana()
    ensures FRANJAS_HORARIAS[2].inicio == Texto(481) && FRANJAS_HORARIAS[2].fin == Texto(720)
  {
  }

  lemma BordesAccesoSobremesa()
    ensures FRANJAS_HORARIAS[3].inicio == Texto(721) && FRANJAS_HORARIAS[3].fin == Texto(780)
  {
  }

  lemma BordesSobremesa()
    ensures FRANJAS_HORARIAS[4].inicio == Texto(781) && FRANJAS_HORARIAS[4].fin == Texto(900)
  {
  }

  lemma BordesTarde()
    ensures FRANJAS_HORARIAS[5].inicio == Texto(901) && FRANJAS_HORARIAS[5].fin == Texto(1079)
  {
  }

  lemma BordesAccesoPrime()
    ensures FRANJAS_HORARIAS[6].inicio == Texto(1080) && FRANJAS_HORARIAS[6].fin == Texto(1199)
  {
  }

  lemma BordesPrimeTime1()
    ensures FRANJAS_HORARIAS[7].inicio == Texto(1200) && FRANJAS_HORARIAS[7].fin == Texto(1320)
  {
  }

  lemma BordesPrimeTime2()
    ensures FRANJAS_HORARIAS[8].inicio == Texto(1321) && FRANJAS_HORARIAS[8].fin == Texto(1439)
  {
  }

  /** Each bound of the table is the `HH:MM` text of the matching minute. */
  lemma TablaEnMinutos(i: nat)
    requires i < |FRANJAS_HORARIAS|
    ensures |LIMITES| == |FRANJAS_HORARIAS| && LIMITES[i].0 <= LIMITES[i].1 < 1440
    ensures FRANJAS_HORARIAS[i].inicio == Texto(LIMITES[i].0)
    ensures FRANJAS_HORARIAS[i].fin == Texto(LIMITES[i].1)
  {
    if i == 0 {
      BordesMadrugada();
    } else if i == 1 {
      BordesDespertador();
    } else if i == 2 {
      BordesManana();
    } else if i == 3 {
      BordesAccesoSobremesa();
    } else if i == 4 {
      BordesSobremesa();
    } else if i == 5 {
      BordesTarde();
    } else if i == 6 {
      BordesAccesoPrime();
    } else if i == 7 {
      BordesPrimeTime1();
    } else {
      BordesPrimeTime2();
    }
  }

  /**
   * The nine intervals tile the day: the first starts at 00:00, the last
   * ends at 23:59 and each starts the minute after the previous one ends.
   */
  lemma Teselado()
    ensures |LIMITES| == 9
    ensures LIMITES[0].0 == 0 && LIMITES[8].1 == 1439
    ensures forall i :: 0 <= i < 8 ==> LIMITES[i].1 + 1 == LIMITES[i + 1].0
    ensures forall i :: 0 <= i < 9 ==> LIMITES[i].0 <= LIMITES[i].1
  {
  }

  /** Every minute of the day lies in exactly one slot. */
  lemma {:induction false} UnaSolaFranja(x: nat)
    requires x < 1440
    ensures exists i :: 0 <= i < |LIMITES| && LIMITES[i].0 <= x <= LIMITES[i].1
    ensures forall i, j ::
              (0 <= i < |LIMITES| && 0 <= j < |LIMITES|
               && LIMITES[i].0 <= x <= LIMITES[i].1 && LIMITES[j].0 <= x <= LIMITES[j].1) ==> i == j
  {
    Teselado();
    var i := 0;
    while LIMITES[i].1 < x
      invariant 0 <= i < 9 && LIMITES[i].0 <= x
    {
      i := i + 1;
    }
    forall i, j | 0 <= i < j < |LIMITES| ensures LIMITES[i].1 < LIMITES[j].0 {
      Crecientes(i, j);
    }
  }

  lemma {:induction false} Crecientes(i: nat, j: nat)
    requires i < j < |LIMITES|
    ensures LIMITES[i].1 < LIMITES[j].0
    decreases j - i
  {
    Teselado();
    if i + 1 < j {
      Crecientes(i + 1, j);
    }
  }

  // ---------------------------------------------------------------------------
  // Comparing `HH:MM` texts is comparing minutes

  lemma LexLeCons(a: char, x: string, b: char, y: string)
    ensures LexLe([a] + x, [b] + y) == (if a != b then a < b else LexLe(x, y))
  {
    assert ([a] + x)[1..] == x && ([b] + y)[1..] == y;
  }

  /** Two-digit texts compare like the numbers they render. */
  lemma DigitosOrden(a: nat, b: nat)
    requires a < 100 && b < 100
    ensures (a / 10 < b / 10 || (a / 10 == b / 10 && a % 10 <= b % 10)) <==> a <= b
    ensures (a / 10 == b / 10 && a % 10 == b % 10) <==> a == b
  {
  }

  /** A two-digit prefix decides the comparison unless the two numbers are equal. */
  lemma LexLeDos(a: nat, b: nat, x: string, y: string)
    requires a < 100 && b < 100
    ensures LexLe(Dos(a) + x, Dos(b) + y) == (a < b || (a == b && LexLe(x, y)))
  {
    var s, t := Dos(a) + x, Dos(b) + y;
    assert s == [Digito(a / 10)] + ([Digito(a % 10)] + x);
    assert t == [Digito(b / 10)] + ([Digito(b % 10)] + y);
    LexLeCons(Digito(a / 10), [Digito(a % 10)] + x, Digito(b / 10), [Digito(b % 10)] + y);
    LexLeCons(Digito(a % 10), x, Digito(b % 10), y);
    DigitosOrden(a, b);
  }

  /** `HH:MM` texts compare as the minutes of the day they render. */
  lemma LexLeTexto(x: nat, y: nat)
    requires x < 1440 && y < 1440
    ensures LexLe(Texto(x), Texto(y)) <==> x <= y
  {
    var h1, m1, h2, m2 := x / 60, x % 60, y / 60, y % 60;
    var u, v := ":" + Dos(m1), ":" + Dos(m2);
    assert Texto(x) == Dos(h1) + u by { assert Dos(h1) == [Digito(h1 / 10), Digito(h1 % 10)]; }
    assert Texto(y) == Dos(h2) + v by { assert Dos(h2) == [Digito(h2 / 10), Digito(h2 % 10)]; }
    LexLeDos(h1, h2, u, v);
    LexLeCons(':', Dos(m1), ':', Dos(m2));
    assert Dos(m1) == Dos(m1) + [] && Dos(m2) == Dos(m2) + [];
    LexLeDos(m1, m2, [], []);
  }

  /** A slot whose bounds are the texts of minutes `a` and `b` holds exactly the texts of the minutes between. */
  lemma EnRangoTextos(r: Rango, a: nat, b: nat, x: nat, s: string)
    requires a < 1440 && b < 1440 && x < 1440
    requires r.inicio == Texto(a) && r.fin == Texto(b) && s == Texto(x)
    ensures EnRango(r, s) <==> a <= x <= b
  {
    LexLeTexto(a, x);
    LexLeTexto(x, b);
  }

  /** Slot `i` holds a time exactly when the time's minute of the day lies in its interval. */
  lemma EnRangoMinutos(i: nat, t: Hora)
    requires i < |FRANJAS_HORARIAS| && HoraValida(t)
    ensures EnRango(FRANJAS_HORARIAS[i], HoraMinuto(t)) <==> LIMITES[i].0 <= t.h * 60 + t.m <= LIMITES[i].1
  {
    TablaEnMinutos(i);
    EnRangoTextos(FRANJAS_HORARIAS[i], LIMITES[i].0, LIMITES[i].1, t.h * 60 + t.m, HoraMinuto(t));
  }

  // ---------------------------------------------------------------------------
  // What the classifier promises

  /**
   * A real time whose minute of the day lies in the interval of slot `i`
   * gets that slot's name.
   */
  lemma FranjaEnIntervalo(t: Hora, i: nat)
    requires HoraValida(t) && i < |LIMITES|
    requires LIMITES[i].0 <= t.h * 60 + t.m <= LIMITES[i].1
    ensures AsignarFranjaHoraria(Some(t)) == FRANJAS_HORARIAS[i].nombre
  {
    var x := t.h * 60 + t.m;
    Teselado();
    UnaSolaFranja(x);
    EnRangoMinutos(i, t);
    var r := Buscar(FRANJAS_HORARIAS, HoraMinuto(t));
    EnRangoMinutos(r.value, t);
  }

  /**
   * A real time gets the name of the one slot whose interval holds its
   * minute of the day (seconds dropped); the "Sin franja" fallback at the end
   * of the search is never reached.
   */
  lemma FranjaDeHora(t: Hora)
    requires HoraValida(t)
    ensures exists i :: 0 <= i < |FRANJAS_HORARIAS|
              && LIMITES[i].0 <= t.h * 60 + t.m <= LIMITES[i].1
              && AsignarFranjaHoraria(Some(t)) == FRANJAS_HORARIAS[i].nombre
    ensures AsignarFranjaHoraria(Some(t)) != SIN_FRANJA
    ensures AsignarFranjaHoraria(Some(t)) == AsignarFranjaHoraria(Some(Hora(t.h, t.m, 0)))
  {
    var x := t.h * 60 + t.m;
    UnaSolaFranja(x);
    var i :| 0 <= i < |LIMITES| && LIMITES[i].0 <= x <= LIMITES[i].1;
    FranjaEnIntervalo(t, i);
    assert HoraMinuto(t) == HoraMinuto(Hora(t.h, t.m, 0));
  }

  /**
   * The classifier slot by slot: the name a valid time gets depends only on
   * its hour and minute, and each stretch of the day gets its own name.
   * In particular 08:00 (up to 08:00:59) is still "Despertador".
   */
  lemma FranjaPorMinutos(t: Hora)
    requires HoraValida(t)
    ensures var x, r := t.h * 60 + t.m, AsignarFranjaHoraria(Some(t));
      && (x <= 359 ==> r == "Madrugada")
      && (360 <= x <= 480 ==> r == "Despertador")
      && (481 <= x <= 720 ==> r == "Mañana")
      && (721 <= x <= 780 ==> r == "Acceso sobremesa")
      && (781 <= x <= 900 ==> r == "Sobremesa")
      && (901 <= x <= 1079 ==> r == "Tarde")
      && (1080 <= x <= 1199 ==> r == "Acceso prime")
      && (1200 <= x <= 1320 ==> r == "Prime time 1")
      && (1321 <= x ==> r == "Prime time 2")
  {
    var x := t.h * 60 + t.m;
    var i := if x <= 359 then 0 else if x <= 480 then 1 else if x <= 720 then 2
      else if x <= 780 then 3 else if x <= 900 then 4 else if x <= 1079 then 5
      else if x <= 1199 then 6 else if x <= 1320 then 7 else 8;
    FranjaEnIntervalo(t, i);
  }
}
