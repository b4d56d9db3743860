/**
 * Values shared by the whole report pipeline: optional values, the calendar
 * date and clock time of an insertion event, the two-digit decimal rendering
 * used by `strftime("%d")`, `"%m"`, `"%H"` and `"%M"` together with the
 * `int()` parse that reads it back, the order-preserving de-duplication of
 * pandas' `unique()`, and a sort by integer key.
 */
module Comun {

  datatype Option<T> = None | Some(value: T)

  /** A calendar date as parsed from `DD/MM/YYYY`. */
  datatype Fecha = Fecha(dia: nat, mes: nat, anio: nat)

  predicate FechaValida(f: Fecha) {
    1 <= f.dia <= 31 && 1 <= f.mes <= 12
  }

  /** Chronological order of dates: by year, then month, then day. */
  predicate FechaLe(a: Fecha, b: Fecha) {
    a.anio < b.anio || (a.anio == b.anio && (a.mes < b.mes || (a.mes == b.mes && a.dia <= b.dia)))
  }

  lemma FechaLeAntisimetrica(a: Fecha, b: Fecha)
    requires FechaLe(a, b) && FechaLe(b, a)
    ensures a == b
  {
  }

  /** A clock time as parsed from `HH:MM:SS`. */
  datatype Hora = Hora(h: nat, m: nat, s: nat)

  predicate HoraValida(t: Hora) {
    t.h < 24 && t.m < 60 && t.s < 60
  }

  /** Seconds since midnight; Python orders `datetime.time` values this way. */
  function Segundos(t: Hora): nat {
    t.h * 3600 + t.m * 60 + t.s
  }

  lemma SegundosInyectiva(a: Hora, b: Hora)
    requires HoraValida(a) && HoraValida(b) && Segundos(a) == Segundos(b)
    ensures a == b
  {
    assert a.h == Segundos(a) / 3600 && b.h == Segundos(b) / 3600;
    assert a.m * 60 + a.s == b.m * 60 + b.s;
    assert a.m == (a.m * 60 + a.s) / 60 && b.m == (b.m * 60 + b.s) / 60;
  }

  lemma SegundosAcotados(t: Hora)
    requires HoraValida(t)
    ensures Segundos(t) < 86400
  {
    assert t.h * 3600 <= 23 * 3600;
    assert t.m * 60 <= 59 * 60;
  }

  /**
   * One insertion event, as loading the CSV leaves it: `Producto`,
   * `Tipo Comercial`, `Título Programa`, `Fecha`, `Hora Inicio` (absent when
   * it did not parse) and `Inserciones`.
   */
  datatype Evento = Evento(
    producto: Option<string>,
    tipo: string,
    programa: string,
    fecha: Fecha,
    hora: Option<Hora>,
    inserciones: nat)

  predicate EventoValido(e: Evento) {
    FechaValida(e.fecha) && (e.hora.Some? ==> HoraValida(e.hora.value))
  }

  // ---------------------------------------------------------------------------
  // Two-digit decimal text

  function Digito(d: nat): (c: char)
    requires d < 10
    ensures '0' <= c <= '9' && c as int == '0' as int + d
  {
    ('0' as int + d) as char
  }

  /**
   * `n` zero-padded to two decimal digits, as `strftime` writes days, months,
   * hours and minutes (all below 100); a larger `n` keeps its last two digits.
   */
  function Dos(n: nat): (s: string)
    ensures |s| == 2
  {
    if n < 100 then [Digito(n / 10), Digito(n % 10)] else Dos(n % 100)
  }

  /** Python's `int()` of a string of decimal digits. */
  function Leer(s: string): int {
    if s == [] then 0 else Leer(s[..|s| - 1]) * 10 + (s[|s| - 1] as int - '0' as int)
  }

  lemma LeerDos(n: nat)
    requires n < 100
    ensures Leer(Dos(n)) == n
  {
    var s := Dos(n);
    assert s[..1][..0] == [];
    assert Leer(s[..1]) == n / 10;
  }

  /** Two-digit rendering is injective. */
  lemma DosInyectiva(a: nat, b: nat)
    requires a < 100 && b < 100 && Dos(a) == Dos(b)
    ensures a == b
  {
    LeerDos(a);
    LeerDos(b);
  }

  // ---------------------------------------------------------------------------
  // Distinct values in order of first occurrence (pandas `unique()`)

  predicate Distintos<T(==)>(s: seq<T>) {
    forall i, j :: 0 <= i < j < |s| ==> s[i] != s[j]
  }

  /** Index of the first occurrence of `x` in `s`. */
  function Primera<T(==)>(s: seq<T>, x: T): (k: nat)
    requires x in s
    ensures k < |s| && s[k] == x && x !in s[..k]
  {
    if s[0] == x then 0 else 1 + Primera(s[1..], x)
  }

  lemma PrimeraPrefijo<T>(s: seq<T>, y: T, x: T)
    requires x in s
    ensures Primera(s + [y], x) == Primera(s, x)
  {
    if s[0] != x {
      assert (s + [y])[1..] == s[1..] + [y];
      PrimeraPrefijo(s[1..], y, x);
    }
  }

  /**
   * The distinct elements of `s` in order of first occurrence: every element
   * of `s` exactly once, and an element whose first occurrence in `s` comes
   * earlier is listed earlier.
   */
  function Unicos<T(==)>(s: seq<T>): (r: seq<T>)
    ensures Distintos(r)
    ensures forall i :: 0 <= i < |r| ==> r[i] in s
    ensures forall i :: 0 <= i < |s| ==> s[i] in r
    ensures forall i, j :: 0 <= i < j < |r| ==> Primera(s, r[i]) < Primera(s, r[j])
  {
    if s == [] then []
    else
      var p, x := s[..|s| - 1], s[|s| - 1];
      assert s == p + [x];
      var r := Unicos(p);
      forall y | y in p ensures Primera(s, y) == Primera(p, y) {
        PrimeraPrefijo(p, x, y);
      }
      if x in r then r
      else
        assert Primera(s, x) == |p|;
        r + [x]
  }

  /** Two sequences holding each other's elements hold the same set. */
  lemma MismosElementos<T>(r: seq<T>, s: seq<T>)
    requires forall i :: 0 <= i < |r| ==> r[i] in s
    requires forall i :: 0 <= i < |s| ==> s[i] in r
    ensures (set x | x in r) == (set x | x in s)
    ensures forall x :: x in r <==> x in s
  {
    forall x | x in r ensures x in s {
      var i :| 0 <= i < |r| && r[i] == x;
    }
    forall x | x in s ensures x in r {
      var i :| 0 <= i < |s| && s[i] == x;
    }
  }

  // ---------------------------------------------------------------------------
  // Sorting by an integer key

  predicate Ordenada<T>(s: seq<T>, clave: T -> int) {
    forall i, j :: 0 <= i < j < |s| ==> clave(s[i]) <= clave(s[j])
  }

  lemma OrdenadaCons<T>(x: T, s: seq<T>, clave: T -> int)
    requires Ordenada(s, clave)
    requires forall k | 0 <= k < |s| :: clave(x) <= clave(s[k])
    ensures Ordenada([x] + s, clave)
  {
    var r := [x] + s;
    forall i, j | 0 <= i < j < |r| ensures clave(r[i]) <= clave(r[j]) {
      if i > 0 {
        assert r[i] == s[i - 1] && r[j] == s[j - 1];
      } else {
        assert r[j] == s[j - 1];
      }
    }
  }

  function Insertar<T>(x: T, s: seq<T>, clave: T -> int): (r: seq<T>)
    requires Ordenada(s, clave)
    ensures Ordenada(r, clave)
    ensures multiset(r) == multiset(s) + multiset{x}
  {
    if s == [] || clave(x) <= clave(s[0]) then
      assert forall k | 0 <= k < |s| :: clave(x) <= clave(s[k]) by {
        forall k | 0 <= k < |s| ensures clave(x) <= clave(s[k]) {
          if k > 0 { assert clave(s[0]) <= clave(s[k]); }
        }
      }
      OrdenadaCons(x, s, clave);
      [x] + s
    else
      var t := Insertar(x, s[1..], clave);
      assert s == [s[0]] + s[1..];
      assert forall k | 0 <= k < |t| :: clave(s[0]) <= clave(t[k]) by {
        forall k | 0 <= k < |t| ensures clave(s[0]) <= clave(t[k]) {
          assert t[k] in multiset(t);
          if t[k] != x {
            assert t[k] in multiset(s[1..]);
            var m :| 0 <= m < |s[1..]| && s[1..][m] == t[k];
            assert clave(s[0]) <= clave(s[m + 1]);
          }
        }
      }
      OrdenadaCons(s[0], t, clave);
      [s[0]] + t
  }

  /** A sort by `clave`: the result is ordered and is a permutation of the input. */
  function Ordenar<T>(s: seq<T>, clave: T -> int): (r: seq<T>)
    ensures Ordenada(r, clave)
    ensures multiset(r) == multiset(s)
  {
    if s == [] then []
    else
      assert s == [s[0]] + s[1..];
      Insertar(s[0], Ordenar(s[1..], clave), clave)
  }

  /** Removing the same element from two permutations of each other leaves permutations. */
  lemma QuitarUno<T>(a: seq<T>, b: seq<T>, k: nat)
    requires multiset(a) == multiset(b)
    requires a != [] && k < |b| && b[k] == a[0]
    ensures multiset(b[..k] + b[k + 1..]) == multiset(a[1..])
  {
    var x := a[0];
    assert b == b[..k] + [x] + b[k + 1..];
    assert a == [x] + a[1..];
    var m := multiset(b[..k] + b[k + 1..]);
    assert m == multiset(b[..k]) + multiset(b[k + 1..]);
    assert multiset(b) == multiset(b[..k]) + multiset([x]) + multiset(b[k + 1..]);
    assert multiset(a) == multiset([x]) + multiset(a[1..]);
    assert multiset([x]) == multiset{x};
    assert m + multiset{x} == multiset(b);
    assert m + multiset{x} == multiset(a[1..]) + multiset{x};
    assert m == m + multiset{x} - multiset{x};
  }

  /** A permutation of a sequence whose keys `f` are all different has all keys different too. */
  lemma {:induction false} DistintosPor<T, L>(a: seq<T>, b: seq<T>, f: T -> L)
    requires multiset(a) == multiset(b)
    requires forall i, j :: 0 <= i < j < |a| ==> f(a[i]) != f(a[j])
    ensures forall i, j :: 0 <= i < j < |b| ==> f(b[i]) != f(b[j])
  {
    if a != [] {
      var x := a[0];
      assert x in multiset(b);
      var k :| 0 <= k < |b| && b[k] == x;
      var b' := b[..k] + b[k + 1..];
      QuitarUno(a, b, k);
      DistintosPor(a[1..], b', f);
      forall y | y in multiset(b') ensures f(y) != f(x) {
        var m :| 0 <= m < |a[1..]| && a[1..][m] == y;
        assert a[m + 1] == y;
      }
      DistintosReinsertar(b, b', k, f);
    }
  }

  lemma DistintosReinsertar<T, L>(b: seq<T>, b': seq<T>, k: nat, f: T -> L)
    requires k < |b| && b' == b[..k] + b[k + 1..]
    requires forall i, j :: 0 <= i < j < |b'| ==> f(b'[i]) != f(b'[j])
    requires forall y | y in multiset(b') :: f(y) != f(b[k])
    ensures forall i, j :: 0 <= i < j < |b| ==> f(b[i]) != f(b[j])
  {
    forall i, j | 0 <= i < j < |b| ensures f(b[i]) != f(b[j]) {
      if j < k {
        assert b[i] == b'[i] && b[j] == b'[j];
      } else if j == k {
        assert b[i] == b'[i] && b[i] in multiset(b');
      } else if i < k {
        assert b[i] == b'[i] && b[j] == b'[j - 1];
      } else if i == k {
        assert b[j] == b'[j - 1] && b[j] in multiset(b');
      } else {
        assert b[i] == b'[i - 1] && b[j] == b'[j - 1];
      }
    }
  }
}
