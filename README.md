# Autopromoción report pipeline, modelled in Dafny

This project models the report core of the Autopromoción planner
(`modules/data_utils.py`). The input is a list of promotion insertion events.
Each event has a product, a commercial type, a programme title, a date, a start
time that may be missing, and a count of insertions. The core does four things:

- **Time slots** (`FRANJAS_HORARIAS`, `asignar_franja_horaria`): a clock
  time is classified into one of nine named slots. The code renders the
  time as `HH:MM` and compares it with each slot's bounds by string order,
  in table order. A missing time gets "Sin franja".
- **Promoted products** (`filter_promotions`): the products of the events
  dated within a window, each listed once, in order of first appearance.
- **The plan** (`generar_plan`):
  - one column per `dd/mm` date, ascending by `day + 100 * month`;
  - one row per programme, holding its start time (the mode of that day's
    start times, taken from the earliest date that has one), its insertions
    per day, and its total;
  - a final `Total` row;
  - rows sorted by start time (`hora_a_minutos`);
  - counts cast to integers, with zeros shown blank.
- **The chart dataset** (`preparar_dataset_grafico`): the plan without
  its `Total` row, reduced to title, start time, total and time slot, and
  sorted by start time with missing times last.

Modules:

| module | file | contents |
|---|---|---|
| `Comun` | `Comun.dfy` | events, dates and times; the two-digit `strftime` rendering and its `int()` read-back; `unique()` as `Unicos`; a sort proved ordered and a permutation |
| `Franjas` | `Franjas.dfy` | the slot table and classifier; proofs that the slots tile the day and that string comparison of `HH:MM` agrees with minutes |
| `Promociones` | `Promociones.dfy` | `filter_promotions` |
| `Sumas` | `Sumas.dfy` | sums of insertions by key, and the regrouping lemma behind every total |
| `Agrupacion` | `Agrupacion.dfy` | the `groupby(["Título Programa", "Fecha"])` step: per-group sums, the mode of the start times, and the `.first()` start time per programme |
| `Pivote` | `Pivote.dfy` | date labels and their sort key; the table's rows and cells; `replace(0, "")`; pivot cells and row and column sums against counts taken directly from the events |
| `Plan` | `Plan.dfy` | `generar_plan`: each step as a function with a lemma carrying the plan's invariant across it, and the method that runs them in order |
| `Grafico` | `Grafico.dfy` | `preparar_dataset_grafico`, and what it yields when applied to a plan |

`Plan.GenerarPlan` computes the table one step at a time, as the source
updates `pivot` step by step. Its postcondition is the
plan predicate `EsPlan`:

- the columns are every date label of the events once, in ascending order;
- the rows are exactly one per programme plus `Total`;
- every program row holds its representative start time, its per-day
  counts and its total, computed directly from the events;
- the `Total` row holds each day's insertions and all the insertions;
- the rows are sorted by the `_orden` key;
- zeros are blank.

## Model

| member | source | states |
|---|---|---|
| Franjas.TablaEnMinutos | modules/data_utils.py:21-31 | each slot's `inicio` and `fin` strings are the `HH:MM` rendering of a minute of the day, with `inicio <= fin` |
| Franjas.Teselado | modules/data_utils.py:21-31 | the nine slots tile the day with no gaps or overlaps: the first starts at 00:00, the last ends at 23:59, and each starts one minute after the previous one ends |
| Franjas.UnaSolaFranja | modules/data_utils.py:21-31 | every minute of the day lies in exactly one slot |
| Franjas.LexLeTexto | modules/data_utils.py:36-38 | Python's string `<=` on two `HH:MM` renderings agrees with `<=` on the minutes they denote |
| Franjas.EnRangoMinutos | modules/data_utils.py:38 | a time's `HH:MM` lies in a slot's string range iff its hour and minute lie in that slot's minute bounds |
| Franjas.Buscar | modules/data_utils.py:37-40 | the loop yields the first slot whose range holds the string, and nothing when no slot does |
| Franjas.AsignarFranjaHoraria | modules/data_utils.py:33-35 | a missing start time is classified "Sin franja" |
| Franjas.FranjaEnIntervalo | modules/data_utils.py:33-40 | a time whose hour and minute fall within a slot's bounds gets that slot's name |
| Franjas.FranjaDeHora | modules/data_utils.py:33-40 | every valid time gets a real slot, never "Sin franja": the slot whose bounds hold its hour and minute; the seconds never matter |
| Franjas.FranjaPorMinutos | modules/data_utils.py:21-40 | the slot of a valid time depends only on its hour and minute: 00:00-05:59 Madrugada, 06:00-08:00 Despertador (08:00:59 included), 08:01-12:00 Mañana, 12:01-13:00 Acceso sobremesa, 13:01-15:00 Sobremesa, 15:01-17:59 Tarde, 18:00-19:59 Acceso prime, 20:00-22:00 Prime time 1, 22:01-23:59 Prime time 2 |
| Comun.LeerDos | modules/data_utils.py:79-82 | `int()` reads back the two-digit `strftime` rendering of any number below 100 |
| Comun.DosInyectiva | modules/data_utils.py:79 | the two-digit rendering is injective below 100 |
| Comun.Unicos | modules/data_utils.py:71 | `unique()`: each element once, nothing else, in order of first occurrence |
| Comun.Ordenar | modules/data_utils.py:95 | `sort_values`: the result is ordered by the key and is a permutation of the input |
| Comun.DistintosPor | modules/data_utils.py:95 | reordering keeps labels distinct: a permutation of rows with distinct labels has distinct labels |
| Promociones.ProductosEnVentana | modules/data_utils.py:70-71 | a product is listed iff some event dated within the window carries it |
| Promociones.PrimerEvento | modules/data_utils.py:71 | the first event within the window that carries a product |
| Promociones.OrdenDePrimeras | modules/data_utils.py:71 | a product is listed before another iff its first event within the window comes earlier |
| Promociones.FiltrarPromociones | modules/data_utils.py:67-71 | products are distinct; a product is listed iff some event within the window (both ends included) carries it; products are in order of their first such event |
| Promociones.PrimerasEnOrden | modules/data_utils.py:71 | listing products in order of first occurrence lists them in order of their first event within the window |
| Sumas.Filtrar | modules/data_utils.py:74 | an event is in a group iff it carries the group's key |
| Sumas.Particion | modules/data_utils.py:74-75 | regrouping: summing per-key sums over a list holding every key once gives the sum over all events |
| Agrupacion.Horas | modules/data_utils.py:76 | the start times `mode()` looks at: every present time of the group, and only those |
| Agrupacion.FrecuenciasDeHoras | modules/data_utils.py:76 | each start time occurs among the times `mode()` looks at as often as there are events of the group starting at it |
| Agrupacion.Moda | modules/data_utils.py:76 | `x.mode().iloc[0]`: nothing iff the group has no start time; otherwise a most frequent time, the earliest of any tie |
| Agrupacion.ModaUnica | modules/data_utils.py:76 | among valid times the mode so defined is unique, so `Moda` is the one the source picks |
| Agrupacion.Claves | modules/data_utils.py:74 | every (programme, date) key of the events, once each |
| Agrupacion.Agrupar | modules/data_utils.py:74-77 | one group per (programme, date) key of the events and no other; each group's insertions are its events' sum, its time is their mode |
| Agrupacion.AgruparCubre | modules/data_utils.py:74-77 | the group keys are exactly the event keys, and each group is the group of its key: that key's summed insertions and the mode of its start times |
| Agrupacion.PrimerConHora | modules/data_utils.py:83 | `.first()` skips nulls: it takes the earliest-dated group of the programme that has a time, or none if no group has one |
| Agrupacion.HoraInicioEsRepresentativa | modules/data_utils.py:83-84 | the start time picked for a programme is missing iff none of its events has a time; otherwise it is the mode of the times on the earliest date that has one |
| Agrupacion.HoraRepresentativaUnica | modules/data_utils.py:83-84 | a programme's representative start time is uniquely determined by the events |
| Agrupacion.HoraRepresentativaValida | modules/data_utils.py:83-84 | a representative start time is a valid clock time |
| Pivote.EtiquetaDia | modules/data_utils.py:79 | a `%d/%m` label is five characters with `/` in the middle |
| Pivote.MismaColumna | modules/data_utils.py:79-81 | two dates share a pivot column iff they have the same day and month; years merge |
| Pivote.ClaveDeEtiqueta | modules/data_utils.py:82 | the column key `int(x[:2]) + int(x[3:])*100` of a label is `day + 100 * month` |
| Pivote.OrdenDeColumnas | modules/data_utils.py:82 | column keys order labels by month, then by day |
| Pivote.Mostrar | modules/data_utils.py:100 | `replace(0, "")`: a cell is blank iff its count is zero, and keeps its count otherwise |
| Plan.ColumnasNumericas | modules/data_utils.py:97-99 | the columns the conversion loop converts (every column but `Hora Inicio`) are exactly `Total` and the date columns |
| Pivote.CeldaDePivote | modules/data_utils.py:81 | a pivot cell (the summed insertions of the programme's groups with that label) equals the programme's insertions on that day, counted directly from the events |
| Pivote.ConteoCero | modules/data_utils.py:81 | when every event counts at least one insertion, a cell is zero (so shown blank) iff no event of that programme falls on that day |
| Pivote.TotalDeFila | modules/data_utils.py:86 | a program row's sum over the date columns is the programme's total insertions |
| Pivote.TotalDeColumna | modules/data_utils.py:87 | a date column's sum over the program rows is that day's insertions |
| Plan.ProgramasGrupos | modules/data_utils.py:81 | the pivot's index: every programme of the groups, once |
| Plan.DiasGrupos | modules/data_utils.py:81 | the pivot's columns: every date label of the groups, once |
| Plan.DiasOrdenados | modules/data_utils.py:82 | after the reindex the columns are every date label of the events once, strictly ascending by key |
| Plan.PasoPivote | modules/data_utils.py:79-82 | after pivoting and reindexing, one row per programme holds its insertions for each day |
| Plan.PasoHora | modules/data_utils.py:83-84 | inserting `Hora Inicio` gives each programme its representative start time |
| Plan.PasoTotal | modules/data_utils.py:86 | inserting `Total` gives each programme its total insertions |
| Plan.PasoFilaTotal | modules/data_utils.py:87-88 | the appended `Total` row has no start time, each day's insertions, and all the insertions as its `Total` |
| Plan.PasoTotalGeneral | modules/data_utils.py:89 | as written, line 89 sets the `Total` row's `Total` to twice the insertions |
| Plan.TotalGeneralDuplicado | modules/data_utils.py:89 | as written, whenever there is an insertion, the `Total` row's `Total` is twice the sum of its own date cells, so it differs from that sum |
| Plan.GranTotalCorregido | modules/data_utils.py:89 | the program rows' date cells, and also their `Total` cells, add up to all the insertions |
| Plan.TotalGeneralCorregido | modules/data_utils.py:89 | with line 89 corrected, the `Total` row's `Total` is all the insertions; this equals the sum of its own date cells and the sum of the program rows' totals |
| Plan.ClaveFilaEnMinutos | modules/data_utils.py:90-94 | the sort key in seconds is 60 times `hora_a_minutos`, so both order rows alike; a missing time maps to 999999 minutes |
| Plan.FilasPermutadas | modules/data_utils.py:95 | reordering the rows keeps every per-row fact of the plan and keeps labels distinct |
| Plan.PasoOrden | modules/data_utils.py:94-95 | after `sort_values("_orden")` the table is the plan, sorted by start time |
| Plan.ConHoraPrimero | modules/data_utils.py:90-95 | after the sort, every row with a start time precedes every row without one |
| Plan.PlanConHoraPrimero | modules/data_utils.py:90-95 | in the plan all start times are valid, and programmes with a start time come before those without and before `Total` |
| Plan.SuprimidoPaso | modules/data_utils.py:97-99 | converting one more column extends the set of converted columns by that column |
| Plan.AEnterosTodas | modules/data_utils.py:97-100 | the column loop leaves every row with every numeric column converted, with zeros blank, and `Hora Inicio` untouched |
| Plan.PasoFormato | modules/data_utils.py:97-100 | after conversion the table still is the plan, now with zero counts blank |
| Plan.GenerarPlan | modules/data_utils.py:73-101 | the plan of the events: each date label once, ascending; one row per programme with its representative start time, per-day and total insertions; a `Total` row with per-day and overall insertions; rows ascending by start time; zeros blank |
| Plan.TotalesCuadran | modules/data_utils.py:86-89 | in the plan every program row's `Total` is the sum of its own date cells, as at line 86; the `Total` row's `Total` is the sum of its own date cells only with line 89 corrected |
| Plan.FilasDePrograma | modules/data_utils.py:44 | `drop(index="Total")`: the program rows and no others |
| Grafico.PrepararDatasetGrafico | modules/data_utils.py:42-50 | the chart rows are sorted by start time with missing times last; they are a permutation of the program rows' projections; each program row appears and nothing else does; each row's slot is the slot of its own start time |
| Grafico.ProgramasDistintos | modules/data_utils.py:44 | dropping the `Total` row keeps the remaining labels distinct |
| Grafico.GraficoDelPlan | modules/data_utils.py:42-50 | on a plan, the chart has one row per programme of the events and no other; titles are distinct; each row carries the programme's total insertions (blank if zero), its representative start time and that time's slot |
| Grafico.TitulosDelPlan | modules/data_utils.py:44-48 | the programme titles among the plan's rows are exactly the programmes of the events |
| Grafico.TitulosDelGrafico | modules/data_utils.py:44-48 | the chart rows carry exactly the titles of the plan's program rows |

## Left out

- `cargar_datos` (CSV reading, date and time parsing, setting `Inserciones` to 1): this is I/O. The model starts from parsed events whose unparsable start times are already missing.
- `preparar_datasets_graficos` and `filtrar_por_dia` (weekday filtering) are not part of this model. Neither is the Streamlit page in `app.py`, beyond the guarantee it gives `generar_plan`.
- Plan.GenerarPlan: requires at least one event. The caller only calls `generar_plan` on a non-empty selection (`app.py:40`), and pandas' behaviour on an empty frame is not modelled.
- Plan.GenerarPlan: uses line 89 corrected, as the finding below explains. The code as written is `Plan.RecalcularTotalGeneral`, with `Plan.PasoTotalGeneral` and `Plan.TotalGeneralDuplicado`.
- Plan.GenerarPlan: the order of rows with equal start times is not stated. pandas' `sort_values` is not stable, and the pivot's alphabetical index order before the sort is not modelled (programmes appear in order of first group).
- Plan.TotalesCuadran: holds for the plan with line 89 corrected. As written, the `Total` row's `Total` is twice the sum of its date cells (see the finding below).
- Comun.Ordenar: a stable insertion sort stands in for pandas' unstable sort. Only sortedness and permutation are stated, and both sorts have both.
- Grafico.PrepararDatasetGrafico: the order among rows with equal start times is not stated, as above.
- Floating point: `Inserciones` are floats in the source and become integers at line 99. The model counts with naturals throughout, so `astype(int)` changes no value.
- The `Total` row's `""` start time and a programme's missing (NaN) start time are both modelled as `None`. Both get the sort key 999999 and the slot "Sin franja" in the source.
- A programme literally titled "Total" would collide with the `Total` row's label in the source. The model keeps the two labels apart.
- Pivote.ClaveColumna: the guard for labels shorter than three characters is never taken, because every label is `dd/mm`.
- Dates are assumed valid (day 1-31, month 1-12) and times valid (`HH < 24`, `MM < 60`, `SS < 60`), as parsing guarantees. Nothing checks calendar validity of a day within its month.
- Points of the source's behaviour worth noting, which the model follows:
  - the fallback slot is "Sin franja";
  - 08:00 belongs to Despertador;
  - `.first()` takes the first non-missing start time, not the first group's.

## Findings

| source | as written | input that shows it | evidently intended | confidence | as-written member | corrected member |
|---|---|---|---|---|---|---|
| modules/data_utils.py:89 | the grand total sums every date cell of the table, including the `Total` row appended at line 87, which already holds each day's sum | a single event with one insertion: the `Total` row's date cell is 1, but its `Total` cell is 2 | the `Total` row's `Total` is all the insertions: the sum of its own date cells, and of the programmes' totals | not executed | Plan.TotalGeneralDuplicado | Plan.TotalGeneralCorregido |
