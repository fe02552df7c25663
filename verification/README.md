# ibge-utils entity constructors in Dafny

This project models the key handling and lookups of the entity constructors in the
`ibge.brasil` package. The package builds Brazilian geographic entities from the
codes and names used by IBGE, the Brazilian statistics institute. Four parts are
modelled:

- **`Macrorregiao`**: the five macroregions. A macroregion is built from a name
  (`nome`) or a code (`geocodigo`), never both. It then lists its states.
- **`Estado`**: a state. It is built from its code or from its two-letter
  abbreviation (`uf`). Its fields are copied from the first matching row of the
  `states` table.
- **`Municipio`**: a municipality. Its code must be seven digits.
- **`get_estados`**: builds one `Estado` per state code.

Each constructor is a pure function. It takes its Python arguments and the rows
of the `states` table, and returns either the populated record or the error it
raises (`Results.Result`).

Python values are modelled as follows:

- An argument is a `PyText.PyValue`: `None`, an `int` or a `str`. Its truthiness
  follows Python: `None`, `0` and `""` count as absent.
- The builtins the constructors call are modelled on ASCII: `str.capitalize`
  (line 49), `str.upper` (line 103), `str.isdigit` (line 165), `str()`
  (line 161) and `int()` (lines 36 and 162). `str.title` is modelled too,
  because the corrected name lookup under Findings uses it. `str.lower`
  appears only in the contracts, to say "equal up to case".
- The database is a sequence of `Tables.StateRow` records, with the columns `id`,
  `name`, `macroregion` and `uf` that `ibge/tests/test_duckdb.py` pins down.
- Each `SELECT * FROM states WHERE …` is `Tables.Select` over that sequence. It
  keeps the rows in table order.

Files:

- `results.dfy`: `Option`, `Result` and the error kinds. Each error kind is one
  Python exception, by cause.
- `pytext.dfy`: Python values, truthiness, case mapping, digit strings, `str()`
  and `int()`, with their round trips.
- `tables.dfy`: dicts built from item lists, the `states` rows, and selection.
- `brasil.dfy`: the constructors.
- `brasil_properties.dfy`: properties that relate several calls. These cover:
  - the code and name round trips of `Macrorregiao`;
  - the agreement of the code and `uf` keys of `Estado`;
  - the states a `Macrorregiao` lists;
  - the keys `Municipio` accepts.

## Model

| member | source | states |
|---|---|---|
| Brasil.MacroTables | ibge/brasil/__init__.py:17-23 | The code → name table has exactly the codes 1–5 with their five names. The inverted dict built on line 48 has exactly those five names as keys, each mapped back to its code. The names of the first dict are the keys of the second. |
| Brasil.MacroTablesInverse | ibge/brasil/__init__.py:48 | Inverting the table loses nothing, because the table is injective. Name → code undoes code → name, and code → name undoes name → code. |
| Brasil.MacroItemsDistinct | ibge/brasil/__init__.py:17-23 | The table lists each code once and each name once. |
| Brasil.LookupMacroCode | ibge/brasil/__init__.py:35-45 | The code path. It succeeds iff `int(geocodigo)` parses and lies in 1..5, and the name is then the table entry for that code. An unparsable key gives the `int()` ValueError; an out-of-range code gives the "not found" ValueError. |
| Brasil.LookupMacroName | ibge/brasil/__init__.py:47-57 | The name path after normalisation. It succeeds iff the name is one of the table's five names. The code is then the one the table pairs with that name. Otherwise it raises the "not found" ValueError. |
| Brasil.ResolveMacroKeyBy | ibge/brasil/__init__.py:25-57 | A truthy name together with a truthy code is rejected. With neither key given, nothing is resolved. On the code path, success iff `int(geocodigo)` ∈ {1..5}, and the name is that code's entry. On the name path, success iff the normalised name is a table name, and the code is its inverse. Every success is an entry of the table. |
| Brasil.NewMacrorregiao | ibge/brasil/__init__.py:59-67 | A key error propagates unchanged. On success, code and name are the resolved key. There is one `Estado` per `states` row whose `macroregion` is the code, with that row's `id`, in row order. |
| Brasil.NewMacrorregiaoAsWritten | ibge/brasil/__init__.py:59-67 | The constructor as written, over the `get_estados` as written. A key error propagates. It succeeds iff the key resolves and no `states` row has that `macroregion`, and then lists no states. Otherwise it raises the error of the first selected row's `Estado`. |
| Brasil.StateCondition | ibge/brasil/__init__.py:90-106 | A truthy `uf` together with a truthy code is rejected, and neither key is an error. Otherwise the query is `id = int(code)` when a code is given and `uf = upper(uf)` when a `uf` is given. A text code that is not a number makes the query fail. |
| Brasil.LookupState | ibge/brasil/__init__.py:108-119 | Fails iff no row satisfies the condition. Otherwise the `Estado` is copied from the first satisfying row, and `macrorregiao` is that row's raw integer code. |
| Brasil.NewEstado | ibge/brasil/__init__.py:85-119 | The argument errors of the key check, then the lookup: success iff some row matches. The result is the first matching row's fields, and an empty result is the "not found" ValueError. |
| Brasil.NewEstadoAsWritten | ibge/brasil/__init__.py:120-122 | The constructor as written never returns. It raises the same error as `NewEstado` when that one fails, and TypeError whenever that one succeeds. |
| Brasil.GetEstados | ibge/brasil/__init__.py:177-181 | Succeeds iff `Estado(geocodigo=g)` succeeds for every code. On success there is one `Estado` per code, the `Estado` of that code, in input order. |
| Brasil.GetEstadosOf | ibge/brasil/__init__.py:177-181 | The loop of `get_estados` over either `Estado` constructor. On success it returns one `Estado` per code. |
| Brasil.GetEstadosOfCorrected | ibge/brasil/__init__.py:177-181 | Over the corrected `Estado`, the loop is `GetEstados`. |
| Brasil.GetEstadosOfAsWritten | ibge/brasil/__init__.py:177-181 | Over the `Estado` as written, the loop succeeds iff the list of codes is empty, and then returns no states. Otherwise it raises the first code's error. |
| Brasil.FromRow | ibge/brasil/__init__.py:114-119 | The copied fields determine the row: reading them back gives the row. |
| Brasil.NewMunicipio | ibge/brasil/__init__.py:160-174 | Accepted iff `str(geocodigo)` is all digits and has exactly seven characters. The digit check comes first, so a non-digit key always gets the digit error. The stored code is the value of those digits, below 10^7. |
| Brasil.CheckedCodeParses | ibge/brasil/__init__.py:161-162 | A key whose `str` passed the check is converted by `int()` to the value of those digits, so line 162 never raises. |
| Tables.Select | ibge/brasil/__init__.py:61-63 | The query result holds exactly the table's rows that satisfy the condition, is no longer than the table, and is empty iff no row satisfies it. |
| Tables.SelectCounts | ibge/brasil/__init__.py:98-104 | The query keeps every copy of each satisfying row and no copy of any other row. |
| Tables.SelectStartsAtFirst | ibge/brasil/__init__.py:114 | The row read at index 0 is the first row of the table that satisfies the condition. |
| Tables.SelectAppend | ibge/brasil/__init__.py:61-63 | Selection keeps table order: selecting from two concatenated tables is the concatenation of the two selections. |
| Tables.ItemsToMapLookup | ibge/brasil/__init__.py:48 | A dict built from items with distinct keys maps each key to its own item's value. |
| PyText.Upper | ibge/brasil/__init__.py:103 | `uf.upper()` has the same length as `uf`, contains no lower-case letter, and equals `uf` up to case, character by character. |
| PyText.CapitalizeSpec | ibge/brasil/__init__.py:49 | `capitalize` yields a capitalized string and changes letter case only. It reads its input only up to case. It leaves a string unchanged iff the string is already capitalized. |
| PyText.TitleSpec | ibge/brasil/__init__.py:49 | The same four facts for `title` and title-cased strings. `title` is the normalisation used by the corrected name lookup. |
| PyText.ParseIntRoundTrip | ibge/brasil/__init__.py:36 | `int(str(i)) == i` for every integer. |
| PyText.NatToDigitsRoundTrip | ibge/brasil/__init__.py:161 | `str(n)` of a natural number is a non-empty digit string whose value is `n`. |
| PyText.SevenDigits | ibge/brasil/__init__.py:170 | `str(n)` has seven characters iff 10^6 ≤ n < 10^7. |
| PyText.DigitsRoundTrip | ibge/brasil/__init__.py:162 | Writing the value of a digit string back gives that string iff the string has no leading zero or is a single digit (so "0" round-trips, "007" does not). |
| PyText.DigitStringParses | ibge/brasil/__init__.py:162 | `int()` of a digit string is its value. |
| BrasilProperties.CodeKeyResolves | ibge/brasil/__init__.py:35-45 | Any key that `int()` reads as one of the five codes resolves to that code and its fixed name. |
| BrasilProperties.CodeRoundTrip | ibge/brasil/__init__.py:35-45 | Each code 1..5, given as an `int` or as its decimal text, resolves to itself and its table name. |
| BrasilProperties.TableNamesCapitalized | ibge/brasil/__init__.py:17-23 | "Norte", "Nordeste", "Sudeste" and "Sul" are capitalized. "Centro-Oeste" is not. |
| BrasilProperties.CentroOesteUnreachableByName | ibge/brasil/__init__.py:47-57 | On the name path, no name at all resolves to code 3. |
| BrasilProperties.NormaliseCaseOnly | ibge/brasil/__init__.py:49 | Both normalisations change letter case only, and read their input only up to case. |
| BrasilProperties.NormalisedNameResolves | ibge/brasil/__init__.py:47-57 | If the normalisation fixes a table name, a name resolves to that entry iff it spells the table name up to case. |
| BrasilProperties.NamePathIgnoresCase | ibge/brasil/__init__.py:47-57 | For codes 1, 2, 4 and 5, a name resolves to the code iff it spells the table name in any mixture of case. |
| BrasilProperties.NameRoundTrip | ibge/brasil/__init__.py:49-51 | Resolving the table's own name gives back its code iff the code is not 3. Code 3's name is rejected as not found. |
| BrasilProperties.CentroOesteRejected | ibge/brasil/__init__.py:49-55 | The name "Centro-Oeste" is rejected as not found. |
| BrasilProperties.CapitalizeCentroOeste | ibge/brasil/__init__.py:49 | `"Centro-Oeste".capitalize()` is "Centro-oeste". |
| BrasilProperties.CentroOesteByName | ibge/brasil/__init__.py:49-55 | "Centro-Oeste" is capitalized to "Centro-oeste" and rejected. Normalised with `title`, it resolves to code 3. |
| BrasilProperties.TableNamesTitled | ibge/brasil/__init__.py:17-23 | All five table names, "Centro-Oeste" included, are fixed by `title`. |
| BrasilProperties.TitledNameRoundTrip | ibge/brasil/__init__.py:47-57 | With `title` normalisation, a name resolves to code c iff it spells c's table name up to case. The round trip holds for all five codes. |
| BrasilProperties.EstadoOfOwnId | ibge/brasil/__init__.py:97-119 | With unique ids, a row's non-zero code builds that row's `Estado`. |
| BrasilProperties.EstadoByCodeOrUf | ibge/brasil/__init__.py:97-119 | With unique ids and abbreviations, a state is the same whichever key finds it: its code as an `int`, its code as text, or its `uf` in any case. |
| BrasilProperties.RondoniaAsWritten | ibge/brasil/__init__.py:120 | For a table holding Rondônia (code 11), the corrected lookup returns the state. The constructor as written raises TypeError. |
| BrasilProperties.MacrorregiaoListsItsStates | ibge/brasil/__init__.py:59-67 | With unique non-zero ids, a resolved macroregion builds successfully. It lists exactly the `Estado`s of the rows whose `macroregion` is its code, in row order, and each has that `macrorregiao` code. |
| BrasilProperties.MacrorregiaoAsWrittenFails | ibge/brasil/__init__.py:67 | With unique non-zero ids, a resolved macroregion that has at least one state raises TypeError as written. |
| BrasilProperties.NorteAsWritten | ibge/brasil/__init__.py:67 | For Norte (code 1) with Rondônia as its one state, the corrected constructor lists Rondônia. The constructor as written raises TypeError. |
| BrasilProperties.MunicipioIntKey | ibge/brasil/__init__.py:160-174 | An `int` key is accepted iff it has seven digits (10^6 ≤ i ≤ 9999999), and is then stored as is. A negative key fails the digit check. Other non-negative keys fail the length check. |
| BrasilProperties.MunicipioTextKey | ibge/brasil/__init__.py:160-174 | A text key is accepted iff it is seven digits. Its value is stored, so a leading zero is lost: printing the stored code gives the key back iff the key has no leading zero. |

## Left out

- **The database.** The DuckDB connection, the `IBGE_DB` path and opening/closing
  the connection are left out. The `states` table is an argument.
- **SQL text.** The `WHERE` clauses are modelled by their meaning, not their
  text. A text code key is read with the same rules as `int()`: ASCII white
  space around an optional sign and digits. Text that is not a number is the
  `InvalidQuery` error. The SQL lexer's own set of white space characters is
  not modelled separately. Other effects of
  splicing text into SQL are not modelled; for example, a `uf` containing a
  quote, or code text that is valid SQL but not a number.
- **Integer size.** CPython's limit of 4300 decimal digits on `int(str)` and
  `str(int)` (a ValueError beyond it) is not modelled. So `ParseIntRoundTrip`,
  `DigitStringParses`, `MunicipioIntKey` and the code path of
  `ResolveMacroKeyBy` hold in the model for arbitrarily long numbers and digit
  strings, where Python raises instead.
- **Row order.** The query has no `ORDER BY`, so DuckDB's order is taken to be
  table order.
- **Unicode.** Case mapping, digit tests and white space cover ASCII only. The
  same holds for `str.isdigit`, `int()` (also without `_` digit separators)
  and `str.title`.
- **Other key types.** Arguments other than `None`, `int` and `str`, including
  `bool`, are not modelled.
- **Neither key given.** The Python fails differently for each constructor:
  AttributeError in `Macrorregiao` on line 62, UnboundLocalError in `Estado` on
  line 108. Both are the single error `MissingKey`.
- **Lines 120–122.** The calls to `get_mesoregions`, `get_microregions` and
  `get_cities` on those lines are modelled only as the TypeError the first one
  raises (see Findings). `get_microregions` and `get_cities` are not part of
  this model, and the fields they would fill (`mesorregioes`, `microrregioes`,
  `municipios`) are not in the `Estado` record.
- **Other entities and helpers.** `Mesorregiao` and `Microrregiao` are bare
  annotations with no behaviour. `get_mesoregions` (lines 184–191) is
  truncated with no return value.
- **Trivial or unused fields.** `__str__`, `__repr__` and the unused
  `latitude`, `longitude`, `fuso_horario` and `nome` fields of `Municipio` are
  left out.
- Brasil.GetEstados: states when `get_estados` succeeds and what it returns.
  It does not state which code's error is raised when several fail. It is the
  first in input order, as the body shows, but that is not part of the
  contract.
- Brasil.NewMacrorregiao: is built with the corrected `NewEstado`.
  `NewMacrorregiaoAsWritten` is the constructor as written. It raises TypeError
  for every macroregion that has states (see Findings).
- **`str.title` versus `str.capitalize`.** The model follows the code, which
  normalises names with `str.capitalize`. The title-case normalisation that
  every table name evidently expects is the correction under Findings.

## Findings

| source | as written | input that shows it | evidently intended | confidence | as-written member | corrected member |
|---|---|---|---|---|---|---|
| ibge/brasil/__init__.py:49-57 | The name is normalised with `str.capitalize`, which lower-cases every character after the first. | `Macrorregiao(nome="Centro-Oeste")`: the name becomes "Centro-oeste", which is not a table name, so the constructor raises "Macrorregião não encontrada". No name at all reaches code 3. | Every table name, in any case, resolves to its code. Normalising with `str.title` achieves this, because it fixes all five names. | high (not executed) | BrasilProperties.CentroOesteByName | BrasilProperties.TitledNameRoundTrip |
| ibge/brasil/__init__.py:120 | After copying the row, `Estado` calls `get_mesoregions(state_df=...)`, but `get_mesoregions` (line 184) only declares `state`. | `Estado(geocodigo=11)` on a table holding Rondônia: the row is found, then the call raises TypeError. So does every `Macrorregiao` whose code has states, through `get_estados` (`BrasilProperties.NorteAsWritten`, `BrasilProperties.MacrorregiaoAsWrittenFails`). | The constructor returns the `Estado` built from the row. | high (not executed) | BrasilProperties.RondoniaAsWritten | Brasil.NewEstado |
