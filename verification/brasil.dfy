/** The entity constructors of the `ibge.brasil` package: `Macrorregiao`,
    `Estado`, `Municipio` and `get_estados`. The database is the sequence of
    rows of its `states` table; each constructor is a pure function from its
    arguments (and that table) to the populated record or the error it raises. */
module Brasil {
  import opened Results
  import opened PyText
  import opened Tables

  // ------------------------------------------------------- Macrorregiao

  /** `Macrorregiao._macrorregioes`, in dict order. */
  const MacroItems: seq<(int, string)> :=
    [(1, "Norte"), (2, "Nordeste"), (3, "Centro-Oeste"), (4, "Sudeste"), (5, "Sul")]

  /** The code → name dict. */
  const MacroNames: map<int, string> := ItemsToMap(MacroItems)

  /** `rev_macrorregioes`, the name → code dict built by inverting `MacroNames`. */
  const MacroCodes: map<string, int> := ItemsToMap(Swapped(MacroItems))

  lemma {:induction false} MacroNamesKeys()
    ensures MacroNames.Keys == {1, 2, 3, 4, 5}
  {
    var items := MacroItems;
    forall c | c in MacroNames.Keys ensures c in {1, 2, 3, 4, 5} {
      var i :| 0 <= i < 5 && items[i].0 == c;
    }
    assert items[0].0 in MacroNames.Keys && items[1].0 in MacroNames.Keys;
    assert items[2].0 in MacroNames.Keys && items[3].0 in MacroNames.Keys;
    assert items[4].0 in MacroNames.Keys;
  }

  lemma {:induction false} MacroCodesKeys()
    ensures MacroCodes.Keys == {"Norte", "Nordeste", "Centro-Oeste", "Sudeste", "Sul"}
  {
    var swapped := Swapped(MacroItems);
    forall n | n in MacroCodes.Keys ensures n in {"Norte", "Nordeste", "Centro-Oeste", "Sudeste", "Sul"} {
      var i :| 0 <= i < 5 && swapped[i].0 == n;
    }
    assert swapped[0].0 in MacroCodes.Keys && swapped[1].0 in MacroCodes.Keys;
    assert swapped[2].0 in MacroCodes.Keys && swapped[3].0 in MacroCodes.Keys;
    assert swapped[4].0 in MacroCodes.Keys;
  }

  /** The table lists each code once and each name once. */
  lemma {:induction false} MacroItemsDistinct()
    ensures DistinctKeys(MacroItems)
    ensures DistinctKeys(Swapped(MacroItems))
  {
    var items := MacroItems;
    assert items[0].0 == 1 && items[1].0 == 2 && items[2].0 == 3 && items[3].0 == 4 && items[4].0 == 5;
  }

  lemma {:induction false} MacroNamesValues()
    ensures MacroNames.Keys == {1, 2, 3, 4, 5}
    ensures MacroNames[1] == "Norte" && MacroNames[2] == "Nordeste"
    ensures MacroNames[3] == "Centro-Oeste" && MacroNames[4] == "Sudeste" && MacroNames[5] == "Sul"
  {
    MacroNamesKeys();
    MacroItemsDistinct();
    var items := MacroItems;
    ItemsToMapLookup(items);
    assert MacroNames[items[0].0] == items[0].1;
    assert MacroNames[items[1].0] == items[1].1;
    assert MacroNames[items[2].0] == items[2].1;
    assert MacroNames[items[3].0] == items[3].1;
    assert MacroNames[items[4].0] == items[4].1;
  }

  lemma {:induction false} MacroCodesValues()
    ensures MacroCodes.Keys == {"Norte", "Nordeste", "Centro-Oeste", "Sudeste", "Sul"}
    ensures MacroCodes["Norte"] == 1 && MacroCodes["Nordeste"] == 2
    ensures MacroCodes["Centro-Oeste"] == 3 && MacroCodes["Sudeste"] == 4 && MacroCodes["Sul"] == 5
  {
    MacroCodesKeys();
    MacroItemsDistinct();
    var swapped := Swapped(MacroItems);
    ItemsToMapLookup(swapped);
    assert MacroCodes[swapped[0].0] == swapped[0].1 && MacroCodes[swapped[1].0] == swapped[1].1;
    assert MacroCodes[swapped[2].0] == swapped[2].1 && MacroCodes[swapped[3].0] == swapped[3].1;
    assert MacroCodes[swapped[4].0] == swapped[4].1;
  }

  /** The five entries of the code → name table, and the inverse dict really is
      its inverse: the table is injective, so no entry of the inversion is lost. */
  lemma {:induction false} MacroTables()
    ensures MacroNames.Keys == {1, 2, 3, 4, 5}
    ensures MacroCodes.Keys == {"Norte", "Nordeste", "Centro-Oeste", "Sudeste", "Sul"}
    ensures MacroNames[1] == "Norte" && MacroNames[2] == "Nordeste"
    ensures MacroNames[3] == "Centro-Oeste" && MacroNames[4] == "Sudeste" && MacroNames[5] == "Sul"
    ensures MacroCodes["Norte"] == 1 && MacroCodes["Nordeste"] == 2
    ensures MacroCodes["Centro-Oeste"] == 3 && MacroCodes["Sudeste"] == 4 && MacroCodes["Sul"] == 5
    ensures MacroNames.Values == MacroCodes.Keys
  {
    MacroNamesValues();
    MacroCodesValues();
    forall n | n in MacroNames.Values ensures n in MacroCodes.Keys {
      var c :| c in MacroNames && MacroNames[c] == n;
    }
    assert MacroNames[1] in MacroNames.Values && MacroNames[2] in MacroNames.Values;
    assert MacroNames[3] in MacroNames.Values && MacroNames[4] in MacroNames.Values;
    assert MacroNames[5] in MacroNames.Values;
  }

  /** The name → code dict inverts the code → name dict in both directions. */
  lemma {:induction false} MacroTablesInverse()
    ensures forall c :: c in MacroNames ==> MacroNames[c] in MacroCodes && MacroCodes[MacroNames[c]] == c
    ensures forall n :: n in MacroCodes ==> MacroCodes[n] in MacroNames && MacroNames[MacroCodes[n]] == n
  {
    MacroTables();
  }

  /** How a macroregion name is normalised before the table lookup:
      `str.capitalize` as the constructor does, or `str.title`. */
  datatype NameCase = Capitalized | Titled

  function Normalise(nome: string, how: NameCase): (n: string) {
    match how
    case Capitalized => Capitalize(nome)
    case Titled => Title(nome)
  }

  /** The code branch: `int(geocodigo)`, then the check against the five codes. */
  function LookupMacroCode(geocodigo: PyValue): (r: Result<(int, string)>)
    ensures r.Ok? <==> Int(geocodigo).Some? && 1 <= Int(geocodigo).value <= 5
    ensures r.Ok? ==> r.value.0 == Int(geocodigo).value && r.value.0 in MacroNames && MacroNames[r.value.0] == r.value.1
    ensures Int(geocodigo).None? ==> r == Err(InvalidLiteral)
    ensures Int(geocodigo).Some? && !(1 <= Int(geocodigo).value <= 5) ==> r == Err(MacroCodeNotFound)
  {
    MacroNamesKeys();
    match Int(geocodigo)
    case None => Err(InvalidLiteral)
    case Some(code) =>
      if code !in [1, 2, 3, 4, 5] then Err(MacroCodeNotFound)
      else Ok((code, MacroNames[code]))
  }

  /** The name branch, after normalisation: the name must be one of the table's
      values, and its code is read from the inverted dict. */
  function LookupMacroName(n: string): (r: Result<(int, string)>)
    ensures r.Ok? <==> n in MacroCodes
    ensures r.Ok? ==> r.value.1 == n && r.value.0 in MacroNames && MacroNames[r.value.0] == n
    ensures r.Err? ==> r.error == MacroNameNotFound
  {
    MacroTables();
    MacroTablesInverse();
    if n !in MacroNames.Values then Err(MacroNameNotFound)
    else Ok((MacroCodes[n], n))
  }

  /** The key resolution of `Macrorregiao.__init__`: which of `nome` and
      `geocodigo` is given, and the `(geocodigo, nome)` pair it resolves to. */
  function ResolveMacroKeyBy(nome: Option<string>, geocodigo: PyValue, how: NameCase): (r: Result<(int, string)>)
    // both keys: rejected before anything else
    ensures TruthyText(nome) && Truthy(geocodigo) ==> r == Err(ConflictingKeys)
    // neither key: nothing ever sets `geocodigo`
    ensures !TruthyText(nome) && !Truthy(geocodigo) ==> r == Err(MissingKey)
    // every success is an entry of the fixed table
    ensures r.Ok? ==> r.value.0 in MacroNames && MacroNames[r.value.0] == r.value.1
    // code path
    ensures !TruthyText(nome) && Truthy(geocodigo) ==>
      && (r.Ok? <==> Int(geocodigo).Some? && 1 <= Int(geocodigo).value <= 5)
      && (r.Ok? ==> r.value.0 == Int(geocodigo).value)
      && (Int(geocodigo).None? ==> r == Err(InvalidLiteral))
      && (Int(geocodigo).Some? && !(1 <= Int(geocodigo).value <= 5) ==> r == Err(MacroCodeNotFound))
    // name path
    ensures TruthyText(nome) && !Truthy(geocodigo) ==>
      && (r.Ok? <==> Normalise(nome.value, how) in MacroCodes)
      && (r.Ok? ==> r.value.1 == Normalise(nome.value, how))
      && (r.Err? ==> r.error == MacroNameNotFound)
  {
    if TruthyText(nome) && Truthy(geocodigo) then Err(ConflictingKeys)
    else if Truthy(geocodigo) then LookupMacroCode(geocodigo)
    else if TruthyText(nome) then LookupMacroName(Normalise(nome.value, how))
    else Err(MissingKey)
  }

  /** The resolution as the constructor performs it, with `str.capitalize`. */
  function ResolveMacroKey(nome: Option<string>, geocodigo: PyValue): (r: Result<(int, string)>) {
    ResolveMacroKeyBy(nome, geocodigo, Capitalized)
  }

  /** A constructed `Macrorregiao`; `estados` holds one `Estado` per state row of
      the macroregion. */
  datatype Macrorregiao = Macrorregiao(geocodigo: int, nome: string, estados: seq<Estado>)

  /** `Macrorregiao(nome, geocodigo)`: resolve the key, select the states whose
      `macroregion` is the code, and build them with `get_estados`. */
  function NewMacrorregiao(states: seq<StateRow>, nome: Option<string>, geocodigo: PyValue): (r: Result<Macrorregiao>)
    ensures ResolveMacroKey(nome, geocodigo).Err? ==> r == Err(ResolveMacroKey(nome, geocodigo).error)
    ensures r.Ok? ==> ResolveMacroKey(nome, geocodigo) == Ok((r.value.geocodigo, r.value.nome))
    ensures r.Ok? ==>
      var rows := Select(states, MacroregionEquals(r.value.geocodigo));
      && |r.value.estados| == |rows|
      && forall i :: 0 <= i < |rows| ==> r.value.estados[i].geocodigo == rows[i].id
  {
    var key :- ResolveMacroKey(nome, geocodigo);
    var rows := Select(states, MacroregionEquals(key.0));
    var estados :- GetEstados(states, Ids(rows));
    Ok(Macrorregiao(key.0, key.1, estados))
  }

  /** `Macrorregiao(nome, geocodigo)` as written, building its states with the
      `get_estados` loop over the `Estado` constructor as written. */
  function NewMacrorregiaoAsWritten(states: seq<StateRow>, nome: Option<string>, geocodigo: PyValue): (r: Result<Macrorregiao>)
    ensures ResolveMacroKey(nome, geocodigo).Err? ==> r == Err(ResolveMacroKey(nome, geocodigo).error)
    ensures r.Ok? <==>
      ResolveMacroKey(nome, geocodigo).Ok? && Select(states, MacroregionEquals(ResolveMacroKey(nome, geocodigo).value.0)) == []
    ensures r.Ok? ==> ResolveMacroKey(nome, geocodigo) == Ok((r.value.geocodigo, r.value.nome)) && r.value.estados == []
    ensures r.Err? && ResolveMacroKey(nome, geocodigo).Ok? ==>
      var rows := Select(states, MacroregionEquals(ResolveMacroKey(nome, geocodigo).value.0));
      r == Err(NewEstadoAsWritten(states, IntVal(rows[0].id), None).error)
  {
    var key :- ResolveMacroKey(nome, geocodigo);
    var rows := Select(states, MacroregionEquals(key.0));
    GetEstadosOfAsWritten(states, Ids(rows));
    var estados :- GetEstadosOf(AsWritten, states, Ids(rows));
    Ok(Macrorregiao(key.0, key.1, estados))
  }

  // ------------------------------------------------------------- Estado

  /** A constructed `Estado`. `macrorregiao` is the row's raw macroregion code,
      not a `Macrorregiao` record. */
  datatype Estado = Estado(geocodigo: int, nome: string, uf: string, macrorregiao: int)

  /** The fields copied from a `states` row. */
  function FromRow(row: StateRow): (e: Estado)
    ensures ToRow(e) == row
  {
    Estado(row.id, row.name, row.uf, row.macroregion)
  }

  /** One `Estado` per row, in row order. */
  function FromRows(rows: seq<StateRow>): (es: seq<Estado>) {
    seq(|rows|, i requires 0 <= i < |rows| => FromRow(rows[i]))
  }

  /** The row an `Estado` was copied from. */
  function ToRow(e: Estado): (row: StateRow) {
    StateRow(e.geocodigo, e.nome, e.macrorregiao, e.uf)
  }

  /** The `WHERE` clause `Estado.__init__` builds from its key arguments: by `id`
      for a code, by the upper-cased `uf` otherwise. */
  function StateCondition(geocodigo: PyValue, uf: Option<string>): (r: Result<Condition>)
    ensures Truthy(geocodigo) && TruthyText(uf) ==> r == Err(ConflictingKeys)
    ensures !Truthy(geocodigo) && !TruthyText(uf) ==> r == Err(MissingKey)
    ensures r.Ok? <==> Truthy(geocodigo) != TruthyText(uf) && (Truthy(geocodigo) ==> Int(geocodigo).Some?)
    ensures r.Ok? && Truthy(geocodigo) ==> r.value == IdEquals(Int(geocodigo).value)
    ensures r.Ok? && TruthyText(uf) ==> r.value == UfEquals(Upper(uf.value))
    ensures Truthy(geocodigo) && !TruthyText(uf) && Int(geocodigo).None? ==> r == Err(InvalidQuery)
  {
    if TruthyText(uf) && Truthy(geocodigo) then Err(ConflictingKeys)
    else if Truthy(geocodigo) then
      match Int(geocodigo)
      case Some(id) => Ok(IdEquals(id))
      case None => Err(InvalidQuery)
    else if TruthyText(uf) then Ok(UfEquals(Upper(uf.value)))
    else Err(MissingKey)
  }

  /** Run the query and copy the first row, failing when no row matches. */
  function LookupState(states: seq<StateRow>, c: Condition): (r: Result<Estado>)
    ensures r.Ok? <==> exists k :: 0 <= k < |states| && Satisfies(states[k], c)
    ensures r.Err? ==> r.error == StateNotFound
    ensures r.Ok? ==> ToRow(r.value) in states && Satisfies(ToRow(r.value), c)
    ensures forall k :: IsFirstSatisfying(states, c, k) ==> r == Ok(FromRow(states[k]))
  {
    var sel := Select(states, c);
    if |sel| == 0 then Err(StateNotFound)
    else
      assert forall k :: IsFirstSatisfying(states, c, k) ==> sel[0] == states[k] by {
        forall k | IsFirstSatisfying(states, c, k) ensures sel[0] == states[k] {
          SelectStartsAtFirst(states, c, k);
        }
      }
      Ok(FromRow(sel[0]))
  }

  /** `Estado(geocodigo, uf)`, up to the copy of the row's fields. */
  function NewEstado(states: seq<StateRow>, geocodigo: PyValue, uf: Option<string>): (r: Result<Estado>)
    ensures StateCondition(geocodigo, uf).Err? ==> r == Err(StateCondition(geocodigo, uf).error)
    ensures StateCondition(geocodigo, uf).Ok? ==>
      var c := StateCondition(geocodigo, uf).value;
      && (r.Ok? <==> exists k :: 0 <= k < |states| && Satisfies(states[k], c))
      && (r.Err? ==> r.error == StateNotFound)
      && (r.Ok? ==> ToRow(r.value) in states && Satisfies(ToRow(r.value), c))
      && (forall k :: IsFirstSatisfying(states, c, k) ==> r == Ok(FromRow(states[k])))
  {
    var c :- StateCondition(geocodigo, uf);
    LookupState(states, c)
  }

  /** `Estado(geocodigo, uf)` as the constructor is written: once the fields are
      copied it calls `get_mesoregions(state_df=...)`, a keyword that function
      does not declare, so every lookup that finds a row raises `TypeError`. */
  function NewEstadoAsWritten(states: seq<StateRow>, geocodigo: PyValue, uf: Option<string>): (r: Result<Estado>)
    ensures r.Err?
    ensures NewEstado(states, geocodigo, uf).Ok? ==> r.error == UnexpectedKeyword
    ensures NewEstado(states, geocodigo, uf).Err? ==> r == NewEstado(states, geocodigo, uf)
  {
    var e :- NewEstado(states, geocodigo, uf);
    Err(UnexpectedKeyword)
  }

  /** `get_estados(geocodes)`: `Estado(geocodigo=g)` for each code in turn; the
      first failure propagates. */
  function GetEstados(states: seq<StateRow>, geocodes: seq<int>): (r: Result<seq<Estado>>)
    ensures r.Ok? <==> forall i :: 0 <= i < |geocodes| ==> NewEstado(states, IntVal(geocodes[i]), None).Ok?
    ensures r.Ok? ==> |r.value| == |geocodes|
    ensures r.Ok? ==> forall i :: 0 <= i < |geocodes| ==> NewEstado(states, IntVal(geocodes[i]), None) == Ok(r.value[i])
    decreases |geocodes|
  {
    if |geocodes| == 0 then Ok([])
    else
      var e :- NewEstado(states, IntVal(geocodes[0]), None);
      var rest :- GetEstados(states, geocodes[1..]);
      Ok([e] + rest)
  }

  /** Which `Estado` constructor a caller builds on: the corrected one, which
      returns the copied row, or the one as written, which goes on to line 120. */
  datatype Version = Corrected | AsWritten

  function NewEstadoOf(v: Version, states: seq<StateRow>, geocodigo: PyValue, uf: Option<string>): (r: Result<Estado>) {
    match v
    case Corrected => NewEstado(states, geocodigo, uf)
    case AsWritten => NewEstadoAsWritten(states, geocodigo, uf)
  }

  /** The loop of `get_estados(geocodes)` over either `Estado` constructor:
      `Estado(geocodigo=g)` for each code in turn, the first failure propagating. */
  function GetEstadosOf(v: Version, states: seq<StateRow>, geocodes: seq<int>): (r: Result<seq<Estado>>)
    ensures r.Ok? ==> |r.value| == |geocodes|
    decreases |geocodes|
  {
    if |geocodes| == 0 then Ok([])
    else
      var e :- NewEstadoOf(v, states, IntVal(geocodes[0]), None);
      var rest :- GetEstadosOf(v, states, geocodes[1..]);
      Ok([e] + rest)
  }

  /** Over the corrected constructor the loop is `GetEstados`. */
  lemma {:induction false} GetEstadosOfCorrected(states: seq<StateRow>, geocodes: seq<int>)
    ensures GetEstadosOf(Corrected, states, geocodes) == GetEstados(states, geocodes)
    decreases |geocodes|
  {
    if |geocodes| > 0 {
      GetEstadosOfCorrected(states, geocodes[1..]);
    }
  }

  /** Over the constructor as written the loop gets through only an empty list
      of codes; otherwise the first code's error propagates. */
  lemma {:induction false} GetEstadosOfAsWritten(states: seq<StateRow>, geocodes: seq<int>)
    ensures GetEstadosOf(AsWritten, states, geocodes).Ok? <==> geocodes == []
    ensures GetEstadosOf(AsWritten, states, geocodes).Ok? ==> GetEstadosOf(AsWritten, states, geocodes).value == []
    ensures geocodes != [] ==>
      GetEstadosOf(AsWritten, states, geocodes) == Err(NewEstadoAsWritten(states, IntVal(geocodes[0]), None).error)
  {
  }

  // ----------------------------------------------------------- Municipio

  /** A constructed `Municipio`: only its code is set. */
  datatype Municipio = Municipio(geocodigo: int)

  /** `Municipio(geocodigo)`: `_check_geocode(str(geocodigo))` — all digits, then
      exactly seven characters — and `int(geocodigo)` stored. */
  function NewMunicipio(geocodigo: PyValue): (r: Result<Municipio>)
    ensures r.Ok? <==> IsDigitString(Str(geocodigo)) && |Str(geocodigo)| == 7
    ensures !IsDigitString(Str(geocodigo)) ==> r == Err(NotDigits)
    ensures IsDigitString(Str(geocodigo)) && |Str(geocodigo)| != 7 ==> r == Err(WrongLength)
    ensures r.Ok? ==> r.value.geocodigo == DigitsValue(Str(geocodigo)) && 0 <= r.value.geocodigo < 10000000
  {
    var text := Str(geocodigo);
    if !IsDigitString(text) then Err(NotDigits)
    else if |text| != 7 then Err(WrongLength)
    else
      CheckedCodeParses(geocodigo);
      match Int(geocodigo)
      case Some(n) => Ok(Municipio(n))
      case None => Err(InvalidLiteral)
  }

  /** A key whose `str` passed `_check_geocode` converts with `int()` to the
      value of those digits, which is below 10^7. */
  lemma {:induction false} CheckedCodeParses(geocodigo: PyValue)
    requires IsDigitString(Str(geocodigo)) && |Str(geocodigo)| == 7
    ensures Int(geocodigo) == Some(DigitsValue(Str(geocodigo)))
    ensures DigitsValue(Str(geocodigo)) < 10000000
  {
    var text := Str(geocodigo);
    assert !IsDigit(Str(NoneVal)[0]);
    NegativeNotDigits(geocodigo);
    match geocodigo
    case NoneVal =>
    case IntVal(i) =>
      if i >= 0 {
        assert text == NatToDigits(i);
        NatToDigitsRoundTrip(i);
        SevenDigits(i);
      }
    case StrVal(s) =>
      DigitStringParses(s);
      DigitsValueBound(s);
  }

  /** `str` of a negative number starts with a minus sign. */
  lemma {:induction false} NegativeNotDigits(v: PyValue)
    ensures v.IntVal? && v.i < 0 ==> !IsDigit(Str(v)[0])
  {
  }

  /** A string of `n` digits denotes a number below 10^n. */
  lemma {:induction false} DigitsValueBound(s: string)
    requires AllDigits(s)
    ensures DigitsValue(s) < Pow10(|s|)
    decreases |s|
  {
    if |s| > 0 {
      DigitsValueBound(s[..|s| - 1]);
    }
  }
}
