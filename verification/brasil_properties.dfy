/** Properties of the constructors that relate several calls: the round trips
    between the macroregion codes and names, the agreement of the two keys of
    `Estado`, the states a `Macrorregiao` lists, and which keys `Municipio`
    accepts. */
module BrasilProperties {
  import opened Results
  import opened PyText
  import opened Tables
  import opened Brasil

  // ------------------------------------------------------- Macrorregiao

  /** Any key that `int()` reads as one of the five codes resolves to that
      code and its fixed name. */
  lemma {:induction false} CodeKeyResolves(geocodigo: PyValue, c: int)
    requires Truthy(geocodigo) && Int(geocodigo) == Some(c) && 1 <= c <= 5
    ensures c in MacroNames
    ensures ResolveMacroKey(None, geocodigo) == Ok((c, MacroNames[c]))
  {
    MacroNamesKeys();
  }

  /** Every code of the table, given as an `int` or as its decimal text,
      resolves to itself and its fixed name. */
  lemma {:induction false} CodeRoundTrip(c: int)
    requires 1 <= c <= 5
    ensures c in MacroNames
    ensures ResolveMacroKey(None, IntVal(c)) == Ok((c, MacroNames[c]))
    ensures ResolveMacroKey(None, StrVal(IntToStr(c))) == Ok((c, MacroNames[c]))
  {
    CodeKeyResolves(IntVal(c), c);
    ParseIntRoundTrip(c);
    NatToDigitsLength(c);
    CodeKeyResolves(StrVal(IntToStr(c)), c);
  }

  /** The four table names other than "Centro-Oeste" are already capitalized;
      "Centro-Oeste" is not, because of the upper-case letter after the hyphen. */
  lemma {:induction false} TableNamesCapitalized()
    ensures IsCapitalized("Norte") && IsCapitalized("Nordeste")
    ensures IsCapitalized("Sudeste") && IsCapitalized("Sul")
    ensures !IsCapitalized("Centro-Oeste")
  {
    assert "Centro-Oeste"[7] == 'O';
  }

  /** No name whatsoever resolves to code 3: `capitalize` lower-cases the "O"
      of "Centro-Oeste", and no other table name has its twelve characters. */
  lemma {:induction false} CentroOesteUnreachableByName(nome: Option<string>, geocodigo: PyValue)
    requires TruthyText(nome)
    ensures ResolveMacroKey(nome, geocodigo).Ok? ==> ResolveMacroKey(nome, geocodigo).value.0 != 3
  {
    MacroTables();
    CapitalizeSpec(nome.value);
    TableNamesCapitalized();
  }

  /** Either normalisation changes letter case only and reads its input only up to case. */
  lemma {:induction false} NormaliseCaseOnly(s: string, how: NameCase)
    ensures Lower(Normalise(s, how)) == Lower(s)
    ensures Normalise(Lower(s), how) == Normalise(s, how)
  {
    match how
    case Capitalized => CapitalizeSpec(s);
    case Titled => TitleSpec(s);
  }

  /** When the normalisation leaves a table name as it is, the name path resolves
      a name to that entry exactly when the name spells it up to case. */
  lemma {:induction false} NormalisedNameResolves(nome: string, c: int, how: NameCase)
    requires c in MacroNames && MacroNames[c] != ""
    requires Normalise(MacroNames[c], how) == MacroNames[c]
    ensures ResolveMacroKeyBy(Some(nome), NoneVal, how) == Ok((c, MacroNames[c])) <==> Lower(nome) == Lower(MacroNames[c])
  {
    var name := MacroNames[c];
    NormaliseCaseOnly(nome, how);
    NormaliseCaseOnly(name, how);
    MacroTablesInverse();
    if Lower(nome) == Lower(name) {
      assert nome != "" by {
        assert |Lower(nome)| == |Lower(name)| > 0;
      }
      assert Normalise(nome, how) == Normalise(Lower(name), how) == name;
    }
  }

  /** "Centro-Oeste" itself is rejected by the name path. */
  lemma {:induction false} CentroOesteRejected()
    ensures ResolveMacroKey(Some("Centro-Oeste"), NoneVal) == Err(MacroNameNotFound)
  {
    MacroTables();
    CentroOesteUnreachableByName(Some("Centro-Oeste"), NoneVal);
  }

  /** For codes 1, 2, 4 and 5 the name path accepts a name exactly when it
      spells the table name in some mixture of upper and lower case. */
  lemma {:induction false} NamePathIgnoresCase(nome: string, c: int)
    requires c in {1, 2, 4, 5}
    ensures c in MacroNames
    ensures ResolveMacroKey(Some(nome), NoneVal) == Ok((c, MacroNames[c])) <==> Lower(nome) == Lower(MacroNames[c])
  {
    MacroNamesValues();
    TableNamesCapitalized();
    CapitalizeFixesCapitalized(MacroNames[c]);
    NormalisedNameResolves(nome, c, Capitalized);
  }

  /** The name → code round trip holds for codes 1, 2, 4 and 5 and fails for 3,
      whose own table name is rejected. */
  lemma {:induction false} NameRoundTrip(c: int)
    requires 1 <= c <= 5
    ensures c in MacroNames
    ensures ResolveMacroKey(Some(MacroNames[c]), NoneVal) == Ok((c, MacroNames[c])) <==> c != 3
    ensures c == 3 ==> ResolveMacroKey(Some(MacroNames[c]), NoneVal) == Err(MacroNameNotFound)
  {
    MacroNamesValues();
    if c == 3 {
      CentroOesteRejected();
    } else {
      NamePathIgnoresCase(MacroNames[c], c);
    }
  }

  /** The four table names, and "Centro-Oeste" too, are fixed by `str.title`. */
  lemma {:induction false} TableNamesTitled()
    ensures IsTitled("Norte") && IsTitled("Nordeste") && IsTitled("Centro-Oeste")
    ensures IsTitled("Sudeste") && IsTitled("Sul")
  {
    var s := "Centro-Oeste";
    forall i | 0 <= i < |s| ensures if StartsWord(s, i) then !IsLower(s[i]) else !IsUpper(s[i]) {
      if i == 7 {
        assert !IsLetter(s[6]);
      } else if i > 0 {
        assert IsLetter(s[i - 1]);
      }
    }
  }

  /** Normalising with `str.title` instead restores the round trip for all five
      codes: a name resolves to code `c` exactly when it spells the table name
      of `c` up to case. */
  lemma {:induction false} TitledNameRoundTrip(nome: string, c: int)
    requires 1 <= c <= 5
    ensures c in MacroNames
    ensures ResolveMacroKeyBy(Some(nome), NoneVal, Titled) == Ok((c, MacroNames[c])) <==> Lower(nome) == Lower(MacroNames[c])
    ensures ResolveMacroKeyBy(Some(MacroNames[c]), NoneVal, Titled) == Ok((c, MacroNames[c]))
  {
    MacroNamesValues();
    TableNamesTitled();
    TitleFixesTitled(MacroNames[c]);
    NormalisedNameResolves(nome, c, Titled);
    NormalisedNameResolves(MacroNames[c], c, Titled);
  }

  /** "Centro-Oeste" itself: `capitalize` turns it into "Centro-oeste", which the
      constructor as written rejects; normalised with `str.title` it resolves to 3. */
  lemma {:induction false} CentroOesteByName()
    ensures Capitalize("Centro-Oeste") == "Centro-oeste"
    ensures ResolveMacroKey(Some("Centro-Oeste"), NoneVal) == Err(MacroNameNotFound)
    ensures ResolveMacroKeyBy(Some("Centro-Oeste"), NoneVal, Titled) == Ok((3, "Centro-Oeste"))
  {
    CentroOesteRejected();
    MacroNamesValues();
    TitledNameRoundTrip("Centro-Oeste", 3);
    CapitalizeCentroOeste();
  }

  /** `capitalize` keeps the "C" and lower-cases the "O" after the hyphen. */
  lemma {:induction false} CapitalizeCentroOeste()
    ensures Capitalize("Centro-Oeste") == "Centro-oeste"
  {
    var s, t := "Centro-Oeste", "Centro-oeste";
    forall i | 0 <= i < |s| ensures Capitalize(s)[i] == t[i] {
      if i == 7 {
        assert s[i] == 'O';
      }
    }
  }

  // ------------------------------------------------------------- Estado

  /** With unique ids, the code of a state row (never 0) builds that row's `Estado`. */
  lemma {:induction false} EstadoOfOwnId(states: seq<StateRow>, k: int)
    requires UniqueIds(states) && 0 <= k < |states| && states[k].id != 0
    ensures NewEstado(states, IntVal(states[k].id), None) == Ok(FromRow(states[k]))
  {
    assert IsFirstSatisfying(states, IdEquals(states[k].id), k);
  }

  /** A state is the same whether it is looked up by its code, by the text of
      its code, or by its abbreviation in any letter case. */
  lemma {:induction false} EstadoByCodeOrUf(states: seq<StateRow>, k: int, uf: string)
    requires UniqueIds(states) && UniqueUfs(states) && 0 <= k < |states|
    requires states[k].id != 0 && uf != "" && Upper(uf) == states[k].uf
    ensures NewEstado(states, IntVal(states[k].id), None) == Ok(FromRow(states[k]))
    ensures NewEstado(states, StrVal(IntToStr(states[k].id)), None) == Ok(FromRow(states[k]))
    ensures NewEstado(states, NoneVal, Some(uf)) == Ok(FromRow(states[k]))
  {
    EstadoOfOwnId(states, k);
    ParseIntRoundTrip(states[k].id);
    NatToDigitsLength(if states[k].id < 0 then -states[k].id else states[k].id);
    assert IsFirstSatisfying(states, UfEquals(states[k].uf), k);
  }

  /** Rondônia, code 11: found by `NewEstado`, while the constructor as written
      raises `TypeError` after copying the row. */
  lemma {:induction false} RondoniaAsWritten()
    ensures NewEstado([StateRow(11, "Rondônia", 1, "RO")], IntVal(11), None) == Ok(Estado(11, "Rondônia", "RO", 1))
    ensures NewEstadoAsWritten([StateRow(11, "Rondônia", 1, "RO")], IntVal(11), None) == Err(UnexpectedKeyword)
  {
    EstadoOfOwnId([StateRow(11, "Rondônia", 1, "RO")], 0);
  }

  // ------------------------------------------------------- Macrorregiao

  /** With unique non-zero ids, a macroregion lists one `Estado` per state row
      whose `macroregion` is its code, copied from that row and in table order. */
  lemma {:induction false} MacrorregiaoListsItsStates(states: seq<StateRow>, nome: Option<string>, geocodigo: PyValue)
    requires UniqueIds(states)
    requires forall k :: 0 <= k < |states| ==> states[k].id != 0
    requires ResolveMacroKey(nome, geocodigo).Ok?
    ensures var code := ResolveMacroKey(nome, geocodigo).value.0;
            var m := NewMacrorregiao(states, nome, geocodigo);
            && m.Ok?
            && m.value.estados == FromRows(Select(states, MacroregionEquals(code)))
            && forall i :: 0 <= i < |m.value.estados| ==> m.value.estados[i].macrorregiao == code
  {
    var code := ResolveMacroKey(nome, geocodigo).value.0;
    var rows := Select(states, MacroregionEquals(code));
    var ids := Ids(rows);
    forall i | 0 <= i < |ids| ensures NewEstado(states, IntVal(ids[i]), None) == Ok(FromRow(rows[i])) {
      assert rows[i] in states;
      var k :| 0 <= k < |states| && states[k] == rows[i];
      EstadoOfOwnId(states, k);
    }
    var g := GetEstados(states, ids);
    assert g.Ok?;
    assert g.value == FromRows(rows);
    forall i | 0 <= i < |rows| ensures FromRow(rows[i]).macrorregiao == code {
      assert rows[i] in rows;
    }
  }

  /** As written, a macroregion with at least one state never gets built: the
      first `Estado` that `get_estados` constructs raises `TypeError`. */
  lemma {:induction false} MacrorregiaoAsWrittenFails(states: seq<StateRow>, nome: Option<string>, geocodigo: PyValue)
    requires UniqueIds(states)
    requires forall k :: 0 <= k < |states| ==> states[k].id != 0
    requires ResolveMacroKey(nome, geocodigo).Ok?
    requires Select(states, MacroregionEquals(ResolveMacroKey(nome, geocodigo).value.0)) != []
    ensures NewMacrorregiaoAsWritten(states, nome, geocodigo) == Err(UnexpectedKeyword)
  {
    var rows := Select(states, MacroregionEquals(ResolveMacroKey(nome, geocodigo).value.0));
    assert rows[0] in states;
    var k :| 0 <= k < |states| && states[k] == rows[0];
    EstadoOfOwnId(states, k);
  }

  /** Norte, code 1, with Rondônia as its one state: the corrected constructor
      lists Rondônia, while the constructor as written raises `TypeError`. */
  lemma {:induction false} NorteAsWritten()
    ensures NewMacrorregiao([StateRow(11, "Rondônia", 1, "RO")], None, IntVal(1)).Ok?
    ensures NewMacrorregiao([StateRow(11, "Rondônia", 1, "RO")], None, IntVal(1)).value.estados == [Estado(11, "Rondônia", "RO", 1)]
    ensures NewMacrorregiaoAsWritten([StateRow(11, "Rondônia", 1, "RO")], None, IntVal(1)) == Err(UnexpectedKeyword)
  {
    var states := [StateRow(11, "Rondônia", 1, "RO")];
    CodeKeyResolves(IntVal(1), 1);
    assert Select(states, MacroregionEquals(1)) == states;
    MacrorregiaoListsItsStates(states, None, IntVal(1));
    MacrorregiaoAsWrittenFails(states, None, IntVal(1));
  }

  // ---------------------------------------------------------- Municipio

  /** An `int` key is accepted exactly when it has seven digits, and is stored as is. */
  lemma {:induction false} MunicipioIntKey(i: int)
    ensures NewMunicipio(IntVal(i)).Ok? <==> 1000000 <= i <= 9999999
    ensures NewMunicipio(IntVal(i)).Ok? ==> NewMunicipio(IntVal(i)).value.geocodigo == i
    ensures i < 0 ==> NewMunicipio(IntVal(i)) == Err(NotDigits)
    ensures 0 <= i < 1000000 || i > 9999999 ==> NewMunicipio(IntVal(i)) == Err(WrongLength)
  {
    if i >= 0 {
      NatToDigitsRoundTrip(i);
      SevenDigits(i);
    } else {
      assert Str(IntVal(i))[0] == '-';
    }
  }

  /** A text key is accepted exactly when it is seven digits; its value is stored,
      so printing it back gives the key unless the key had a leading zero. */
  lemma {:induction false} MunicipioTextKey(s: string)
    ensures NewMunicipio(StrVal(s)).Ok? <==> IsDigitString(s) && |s| == 7
    ensures NewMunicipio(StrVal(s)).Ok? ==>
      && NewMunicipio(StrVal(s)).value.geocodigo == DigitsValue(s)
      && (IntToStr(NewMunicipio(StrVal(s)).value.geocodigo) == s <==> s[0] != '0')
  {
    if IsDigitString(s) && |s| == 7 {
      var n := DigitsValue(s);
      NatToDigitsLength(n);
      if s[0] != '0' {
        DigitsRoundTrip(s);
      }
    }
  }
}
