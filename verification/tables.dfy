/** The data the constructors read: Python dicts built from literal items, and
    the rows of the `states` table with the three `WHERE` filters run on it. */
module Tables {

  // ------------------------------------------------------------- dicts

  /** The dict a sequence of `(key, value)` items builds, a later item
      overwriting an earlier one with the same key. */
  function ItemsToMap<K(==), V>(items: seq<(K, V)>): (m: map<K, V>)
    ensures m.Keys == set i | 0 <= i < |items| :: items[i].0
    decreases |items|
  {
    if |items| == 0 then map[]
    else ItemsToMap(items[..|items| - 1])[items[|items| - 1].0 := items[|items| - 1].1]
  }

  /** The items with keys and values exchanged, as `{v: k for k, v in d.items()}` reads them. */
  function Swapped<K, V>(items: seq<(K, V)>): (r: seq<(V, K)>) {
    seq(|items|, i requires 0 <= i < |items| => (items[i].1, items[i].0))
  }

  predicate DistinctKeys<K(==), V>(items: seq<(K, V)>) {
    forall i, j :: 0 <= i < j < |items| ==> items[i].0 != items[j].0
  }

  /** With distinct keys no item is overwritten: each key maps to its own value. */
  lemma {:induction false} ItemsToMapLookup<K, V>(items: seq<(K, V)>)
    requires DistinctKeys(items)
    ensures forall i :: 0 <= i < |items| ==> ItemsToMap(items)[items[i].0] == items[i].1
    decreases |items|
  {
    if |items| > 0 {
      var init := items[..|items| - 1];
      ItemsToMapLookup(init);
      forall i | 0 <= i < |items| ensures ItemsToMap(items)[items[i].0] == items[i].1 {
        if i < |items| - 1 {
          assert init[i] == items[i];
        }
      }
    }
  }

  // ------------------------------------------------------------ states

  /** One row of the `states` table: `id`, `name`, `macroregion`, `uf`. */
  datatype StateRow = StateRow(id: int, name: string, macroregion: int, uf: string)

  /** The `WHERE` clauses the constructors put on the `states` table. */
  datatype Condition = IdEquals(id: int) | UfEquals(uf: string) | MacroregionEquals(code: int)

  predicate Satisfies(row: StateRow, c: Condition) {
    match c
    case IdEquals(id) => row.id == id
    case UfEquals(uf) => row.uf == uf
    case MacroregionEquals(code) => row.macroregion == code
  }

  /** `SELECT * FROM states WHERE c`, rows kept in table order. */
  function Select(rows: seq<StateRow>, c: Condition): (sel: seq<StateRow>)
    ensures |sel| <= |rows|
    ensures forall row :: row in sel <==> row in rows && Satisfies(row, c)
    ensures sel == [] <==> forall k :: 0 <= k < |rows| ==> !Satisfies(rows[k], c)
    decreases |rows|
  {
    if |rows| == 0 then []
    else
      assert rows == [rows[0]] + rows[1..];
      if Satisfies(rows[0], c) then [rows[0]] + Select(rows[1..], c) else Select(rows[1..], c)
  }

  /** Selection neither duplicates nor drops a satisfying row: it keeps every
      copy of each satisfying row and no copy of any other. */
  lemma {:induction false} SelectCounts(rows: seq<StateRow>, c: Condition)
    ensures forall row :: multiset(Select(rows, c))[row] == if Satisfies(row, c) then multiset(rows)[row] else 0
    decreases |rows|
  {
    if |rows| > 0 {
      assert rows == [rows[0]] + rows[1..];
      SelectCounts(rows[1..], c);
    }
  }

  /** `k` is the first row that satisfies `c`. */
  ghost predicate IsFirstSatisfying(rows: seq<StateRow>, c: Condition, k: int) {
    0 <= k < |rows| && Satisfies(rows[k], c) && forall j :: 0 <= j < k ==> !Satisfies(rows[j], c)
  }

  /** The first selected row is the first row of the table that satisfies the condition. */
  lemma {:induction false} SelectStartsAtFirst(rows: seq<StateRow>, c: Condition, k: int)
    requires IsFirstSatisfying(rows, c, k)
    ensures Select(rows, c) != [] && Select(rows, c)[0] == rows[k]
    decreases |rows|
  {
    if k > 0 {
      assert !Satisfies(rows[0], c);
      assert IsFirstSatisfying(rows[1..], c, k - 1) by {
        forall j | 0 <= j < k - 1 ensures !Satisfies(rows[1..][j], c) {
          assert rows[1..][j] == rows[j + 1];
        }
      }
      SelectStartsAtFirst(rows[1..], c, k - 1);
      assert Select(rows, c) == Select(rows[1..], c);
    }
  }

  /** Selection distributes over concatenation: it keeps the table's row order. */
  lemma {:induction false} SelectAppend(a: seq<StateRow>, b: seq<StateRow>, c: Condition)
    ensures Select(a + b, c) == Select(a, c) + Select(b, c)
    decreases |a|
  {
    if |a| > 0 {
      assert (a + b)[0] == a[0];
      assert (a + b)[1..] == a[1..] + b;
      SelectAppend(a[1..], b, c);
      if Satisfies(a[0], c) {
        assert Select(a + b, c) == [a[0]] + Select(a[1..] + b, c);
        assert Select(a, c) == [a[0]] + Select(a[1..], c);
      } else {
        assert Select(a + b, c) == Select(a[1..] + b, c);
        assert Select(a, c) == Select(a[1..], c);
      }
    } else {
      assert a + b == b;
    }
  }

  /** `list(df["id"])` */
  function Ids(rows: seq<StateRow>): (ids: seq<int>) {
    seq(|rows|, i requires 0 <= i < |rows| => rows[i].id)
  }

  /** No two rows share an `id`. */
  predicate UniqueIds(rows: seq<StateRow>) {
    forall i, j :: 0 <= i < |rows| && 0 <= j < |rows| && rows[i].id == rows[j].id ==> i == j
  }

  /** No two rows share a `uf`. */
  predicate UniqueUfs(rows: seq<StateRow>) {
    forall i, j :: 0 <= i < |rows| && 0 <= j < |rows| && rows[i].uf == rows[j].uf ==> i == j
  }
}
