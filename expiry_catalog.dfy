/**
 * The expiry catalog: the rows of the exchange's `vTick` array grouped into a
 * map from symbol to that symbol's expiry dates.  app.js (`fetchExpiryData`)
 * and background.js (`fetchExpiryDates`) each build it with a `reduce`, in
 * two slightly different idioms.
 */
module ExpiryCatalog {

  import opened Wrappers

  /** One `{Symbol, ExpiryDate}` item of the `vTick` array. */
  datatype ExpiryRow = ExpiryRow(symbol: string, expiryDate: string)

  /**
   * The accumulator object of the reduce: its keys in insertion order (the
   * order `Object.keys` reports them in) and the list under each key.
   */
  datatype Catalog = Catalog(keys: seq<string>, dates: map<string, seq<string>>)

  /** The expiry dates of symbol s, in input order. */
  function DatesOf(rows: seq<ExpiryRow>, s: string): seq<string>
  {
    if rows == [] then []
    else
      var last := rows[|rows| - 1];
      DatesOf(rows[..|rows| - 1], s) + (if last.symbol == s then [last.expiryDate] else [])
  }

  /** The distinct symbols of the rows, in order of first appearance. */
  function SymbolsOf(rows: seq<ExpiryRow>): seq<string>
  {
    if rows == [] then []
    else
      var prefix := SymbolsOf(rows[..|rows| - 1]);
      var s := rows[|rows| - 1].symbol;
      if s in prefix then prefix else prefix + [s]
  }

  /** The catalog the grouping is meant to produce. */
  function CatalogOf(rows: seq<ExpiryRow>): Catalog
  {
    var keys := SymbolsOf(rows);
    Catalog(keys, map s | s in keys :: DatesOf(rows, s))
  }

  predicate NoDuplicates(s: seq<string>)
  {
    forall i, j :: 0 <= i < j < |s| ==> s[i] != s[j]
  }

  /** A symbol is a key exactly when some row carries it. */
  lemma {:induction false} SymbolsOfMembership(rows: seq<ExpiryRow>, s: string)
    ensures s in SymbolsOf(rows) <==> DatesOf(rows, s) != []
  {
    if rows != [] {
      SymbolsOfMembership(rows[..|rows| - 1], s);
    }
  }

  /** Every symbol is a key once. */
  lemma {:induction false} SymbolsOfDistinct(rows: seq<ExpiryRow>)
    ensures NoDuplicates(SymbolsOf(rows))
  {
    if rows != [] {
      SymbolsOfDistinct(rows[..|rows| - 1]);
    }
  }

  /** How one more row changes the catalog: the reduce's step. */
  lemma CatalogStep(p: seq<ExpiryRow>, r: ExpiryRow)
    ensures var before := CatalogOf(p);
            var after := CatalogOf(p + [r]);
            && after.keys == (if r.symbol in before.dates then before.keys else before.keys + [r.symbol])
            && after.dates == before.dates[r.symbol := (if r.symbol in before.dates then before.dates[r.symbol] else []) + [r.expiryDate]]
  {
    var rows := p + [r];
    assert rows[..|rows| - 1] == p;
    var before := CatalogOf(p);
    var after := CatalogOf(rows);
    SymbolsOfMembership(p, r.symbol);
    var expected := before.dates[r.symbol := (if r.symbol in before.dates then before.dates[r.symbol] else []) + [r.expiryDate]];
    assert after.dates.Keys == expected.Keys;
    forall s | s in after.dates
      ensures after.dates[s] == expected[s]
    {
      if s != r.symbol {
        SymbolsOfMembership(p, s);
        SymbolsOfMembership(rows, s);
      }
    }
  }

  /**
   * The reduce of app.js: `if (!acc[s]) acc[s] = []; acc[s].push(date)`.
   */
  method GroupCreatingMissing(rows: seq<ExpiryRow>) returns (c: Catalog)
    ensures c == CatalogOf(rows)
  {
    var keys: seq<string> := [];
    var acc: map<string, seq<string>> := map[];
    var i := 0;
    while i < |rows|
      invariant 0 <= i <= |rows|
      invariant Catalog(keys, acc) == CatalogOf(rows[..i])
    {
      var item := rows[i];
      CatalogStep(rows[..i], item);
      assert rows[..i + 1] == rows[..i] + [item];
      if item.symbol !in acc {
        acc := acc[item.symbol := []];
        keys := keys + [item.symbol];
      }
      acc := acc[item.symbol := acc[item.symbol] + [item.expiryDate]];
      i := i + 1;
    }
    assert rows[..i] == rows;
    c := Catalog(keys, acc);
  }

  /**
   * The reduce of background.js: `acc[s] = acc[s] || []; acc[s].push(date)`.
   * The assignment always happens; it only adds a key when the key is new.
   */
  method GroupDefaulting(rows: seq<ExpiryRow>) returns (c: Catalog)
    ensures c == CatalogOf(rows)
  {
    var keys: seq<string> := [];
    var acc: map<string, seq<string>> := map[];
    var i := 0;
    while i < |rows|
      invariant 0 <= i <= |rows|
      invariant Catalog(keys, acc) == CatalogOf(rows[..i])
    {
      var item := rows[i];
      CatalogStep(rows[..i], item);
      assert rows[..i + 1] == rows[..i] + [item];
      var bucket := if item.symbol in acc then acc[item.symbol] else [];
      if item.symbol !in acc {
        keys := keys + [item.symbol];
      }
      acc := acc[item.symbol := bucket];
      acc := acc[item.symbol := acc[item.symbol] + [item.expiryDate]];
      i := i + 1;
    }
    assert rows[..i] == rows;
    c := Catalog(keys, acc);
  }

  /** The two idioms build the same catalog from every input list. */
  method GroupingsAgree(rows: seq<ExpiryRow>) returns (inApp: Catalog, inBackground: Catalog)
    ensures inApp == inBackground
    ensures inApp == CatalogOf(rows)
  {
    inApp := GroupCreatingMissing(rows);
    inBackground := GroupDefaulting(rows);
  }

  /** Each symbol's dates keep the input order: grouping a concatenation concatenates. */
  lemma {:induction false} DatesOfAppend(a: seq<ExpiryRow>, b: seq<ExpiryRow>, s: string)
    ensures DatesOf(a + b, s) == DatesOf(a, s) + DatesOf(b, s)
    decreases |b|
  {
    if b == [] {
      assert a + b == a;
    } else {
      var n := |b| - 1;
      assert (a + b)[..|a + b| - 1] == a + b[..n];
      DatesOfAppend(a, b[..n], s);
    }
  }

  /**
   * The shape of every catalog: its keys are distinct and are exactly the
   * symbols of the rows, and no key has an empty list.
   */
  lemma CatalogShape(rows: seq<ExpiryRow>)
    ensures NoDuplicates(CatalogOf(rows).keys)
    ensures forall s :: s in CatalogOf(rows).dates <==> s in CatalogOf(rows).keys
    ensures forall s :: s in CatalogOf(rows).dates ==> CatalogOf(rows).dates[s] != []
    ensures forall i :: 0 <= i < |rows| ==> rows[i].symbol in CatalogOf(rows).dates
  {
    SymbolsOfDistinct(rows);
    forall s | s in CatalogOf(rows).dates
      ensures CatalogOf(rows).dates[s] != []
    {
      SymbolsOfMembership(rows, s);
    }
    forall i | 0 <= i < |rows|
      ensures rows[i].symbol in CatalogOf(rows).dates
    {
      var s := rows[i].symbol;
      assert rows == rows[..i] + [rows[i]] + rows[i + 1..];
      DatesOfAppend(rows[..i] + [rows[i]], rows[i + 1..], s);
      DatesOfAppend(rows[..i], [rows[i]], s);
      assert [rows[i]][..0] == [];
      SymbolsOfMembership(rows, s);
    }
  }

  /** The total length of the lists under the given keys. */
  function SumOfLengths(keys: seq<string>, rows: seq<ExpiryRow>): nat
  {
    if keys == [] then 0
    else SumOfLengths(keys[..|keys| - 1], rows) + |DatesOf(rows, keys[|keys| - 1])|
  }

  /** One more row lengthens the lists under the keys by one if its symbol is among them once. */
  lemma {:induction false} SumOfLengthsStep(keys: seq<string>, p: seq<ExpiryRow>, r: ExpiryRow)
    requires NoDuplicates(keys)
    ensures SumOfLengths(keys, p + [r]) == SumOfLengths(keys, p) + (if r.symbol in keys then 1 else 0)
  {
    var rows := p + [r];
    assert rows[..|rows| - 1] == p;
    if keys != [] {
      var n := |keys| - 1;
      assert keys == keys[..n] + [keys[n]];
      assert NoDuplicates(keys[..n]);
      SumOfLengthsStep(keys[..n], p, r);
      assert keys[n] !in keys[..n];
    }
  }

  /** The lists of a catalog hold, between them, one date per input row. */
  lemma {:induction false} CatalogCountsEveryRow(rows: seq<ExpiryRow>)
    ensures SumOfLengths(CatalogOf(rows).keys, rows) == |rows|
  {
    if rows != [] {
      var p := rows[..|rows| - 1];
      var r := rows[|rows| - 1];
      assert rows == p + [r];
      CatalogCountsEveryRow(p);
      SymbolsOfDistinct(p);
      SymbolsOfMembership(p, r.symbol);
      var keys := SymbolsOf(p);
      SumOfLengthsStep(keys, p, r);
      if r.symbol !in keys {
        assert SymbolsOf(rows) == keys + [r.symbol];
        assert (keys + [r.symbol])[..|keys|] == keys;
        assert DatesOf(rows, r.symbol) == [r.expiryDate];
      }
    }
  }

  /**
   * What the exchange page gives the extraction: the request throws, the
   * `vTick` marker is not found, its text is not valid JSON, or the items.
   */
  datatype Page = Unreachable | NoMarker | MalformedJson | Items(rows: seq<ExpiryRow>)

  /**
   * `fetchExpiryData` of app.js: the catalog it returns (None for the
   * source's null / undefined) and the catalog it writes under "expiryData";
   * both only when the marker was found and parsed.
   */
  method FetchExpiryData(page: Page) returns (result: Option<Catalog>, stored: Option<Catalog>)
    ensures result == stored
    ensures result.Some? <==> page.Items?
    ensures page.Items? ==> result == Some(CatalogOf(page.rows))
  {
    if page.Items? {
      var c := GroupCreatingMissing(page.rows);
      stored := Some(c);
      result := Some(c);
    } else {
      stored := None;
      result := None;
    }
  }

  /**
   * `fetchExpiryDates` of background.js: the catalog it writes under
   * "expiryData" and whether it schedules the "Data Updated" notification.
   * Without a marker match (or on any failure) nothing is written and no
   * notification is scheduled.
   */
  method FetchExpiryDates(page: Page) returns (stored: Option<Catalog>, notified: bool)
    ensures notified <==> stored.Some?
    ensures stored.Some? <==> page.Items?
    ensures page.Items? ==> stored == Some(CatalogOf(page.rows))
  {
    if page.Items? {
      var c := GroupDefaulting(page.rows);
      stored := Some(c);
      notified := true;
    } else {
      stored := None;
      notified := false;
    }
  }
}
