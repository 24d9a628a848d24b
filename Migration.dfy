/**
 * The two decisions of `migrate_addresses`, over in-memory lists instead of a database:
 * which of the four address columns it adds to the `kunden` table, and which client rows
 * it rewrites with the fields `parse_adresse` finds in their free-text address.
 */
module Migration {
  import opened Wrappers
  import opened Text
  import opened AddressParser

  // ---------------------------------------------------------------------------------
  // Schema update (lines 49-59)

  /** The columns the migration makes sure exist, in the order it adds them. */
  const NewColumns: seq<string> := ["strasse", "hausnummer", "plz", "stadt"]

  /** The columns of `wanted`, in order, that are not among `existing`. */
  function Missing(wanted: seq<string>, existing: seq<string>): (m: seq<string>)
    ensures |m| <= |wanted|
    ensures forall c :: c in m <==> c in wanted && c !in existing
  {
    if wanted == [] then []
    else
      var last := wanted[|wanted| - 1];
      var init := wanted[..|wanted| - 1];
      assert wanted == init + [last];
      Missing(init, existing) + (if last in existing then [] else [last])
  }

  predicate Distinct(s: seq<string>) {
    forall i, j :: 0 <= i < j < |s| ==> s[i] != s[j]
  }

  /**
   * The loop over `new_columns`: the columns it issues `ALTER TABLE kunden ADD COLUMN`
   * for, given the column names `PRAGMA table_info(kunden)` reported.
   */
  method AddMissingColumns(existing: seq<string>) returns (added: seq<string>)
    ensures added == Missing(NewColumns, existing)
    ensures forall c :: c in added <==> c in NewColumns && c !in existing
  {
    added := [];
    for i := 0 to |NewColumns|
      invariant added == Missing(NewColumns[..i], existing)
    {
      var col := NewColumns[i];
      assert NewColumns[..i + 1][..i] == NewColumns[..i];
      if col !in existing {
        added := added + [col];
      }
    }
    assert NewColumns[..|NewColumns|] == NewColumns;
  }

  /** Nothing is missing once every wanted column exists. */
  lemma NoneMissing(wanted: seq<string>, existing: seq<string>)
    ensures Missing(wanted, existing) == [] <==> forall c :: c in wanted ==> c in existing
  {
    var m := Missing(wanted, existing);
    if m != [] {
      assert m[0] in m;
    }
  }

  /** After the update every address column exists, and running it again adds nothing. */
  lemma SchemaUpdateComplete(existing: seq<string>)
    ensures forall c :: c in NewColumns ==> c in existing + Missing(NewColumns, existing)
    ensures Missing(NewColumns, existing + Missing(NewColumns, existing)) == []
  {
    var after := existing + Missing(NewColumns, existing);
    NoneMissing(NewColumns, after);
  }

  /** Each missing column is added once: the added columns hold no repetition. */
  lemma {:induction false} MissingDistinct(wanted: seq<string>, existing: seq<string>)
    requires Distinct(wanted)
    ensures Distinct(Missing(wanted, existing))
  {
    if wanted != [] {
      var last := wanted[|wanted| - 1];
      var init := wanted[..|wanted| - 1];
      assert Distinct(init);
      MissingDistinct(init, existing);
      assert last !in init;
    }
  }

  lemma ColumnsAddedOnce(existing: seq<string>)
    ensures Distinct(Missing(NewColumns, existing))
  {
    MissingDistinct(NewColumns, existing);
  }

  // ---------------------------------------------------------------------------------
  // Data migration (lines 78-99)

  /** A row of `kunden` as the migration sees and writes it. */
  datatype Kunde = Kunde(id: int, name: string, adresse: Option<string>, fields: Address)

  /** `if not kunde['adresse']`: a missing or empty address is skipped. */
  predicate HasAddress(k: Kunde) {
    k.adresse.Some? && k.adresse.value != ""
  }

  /** What the migration leaves in one row whose id no other row shares. */
  function Migrated(k: Kunde): (r: Kunde)
    ensures r.id == k.id && r.name == k.name && r.adresse == k.adresse
    ensures !HasAddress(k) ==> r == k
    ensures HasAddress(k) ==> r.fields == ParseAdresse(k.adresse)
  {
    if HasAddress(k) then k.(fields := ParseAdresse(k.adresse)) else k
  }

  /** `UPDATE kunden SET strasse=?, hausnummer=?, plz=?, stadt=? WHERE id=?`. */
  function UpdateFields(table: seq<Kunde>, id: int, a: Address): (r: seq<Kunde>)
    ensures |r| == |table|
    ensures forall i :: 0 <= i < |r| ==> r[i] == if table[i].id == id then table[i].(fields := a) else table[i]
  {
    seq(|table|, i requires 0 <= i < |table| => if table[i].id == id then table[i].(fields := a) else table[i])
  }

  predicate DistinctIds(table: seq<Kunde>) {
    forall i, j :: 0 <= i < j < |table| ==> table[i].id != table[j].id
  }

  /** Two rows are the same client when id, name and address agree. */
  predicate SameClient(a: Kunde, b: Kunde) {
    a.id == b.id && a.name == b.name && a.adresse == b.adresse
  }

  /**
   * The loop over the clients read by `SELECT id, name, adresse FROM kunden`: each one
   * with an address gets its parsed fields written back by id. Ids, names and addresses
   * never change; when ids are distinct, as the table's primary key guarantees, every
   * row ends up as `Migrated` says.
   */
  method MigrateClients(table: seq<Kunde>) returns (result: seq<Kunde>)
    ensures |result| == |table|
    ensures forall i :: 0 <= i < |table| ==> SameClient(result[i], table[i])
    ensures DistinctIds(table) ==> forall i :: 0 <= i < |table| ==> result[i] == Migrated(table[i])
  {
    var kunden := table;
    result := table;
    for i := 0 to |kunden|
      invariant MigratedUpTo(table, result, i)
    {
      var kunde := kunden[i];
      if !HasAddress(kunde) {
        SkipStep(table, result, i);
        continue;
      }
      var a := ParseAdresse(kunde.adresse);
      ghost var before := result;
      result := UpdateFields(result, kunde.id, a);
      UpdateStep(table, before, i);
    }
  }

  /** The state of the client loop after the first `i` rows. */
  predicate MigratedUpTo(table: seq<Kunde>, rows: seq<Kunde>, i: nat) {
    && i <= |table|
    && |rows| == |table|
    && (forall j :: 0 <= j < |table| ==> SameClient(rows[j], table[j]))
    && (DistinctIds(table) ==> forall j :: 0 <= j < |table| ==> rows[j] == if j < i then Migrated(table[j]) else table[j])
  }

  /** Skipping a row without address moves the loop on by one row. */
  lemma SkipStep(table: seq<Kunde>, rows: seq<Kunde>, i: nat)
    requires i < |table| && MigratedUpTo(table, rows, i) && !HasAddress(table[i])
    ensures MigratedUpTo(table, rows, i + 1)
  {
  }

  /** Updating the fields by the row's id moves the loop on by one row. */
  lemma UpdateStep(table: seq<Kunde>, rows: seq<Kunde>, i: nat)
    requires i < |table| && MigratedUpTo(table, rows, i) && HasAddress(table[i])
    ensures MigratedUpTo(table, UpdateFields(rows, table[i].id, ParseAdresse(table[i].adresse)), i + 1)
  {
    var a := ParseAdresse(table[i].adresse);
    UpdateKeepsClients(table, rows, table[i].id, a);
    if DistinctIds(table) {
      UpdateOnlyOne(table, rows, i, a);
      assert rows[i] == table[i];
    }
  }

  /** An update of the four fields keeps every row's id, name and address. */
  lemma UpdateKeepsClients(table: seq<Kunde>, rows: seq<Kunde>, id: int, a: Address)
    requires |rows| == |table| && forall j :: 0 <= j < |table| ==> SameClient(rows[j], table[j])
    ensures var next := UpdateFields(rows, id, a);
      |next| == |table| && forall j :: 0 <= j < |table| ==> SameClient(next[j], table[j])
  {
  }

  /** With distinct ids, the update by the id of row `i` touches row `i` alone. */
  lemma UpdateOnlyOne(table: seq<Kunde>, rows: seq<Kunde>, i: nat, a: Address)
    requires DistinctIds(table) && |rows| == |table| && i < |table|
    requires forall j :: 0 <= j < |table| ==> rows[j].id == table[j].id
    ensures forall j :: 0 <= j < |table| ==>
      UpdateFields(rows, table[i].id, a)[j] == if j == i then rows[j].(fields := a) else rows[j]
  {
  }

  /** Running the migration again over its own result changes nothing. */
  lemma MigratedIdempotent(k: Kunde)
    ensures Migrated(Migrated(k)) == Migrated(k)
  {
  }

  /**
   * An address of only whitespace is not skipped (the string is not empty), and it
   * clears all four fields; an empty address leaves them as they were.
   */
  lemma BlankAddressClears(k: Kunde)
    requires k.adresse.Some? && AllSpace(k.adresse.value)
    ensures k.adresse.value != "" ==> Migrated(k).fields == Unparsed
    ensures k.adresse.value == "" ==> Migrated(k).fields == k.fields
  {
    BlankAddress(k.adresse.value);
  }
}
