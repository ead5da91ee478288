/**
 * The neighbourhood-to-district lookup table read from the mapping CSV file
 * (load_mapping_dict in dashboard.py): each row maps the normalised key of its `dong` cell to
 * the stripped text of its `sigungu` cell.
 */
module Mapping {
  import opened Keys

  /**
   * The mapping file as the loader finds it: absent, present but not readable as CSV in either
   * encoding, or a header line and its records (a cell pandas reads as NaN is Null).
   */
  datatype MapFile = Missing | Unreadable | Table(header: seq<string>, records: seq<seq<Cell>>)

  /** The header with every column name stripped (`map_df.columns.str.strip()`). */
  function StripAll(header: seq<string>): seq<string> {
    seq(|header|, i requires 0 <= i < |header| => Strip(header[i]))
  }

  /** The first column called name. */
  function ColumnIndex(columns: seq<string>, name: string): (r: Option<nat>)
    ensures r.Some? ==> r.value < |columns| && columns[r.value] == name
    ensures r.Some? ==> forall j :: 0 <= j < r.value ==> columns[j] != name
    ensures r.None? ==> name !in columns
  {
    if columns == [] then None
    else if columns[0] == name then Some(0)
    else match ColumnIndex(columns[1..], name)
      case None => None
      case Some(i) => Some(i + 1)
  }

  /** The cell of a record in a column; a short record reads as missing values. */
  function CellAt(record: seq<Cell>, column: nat): Cell {
    if column < |record| then record[column] else Null
  }

  /** What the loader takes from a record: the key of its `dong` cell and its stripped `sigungu`. */
  datatype Entry = Entry(key: string, district: string)

  function EntryOf(nfc: string -> string, record: seq<Cell>, dongColumn: nat, sigunguColumn: nat): Entry {
    Entry(LookupKey(nfc, CellAt(record, dongColumn)), Strip(Str(CellAt(record, sigunguColumn))))
  }

  function EntriesOf(nfc: string -> string, records: seq<seq<Cell>>, dongColumn: nat, sigunguColumn: nat): (entries: seq<Entry>)
    ensures |entries| == |records|
    ensures forall i :: 0 <= i < |records| ==> entries[i] == EntryOf(nfc, records[i], dongColumn, sigunguColumn)
  {
    seq(|records|, i requires 0 <= i < |records| => EntryOf(nfc, records[i], dongColumn, sigunguColumn))
  }

  /**
   * The table built from the entries in order: an entry with a non-empty key sets that key to
   * its district, replacing what an earlier entry set; an entry with an empty key is skipped.
   */
  function Fold(entries: seq<Entry>): map<string, string> {
    if entries == [] then map[]
    else
      var m := Fold(entries[..|entries| - 1]);
      var last := entries[|entries| - 1];
      if last.key != "" then m[last.key := last.district] else m
  }

  lemma FoldStep(entries: seq<Entry>, i: nat)
    requires i < |entries|
    ensures Fold(entries[..i + 1]) ==
      var m := Fold(entries[..i]);
      if entries[i].key != "" then m[entries[i].key := entries[i].district] else m
  {
    assert entries[..i + 1][..i] == entries[..i];
  }

  /**
   * load_mapping_dict as a function of the file: empty when the file is missing or unreadable
   * or lacks a `dong` or a `sigungu` column (the loader's exception handler then returns the
   * table before any row was added), the fold of its rows otherwise.
   */
  function MappingOf(nfc: string -> string, file: MapFile): (m: map<string, string>)
    ensures !file.Table? ==> m == map[]
    ensures file.Table? && (ColumnIndex(StripAll(file.header), "dong").None? || ColumnIndex(StripAll(file.header), "sigungu").None?) ==> m == map[]
  {
    match file
    case Missing => map[]
    case Unreadable => map[]
    case Table(header, records) =>
      match (ColumnIndex(StripAll(header), "dong"), ColumnIndex(StripAll(header), "sigungu"))
      case (Some(d), Some(s)) => Fold(EntriesOf(nfc, records, d, s))
      case _ => map[]
  }

  /** load_mapping_dict: reads the rows one by one into the table. */
  method LoadMapping(nfc: string -> string, file: MapFile) returns (m: map<string, string>)
    ensures m == MappingOf(nfc, file)
  {
    m := map[];
    if !file.Table? {
      return;
    }
    var dong := ColumnIndex(StripAll(file.header), "dong");
    var sigungu := ColumnIndex(StripAll(file.header), "sigungu");
    if dong.None? || sigungu.None? {
      return;
    }
    ghost var entries := EntriesOf(nfc, file.records, dong.value, sigungu.value);
    var i := 0;
    while i < |file.records|
      invariant 0 <= i <= |file.records|
      invariant m == Fold(entries[..i])
    {
      var record := file.records[i];
      var key := LookupKey(nfc, CellAt(record, dong.value));
      if key != "" {
        m := m[key := Strip(Str(CellAt(record, sigungu.value)))];
      }
      FoldStep(entries, i);
      i := i + 1;
    }
    assert entries[..i] == entries;
  }

  // ---------------------------------------------------------------------------------------------
  // What the table holds
  // ---------------------------------------------------------------------------------------------

  /** The keys of the table are exactly the non-empty keys of its entries. */
  lemma {:induction false} FoldKeys(entries: seq<Entry>, k: string)
    ensures k in Fold(entries) <==> k != "" && exists i :: 0 <= i < |entries| && entries[i].key == k
  {
    if entries != [] {
      var prefix := entries[..|entries| - 1];
      FoldKeys(prefix, k);
      if k != "" && exists i :: 0 <= i < |entries| && entries[i].key == k {
        var i :| 0 <= i < |entries| && entries[i].key == k;
        if i < |prefix| {
          assert prefix[i] == entries[i];
        }
      }
      if exists i :: 0 <= i < |prefix| && prefix[i].key == k {
        var i :| 0 <= i < |prefix| && prefix[i].key == k;
        assert entries[i] == prefix[i];
      }
    }
  }

  /** The value of a key is the district of the last entry with that key. */
  lemma {:induction false} FoldLastWins(entries: seq<Entry>, i: nat)
    requires i < |entries| && entries[i].key != ""
    requires forall j :: i < j < |entries| ==> entries[j].key != entries[i].key
    ensures entries[i].key in Fold(entries)
    ensures Fold(entries)[entries[i].key] == entries[i].district
  {
    var prefix := entries[..|entries| - 1];
    if i < |entries| - 1 {
      assert entries[|entries| - 1].key != entries[i].key;
      assert prefix[i] == entries[i];
      forall j | i < j < |prefix| ensures prefix[j].key != prefix[i].key {
        assert prefix[j] == entries[j];
      }
      FoldLastWins(prefix, i);
    }
  }

  /**
   * Every key of a table read from a file is the normalised `dong` of one of its records, so
   * it consists of Hangul syllables and ASCII letters and digits only.
   */
  lemma MappingKeysFromRecords(nfc: string -> string, file: MapFile, k: string)
    requires k in MappingOf(nfc, file)
    ensures file.Table? && ColumnIndex(StripAll(file.header), "dong").Some?
    ensures exists r :: 0 <= r < |file.records| && LookupKey(nfc, CellAt(file.records[r], ColumnIndex(StripAll(file.header), "dong").value)) == k
    ensures AllKeyChars(k)
    ensures k != ""
  {
    var d := ColumnIndex(StripAll(file.header), "dong").value;
    var s := ColumnIndex(StripAll(file.header), "sigungu").value;
    var entries := EntriesOf(nfc, file.records, d, s);
    FoldKeys(entries, k);
    var i :| 0 <= i < |entries| && entries[i].key == k;
    assert entries[i] == EntryOf(nfc, file.records[i], d, s);
  }

  /**
   * The district a table read from a file gives for the key of a record is the stripped
   * `sigungu` of the last record with that key.
   */
  lemma MappingLastWins(nfc: string -> string, file: MapFile, d: nat, s: nat, r: nat)
    requires file.Table? && r < |file.records|
    requires ColumnIndex(StripAll(file.header), "dong") == Some(d)
    requires ColumnIndex(StripAll(file.header), "sigungu") == Some(s)
    requires LookupKey(nfc, CellAt(file.records[r], d)) != ""
    requires forall j :: r < j < |file.records| ==> LookupKey(nfc, CellAt(file.records[j], d)) != LookupKey(nfc, CellAt(file.records[r], d))
    ensures LookupKey(nfc, CellAt(file.records[r], d)) in MappingOf(nfc, file)
    ensures MappingOf(nfc, file)[LookupKey(nfc, CellAt(file.records[r], d))] == Strip(Str(CellAt(file.records[r], s)))
  {
    var entries := EntriesOf(nfc, file.records, d, s);
    forall j | r < j < |entries| ensures entries[j].key != entries[r].key {
      assert entries[j] == EntryOf(nfc, file.records[j], d, s);
    }
    FoldLastWins(entries, r);
  }
}
