/**
 * Record decoding of `uploadAndSummarize`: each CSV record becomes a row keyed by the canonical
 * fields, one `put` per field in lookup order.
 */
module Rows {
  import opened Wrappers
  import opened Model
  import opened Headers

  /** The field has a resolved header that is a key of the index: `put` copies a cell for it. */
  predicate Bound(idx: Index, cols: map<Field, string>, f: Field) {
    f in cols && cols[f] in idx
  }

  /** The column position a bound field reads. */
  function ColumnOf(idx: Index, cols: map<Field, string>, f: Field): nat
    requires Bound(idx, cols, f)
  {
    idx[cols[f]]
  }

  /** The record is long enough for the field's column (or the field is not copied at all). */
  predicate Fits(idx: Index, cols: map<Field, string>, rec: seq<string>, f: Field) {
    Bound(idx, cols, f) ==> ColumnOf(idx, cols, f) < |rec|
  }

  predicate FitsAll(idx: Index, cols: map<Field, string>, rec: seq<string>) {
    forall f :: Fits(idx, cols, rec, f)
  }

  /** The row holds exactly the bound fields, each with the record's cell at its column. */
  predicate Decoded(idx: Index, cols: map<Field, string>, rec: seq<string>, row: Row) {
    && (forall f :: f in row ==> Bound(idx, cols, f))
    && (forall f :: Bound(idx, cols, f) ==> f in row && ColumnOf(idx, cols, f) < |rec| && row[f] == rec[ColumnOf(idx, cols, f)])
  }

  /** The field at step j is the first whose column lies beyond the end of the record. */
  predicate FirstOutOfRange(idx: Index, cols: map<Field, string>, rec: seq<string>, j: int) {
    && 0 <= j < FieldCount
    && !Fits(idx, cols, rec, FieldAt(j))
    && forall i :: 0 <= i < j ==> Fits(idx, cols, rec, FieldAt(i))
  }

  /** The error `rec.get(i)` raises for the first field whose column is missing from the record. */
  function OutOfRange(idx: Index, cols: map<Field, string>, rec: seq<string>, j: int): UploadError
    requires FirstOutOfRange(idx, cols, rec, j)
  {
    ColumnOutOfRange(ColumnOf(idx, cols, FieldAt(j)), |rec|)
  }

  /**
   * `put`: nothing is written when the header was not resolved or is not in the index; otherwise
   * the cell at the header's column is stored under the field, or the record is too short.
   */
  method Put(m: Row, f: Field, rec: seq<string>, idx: Index, inKey: Option<string>) returns (r: Result<Row, UploadError>)
    ensures inKey.None? || inKey.value !in idx ==> r == Ok(m)
    ensures inKey.Some? && inKey.value in idx ==> (r.Ok? <==> idx[inKey.value] < |rec|)
    ensures inKey.Some? && inKey.value in idx && r.Ok? ==> r.value == m[f := rec[idx[inKey.value]]]
    ensures r.Err? ==> inKey.Some? && inKey.value in idx && r.error == ColumnOutOfRange(idx[inKey.value], |rec|)
  {
    if inKey.None? {
      return Ok(m);
    }
    if inKey.value !in idx {
      return Ok(m);
    }
    var i := idx[inKey.value];
    if i >= |rec| {
      return Err(ColumnOutOfRange(i, |rec|));
    }
    return Ok(m[f := rec[i]]);
  }

  /** The resolved header of a field, or `null` (`None`) for physical effort when `any` found none. */
  function HeaderOf(cols: map<Field, string>, f: Field): Option<string> {
    if f in cols then Some(cols[f]) else None
  }

  /** One iteration of the record loop: the 24 `put` calls into a fresh row. */
  method DecodeRecord(idx: Index, cols: map<Field, string>, rec: seq<string>) returns (r: Result<Row, UploadError>)
    ensures r.Ok? <==> FitsAll(idx, cols, rec)
    ensures r.Ok? ==> Decoded(idx, cols, rec, r.value)
    ensures r.Err? ==> exists j :: FirstOutOfRange(idx, cols, rec, j) && r.error == OutOfRange(idx, cols, rec, j)
  {
    var m: Row := map[];
    for j := 0 to FieldCount
      invariant forall i :: 0 <= i < j ==> Fits(idx, cols, rec, FieldAt(i))
      invariant forall f :: f in m <==> Bound(idx, cols, f) && Position(f) < j
      invariant forall f :: f in m ==> Bound(idx, cols, f) && ColumnOf(idx, cols, f) < |rec| && m[f] == rec[ColumnOf(idx, cols, f)]
    {
      var f := FieldAt(j);
      PositionInverse(f);
      var next := Put(m, f, rec, idx, HeaderOf(cols, f));
      if next.Err? {
        assert FirstOutOfRange(idx, cols, rec, j);
        return Err(next.error);
      }
      assert next.value == if Bound(idx, cols, f) then m[f := rec[ColumnOf(idx, cols, f)]] else m;
      m := next.value;
    }
    forall f ensures Fits(idx, cols, rec, f) {
      PositionInverse(f);
    }
    return Ok(m);
  }

  /** A record decodes to one row only. */
  lemma DecodedUnique(idx: Index, cols: map<Field, string>, rec: seq<string>, a: Row, b: Row)
    requires Decoded(idx, cols, rec, a) && Decoded(idx, cols, rec, b)
    ensures a == b
  {
    assert a.Keys == b.Keys;
  }

  /** Every record before the k-th fits, the k-th does not: it is the one whose error the upload reports. */
  predicate FirstShortRecord(idx: Index, cols: map<Field, string>, records: seq<seq<string>>, k: int) {
    && 0 <= k < |records|
    && !FitsAll(idx, cols, records[k])
    && forall i :: 0 <= i < k ==> FitsAll(idx, cols, records[i])
  }

  /** The record loop: one row per record, in order, or the error of the first record too short for a column. */
  method DecodeRecords(idx: Index, cols: map<Field, string>, records: seq<seq<string>>) returns (r: Result<seq<Row>, UploadError>)
    ensures r.Ok? <==> forall k :: 0 <= k < |records| ==> FitsAll(idx, cols, records[k])
    ensures r.Ok? ==> |r.value| == |records| && forall k :: 0 <= k < |records| ==> Decoded(idx, cols, records[k], r.value[k])
    ensures r.Err? ==> exists k, j :: FirstShortRecord(idx, cols, records, k) && FirstOutOfRange(idx, cols, records[k], j)
                                    && r.error == OutOfRange(idx, cols, records[k], j)
  {
    var rows: seq<Row> := [];
    for k := 0 to |records|
      invariant |rows| == k
      invariant forall i :: 0 <= i < k ==> Decoded(idx, cols, records[i], rows[i])
    {
      var row := DecodeRecord(idx, cols, records[k]);
      if row.Err? {
        assert FirstShortRecord(idx, cols, records, k);
        return Err(row.error);
      }
      rows := rows + [row.value];
    }
    return Ok(rows);
  }
}
