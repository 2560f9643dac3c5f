/** The OSDR item schema: which columns the repository writes and which it
    reads back. */
module OsdrColumns {
  import opened Schema
  import opened Text

  const TableName: string := "osdr_items"
  const Alias: string := "oi"
  const IdField: string := "id"

  const Writable: seq<string> := ["dataset_id", "title", "status", "updated_at", "raw"]
  const Readable: seq<string> := ["id", "dataset_id", "title", "status", "updated_at", "inserted_at", "raw"]

  /** The descriptor the OSDR repository is built with. */
  const Descriptor: Columns := Columns(Readable, Writable, Alias, IdField)

  /** Everything the repository writes it can also read back. */
  lemma {:induction false} WritableAreReadable()
    ensures forall c :: c in Writable ==> c in Readable
  {
  }

  /** The identity and the insertion stamp are read but never written. */
  lemma {:induction false} IdentityAndInsertionReadOnly()
    ensures IdField in Readable && IdField !in Writable
    ensures "inserted_at" in Readable && "inserted_at" !in Writable
  {
  }

  /** The writable columns other than `updated_at`, in order. */
  const CopiedOnConflict: seq<string> := ["dataset_id", "title", "status", "raw"]

  lemma {:induction false} RemoveUpdatedAt()
    ensures UpdatedAt in Writable
    ensures RemoveFirst(Writable, UpdatedAt) == CopiedOnConflict
  {
    assert Writable[3] == UpdatedAt;
    assert Writable[0] != UpdatedAt && Writable[1] != UpdatedAt && Writable[2] != UpdatedAt;
    assert RemoveFirst(Writable[3..], UpdatedAt) == ["raw"];
    assert Writable[1..][1..][1..] == Writable[3..];
  }

  /** The OSDR upsert list: every writable column but `updated_at` taken
      from the proposed row, in order, and `updated_at` reset to NOW() last. */
  lemma {:induction false} UpsertAssignmentsOfOsdr()
    ensures UpsertAssignments(Descriptor.writable)
         == [Excluded("dataset_id"), Excluded("title"), Excluded("status"), Excluded("raw"), UpdatedAtNow]
  {
    RemoveUpdatedAt();
    ExcludedAllAt(CopiedOnConflict);
  }

  /** The rendered OSDR SET list ends with the `updated_at=NOW()` reset. */
  lemma {:induction false} OsdrSetListEndsWithNow()
    ensures var l := UpsertSetList(Descriptor);
      |l| >= |UpdatedAtNow| && l[|l| - |UpdatedAtNow|..] == UpdatedAtNow
  {
    RemoveUpdatedAt();
    UpsertSetListEndsWithNow(Descriptor);
  }
}
