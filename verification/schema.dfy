/** The schema descriptor of one record type: which columns may be read,
    which may be written, the identity column, and the table alias used to
    qualify a wildcard.  Holds the select-list expansion and the two
    renderings of the upsert assignment list. */
module Schema {
  import opened Text

  /** The literal "all columns" marker. */
  const AllFields: string := "*"
  /** The column the upsert list resets to the current time. */
  const UpdatedAt: string := "updated_at"
  /** The assignment that replaces the first `updated_at` in the upsert list. */
  const UpdatedAtNow: string := "updated_at=NOW()"

  datatype Columns = Columns(readable: seq<string>, writable: seq<string>, alias: string, idField: string)

  function ForInsert(c: Columns): seq<string>
  {
    c.writable
  }

  function GetIDField(c: Columns): string
  {
    c.idField
  }

  function GetAlias(c: Columns): string
  {
    c.alias
  }

  // ---------------------------------------------------------------------
  // Select list

  /** The aliased wildcard, e.g. "oi.*". */
  function AliasAll(c: Columns): string
  {
    c.alias + "." + AllFields
  }

  /** Each column qualified with the alias, in order. */
  function Qualify(alias: string, cols: seq<string>): seq<string>
  {
    if |cols| == 0 then [] else Qualify(alias, cols[..|cols| - 1]) + [alias + "." + cols[|cols| - 1]]
  }

  /** Qualify prefixes every column with "alias." and keeps the order. */
  lemma {:induction false} QualifyAt(alias: string, cols: seq<string>)
    ensures |Qualify(alias, cols)| == |cols|
    ensures forall i :: 0 <= i < |cols| ==> Qualify(alias, cols)[i] == alias + "." + cols[i]
  {
    if |cols| > 0 {
      QualifyAt(alias, cols[..|cols| - 1]);
    }
  }

  /** What one requested field becomes in the select list. */
  function Contribution(c: Columns, f: string): seq<string>
  {
    if f == AllFields then c.readable
    else if f != AliasAll(c) then [f]
    else Qualify(c.alias, c.readable)
  }

  /** The requested fields, each replaced by its contribution, in order. */
  function Expanded(c: Columns, raw: seq<string>): seq<string>
  {
    if |raw| == 0 then [] else Expanded(c, raw[..|raw| - 1]) + Contribution(c, raw[|raw| - 1])
  }

  /** The select list for a request: the readable list when nothing is
      requested, the expansion of the request otherwise. */
  function SelectColumns(c: Columns, raw: seq<string>): seq<string>
  {
    if |raw| == 0 then c.readable else Expanded(c, raw)
  }

  /** Columns.ForSelect. */
  method ForSelect(c: Columns, rawFields: seq<string>) returns (fields: seq<string>)
    ensures fields == SelectColumns(c, rawFields)
    ensures |rawFields| == 0 ==> fields == c.readable
  {
    if |rawFields| == 0 {
      return c.readable;
    }
    fields := [];
    var i := 0;
    while i < |rawFields|
      invariant 0 <= i <= |rawFields|
      invariant fields == Expanded(c, rawFields[..i])
    {
      var rawField := rawFields[i];
      assert rawFields[..i + 1][..i] == rawFields[..i];
      if rawField == AllFields {
        fields := fields + c.readable;
      } else if rawField != c.alias + "." + AllFields {
        fields := fields + [rawField];
      } else {
        var j := 0;
        while j < |c.readable|
          invariant 0 <= j <= |c.readable|
          invariant fields == Expanded(c, rawFields[..i]) + Qualify(c.alias, c.readable[..j])
        {
          assert c.readable[..j + 1][..j] == c.readable[..j];
          fields := fields + [c.alias + "." + c.readable[j]];
          j := j + 1;
        }
        assert c.readable[..j] == c.readable;
      }
      i := i + 1;
    }
    assert rawFields[..i] == rawFields;
  }

  /** Expansion distributes over concatenation of requests: each field is
      expanded where it stands and the relative order is kept. */
  lemma {:induction false} ExpandedAppend(c: Columns, a: seq<string>, b: seq<string>)
    ensures Expanded(c, a + b) == Expanded(c, a) + Expanded(c, b)
  {
    if |b| > 0 {
      var b' := b[..|b| - 1];
      assert (a + b)[..|a + b| - 1] == a + b';
      ExpandedAppend(c, a, b');
    } else {
      assert a + b == a;
    }
  }

  /** A literal "*" is replaced, where it stands, by the whole readable list. */
  lemma {:induction false} StarExpandsInPlace(c: Columns, before: seq<string>, after: seq<string>)
    ensures SelectColumns(c, before + [AllFields] + after)
         == Expanded(c, before) + c.readable + Expanded(c, after)
  {
    ExpandedAppend(c, before + [AllFields], after);
    ExpandedAppend(c, before, [AllFields]);
  }

  /** "alias.*" is replaced, where it stands, by every readable column
      qualified with the alias, in readable order. */
  lemma {:induction false} AliasStarExpandsInPlace(c: Columns, before: seq<string>, after: seq<string>)
    ensures SelectColumns(c, before + [AliasAll(c)] + after)
         == Expanded(c, before) + Qualify(c.alias, c.readable) + Expanded(c, after)
    ensures |Qualify(c.alias, c.readable)| == |c.readable|
    ensures forall i :: 0 <= i < |c.readable| ==>
      SelectColumns(c, before + [AliasAll(c)] + after)[|Expanded(c, before)| + i] == c.alias + "." + c.readable[i]
  {
    ExpandedAppend(c, before + [AliasAll(c)], after);
    ExpandedAppend(c, before, [AliasAll(c)]);
    assert AliasAll(c) != AllFields;
    QualifyAt(c.alias, c.readable);
  }

  /** Any other requested field, qualified or not, passes through unchanged
      where it stands. */
  lemma {:induction false} OtherFieldPassesThrough(c: Columns, before: seq<string>, f: string, after: seq<string>)
    requires f != AllFields && f != AliasAll(c)
    ensures SelectColumns(c, before + [f] + after)
         == Expanded(c, before) + [f] + Expanded(c, after)
  {
    ExpandedAppend(c, before + [f], after);
    ExpandedAppend(c, before, [f]);
  }

  /** Number of requested fields that are wildcards ("*" or "alias.*"). */
  function Wildcards(c: Columns, raw: seq<string>): nat
  {
    if |raw| == 0 then 0
    else Wildcards(c, raw[..|raw| - 1]) + (if raw[|raw| - 1] == AllFields || raw[|raw| - 1] == AliasAll(c) then 1 else 0)
  }

  /** One more wildcard adds one more `k`. */
  lemma MulSucc(w: int, k: int)
    ensures (w + 1) * k == w * k + k
  {
  }

  /** Every wildcard contributes the readable count, every other field one. */
  lemma {:induction false} ExpandedLength(c: Columns, raw: seq<string>)
    ensures |Expanded(c, raw)| == |raw| + Wildcards(c, raw) * (|c.readable| - 1)
  {
    if |raw| > 0 {
      var init, f := raw[..|raw| - 1], raw[|raw| - 1];
      var w, k := Wildcards(c, init), |c.readable| - 1;
      ExpandedLength(c, init);
      assert |Expanded(c, init)| == |init| + w * k;
      if f == AllFields || f == AliasAll(c) {
        QualifyAt(c.alias, c.readable);
        assert |Contribution(c, f)| == k + 1;
        assert Wildcards(c, raw) == w + 1;
        MulSucc(w, k);
      } else {
        assert |Contribution(c, f)| == 1;
        assert Wildcards(c, raw) == w;
      }
    }
  }

  // ---------------------------------------------------------------------
  // OnConflict: "ON CONFLICT (id) DO UPDATE SET c = EXCLUDED.c,..."

  /** The assignments OnConflict builds: every writable column except the
      identity, as "col = EXCLUDED.col", in order. */
  function ConflictAssignments(writable: seq<string>, idField: string): seq<string>
  {
    if |writable| == 0 then []
    else
      var col := writable[|writable| - 1];
      ConflictAssignments(writable[..|writable| - 1], idField)
        + (if col == idField then [] else [col + " = EXCLUDED." + col])
  }

  /** The clause OnConflict renders. */
  function OnConflictClause(c: Columns): string
  {
    if |c.writable| == 0 || c.idField == "" then ""
    else
      var statements := ConflictAssignments(c.writable, c.idField);
      if |statements| == 0 then "ON CONFLICT (" + c.idField + ") DO NOTHING"
      else "ON CONFLICT (" + c.idField + ") DO UPDATE SET " + Join(statements, ",")
  }

  /** Columns.OnConflict. */
  method OnConflict(c: Columns) returns (clause: string)
    ensures clause == OnConflictClause(c)
    ensures |c.writable| == 0 || c.idField == "" ==> clause == ""
  {
    if |c.writable| == 0 || c.idField == "" {
      return "";
    }
    var statements: seq<string> := [];
    var i := 0;
    while i < |c.writable|
      invariant 0 <= i <= |c.writable|
      invariant statements == ConflictAssignments(c.writable[..i], c.idField)
    {
      var col := c.writable[i];
      assert c.writable[..i + 1][..i] == c.writable[..i];
      if col != c.idField {
        statements := statements + [col + " = EXCLUDED." + col];
      }
      i := i + 1;
    }
    assert c.writable[..i] == c.writable;
    if |statements| == 0 {
      return "ON CONFLICT (" + c.idField + ") DO NOTHING";
    }
    clause := "ON CONFLICT (" + c.idField + ") DO UPDATE SET " + Join(statements, ",");
  }

  /** The writable columns other than the identity, in order. */
  function NonIdentity(writable: seq<string>, idField: string): (r: seq<string>)
    ensures |r| <= |writable|
  {
    if |writable| == 0 then []
    else if writable[0] == idField then NonIdentity(writable[1..], idField)
    else [writable[0]] + NonIdentity(writable[1..], idField)
  }

  /** A column survives the filter exactly when it is writable and is not
      the identity. */
  lemma {:induction false} NonIdentityMembers(writable: seq<string>, idField: string)
    ensures forall col :: col in NonIdentity(writable, idField) <==> col in writable && col != idField
  {
    if |writable| > 0 {
      NonIdentityMembers(writable[1..], idField);
      assert writable == [writable[0]] + writable[1..];
    }
  }

  /** The filter on a longer column list: the last column is kept unless
      it is the identity. */
  lemma {:induction false} NonIdentitySnoc(writable: seq<string>, col: string, idField: string)
    ensures NonIdentity(writable + [col], idField)
         == NonIdentity(writable, idField) + (if col == idField then [] else [col])
  {
    if |writable| > 0 {
      NonIdentitySnoc(writable[1..], col, idField);
      assert (writable + [col])[1..] == writable[1..] + [col];
    } else {
      assert writable + [col] == [col];
    }
  }

  /** OnConflict drops exactly the identity column: its assignments are,
      in order, one "col = EXCLUDED.col" for each writable column other
      than the identity, so every such column gets one, and their number is
      the writable count less the identity's occurrences. */
  lemma {:induction false} ConflictAssignmentsSkipIdentity(writable: seq<string>, idField: string)
    ensures var kept := NonIdentity(writable, idField);
      |ConflictAssignments(writable, idField)| == |kept|
      && forall i :: 0 <= i < |kept| ==>
           ConflictAssignments(writable, idField)[i] == kept[i] + " = EXCLUDED." + kept[i]
    ensures forall col :: col in writable && col != idField ==>
              col + " = EXCLUDED." + col in ConflictAssignments(writable, idField)
    ensures |ConflictAssignments(writable, idField)| == |writable| - multiset(writable)[idField]
  {
    if |writable| > 0 {
      var init, last := writable[..|writable| - 1], writable[|writable| - 1];
      ConflictAssignmentsSkipIdentity(init, idField);
      assert writable == init + [last];
      NonIdentitySnoc(init, last, idField);
      assert multiset(writable) == multiset(init) + multiset{last};
    }
    var kept, ca := NonIdentity(writable, idField), ConflictAssignments(writable, idField);
    NonIdentityMembers(writable, idField);
    forall col | col in writable && col != idField
      ensures col + " = EXCLUDED." + col in ca
    {
      var i :| 0 <= i < |kept| && kept[i] == col;
      assert ca[i] == col + " = EXCLUDED." + col;
    }
  }

  /** OnConflict degrades to DO NOTHING exactly when every writable column
      is the identity column. */
  lemma {:induction false} NoAssignmentsIffOnlyIdentity(writable: seq<string>, idField: string)
    ensures ConflictAssignments(writable, idField) == [] <==> forall i :: 0 <= i < |writable| ==> writable[i] == idField
  {
    if |writable| > 0 {
      var init := writable[..|writable| - 1];
      NoAssignmentsIffOnlyIdentity(init, idField);
      assert forall i :: 0 <= i < |init| ==> init[i] == writable[i];
    }
  }

  // ---------------------------------------------------------------------
  // GetOnConflictStatement: "c=EXCLUDED.c, ..., updated_at=NOW()"

  function Excluded(col: string): string
  {
    col + "=EXCLUDED." + col
  }

  /** Every column as "col=EXCLUDED.col", in order. */
  function ExcludedAll(cols: seq<string>): seq<string>
  {
    if |cols| == 0 then [] else ExcludedAll(cols[..|cols| - 1]) + [Excluded(cols[|cols| - 1])]
  }

  lemma {:induction false} ExcludedAllAt(cols: seq<string>)
    ensures |ExcludedAll(cols)| == |cols|
    ensures forall i :: 0 <= i < |cols| ==> ExcludedAll(cols)[i] == Excluded(cols[i])
  {
    if |cols| > 0 {
      ExcludedAllAt(cols[..|cols| - 1]);
    }
  }

  /** The sequence without its first occurrence of `x`. */
  function RemoveFirst(s: seq<string>, x: string): seq<string>
  {
    if |s| == 0 then []
    else if s[0] == x then s[1..]
    else [s[0]] + RemoveFirst(s[1..], x)
  }

  lemma {:induction false} RemoveFirstAbsent(s: seq<string>, x: string)
    requires x !in s
    ensures RemoveFirst(s, x) == s
  {
    if |s| > 0 {
      RemoveFirstAbsent(s[1..], x);
    }
  }

  /** RemoveFirst cuts out exactly the first occurrence. */
  lemma {:induction false} RemoveFirstAt(s: seq<string>, x: string, i: nat)
    requires i < |s| && s[i] == x && x !in s[..i]
    ensures RemoveFirst(s, x) == s[..i] + s[i + 1..]
  {
    if i > 0 {
      assert s[1..][..i - 1] == s[..i][1..];
      RemoveFirstAt(s[1..], x, i - 1);
      assert s[..i] == [s[0]] + s[1..][..i - 1];
    }
  }

  /** How RemoveFirst extends when one element is appended. */
  lemma {:induction false} RemoveFirstSnoc(s: seq<string>, y: string, x: string)
    ensures RemoveFirst(s + [y], x)
         == if x in s then RemoveFirst(s, x) + [y] else if y == x then s else s + [y]
  {
    if |s| == 0 {
      assert s + [y] == [y];
    } else {
      assert (s + [y])[1..] == s[1..] + [y];
      RemoveFirstSnoc(s[1..], y, x);
      if s[0] != x && x !in s[1..] {
        RemoveFirstAbsent(s[1..], x);
      }
    }
  }

  /** The statements GetOnConflictStatement builds: every writable column
      as "col=EXCLUDED.col" except the first `updated_at`, which becomes a
      trailing "updated_at=NOW()". */
  function UpsertAssignments(writable: seq<string>): seq<string>
  {
    if UpdatedAt in writable then ExcludedAll(RemoveFirst(writable, UpdatedAt)) + [UpdatedAtNow]
    else ExcludedAll(writable)
  }

  /** The SET list GetOnConflictStatement returns. */
  function UpsertSetList(c: Columns): string
  {
    Join(UpsertAssignments(c.writable), ", ")
  }

  /** Columns.GetOnConflictStatement. */
  method GetOnConflictStatement(c: Columns) returns (list: string)
    ensures list == UpsertSetList(c)
  {
    var statements: seq<string> := [];
    var needChangeUpdatedAt := false;
    var i := 0;
    while i < |c.writable|
      invariant 0 <= i <= |c.writable|
      invariant needChangeUpdatedAt == (UpdatedAt in c.writable[..i])
      invariant statements == ExcludedAll(RemoveFirst(c.writable[..i], UpdatedAt))
    {
      var column := c.writable[i];
      assert c.writable[..i + 1] == c.writable[..i] + [column];
      RemoveFirstSnoc(c.writable[..i], column, UpdatedAt);
      if !needChangeUpdatedAt && column == UpdatedAt {
        RemoveFirstAbsent(c.writable[..i], UpdatedAt);
        needChangeUpdatedAt := true;
      } else {
        if !needChangeUpdatedAt {
          RemoveFirstAbsent(c.writable[..i], UpdatedAt);
        }
        var rest := RemoveFirst(c.writable[..i], UpdatedAt);
        assert (rest + [column])[..|rest|] == rest;
        statements := statements + [Excluded(column)];
      }
      i := i + 1;
    }
    assert c.writable[..i] == c.writable;
    if needChangeUpdatedAt {
      statements := statements + [UpdatedAtNow];
    } else {
      RemoveFirstAbsent(c.writable, UpdatedAt);
    }
    list := Join(statements, ", ");
  }

  lemma {:induction false} RemoveFirstLength(s: seq<string>, x: string)
    requires x in s
    ensures |RemoveFirst(s, x)| == |s| - 1
  {
    if s[0] != x {
      RemoveFirstLength(s[1..], x);
    }
  }

  /** One statement per writable column.  With an `updated_at` column the
      last statement is "updated_at=NOW()" and the others are the remaining
      columns, in order, as "col=EXCLUDED.col"; without one, every column is
      "col=EXCLUDED.col" in order. */
  lemma {:induction false} UpsertAssignmentsShape(writable: seq<string>)
    ensures |UpsertAssignments(writable)| == |writable|
    ensures UpdatedAt in writable ==>
      |RemoveFirst(writable, UpdatedAt)| == |writable| - 1
      && UpsertAssignments(writable)[|writable| - 1] == UpdatedAtNow
      && forall i :: 0 <= i < |writable| - 1 ==>
           UpsertAssignments(writable)[i] == Excluded(RemoveFirst(writable, UpdatedAt)[i])
    ensures UpdatedAt !in writable ==>
      forall i :: 0 <= i < |writable| ==> UpsertAssignments(writable)[i] == Excluded(writable[i])
  {
    if UpdatedAt in writable {
      RemoveFirstLength(writable, UpdatedAt);
      ExcludedAllAt(RemoveFirst(writable, UpdatedAt));
    } else {
      ExcludedAllAt(writable);
    }
  }

  /** When there is an `updated_at` column the rendered SET list ends with
      "updated_at=NOW()". */
  lemma {:induction false} UpsertSetListEndsWithNow(c: Columns)
    requires UpdatedAt in c.writable
    ensures var l := UpsertSetList(c);
      |l| >= |UpdatedAtNow| && l[|l| - |UpdatedAtNow|..] == UpdatedAtNow
  {
    var rest := ExcludedAll(RemoveFirst(c.writable, UpdatedAt));
    if |rest| > 0 {
      JoinSnoc(rest, UpdatedAtNow, ", ");
    } else {
      assert rest + [UpdatedAtNow] == [UpdatedAtNow];
    }
  }
}
