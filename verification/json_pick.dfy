/** Picking values out of decoded JSON: the list of items of a response,
    and the first usable string among candidate keys. */
module JsonPick {
  import opened Wrappers

  /** A decoded JSON value; numbers decode to float64. */
  datatype Json =
    | Null
    | Bool(b: bool)
    | Number(n: real)
    | Str(s: string)
    | Arr(elems: seq<Json>)
    | Obj(fields: map<string, Json>)

  /** The list stored under `key` in an object, if there is one. */
  function ListAt(fields: map<string, Json>, key: string): Option<seq<Json>>
  {
    if key in fields && fields[key].Arr? then Some(fields[key].elems) else None
  }

  /** ExtractItems: an array as is; for an object its `items` list, else its
      `results` list; anything else as a one-element list. */
  function ExtractItems(j: Json): (r: seq<Json>)
    ensures j.Arr? ==> r == j.elems
    ensures j.Obj? && ListAt(j.fields, "items").Some? ==> r == ListAt(j.fields, "items").value
    ensures j.Obj? && ListAt(j.fields, "items").None? && ListAt(j.fields, "results").Some? ==>
      r == ListAt(j.fields, "results").value
    ensures !j.Arr? && !(j.Obj? && (ListAt(j.fields, "items").Some? || ListAt(j.fields, "results").Some?)) ==>
      r == [j]
  {
    match j
    case Arr(elems) => elems
    case Obj(fields) =>
      if ListAt(fields, "items").Some? then ListAt(fields, "items").value
      else if ListAt(fields, "results").Some? then ListAt(fields, "results").value
      else [j]
    case _ => [j]
  }

  /** ExtractItems returns nothing only for an input that holds an empty
      list where it looks. */
  lemma {:induction false} ExtractItemsEmpty(j: Json)
    requires ExtractItems(j) == []
    ensures j == Arr([]) || (j.Obj? && (ListAt(j.fields, "items") == Some([])
                                        || ListAt(j.fields, "results") == Some([])))
  {
  }

  /** What ExtractString makes of the value under one key: a non-empty
      string as is, a number through the `%.0f` formatter. */
  function Usable(x: Json, formatNumber: real -> string): Option<string>
  {
    if x.Str? && x.s != "" then Some(x.s)
    else if x.Number? then Some(formatNumber(x.n))
    else None
  }

  /** The key is present and its value is usable. */
  predicate Qualifies(v: map<string, Json>, key: string, formatNumber: real -> string)
  {
    key in v && Usable(v[key], formatNumber).Some?
  }

  /** ExtractString: the usable value under the first qualifying key. */
  function ExtractString(v: map<string, Json>, keys: seq<string>, formatNumber: real -> string): (r: Option<string>)
    ensures r.Some? ==> exists key :: key in keys && Qualifies(v, key, formatNumber) && r == Usable(v[key], formatNumber)
    ensures r.None? ==> forall key :: key in keys ==> !Qualifies(v, key, formatNumber)
  {
    if |keys| == 0 then None
    else if Qualifies(v, keys[0], formatNumber) then Usable(v[keys[0]], formatNumber)
    else ExtractString(v, keys[1..], formatNumber)
  }

  /** ExtractString finds nothing exactly when no key qualifies. */
  lemma {:induction false} ExtractStringNone(v: map<string, Json>, keys: seq<string>, formatNumber: real -> string)
    ensures ExtractString(v, keys, formatNumber) == None <==>
      forall i :: 0 <= i < |keys| ==> !Qualifies(v, keys[i], formatNumber)
  {
    if |keys| > 0 {
      ExtractStringNone(v, keys[1..], formatNumber);
      assert forall i :: 1 <= i < |keys| ==> keys[i] == keys[1..][i - 1];
    }
  }

  /** When key `i` is the first that qualifies, ExtractString returns its
      usable value; absent keys, empty strings and other types before it
      are skipped. */
  lemma {:induction false} ExtractStringFirst(v: map<string, Json>, keys: seq<string>, i: nat, formatNumber: real -> string)
    requires i < |keys| && Qualifies(v, keys[i], formatNumber)
    requires forall j :: 0 <= j < i ==> !Qualifies(v, keys[j], formatNumber)
    ensures ExtractString(v, keys, formatNumber) == Usable(v[keys[i]], formatNumber)
  {
    if i > 0 {
      assert keys[1..][i - 1] == keys[i];
      ExtractStringFirst(v, keys[1..], i - 1, formatNumber);
    }
  }
}
