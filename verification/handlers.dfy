/** Query-parameter parsing of the two handlers that take parameters: the
    `src` list of the space refresh and the `limit` of the OSDR list. */
module Handlers {
  import opened Wrappers
  import opened Text
  import opened Strconv

  /** The sources refreshed when `src` is empty. */
  const DefaultSources: string := "apod,neo,flr,cme,spacex"

  /** The effective `src` value. */
  function SrcOrDefault(src: string): string
  {
    if src == "" then DefaultSources else src
  }

  /** The source list the handler hands to RefreshSpace: the pieces between
      commas, each trimmed. */
  function SourcesOf(src: string): (r: seq<string>)
    ensures |r| == |Split(SrcOrDefault(src), ',')|
    ensures forall i :: 0 <= i < |r| ==> r[i] == TrimSpace(Split(SrcOrDefault(src), ',')[i])
  {
    TrimEach(Split(SrcOrDefault(src), ','))
  }

  function TrimEach(pieces: seq<string>): (r: seq<string>)
    ensures |r| == |pieces|
    ensures forall i :: 0 <= i < |r| ==> r[i] == TrimSpace(pieces[i])
  {
    if |pieces| == 0 then [] else TrimEach(pieces[..|pieces| - 1]) + [TrimSpace(pieces[|pieces| - 1])]
  }

  /** The `src` parsing of SpaceRefreshGet: split, then trim every element
      in place. */
  method ParseSources(src: string) returns (sources: seq<string>)
    ensures sources == SourcesOf(src)
  {
    var srcParam := src;
    if srcParam == "" {
      srcParam := DefaultSources;
    }
    sources := Split(srcParam, ',');
    ghost var pieces := sources;
    var i := 0;
    while i < |sources|
      invariant 0 <= i <= |sources| == |pieces|
      invariant forall k :: 0 <= k < i ==> sources[k] == TrimSpace(pieces[k])
      invariant forall k :: i <= k < |sources| ==> sources[k] == pieces[k]
    {
      sources := sources[i := TrimSpace(sources[i])];
      i := i + 1;
    }
  }

  /** There is one source per comma plus one, empty pieces included; no
      source holds a comma or starts or ends with white space. */
  lemma {:induction false} SourcesShape(src: string)
    ensures |SourcesOf(src)| == Occurrences(SrcOrDefault(src), ',') + 1
    ensures forall i :: 0 <= i < |SourcesOf(src)| ==>
      ',' !in SourcesOf(src)[i]
      && (SourcesOf(src)[i] == [] || (!IsSpace(SourcesOf(src)[i][0]) && !IsSpace(SourcesOf(src)[i][|SourcesOf(src)[i]| - 1])))
  {
    var pieces := Split(SrcOrDefault(src), ',');
    SplitLength(SrcOrDefault(src), ',');
    SplitPiecesLackSeparator(SrcOrDefault(src), ',');
    forall i | 0 <= i < |pieces|
      ensures ',' !in TrimSpace(pieces[i])
      ensures TrimSpace(pieces[i]) == [] || (!IsSpace(TrimSpace(pieces[i])[0]) && !IsSpace(TrimSpace(pieces[i])[|TrimSpace(pieces[i])| - 1]))
    {
      TrimSpaceIsInnerSlice(pieces[i]);
    }
  }

  /** Joining already-trimmed sources with commas and parsing the result
      gives them back. */
  lemma {:induction false} SourcesRoundTrip(names: seq<string>)
    requires |names| > 0 && Join(names, ",") != ""
    requires forall i :: 0 <= i < |names| ==> ',' !in names[i] && TrimSpace(names[i]) == names[i]
    ensures SourcesOf(Join(names, ",")) == names
  {
    SourcesOfGiven(Join(names, ","));
    SplitCommaJoin(names);
    TrimEachFixed(names);
  }

  /** A non-empty `src` is parsed as given. */
  lemma {:induction false} SourcesOfGiven(src: string)
    requires src != ""
    ensures SourcesOf(src) == TrimEach(Split(src, ','))
  {
  }

  /** SplitJoin at the comma the handler splits on. */
  lemma {:induction false} SplitCommaJoin(names: seq<string>)
    requires |names| > 0
    requires forall i :: 0 <= i < |names| ==> ',' !in names[i]
    ensures Split(Join(names, ","), ',') == names
  {
    assert "," == [','];
    SplitJoin(names, ',');
  }

  /** Trimming pieces that are already trimmed changes nothing. */
  lemma {:induction false} TrimEachFixed(pieces: seq<string>)
    requires forall i :: 0 <= i < |pieces| ==> TrimSpace(pieces[i]) == pieces[i]
    ensures TrimEach(pieces) == pieces
  {
    if |pieces| > 0 {
      var k := |pieces| - 1;
      TrimEachFixed(pieces[..k]);
      assert pieces[..k] + [pieces[k]] == pieces;
    }
  }

  /** Splitting a join of comma-free parts gives the parts back. */
  lemma {:induction false} SplitJoin(parts: seq<string>, sep: char)
    requires |parts| > 0
    requires forall i :: 0 <= i < |parts| ==> sep !in parts[i]
    ensures Split(Join(parts, [sep]), sep) == parts
  {
    if |parts| == 1 {
      SplitNoSep(parts[0], sep);
    } else {
      SplitJoin(parts[1..], sep);
      JoinCons(parts[0], parts[1..], [sep]);
      SplitAppend(parts[0], Join(parts[1..], [sep]), sep);
      assert [parts[0]] + parts[1..] == parts;
    }
  }

  /** A separator-free string splits into itself. */
  lemma {:induction false} SplitNoSep(s: string, sep: char)
    requires sep !in s
    ensures Split(s, sep) == [s]
  {
    if |s| > 0 {
      SplitNoSep(s[1..], sep);
      assert [s[0]] + s[1..] == s;
    }
  }

  /** Splitting `p + sep + rest`, with `p` separator-free, yields `p`
      followed by the pieces of `rest`. */
  lemma {:induction false} SplitAppend(p: string, rest: string, sep: char)
    requires sep !in p
    ensures Split(p + [sep] + rest, sep) == [p] + Split(rest, sep)
  {
    if |p| == 0 {
      assert p + [sep] + rest == [sep] + rest;
      assert ([sep] + rest)[1..] == rest;
    } else {
      SplitAppend(p[1..], rest, sep);
      assert (p + [sep] + rest)[1..] == p[1..] + [sep] + rest;
      assert [p[0]] + p[1..] == p;
    }
  }

  /** An empty `src` asks for the five sources, in this order. */
  lemma {:induction false} DefaultRequest()
    ensures SourcesOf("") == ["apod", "neo", "flr", "cme", "spacex"]
  {
    var names := ["apod", "neo", "flr", "cme", "spacex"];
    DefaultSourcesJoined();
    DefaultNamesTrimmed();
    SourcesRoundTrip(names);
  }

  /** The default list is the comma join of the five names. */
  lemma {:induction false} DefaultSourcesJoined()
    ensures Join(["apod", "neo", "flr", "cme", "spacex"], ",") == DefaultSources
  {
    JoinCons("cme", ["spacex"], ",");
    assert Join(["cme", "spacex"], ",") == "cme,spacex";
    JoinCons("flr", ["cme", "spacex"], ",");
    assert Join(["flr", "cme", "spacex"], ",") == "flr,cme,spacex";
    JoinCons("neo", ["flr", "cme", "spacex"], ",");
    assert Join(["neo", "flr", "cme", "spacex"], ",") == "neo,flr,cme,spacex";
    JoinCons("apod", ["neo", "flr", "cme", "spacex"], ",");
  }

  /** The five default names are comma-free and need no trimming. */
  lemma {:induction false} DefaultNamesTrimmed()
    ensures var names := ["apod", "neo", "flr", "cme", "spacex"];
      forall i :: 0 <= i < |names| ==> ',' !in names[i] && TrimSpace(names[i]) == names[i]
  {
    var names := ["apod", "neo", "flr", "cme", "spacex"];
    forall i | 0 <= i < |names|
      ensures ',' !in names[i] && TrimSpace(names[i]) == names[i]
    {
      NoSurroundingSpace(names[i]);
    }
  }

  /** The default page size of the OSDR list. */
  const DefaultLimit: int := 20

  /** The `limit` parsing of OSDRListGet. */
  method ParseLimit(limitStr: string) returns (limit: int)
    ensures limit >= 1
    ensures limitStr == "" ==> limit == DefaultLimit
    ensures Atoi(limitStr).Some? && Atoi(limitStr).value > 0 ==> limit == Atoi(limitStr).value
    ensures !(Atoi(limitStr).Some? && Atoi(limitStr).value > 0) ==> limit == DefaultLimit
  {
    limit := DefaultLimit;
    if limitStr != "" {
      var parsed := Atoi(limitStr);
      if parsed.Some? && parsed.value > 0 {
        limit := parsed.value;
      }
    }
  }
}
