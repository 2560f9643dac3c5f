/** Refreshing the space cache: each requested source is fetched from its
    upstream feed, re-encoded and stored as one cache row.  The upstream
    clients, the JSON encoder, the clock and the repository are oracles. */
module RefreshSpace {
  import opened Wrappers
  import opened GoErrors
  import opened Text
  import opened Cells
  import opened ServiceErrors
  import opened JsonPick
  import opened CacheEntity
  import opened Handlers

  /** The upstream feed a source name selects; the day counts are the
      `LastDays` windows the request covers. */
  datatype Feed =
    | Apod
    | NeoFeed(days: nat)
    | DonkiFlr(days: nat)
    | DonkiCme(days: nat)
    | NextLaunch

  /** The upstream clients, the JSON encoder and the repository, as seen by
      the pass for the request at a given position: each call may answer
      differently, even for a source requested twice. */
  type Fetcher = (nat, Feed) -> Result<Json, GoError>
  type Encoder = (nat, Json) -> Result<Bytes, GoError>
  type Saver = (nat, SpaceCache) -> Option<GoError>

  /** The switch over the normalised source name. */
  function FeedFor(name: string): (r: Option<Feed>)
    ensures r.Some? <==> name in {"apod", "neo", "flr", "cme", "spacex"}
    ensures r == Some(Apod) <==> name == "apod"
    ensures r == Some(NextLaunch) <==> name == "spacex"
    ensures r.Some? && (r.value.NeoFeed? || r.value.DonkiFlr? || r.value.DonkiCme?) ==>
      r.value.days == (if name == "neo" then 2 else 5)
  {
    if name == "apod" then Some(Apod)
    else if name == "neo" then Some(NeoFeed(2))
    else if name == "flr" then Some(DonkiFlr(5))
    else if name == "cme" then Some(DonkiCme(5))
    else if name == "spacex" then Some(NextLaunch)
    else None
  }

  /** A requested source as the switch sees it: lower-cased and trimmed. */
  function Normalise(source: string): (r: string)
    ensures |r| <= |source|
    ensures |r| > 0 ==> !IsSpace(r[0]) && !IsSpace(r[|r| - 1])
  {
    var lower := ToLower(source);
    TrimSpaceIsInnerSlice(lower);
    TrimSpace(lower)
  }

  /** What happens to one requested source. */
  datatype Attempt =
    | Skipped                    // not a known source: silently ignored
    | Logged(line: string)       // a failure, reported only in the log
    | Refreshed(name: string)    // fetched and stored under its normalised name

  /** The log line for a failing step. */
  function FailureLine(step: string, source: string, err: GoError): string
  {
    "Error " + step + " " + source + ": " + ErrorText(err)
  }

  /** One pass of the loop body for the source `raw` at request position
      `pos`, fetched at `at`. */
  function AttemptOf(raw: string, pos: nat, at: Instant,
                     fetch: Fetcher,
                     marshal: Encoder,
                     save: Saver): (r: Attempt)
    ensures FeedFor(Normalise(raw)).None? <==> r == Skipped
    ensures r.Refreshed? ==> r.name == Normalise(raw)
    ensures r.Refreshed? <==>
      (FeedFor(Normalise(raw)).Some?
       && fetch(pos, FeedFor(Normalise(raw)).value).Ok?
       && marshal(pos, fetch(pos, FeedFor(Normalise(raw)).value).value).Ok?
       && save(pos, SpaceCache(0, Normalise(raw), at,
                          marshal(pos, fetch(pos, FeedFor(Normalise(raw)).value).value).value)).None?)
    ensures FeedFor(Normalise(raw)).Some? && fetch(pos, FeedFor(Normalise(raw)).value).Err? ==>
      r == Logged(FailureLine("fetching", Normalise(raw), fetch(pos, FeedFor(Normalise(raw)).value).error))
  {
    var source := Normalise(raw);
    match FeedFor(source)
    case None => Skipped
    case Some(feed) =>
      match fetch(pos, feed)
      case Err(e) => Logged(FailureLine("fetching", source, e))
      case Ok(jsonData) =>
        match marshal(pos, jsonData)
        case Err(e) => Logged(FailureLine("marshalling JSON from", source, e))
        case Ok(payload) =>
          match save(pos, SpaceCache(0, source, at, payload))
          case Some(e) => Logged(FailureLine("saving from", source, e))
          case None => Refreshed(source)
  }

  /** What a pass adds to the refreshed list. */
  function NameOf(a: Attempt): seq<string>
  {
    if a.Refreshed? then [a.name] else []
  }

  /** What a pass adds to the log. */
  function LineOf(a: Attempt): seq<string>
  {
    if a.Logged? then [a.line] else []
  }

  /** The names refreshed by the first |sources| passes; the pass for
      `sources[i]` reads the clock as `now(i)`. */
  function RefreshedNames(sources: seq<string>, now: nat -> Instant,
                          fetch: Fetcher,
                          marshal: Encoder,
                          save: Saver): seq<string>
  {
    if |sources| == 0 then []
    else
      var i := |sources| - 1;
      RefreshedNames(sources[..i], now, fetch, marshal, save)
      + NameOf(AttemptOf(sources[i], i, now(i), fetch, marshal, save))
  }

  /** The log lines of the first |sources| passes. */
  function LogLines(sources: seq<string>, now: nat -> Instant,
                    fetch: Fetcher,
                    marshal: Encoder,
                    save: Saver): seq<string>
  {
    if |sources| == 0 then []
    else
      var i := |sources| - 1;
      LogLines(sources[..i], now, fetch, marshal, save)
      + LineOf(AttemptOf(sources[i], i, now(i), fetch, marshal, save))
  }

  /** RefreshSpace.  Failures are logged and skipped; the service error is
      always nil. */
  method RefreshSpace(sources: seq<string>, now: nat -> Instant,
                      fetch: Fetcher,
                      marshal: Encoder,
                      save: Saver)
    returns (refreshed: seq<string>, err: Option<ServiceError>, log: seq<string>)
    ensures refreshed == RefreshedNames(sources, now, fetch, marshal, save)
    ensures log == LogLines(sources, now, fetch, marshal, save)
    ensures err == None
  {
    refreshed, log := [], [];
    for i := 0 to |sources|
      invariant refreshed == RefreshedNames(sources[..i], now, fetch, marshal, save)
      invariant log == LogLines(sources[..i], now, fetch, marshal, save)
    {
      assert sources[..i + 1][..i] == sources[..i];
      ghost var expected := AttemptOf(sources[i], i, now(i), fetch, marshal, save);
      var source := Normalise(sources[i]);
      var feed := FeedFor(source);
      if feed.None? {
        continue;
      }
      var jsonData := fetch(i, feed.value);
      if jsonData.Err? {
        log := log + [FailureLine("fetching", source, jsonData.error)];
        continue;
      }
      var payloadJson := marshal(i, jsonData.value);
      if payloadJson.Err? {
        log := log + [FailureLine("marshalling JSON from", source, payloadJson.error)];
        continue;
      }
      var entity := SpaceCache(0, source, now(i), payloadJson.value);
      var saveErr := save(i, entity);
      if saveErr.Some? {
        log := log + [FailureLine("saving from", source, saveErr.value)];
        continue;
      }
      refreshed := refreshed + [source];
    }
    assert sources[..|sources|] == sources;
    err := None;
  }

  /** Every name in `names` selects a feed. */
  predicate AllKnown(names: seq<string>)
  {
    forall j :: 0 <= j < |names| ==> FeedFor(names[j]).Some?
  }

  lemma {:induction false} AllKnownAppend(a: seq<string>, b: seq<string>)
    requires AllKnown(a) && AllKnown(b)
    ensures AllKnown(a + b)
  {
    forall j | 0 <= j < |a + b|
      ensures FeedFor((a + b)[j]).Some?
    {
      if j < |a| {
        assert (a + b)[j] == a[j];
      } else {
        assert (a + b)[j] == b[j - |a|];
      }
    }
  }

  /** A pass refreshes at most one name, and only a known one. */
  lemma {:induction false} AttemptKnown(raw: string, pos: nat, at: Instant,
                     fetch: Fetcher,
                     marshal: Encoder,
                     save: Saver)
    ensures AllKnown(NameOf(AttemptOf(raw, pos, at, fetch, marshal, save)))
    ensures |NameOf(AttemptOf(raw, pos, at, fetch, marshal, save))| + |LineOf(AttemptOf(raw, pos, at, fetch, marshal, save))| <= 1
  {
  }

  /** Every refreshed name is a known source name, and the refreshed
      names and log lines together never outnumber the requests: a pass
      produces a refreshed name or a log line, not both. */
  lemma {:induction false} RefreshedAreKnown(sources: seq<string>, now: nat -> Instant,
                                             fetch: Fetcher,
                                             marshal: Encoder,
                                             save: Saver)
    ensures AllKnown(RefreshedNames(sources, now, fetch, marshal, save))
    ensures |RefreshedNames(sources, now, fetch, marshal, save)| + |LogLines(sources, now, fetch, marshal, save)|
            <= |sources|
  {
    if |sources| > 0 {
      var i := |sources| - 1;
      RefreshedAreKnown(sources[..i], now, fetch, marshal, save);
      AttemptKnown(sources[i], i, now(i), fetch, marshal, save);
      AllKnownAppend(RefreshedNames(sources[..i], now, fetch, marshal, save),
                     NameOf(AttemptOf(sources[i], i, now(i), fetch, marshal, save)));
    }
  }

  /** When every upstream call, every encoding and every save succeeds,
      nothing is logged and the refreshed list is the normalised known
      names in request order. */
  lemma {:induction false} AllSucceed(sources: seq<string>, now: nat -> Instant,
                                      fetch: Fetcher,
                                      marshal: Encoder,
                                      save: Saver)
    requires forall k, f :: fetch(k, f).Ok? && marshal(k, fetch(k, f).value).Ok?
    requires forall k, c :: save(k, c).None?
    ensures LogLines(sources, now, fetch, marshal, save) == []
    ensures RefreshedNames(sources, now, fetch, marshal, save) == KnownNames(sources)
  {
    if |sources| > 0 {
      var i := |sources| - 1;
      AllSucceed(sources[..i], now, fetch, marshal, save);
    }
  }

  /** Each request is fetched on its own: when "apod" is requested twice,
      a first fetch that fails does not stop the second from refreshing it. */
  lemma {:induction false} RepeatedSourceFetchedTwice(now: nat -> Instant,
                                                      fetch: Fetcher,
                                                      marshal: Encoder,
                                                      save: Saver)
    requires fetch(0, Apod).Err?
    requires fetch(1, Apod).Ok? && marshal(1, fetch(1, Apod).value).Ok?
    requires save(1, SpaceCache(0, "apod", now(1), marshal(1, fetch(1, Apod).value).value)).None?
    ensures RefreshedNames(["apod", "apod"], now, fetch, marshal, save) == ["apod"]
    ensures LogLines(["apod", "apod"], now, fetch, marshal, save)
            == [FailureLine("fetching", "apod", fetch(0, Apod).error)]
  {
    NormalisedName("apod");
    var first := AttemptOf("apod", 0, now(0), fetch, marshal, save);
    var second := AttemptOf("apod", 1, now(1), fetch, marshal, save);
    assert first == Logged(FailureLine("fetching", "apod", fetch(0, Apod).error));
    assert second == Refreshed("apod");
    var sources := ["apod", "apod"];
    assert sources[..1] == ["apod"];
    assert ["apod"][..0] == [];
    assert RefreshedNames(["apod"], now, fetch, marshal, save) == NameOf(first) == [];
    assert LogLines(["apod"], now, fetch, marshal, save) == LineOf(first);
  }

  /** The normalised names among `sources` that select a feed, in order. */
  function KnownNames(sources: seq<string>): (r: seq<string>)
    ensures |r| <= |sources|
  {
    if |sources| == 0 then []
    else
      var i := |sources| - 1;
      KnownNames(sources[..i]) + (if FeedFor(Normalise(sources[i])).Some? then [Normalise(sources[i])] else [])
  }

  /** Every requested source, normalised, in request order. */
  function NormalisedAll(sources: seq<string>): (r: seq<string>)
    ensures |r| == |sources|
    ensures forall i :: 0 <= i < |sources| ==> r[i] == Normalise(sources[i])
  {
    if |sources| == 0 then [] else NormalisedAll(sources[..|sources| - 1]) + [Normalise(sources[|sources| - 1])]
  }

  /** `a` is `b` with some elements left out, the rest kept in order. */
  predicate IsSubsequence(a: seq<string>, b: seq<string>)
  {
    |a| == 0
    || (|b| > 0 &&
        ((a[|a| - 1] == b[|b| - 1] && IsSubsequence(a[..|a| - 1], b[..|b| - 1]))
         || IsSubsequence(a, b[..|b| - 1])))
  }

  /** The refreshed names are the normalised requests with some left out,
      in request order. */
  lemma {:induction false} RefreshedIsSubsequence(sources: seq<string>, now: nat -> Instant,
                                                  fetch: Fetcher,
                                                  marshal: Encoder,
                                                  save: Saver)
    ensures IsSubsequence(RefreshedNames(sources, now, fetch, marshal, save), NormalisedAll(sources))
  {
    if |sources| > 0 {
      var i := |sources| - 1;
      var before := RefreshedNames(sources[..i], now, fetch, marshal, save);
      RefreshedIsSubsequence(sources[..i], now, fetch, marshal, save);
      var b := NormalisedAll(sources);
      assert b[..i] == NormalisedAll(sources[..i]);
      var a := RefreshedNames(sources, now, fetch, marshal, save);
      if AttemptOf(sources[i], i, now(i), fetch, marshal, save).Refreshed? {
        assert a == before + [Normalise(sources[i])];
        assert a[..|a| - 1] == before;
      } else {
        assert a == before;
      }
    }
  }

  /** A name of lower-case letters is already normalised. */
  lemma {:induction false} NormalisedName(name: string)
    requires forall i :: 0 <= i < |name| ==> 'a' <= name[i] <= 'z'
    ensures Normalise(name) == name
  {
    assert ToLower(name) == name;
    NoSurroundingSpace(name);
  }

  /** Names that are known and already normalised are all kept. */
  lemma {:induction false} KnownNamesOfNormalised(names: seq<string>)
    requires forall i :: 0 <= i < |names| ==> FeedFor(names[i]).Some? && Normalise(names[i]) == names[i]
    ensures KnownNames(names) == names
  {
    if |names| > 0 {
      KnownNamesOfNormalised(names[..|names| - 1]);
    }
  }

  /** The five feed names are normalised and known. */
  lemma {:induction false} FeedNamesNormalised()
    ensures var names := ["apod", "neo", "flr", "cme", "spacex"];
      forall i :: 0 <= i < |names| ==> FeedFor(names[i]).Some? && Normalise(names[i]) == names[i]
  {
    NormalisedName("apod");
    NormalisedName("neo");
    NormalisedName("flr");
    NormalisedName("cme");
    NormalisedName("spacex");
  }

  /** The handler's default request (an empty `src`) selects every feed,
      so when every call succeeds it refreshes all five sources. */
  lemma {:induction false} DefaultRequestRefreshesAll(now: nat -> Instant,
                                   fetch: Fetcher,
                                   marshal: Encoder,
                                   save: Saver)
    requires forall k, f :: fetch(k, f).Ok? && marshal(k, fetch(k, f).value).Ok?
    requires forall k, c :: save(k, c).None?
    ensures RefreshedNames(SourcesOf(""), now, fetch, marshal, save) == ["apod", "neo", "flr", "cme", "spacex"]
  {
    var names := ["apod", "neo", "flr", "cme", "spacex"];
    FeedNamesNormalised();
    KnownNamesOfNormalised(names);
    DefaultRequest();
    AllSucceed(names, now, fetch, marshal, save);
  }
}
