/** The refresh intervals, read from the environment with defaults. */
module Config {
  import opened Wrappers
  import opened GoErrors
  import opened Strconv

  /** The process environment; an unset variable reads as "". */
  type Env = map<string, string>

  function Getenv(env: Env, key: string): string
  {
    if key in env then env[key] else ""
  }

  /** envU64: the variable's value when it is a base-10 uint64, otherwise
      the default. */
  function EnvU64(env: Env, key: string, defaultValue: nat): (r: nat)
    ensures r == defaultValue || r < Uint64Bound
    ensures Getenv(env, key) == "" ==> r == defaultValue
    ensures Getenv(env, key) != "" && ParseUint64(Getenv(env, key)).Some? ==>
      r == ParseUint64(Getenv(env, key)).value
    ensures ParseUint64(Getenv(env, key)).None? ==> r == defaultValue
  {
    var value := Getenv(env, key);
    if value != "" && ParseUint64(value).Some? then ParseUint64(value).value else defaultValue
  }

  /** A value FormatUint renders is read back exactly. */
  lemma {:induction false} EnvU64RoundTrip(env: Env, key: string, defaultValue: nat, n: nat)
    requires n < Uint64Bound
    ensures EnvU64(env[key := FormatUint(n)], key, defaultValue) == n
  {
    ParseUintOfFormat(n);
  }

  /** Any decimal digit string below 2^64 is read as its value, leading
      zeros included ("0600" is 600). */
  lemma {:induction false} EnvU64Accepts(env: Env, key: string, defaultValue: nat)
    requires Getenv(env, key) != "" && AllDigits(Getenv(env, key))
    requires DecimalValue(Getenv(env, key)) < Uint64Bound
    ensures EnvU64(env, key, defaultValue) == DecimalValue(Getenv(env, key))
  {
    ParseUint64Accepts(Getenv(env, key));
  }

  /** A signed value, or one with any non-digit, falls back to the default;
      so does one at or beyond 2^64. */
  lemma {:induction false} EnvU64Rejects(env: Env, key: string, defaultValue: nat)
    requires Getenv(env, key) != ""
    requires !AllDigits(Getenv(env, key)) || DecimalValue(Getenv(env, key)) >= Uint64Bound
    ensures EnvU64(env, key, defaultValue) == defaultValue
  {
  }

  datatype RetryConfig = RetryConfig(
    everyOsdr: nat,
    everyIss: nat,
    everyApod: nat,
    everyNeo: nat,
    everyDonki: nat,
    everySpaceX: nat)

  const DefaultOsdr: nat := 600
  const DefaultIss: nat := 120
  const DefaultApod: nat := 43200
  const DefaultNeo: nat := 7200
  const DefaultDonki: nat := 3600
  const DefaultSpaceX: nat := 3600

  /** The retry intervals of SetupBackgroundConfig. */
  function Retry(env: Env): (r: RetryConfig)
    ensures r.everyOsdr == EnvU64(env, "FETCH_EVERY_SECONDS", DefaultOsdr)
    ensures r.everyIss == EnvU64(env, "ISS_EVERY_SECONDS", DefaultIss)
    ensures r.everyApod == EnvU64(env, "APOD_EVERY_SECONDS", DefaultApod)
    ensures r.everyNeo == EnvU64(env, "NEO_EVERY_SECONDS", DefaultNeo)
    ensures r.everyDonki == EnvU64(env, "DONKI_EVERY_SECONDS", DefaultDonki)
    ensures r.everySpaceX == EnvU64(env, "SPACEX_EVERY_SECONDS", DefaultSpaceX)
  {
    RetryConfig(
      EnvU64(env, "FETCH_EVERY_SECONDS", DefaultOsdr),
      EnvU64(env, "ISS_EVERY_SECONDS", DefaultIss),
      EnvU64(env, "APOD_EVERY_SECONDS", DefaultApod),
      EnvU64(env, "NEO_EVERY_SECONDS", DefaultNeo),
      EnvU64(env, "DONKI_EVERY_SECONDS", DefaultDonki),
      EnvU64(env, "SPACEX_EVERY_SECONDS", DefaultSpaceX))
  }

  /** SetupBackgroundConfig, reduced to its intervals; it never fails. */
  function SetupBackgroundConfig(env: Env): (r: Result<RetryConfig, GoError>)
    ensures r.Ok? && r.value == Retry(env)
    ensures var c := r.value;
      c.everyOsdr < Uint64Bound && c.everyIss < Uint64Bound && c.everyApod < Uint64Bound
      && c.everyNeo < Uint64Bound && c.everyDonki < Uint64Bound && c.everySpaceX < Uint64Bound
  {
    Ok(Retry(env))
  }

  /** With nothing set, the intervals are 600, 120, 43200, 7200, 3600 and
      3600 seconds; every interval is a uint64. */
  lemma {:induction false} DefaultIntervals(env: Env)
    ensures Retry(map[]) == RetryConfig(600, 120, 43200, 7200, 3600, 3600)
    ensures var c := Retry(env);
      c.everyOsdr < Uint64Bound && c.everyIss < Uint64Bound && c.everyApod < Uint64Bound
      && c.everyNeo < Uint64Bound && c.everyDonki < Uint64Bound && c.everySpaceX < Uint64Bound
  {
  }
}
