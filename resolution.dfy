/** Variable resolution: Converter.replace_variables (convert.py:76-85). */
module Resolution {
  import opened Outcomes

  /** The `variables` table of the configuration: environment -> key -> override. */
  type Table = map<string, map<string, string>>

  /** Python's str.startswith. */
  predicate StartsWith(s: string, prefix: string) {
    |prefix| <= |s| && s[..|prefix|] == prefix
  }

  /** Python's str.endswith. */
  predicate EndsWith(s: string, suffix: string) {
    |suffix| <= |s| && s[|s| - |suffix|..] == suffix
  }

  /** Python's normalisation of one slice bound: a negative bound counts from
      the end, and the result is clamped to 0..n. */
  function SliceBound(i: int, n: nat): (b: nat)
    ensures b <= n
    ensures 0 <= i <= n ==> b == i
    ensures 0 <= n + i && i < 0 ==> b == n + i
    ensures n + i < 0 ==> b == 0
    ensures i > n ==> b == n
  {
    if i < 0 then (if i + n < 0 then 0 else i + n)
    else if i > n then n
    else i
  }

  /** Python's s[start:stop]: empty when the normalised start is not before the
      normalised stop. */
  function Slice(s: string, start: int, stop: int): (r: string)
    ensures |r| <= |s|
  {
    var lo, hi := SliceBound(start, |s|), SliceBound(stop, |s|);
    if lo < hi then s[lo..hi] else []
  }

  /** The indirection test: starts with "#$" and ends with "$#". The two ends
      may share the middle character, so "#$#" is a marker. */
  predicate IsMarker(s: string) {
    StartsWith(s, "#$") && EndsWith(s, "$#")
  }

  /** The environment a marker names: value[2:-2]. */
  function MarkerTarget(s: string): string {
    Slice(s, 2, -2)
  }

  /** The marker that refers to environment `env`. */
  function Marker(env: string): string {
    "#$" + env + "$#"
  }

  /** replace_variables: the raw value when the table has no override for
      (env, key); the override when it is a literal; otherwise the entry for
      the same key under the environment the marker names, looked up once. */
  function Resolve(key: string, value: string, env: string, table: Table): (r: Result<string>)
    ensures r.Err? ==> env in table && key in table[env] && IsMarker(table[env][key])
    ensures r.Err? ==> (r.error == MissingEnvironment(MarkerTarget(table[env][key]))
                        || r.error == MissingKey(MarkerTarget(table[env][key]), key))
  {
    if env in table && key in table[env] then
      var o := table[env][key];
      if IsMarker(o) then
        var x := MarkerTarget(o);
        if x !in table then Err(MissingEnvironment(x))
        else if key !in table[x] then Err(MissingKey(x, key))
        else Ok(table[x][key])
      else Ok(o)
    else Ok(value)
  }

  /** Every marker is at least three characters long; one of length four or
      more is exactly Marker(MarkerTarget(s)), and the only shorter one is
      "#$#", whose target is the empty name. */
  lemma MarkerShape(s: string)
    requires IsMarker(s)
    ensures |s| >= 3
    ensures |s| >= 4 ==> s == Marker(MarkerTarget(s))
    ensures |s| == 3 ==> s == "#$#" && MarkerTarget(s) == ""
  {
    assert s[..2] == "#$" && s[|s| - 2..] == "$#";
    assert s[0] == '#' && s[1] == '$';
    assert s[|s| - 2] == '$' && s[|s| - 1] == '#';
    if |s| >= 4 {
      assert MarkerTarget(s) == s[2..|s| - 2];
      assert s == s[..2] + s[2..|s| - 2] + s[|s| - 2..];
    }
    if |s| == 3 {
      assert s == [s[0], s[1], s[2]];
    }
  }

  /** Marker and MarkerTarget are inverse: the name put into a marker is the
      name extracted from it. */
  lemma MarkerRoundTrip(env: string)
    ensures IsMarker(Marker(env))
    ensures MarkerTarget(Marker(env)) == env
  {
    var m := Marker(env);
    assert m[..2] == "#$";
    assert m[|m| - 2..] == "$#";
    assert m[2..|m| - 2] == env;
  }

  /** Without an override for (env, key) the raw value comes back unchanged. */
  lemma ResolveWithoutOverride(key: string, value: string, env: string, table: Table)
    requires env !in table || key !in table[env]
    ensures Resolve(key, value, env, table) == Ok(value)
  {
  }

  /** With an empty table nothing is ever overridden. */
  lemma ResolveEmptyTable(key: string, value: string, env: string)
    ensures Resolve(key, value, env, map[]) == Ok(value)
  {
  }

  /** A literal override wins, whatever the raw value was. */
  lemma ResolveLiteral(key: string, value1: string, value2: string, env: string, table: Table)
    requires env in table && key in table[env]
    requires !IsMarker(table[env][key])
    ensures Resolve(key, value1, env, table) == Ok(table[env][key])
    ensures Resolve(key, value2, env, table) == Ok(table[env][key])
  {
  }

  /** A marker is followed exactly once: the target entry is returned as it
      is, even when it is itself a marker, and the raw value plays no part. */
  lemma ResolveOneHop(key: string, value: string, env: string, table: Table)
    requires env in table && key in table[env] && IsMarker(table[env][key])
    requires MarkerTarget(table[env][key]) in table
    requires key in table[MarkerTarget(table[env][key])]
    ensures Resolve(key, value, env, table) == Ok(table[MarkerTarget(table[env][key])][key])
  {
  }

  /** A marker that names an absent environment, or an environment without the
      key, is an error naming what is missing. */
  lemma ResolveMissingTarget(key: string, value: string, env: string, table: Table)
    requires env in table && key in table[env] && IsMarker(table[env][key])
    ensures var x := MarkerTarget(table[env][key]);
      (x !in table ==> Resolve(key, value, env, table) == Err(MissingEnvironment(x)))
      && (x in table && key !in table[x] ==> Resolve(key, value, env, table) == Err(MissingKey(x, key)))
  {
  }

  /** The indirection as configured by hand: an override Marker(other) under
      env yields other's entry for the same key. */
  lemma ResolveThroughMarker(key: string, value: string, env: string, other: string, table: Table)
    requires env in table && key in table[env] && table[env][key] == Marker(other)
    requires other in table && key in table[other]
    ensures Resolve(key, value, env, table) == Ok(table[other][key])
  {
    MarkerRoundTrip(other);
  }

  /** The overlapping marker "#$#" refers to the environment named "". */
  lemma ResolveOverlappingMarker(key: string, value: string, env: string, table: Table)
    requires env in table && key in table[env] && table[env][key] == "#$#"
    ensures "" in table && key in table[""] ==> Resolve(key, value, env, table) == Ok(table[""][key])
    ensures "" !in table ==> Resolve(key, value, env, table) == Err(MissingEnvironment(""))
  {
    MarkerShape("#$#");
  }
}
