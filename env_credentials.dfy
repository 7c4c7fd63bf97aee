/**
 * addEnvVarsToCredentials: copies the credentials found in environment
 * variables into a nested credentials object, provider by provider,
 * without overwriting any credential that was supplied explicitly.
 */
module EnvCredentials {
  import opened Common

  /**
   * Credentials as provider -> SDK key -> value. A provider or key that is
   * absent stands for a missing (or falsy) JavaScript property.
   */
  type CredentialMap = map<string, map<string, string>>

  /** One provider's entry of the table: each environment variable name with the SDK key it feeds. */
  datatype ProviderVars = ProviderVars(provider: string, vars: seq<(string, string)>)

  const Aws := "aws"

  const AwsVars: seq<(string, string)> := [
    ("AWS_ACCESS_KEY_ID", "accessKeyId"),
    ("AWS_SECRET_ACCESS_KEY", "secretAccessKey"),
    ("AWS_SESSION_TOKEN", "sessionToken")
  ]

  /** The known provider environment variables, in declaration order. */
  const Providers: seq<ProviderVars> := [ProviderVars(Aws, AwsVars)]

  /** The value at `credentials[provider][key]`, if any. */
  function Lookup(c: CredentialMap, provider: string, key: string): Option<string> {
    if provider in c && key in c[provider] then Some(c[provider][key]) else None
  }

  /** No two environment variables of one provider feed the same SDK key. */
  predicate DistinctKeys(vars: seq<(string, string)>) {
    forall i, j :: 0 <= i < j < |vars| ==> vars[i].1 != vars[j].1
  }

  predicate IsTarget(vars: seq<(string, string)>, key: string) {
    exists i :: 0 <= i < |vars| && vars[i].1 == key
  }

  /** Whether any of `vars` is set in the environment (with any value, even empty). */
  predicate AnySet(vars: seq<(string, string)>, env: map<string, string>) {
    exists i :: 0 <= i < |vars| && vars[i].0 in env
  }

  /**
   * The value a key fed by `envVar` ends with: a truthy credential is kept,
   * otherwise a variable present in the environment is copied verbatim.
   */
  function FieldAfter(c: CredentialMap, env: map<string, string>, provider: string, v: (string, string)): Option<string> {
    var current := Lookup(c, provider, v.1);
    if Truthy(current) || v.0 !in env then current else Some(env[v.0])
  }

  /**
   * One iteration of the inner loop: it changes at most the key its variable
   * feeds, and creates the provider's entry only when the variable is set.
   */
  function ApplyVar(c: CredentialMap, env: map<string, string>, provider: string, v: (string, string)): (r: CredentialMap)
    ensures forall q :: q != provider ==> (q in r <==> q in c) && (q in r ==> r[q] == c[q])
    ensures provider in r <==> provider in c || v.0 in env
    ensures forall k :: k != v.1 ==> Lookup(r, provider, k) == Lookup(c, provider, k)
    ensures Lookup(r, provider, v.1) == FieldAfter(c, env, provider, v)
  {
    if v.0 !in env then c
    else
      var inner := if provider in c then c[provider] else map[];
      if v.1 in inner && inner[v.1] != "" then c[provider := inner]
      else c[provider := inner[v.1 := env[v.0]]]
  }

  /**
   * The inner loop over one provider's variables, applied in order. Its
   * contract describes the outcome key by key.
   */
  function ApplyVars(c: CredentialMap, env: map<string, string>, provider: string, vars: seq<(string, string)>): CredentialMap
    decreases |vars|
  {
    if vars == [] then c
    else ApplyVar(ApplyVars(c, env, provider, vars[..|vars| - 1]), env, provider, vars[|vars| - 1])
  }

  /**
   * What the inner loop leaves behind, key by key: other providers are
   * untouched, the provider's entry exists when it did or some variable is
   * set, keys no variable feeds keep their value, and each fed key ends as
   * FieldAfter says.
   */
  lemma {:induction false} ApplyVarsOutcome(c: CredentialMap, env: map<string, string>, provider: string, vars: seq<(string, string)>)
    requires DistinctKeys(vars)
    ensures var r := ApplyVars(c, env, provider, vars);
      && (forall q :: q != provider ==> (q in r <==> q in c) && (q in r ==> r[q] == c[q]))
      && (provider in r <==> provider in c || AnySet(vars, env))
      && (forall k :: !IsTarget(vars, k) ==> Lookup(r, provider, k) == Lookup(c, provider, k))
      && (forall i :: 0 <= i < |vars| ==> Lookup(r, provider, vars[i].1) == FieldAfter(c, env, provider, vars[i]))
    decreases |vars|
  {
    if vars != [] {
      var init := vars[..|vars| - 1];
      var last := vars[|vars| - 1];
      var mid := ApplyVars(c, env, provider, init);
      var r := ApplyVars(c, env, provider, vars);
      assert r == ApplyVar(mid, env, provider, last);
      assert DistinctKeys(init) by {
        assert forall i :: 0 <= i < |init| ==> init[i] == vars[i];
      }
      ApplyVarsOutcome(c, env, provider, init);
      assert !IsTarget(init, last.1);
      assert AnySet(vars, env) <==> AnySet(init, env) || last.0 in env by {
        assert forall i :: 0 <= i < |init| ==> init[i] == vars[i];
      }
      forall i | 0 <= i < |vars|
        ensures Lookup(r, provider, vars[i].1) == FieldAfter(c, env, provider, vars[i])
      {
        if i < |init| {
          assert init[i] == vars[i];
        }
      }
    }
  }

  /** The outer loop over the providers table. */
  function ApplyTable(c: CredentialMap, env: map<string, string>, table: seq<ProviderVars>): CredentialMap
  {
    if table == [] then c
    else
      var last := table[|table| - 1];
      ApplyVars(ApplyTable(c, env, table[..|table| - 1]), env, last.provider, last.vars)
  }

  /**
   * The credentials addEnvVarsToCredentials leaves behind: no truthy
   * credential is overwritten and providers other than `aws` are untouched.
   */
  function Merge(c: CredentialMap, env: map<string, string>): (r: CredentialMap)
    ensures forall provider, key :: Truthy(Lookup(c, provider, key)) ==> Lookup(r, provider, key) == Lookup(c, provider, key)
    ensures forall q :: q != Aws ==> (q in r <==> q in c) && (q in r ==> r[q] == c[q])
  {
    assert Providers[..0] == [];
    assert ApplyTable(c, env, Providers[..0]) == c;
    ApplyVarsOutcome(c, env, Aws, AwsVars);
    var r := ApplyTable(c, env, Providers);
    assert r == ApplyVars(c, env, Aws, AwsVars);
    assert forall provider, key :: Truthy(Lookup(c, provider, key)) ==> Lookup(r, provider, key) == Lookup(c, provider, key) by {
      forall provider, key | Truthy(Lookup(c, provider, key))
        ensures Lookup(r, provider, key) == Lookup(c, provider, key)
      {
        if provider == Aws && IsTarget(AwsVars, key) {
          var i :| 0 <= i < |AwsVars| && AwsVars[i].1 == key;
          assert Lookup(r, Aws, AwsVars[i].1) == FieldAfter(c, env, Aws, AwsVars[i]);
        }
      }
    }
    r
  }

  /** With the one-provider table, the merge is the inner loop over the AWS variables; its outcome follows. */
  lemma MergeIsAws(c: CredentialMap, env: map<string, string>)
    ensures Merge(c, env) == ApplyVars(c, env, Aws, AwsVars)
    ensures var r := Merge(c, env);
      && (forall q :: q != Aws ==> (q in r <==> q in c) && (q in r ==> r[q] == c[q]))
      && (Aws in r <==> Aws in c || AnySet(AwsVars, env))
      && (forall k :: !IsTarget(AwsVars, k) ==> Lookup(r, Aws, k) == Lookup(c, Aws, k))
      && (forall i :: 0 <= i < |AwsVars| ==> Lookup(r, Aws, AwsVars[i].1) == FieldAfter(c, env, Aws, AwsVars[i]))
  {
    assert Providers[..0] == [];
    assert ApplyTable(c, env, Providers[..0]) == c;
    ApplyVarsOutcome(c, env, Aws, AwsVars);
  }

  lemma ApplyVarsStep(c: CredentialMap, env: map<string, string>, provider: string, vars: seq<(string, string)>, j: nat)
    requires j < |vars|
    ensures ApplyVars(c, env, provider, vars[..j + 1]) == ApplyVar(ApplyVars(c, env, provider, vars[..j]), env, provider, vars[j])
  {
    assert vars[..j + 1][..j] == vars[..j];
  }

  lemma ApplyTableStep(c: CredentialMap, env: map<string, string>, table: seq<ProviderVars>, i: nat)
    requires i < |table|
    ensures ApplyTable(c, env, table[..i + 1]) == ApplyVars(ApplyTable(c, env, table[..i]), env, table[i].provider, table[i].vars)
  {
    assert table[..i + 1][..i] == table[..i];
  }

  /** A credentials object, updated in place. */
  class Credentials {
    var entries: CredentialMap

    constructor (entries: CredentialMap)
      ensures this.entries == entries
    {
      this.entries := entries;
    }
  }

  /**
   * The inner loop of addEnvVarsToCredentials for one provider: each
   * variable set in the environment creates the provider's entry if it is
   * missing and fills its key unless that key already holds a truthy value.
   */
  method AddProviderVars(r: Credentials, envVars: map<string, string>, provider: string, vars: seq<(string, string)>)
    modifies r
    ensures r.entries == ApplyVars(old(r.entries), envVars, provider, vars)
  {
    ghost var before := r.entries;
    var j := 0;
    while j < |vars|
      invariant 0 <= j <= |vars|
      invariant r.entries == ApplyVars(before, envVars, provider, vars[..j])
    {
      var (envVar, key) := vars[j];
      ghost var prior := r.entries;
      if envVar in envVars {
        if provider !in r.entries {
          r.entries := r.entries[provider := map[]];
        }
        if !(key in r.entries[provider] && r.entries[provider][key] != "") {
          r.entries := r.entries[provider := r.entries[provider][key := envVars[envVar]]];
        }
      }
      assert r.entries == ApplyVar(prior, envVars, provider, vars[j]);
      ApplyVarsStep(before, envVars, provider, vars, j);
      j := j + 1;
    }
    assert vars[..j] == vars;
  }

  /**
   * addEnvVarsToCredentials: fills the given credentials object in place
   * (or a fresh one when none is given) and returns it.
   */
  method AddEnvVarsToCredentials(envVars: map<string, string>, credentials: Credentials?) returns (r: Credentials)
    modifies credentials
    ensures credentials != null ==> r == credentials && r.entries == Merge(old(credentials.entries), envVars)
    ensures credentials == null ==> fresh(r) && r.entries == Merge(map[], envVars)
  {
    if credentials == null {
      r := new Credentials(map[]);
    } else {
      r := credentials;
    }
    ghost var start := r.entries;
    var i := 0;
    while i < |Providers|
      invariant 0 <= i <= |Providers|
      invariant r.entries == ApplyTable(start, envVars, Providers[..i])
    {
      AddProviderVars(r, envVars, Providers[i].provider, Providers[i].vars);
      ApplyTableStep(start, envVars, Providers, i);
      i := i + 1;
    }
    assert Providers[..i] == Providers;
  }


  // ---------------------------------------------------------------------
  // Properties of the merge
  // ---------------------------------------------------------------------

  /**
   * Each recognised variable that is present is copied verbatim (even when
   * empty) into a credential that is missing or falsy.
   */
  lemma CopiesRecognisedVariable(c: CredentialMap, env: map<string, string>, i: nat)
    requires i < |AwsVars|
    requires AwsVars[i].0 in env && !Truthy(Lookup(c, Aws, AwsVars[i].1))
    ensures Lookup(Merge(c, env), Aws, AwsVars[i].1) == Some(env[AwsVars[i].0])
  {
    MergeIsAws(c, env);
  }

  /**
   * Nothing else changes: other providers' entries, keys under `aws` that no
   * variable feeds, and every recognised key whose variable is absent.
   */
  lemma MergeFrame(c: CredentialMap, env: map<string, string>)
    ensures var r := Merge(c, env);
      && (forall q :: q != Aws ==> (q in r <==> q in c) && (q in r ==> r[q] == c[q]))
      && (forall k :: !IsTarget(AwsVars, k) ==> Lookup(r, Aws, k) == Lookup(c, Aws, k))
      && (forall i :: 0 <= i < |AwsVars| && AwsVars[i].0 !in env ==> Lookup(r, Aws, AwsVars[i].1) == Lookup(c, Aws, AwsVars[i].1))
  {
    MergeIsAws(c, env);
  }

  /** `credentials.aws` exists afterwards exactly when it existed before or a recognised variable is present. */
  lemma AwsEntryCreatedOnlyWhenNeeded(c: CredentialMap, env: map<string, string>)
    ensures Aws in Merge(c, env) <==> Aws in c || AnySet(AwsVars, env)
  {
    MergeIsAws(c, env);
  }

  /** Only the three recognised variables matter: every other variable is ignored. */
  lemma OnlyRecognisedVariablesMatter(c: CredentialMap, env: map<string, string>, other: map<string, string>)
    requires forall i :: 0 <= i < |AwsVars| ==> (AwsVars[i].0 in env <==> AwsVars[i].0 in other)
    requires forall i :: 0 <= i < |AwsVars| && AwsVars[i].0 in env ==> env[AwsVars[i].0] == other[AwsVars[i].0]
    ensures Merge(c, env) == Merge(c, other)
  {
    MergeIsAws(c, env);
    MergeIsAws(c, other);
    var r1, r2 := Merge(c, env), Merge(c, other);
    assert AnySet(AwsVars, env) <==> AnySet(AwsVars, other) by {
      if AnySet(AwsVars, env) {
        var i :| 0 <= i < |AwsVars| && AwsVars[i].0 in env;
        assert AwsVars[i].0 in other;
      }
      if AnySet(AwsVars, other) {
        var i :| 0 <= i < |AwsVars| && AwsVars[i].0 in other;
        assert AwsVars[i].0 in env;
      }
    }
    SameLookups(r1, r2, Aws);
  }

  /** Applying the merge a second time with the same variables changes nothing. */
  lemma {:induction false} MergeIdempotent(c: CredentialMap, env: map<string, string>)
    ensures Merge(Merge(c, env), env) == Merge(c, env)
  {
    var r1 := Merge(c, env);
    var r2 := Merge(r1, env);
    MergeIsAws(c, env);
    MergeIsAws(r1, env);
    forall i | 0 <= i < |AwsVars|
      ensures Lookup(r2, Aws, AwsVars[i].1) == Lookup(r1, Aws, AwsVars[i].1)
    {
      assert Lookup(r2, Aws, AwsVars[i].1) == FieldAfter(r1, env, Aws, AwsVars[i]);
      assert Lookup(r1, Aws, AwsVars[i].1) == FieldAfter(c, env, Aws, AwsVars[i]);
    }
    SameLookups(r2, r1, Aws);
  }

  /**
   * Two results that agree on the other providers, on whether `provider` is
   * present, and on every key under `provider` are equal.
   */
  lemma SameLookups(r1: CredentialMap, r2: CredentialMap, provider: string)
    requires forall q :: q != provider ==> (q in r1 <==> q in r2) && (q in r1 ==> r1[q] == r2[q])
    requires provider in r1 <==> provider in r2
    requires forall k :: !IsTarget(AwsVars, k) ==> Lookup(r1, provider, k) == Lookup(r2, provider, k)
    requires forall i :: 0 <= i < |AwsVars| ==> Lookup(r1, provider, AwsVars[i].1) == Lookup(r2, provider, AwsVars[i].1)
    ensures r1 == r2
  {
    if provider in r1 {
      var m1, m2 := r1[provider], r2[provider];
      forall k | k in m1 || k in m2
        ensures k in m1 && k in m2 && m1[k] == m2[k]
      {
        if IsTarget(AwsVars, k) {
          var i :| 0 <= i < |AwsVars| && AwsVars[i].1 == k;
          assert Lookup(r1, provider, AwsVars[i].1) == Lookup(r2, provider, AwsVars[i].1);
        } else {
          assert Lookup(r1, provider, k) == Lookup(r2, provider, k);
        }
      }
      assert m1 == m2;
    }
    assert r1.Keys == r2.Keys;
  }
}
