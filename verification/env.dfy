/**
  Start-up validation of the process environment: required variables must
  be set, optional ones get defaults, weak secrets draw warnings, and a
  production start with the placeholder secrets is refused.
 */
module EnvCheck {
  import opened Wrappers

  type Env = map<string, string>

  const RequiredVars: seq<string> := ["MONGO_URI", "JWT_SECRET", "ADMIN_KEY"]

  /** Optional variables with their defaults, in declaration order. */
  const OptionalVars: seq<(string, string)> :=
    [("PORT", "3001"), ("FRONTEND_URL", "http://localhost:5173"), ("NODE_ENV", "development")]

  const MinSecretLength := 32
  const MinAdminKeyLength := 8
  const SecretWarning := "JWT_SECRET should be at least 32 characters long for security"
  const AdminKeyWarning := "ADMIN_KEY should be at least 8 characters long for security"
  const PlaceholderSecret := "your-secret-key"
  const PlaceholderAdminKey := "default-admin-key"

  /** `process.env[k]` is truthy: present and not empty. */
  predicate IsSet(env: Env, k: string) {
    k in env && env[k] != ""
  }

  function Lookup(env: Env, k: string): Option<string> {
    if k in env then Some(env[k]) else None
  }

  /** The required variables among `vars` that are not set, in order. */
  function Missing(env: Env, vars: seq<string>): (r: seq<string>)
    ensures forall v :: v in r <==> v in vars && !IsSet(env, v)
    ensures |r| <= |vars|
  {
    if |vars| == 0 then []
    else
      var v := vars[|vars| - 1];
      Missing(env, vars[..|vars| - 1]) + (if IsSet(env, v) then [] else [v])
  }

  /** The warning, if any, for one set variable. */
  function WarningFor(env: Env, v: string): (r: seq<string>)
    ensures |r| <= 1
    ensures r == [] || r == [SecretWarning] || r == [AdminKeyWarning]
    ensures v != "JWT_SECRET" && v != "ADMIN_KEY" ==> r == []
  {
    if !IsSet(env, v) then []
    else if v == "JWT_SECRET" && |env[v]| < MinSecretLength then [SecretWarning]
    else if v == "ADMIN_KEY" && |env[v]| < MinAdminKeyLength then [AdminKeyWarning]
    else []
  }

  function Warnings(env: Env, vars: seq<string>): (r: seq<string>)
    ensures |r| <= |vars|
    ensures forall i :: 0 <= i < |r| ==> r[i] == SecretWarning || r[i] == AdminKeyWarning
    ensures "JWT_SECRET" !in vars && "ADMIN_KEY" !in vars ==> r == []
  {
    if |vars| == 0 then []
    else Warnings(env, vars[..|vars| - 1]) + WarningFor(env, vars[|vars| - 1])
  }

  /** Give `k` the value `d` unless it is already set. */
  function SetDefault(env: Env, kd: (string, string)): Env {
    if IsSet(env, kd.0) then env else env[kd.0 := kd.1]
  }

  function ApplyDefaults(env: Env, ds: seq<(string, string)>): Env {
    if |ds| == 0 then env else SetDefault(ApplyDefaults(env, ds[..|ds| - 1]), ds[|ds| - 1])
  }

  predicate DistinctKeys(ds: seq<(string, string)>) {
    forall i, j :: 0 <= i < j < |ds| ==> ds[i].0 != ds[j].0
  }

  predicate IsKey(ds: seq<(string, string)>, k: string) {
    exists i :: 0 <= i < |ds| && ds[i].0 == k
  }

  /** Applying distinct defaults: nothing is removed, and a name becomes
      present exactly when it was or is defaulted. */
  lemma {:induction false} ApplyDefaultsKeys(env: Env, ds: seq<(string, string)>)
    ensures forall k :: k in ApplyDefaults(env, ds) <==> k in env || IsKey(ds, k)
  {
    if |ds| > 0 {
      var front := ds[..|ds| - 1];
      ApplyDefaultsKeys(env, front);
      forall k ensures IsKey(ds, k) <==> IsKey(front, k) || ds[|ds| - 1].0 == k {
        if IsKey(front, k) {
          var i :| 0 <= i < |front| && front[i].0 == k;
          assert ds[i].0 == k;
        }
        if IsKey(ds, k) && ds[|ds| - 1].0 != k {
          var i :| 0 <= i < |ds| && ds[i].0 == k;
          assert front[i].0 == k;
        }
      }
    }
  }

  /** A name that no default mentions keeps its value. */
  lemma {:induction false} ApplyDefaultsUntouched(env: Env, ds: seq<(string, string)>, k: string)
    requires k in env && !IsKey(ds, k)
    ensures k in ApplyDefaults(env, ds) && ApplyDefaults(env, ds)[k] == env[k]
  {
    if |ds| > 0 {
      var front := ds[..|ds| - 1];
      assert !IsKey(front, k);
      assert ds[|ds| - 1].0 != k;
      ApplyDefaultsUntouched(env, front, k);
    }
  }

  /** A defaulted name keeps a value that was set and otherwise gets its
      default. */
  lemma {:induction false} ApplyDefaultsDefaulted(env: Env, ds: seq<(string, string)>, i: nat)
    requires DistinctKeys(ds) && i < |ds|
    ensures var r := ApplyDefaults(env, ds);
      ds[i].0 in r && r[ds[i].0] == if IsSet(env, ds[i].0) then env[ds[i].0] else ds[i].1
  {
    var front := ds[..|ds| - 1];
    var k := ds[i].0;
    assert !IsKey(front, ds[|ds| - 1].0);
    ApplyDefaultsKeys(env, front);
    if i == |ds| - 1 {
      if k in env {
        ApplyDefaultsUntouched(env, front, k);
      }
    } else {
      assert DistinctKeys(front);
      assert front[i] == ds[i];
      ApplyDefaultsDefaulted(env, front, i);
    }
  }

  /** The optional names are distinct and none of them is required. */
  lemma OptionalVarsFacts()
    ensures DistinctKeys(OptionalVars)
    ensures forall v :: v in RequiredVars ==> !IsKey(OptionalVars, v)
    ensures OptionalVars[2] == ("NODE_ENV", "development")
  {
    assert OptionalVars[0].0 == "PORT" && OptionalVars[1].0 == "FRONTEND_URL";
    assert OptionalVars[2].0 == "NODE_ENV";
    assert "FRONTEND_URL"[0] != "MONGO_URI"[0];
  }

  /** After defaults every optional variable is set. */
  lemma OptionalVarsAlwaysSet(env: Env)
    ensures forall i :: 0 <= i < |OptionalVars| ==> IsSet(ApplyDefaults(env, OptionalVars), OptionalVars[i].0)
  {
    OptionalVarsFacts();
    forall i | 0 <= i < |OptionalVars| ensures IsSet(ApplyDefaults(env, OptionalVars), OptionalVars[i].0) {
      ApplyDefaultsDefaulted(env, OptionalVars, i);
    }
  }

  /** Filling in defaults a second time changes nothing. */
  lemma ApplyDefaultsIdempotent(env: Env)
    ensures ApplyDefaults(ApplyDefaults(env, OptionalVars), OptionalVars) == ApplyDefaults(env, OptionalVars)
  {
    var once := ApplyDefaults(env, OptionalVars);
    var twice := ApplyDefaults(once, OptionalVars);
    OptionalVarsFacts();
    ApplyDefaultsKeys(env, OptionalVars);
    ApplyDefaultsKeys(once, OptionalVars);
    assert twice.Keys == once.Keys;
    forall k | k in twice ensures twice[k] == once[k] {
      if !IsKey(OptionalVars, k) {
        ApplyDefaultsUntouched(once, OptionalVars, k);
      } else {
        var i :| 0 <= i < |OptionalVars| && OptionalVars[i].0 == k;
        OptionalVarsAlwaysSet(env);
        ApplyDefaultsDefaulted(once, OptionalVars, i);
      }
    }
  }

  /** What the start-up check decides. */
  datatype Report = Report(env: Env, missing: seq<string>, warnings: seq<string>, exits: bool)

  /** Whether the process stops: a required variable is missing, or it runs
      in production with a placeholder secret or admin key. */
  predicate Refused(missing: seq<string>, env: Env) {
    || |missing| > 0
    || (Lookup(env, "NODE_ENV") == Some("production")
        && (Lookup(env, "JWT_SECRET") == Some(PlaceholderSecret)
            || Lookup(env, "ADMIN_KEY") == Some(PlaceholderAdminKey)))
  }

  /** One more variable of the list adds its own report to each list. */
  lemma PrefixStep(env: Env, vars: seq<string>, i: nat)
    requires i < |vars|
    ensures Missing(env, vars[..i + 1]) == Missing(env, vars[..i]) + (if IsSet(env, vars[i]) then [] else [vars[i]])
    ensures Warnings(env, vars[..i + 1]) == Warnings(env, vars[..i]) + WarningFor(env, vars[i])
  {
    var next := vars[..i + 1];
    assert next[..i] == vars[..i] && next[i] == vars[i];
  }

  /** The loop over the required variables: which are missing, and the
      warnings for the ones that are set. */
  method CheckRequired(env: Env) returns (missing: seq<string>, warnings: seq<string>)
    ensures missing == Missing(env, RequiredVars)
    ensures warnings == Warnings(env, RequiredVars)
  {
    missing, warnings := [], [];
    var i := 0;
    while i < |RequiredVars|
      invariant 0 <= i <= |RequiredVars|
      invariant missing == Missing(env, RequiredVars[..i])
      invariant warnings == Warnings(env, RequiredVars[..i])
    {
      var v := RequiredVars[i];
      PrefixStep(env, RequiredVars, i);
      if !(v in env && env[v] != "") {
        missing := missing + [v];
      } else if v == "JWT_SECRET" && |env[v]| < MinSecretLength {
        warnings := warnings + [SecretWarning];
      } else if v == "ADMIN_KEY" && |env[v]| < MinAdminKeyLength {
        warnings := warnings + [AdminKeyWarning];
      }
      i := i + 1;
    }
    assert RequiredVars[..i] == RequiredVars;
  }

  /** The loop over the optional variables. */
  method FillDefaults(env: Env) returns (e: Env)
    ensures e == ApplyDefaults(env, OptionalVars)
  {
    e := env;
    var j := 0;
    while j < |OptionalVars|
      invariant 0 <= j <= |OptionalVars|
      invariant e == ApplyDefaults(env, OptionalVars[..j])
    {
      assert OptionalVars[..j + 1][..j] == OptionalVars[..j];
      var kd := OptionalVars[j];
      if !(kd.0 in e && e[kd.0] != "") {
        e := e[kd.0 := kd.1];
      }
      j := j + 1;
    }
    assert OptionalVars[..j] == OptionalVars;
  }

  /** `validateEnv`. */
  method ValidateEnv(env: Env) returns (r: Report)
    ensures r.missing == Missing(env, RequiredVars)
    ensures r.warnings == Warnings(env, RequiredVars)
    ensures r.env == ApplyDefaults(env, OptionalVars)
    ensures r.exits <==> Refused(r.missing, r.env)
  {
    var missing, warnings := CheckRequired(env);
    var e := FillDefaults(env);
    var exits := |missing| > 0;
    if !exits && "NODE_ENV" in e && e["NODE_ENV"] == "production" {
      exits := ("JWT_SECRET" in e && e["JWT_SECRET"] == PlaceholderSecret)
        || ("ADMIN_KEY" in e && e["ADMIN_KEY"] == PlaceholderAdminKey);
    }
    r := Report(e, missing, warnings, exits);
  }

  /** A start that goes ahead has every required variable set, keeps every
      variable it was given, and in production uses neither placeholder. */
  lemma AcceptedStart(env: Env)
    requires !Refused(Missing(env, RequiredVars), ApplyDefaults(env, OptionalVars))
    ensures forall v :: v in RequiredVars ==> IsSet(env, v)
    ensures env.Keys <= ApplyDefaults(env, OptionalVars).Keys
    ensures Lookup(env, "NODE_ENV") == Some("production") ==>
      Lookup(env, "JWT_SECRET") != Some(PlaceholderSecret) && Lookup(env, "ADMIN_KEY") != Some(PlaceholderAdminKey)
  {
    var missing := Missing(env, RequiredVars);
    assert |missing| == 0;
    forall v | v in RequiredVars ensures IsSet(env, v) {
      assert v !in missing;
    }
    OptionalVarsFacts();
    ApplyDefaultsKeys(env, OptionalVars);
    assert "JWT_SECRET" in RequiredVars && "ADMIN_KEY" in RequiredVars;
    ApplyDefaultsUntouched(env, OptionalVars, "JWT_SECRET");
    ApplyDefaultsUntouched(env, OptionalVars, "ADMIN_KEY");
    ApplyDefaultsDefaulted(env, OptionalVars, 2);
  }

  /** The start-up check warns about a short `JWT_SECRET` first and a short
      `ADMIN_KEY` second, each only when the variable is set. */
  lemma RequiredWarnings(env: Env)
    ensures Warnings(env, RequiredVars) ==
      (if IsSet(env, "JWT_SECRET") && |env["JWT_SECRET"]| < MinSecretLength then [SecretWarning] else [])
      + (if IsSet(env, "ADMIN_KEY") && |env["ADMIN_KEY"]| < MinAdminKeyLength then [AdminKeyWarning] else [])
  {
    var r1, r2, r3 := RequiredVars[..1], RequiredVars[..2], RequiredVars;
    assert r3[..2] == r2 && r2[..1] == r1 && r1[..0] == [];
    assert r1[0] == "MONGO_URI" && r2[1] == "JWT_SECRET" && r3[2] == "ADMIN_KEY";
    assert "MONGO_URI"[0] != "JWT_SECRET"[0] && "MONGO_URI"[0] != "ADMIN_KEY"[0];
    assert "ADMIN_KEY"[0] != "JWT_SECRET"[0];
    assert Warnings(env, r1) == [];
    assert Warnings(env, r2) == WarningFor(env, "JWT_SECRET");
  }

  /** Missing variables are reported in the order they are listed: the
      report for two lists laid end to end is the two reports laid end to
      end. */
  lemma {:induction false} MissingAppend(env: Env, a: seq<string>, b: seq<string>)
    ensures Missing(env, a + b) == Missing(env, a) + Missing(env, b)
    decreases |b|
  {
    if |b| == 0 {
      assert a + b == a;
    } else {
      var init, v := b[..|b| - 1], b[|b| - 1];
      var last := if IsSet(env, v) then [] else [v];
      assert Missing(env, a + b) == Missing(env, a + init) + last by {
        assert (a + b)[..|a + b| - 1] == a + init;
        assert (a + b)[|a + b| - 1] == v;
      }
      MissingAppend(env, a, init);
      assert Missing(env, b) == Missing(env, init) + last;
      ConcatAssoc(Missing(env, a), Missing(env, init), last);
    }
  }

  lemma ConcatAssoc(x: seq<string>, y: seq<string>, z: seq<string>)
    ensures (x + y) + z == x + (y + z)
  {
  }

  /** The start-up check names the unset required variables in the order
      `MONGO_URI`, `JWT_SECRET`, `ADMIN_KEY`. */
  lemma RequiredMissing(env: Env)
    ensures Missing(env, RequiredVars) ==
      (if IsSet(env, "MONGO_URI") then [] else ["MONGO_URI"])
      + (if IsSet(env, "JWT_SECRET") then [] else ["JWT_SECRET"])
      + (if IsSet(env, "ADMIN_KEY") then [] else ["ADMIN_KEY"])
  {
    var r1, r2, r3 := RequiredVars[..1], RequiredVars[..2], RequiredVars;
    assert r3[..2] == r2 && r2[..1] == r1 && r1[..0] == [];
    assert r1[0] == "MONGO_URI" && r2[1] == "JWT_SECRET" && r3[2] == "ADMIN_KEY";
    assert Missing(env, r1) == (if IsSet(env, "MONGO_URI") then [] else ["MONGO_URI"]);
  }

  /** An unset `NODE_ENV` means development, so the placeholder secrets are
      accepted there, with the short-secret warning only. */
  lemma PlaceholdersAcceptedInDevelopment()
    ensures var env := map["MONGO_URI" := "mongodb://db", "JWT_SECRET" := PlaceholderSecret,
                           "ADMIN_KEY" := PlaceholderAdminKey];
      && Missing(env, RequiredVars) == []
      && Warnings(env, RequiredVars) == [SecretWarning]
      && ApplyDefaults(env, OptionalVars)["NODE_ENV"] == "development"
      && !Refused(Missing(env, RequiredVars), ApplyDefaults(env, OptionalVars))
  {
    var env := map["MONGO_URI" := "mongodb://db", "JWT_SECRET" := PlaceholderSecret,
                   "ADMIN_KEY" := PlaceholderAdminKey];
    OptionalVarsFacts();
    ApplyDefaultsDefaulted(env, OptionalVars, 2);
    assert !IsSet(env, "NODE_ENV");
    RequiredMissing(env);
    RequiredWarnings(env);
    assert IsSet(env, "MONGO_URI") && IsSet(env, "JWT_SECRET") && IsSet(env, "ADMIN_KEY");
    assert |PlaceholderSecret| < MinSecretLength && |PlaceholderAdminKey| >= MinAdminKeyLength;
  }
}
