/**
 * verify_setup: the start-up check that sites.txt holds something and that the seven environment
 * variables the bot reads are set.
 */
module Setup {
  import opened Wrappers
  import opened Text

  /** The keys of required_vars, in the order the dict lists them. */
  const RequiredVars: seq<string> := [
    "STACK_CLIENT_ID", "STACK_CLIENT_SECRET", "STACK_KEY", "STACK_ACCESS_TOKEN",
    "OPENROUTER_API_KEY", "USER_AGENT", "BOT_USERNAME"]

  /** os.environ.get(v) is None or the empty string. */
  predicate Unset(env: map<string, string>, v: string) {
    v !in env || env[v] == ""
  }

  /** The item reported about sites.txt: missing, or present with only whitespace. */
  function SitesFileItems(sitesFile: Option<string>): (items: seq<string>)
    ensures |items| <= 1
  {
    if sitesFile.None? then ["sites.txt"]
    else if Strip(sitesFile.value) == [] then ["sites in sites.txt"]
    else []
  }

  function VarItem(v: string): string {
    "Environment variable: " + v
  }

  /** The items reported about the variables in `vars` that are unset, in the order of `vars`. */
  function MissingVars(vars: seq<string>, env: map<string, string>): (items: seq<string>)
    ensures |items| <= |vars|
  {
    if vars == [] then []
    else
      var v := vars[|vars| - 1];
      MissingVars(vars[..|vars| - 1], env) + (if Unset(env, v) then [VarItem(v)] else [])
  }

  /** The item about a variable is reported exactly when the variable is listed and unset. */
  lemma {:induction false} MissingVarsMembers(vars: seq<string>, env: map<string, string>, v: string)
    ensures VarItem(v) in MissingVars(vars, env) <==> v in vars && Unset(env, v)
  {
    if vars != [] {
      var init, last := vars[..|vars| - 1], vars[|vars| - 1];
      MissingVarsMembers(init, env, v);
      assert vars == init + [last];
      if VarItem(v) == VarItem(last) {
        assert v == VarItem(v)[22..] == VarItem(last)[22..] == last;
      }
    }
  }

  /** Nothing is reported exactly when every listed variable is set. */
  lemma {:induction false} MissingVarsEmpty(vars: seq<string>, env: map<string, string>)
    ensures MissingVars(vars, env) == [] <==> forall v :: v in vars ==> !Unset(env, v)
  {
    if vars != [] {
      var init, last := vars[..|vars| - 1], vars[|vars| - 1];
      MissingVarsEmpty(init, env);
      assert vars == init + [last];
    }
  }

  /** Nothing is reported exactly when sites.txt holds a non-whitespace character and every required variable is set. */
  lemma SetupPasses(sitesFile: Option<string>, env: map<string, string>)
    ensures SitesFileItems(sitesFile) + MissingVars(RequiredVars, env) == [] <==>
      && sitesFile.Some? && !AllSpace(sitesFile.value)
      && forall v :: v in RequiredVars ==> v in env && env[v] != ""
  {
    MissingVarsEmpty(RequiredVars, env);
    if sitesFile.Some? {
      StripShape(sitesFile.value);
    }
  }

  /** The loop over required_vars: the item of each unset variable, in order. */
  method CheckVars(vars: seq<string>, env: map<string, string>) returns (items: seq<string>)
    ensures items == MissingVars(vars, env)
  {
    items := [];
    for i := 0 to |vars|
      invariant items == MissingVars(vars[..i], env)
    {
      var v := vars[i];
      if v !in env || env[v] == "" {
        items := items + [VarItem(v)];
      }
      assert vars[..i + 1][..i] == vars[..i];
    }
    assert vars[..|vars|] == vars;
  }

  /**
   * verify_setup. `sitesFile` is the text of sites.txt (None when it does not exist) and `env`
   * the process environment; `missing` is the list of items it logs.
   */
  method VerifySetup(sitesFile: Option<string>, env: map<string, string>) returns (ok: bool, missing: seq<string>)
    ensures missing == SitesFileItems(sitesFile) + MissingVars(RequiredVars, env)
    ensures ok <==> missing == []
    ensures ok <==>
      && sitesFile.Some? && !AllSpace(sitesFile.value)
      && forall v :: v in RequiredVars ==> v in env && env[v] != ""
  {
    missing := [];
    if sitesFile.None? {
      missing := missing + ["sites.txt"];
    } else if Strip(sitesFile.value) == [] {
      missing := missing + ["sites in sites.txt"];
    }
    var varItems := CheckVars(RequiredVars, env);
    missing := missing + varItems;
    SetupPasses(sitesFile, env);
    ok := |missing| == 0;
  }
}
