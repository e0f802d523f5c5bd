/** The environment variables a container is started with: shared entries, overridden by the service's
    own; a preview gets no secret. */
module ConfigEnv {
  import opened Text

  datatype Scope = Shared | Own

  /** The value of a secret is what opening it gives, which may fail; a variable's is stored. */
  datatype Entry = Entry(scope: Scope, secret: bool, key: string, value: Option<string>)

  predicate Used(e: Entry, scope: Scope, secrets: bool) { e.scope == scope && (e.secret ==> secrets) }

  /** A variable without a value is empty; a secret that cannot be opened is an error. */
  function ValueOf(e: Entry): Option<string> {
    if e.secret then e.value else Some(if e.value.None? then "" else e.value.value)
  }

  /** The entries of one scope applied in order, or nothing when one fails. */
  function Applied(env: map<string, string>, entries: seq<Entry>, scope: Scope, secrets: bool): Option<map<string,
          string>> {
    if entries == [] then Some(env)
    else
      var e, before := entries[|entries| - 1], Applied(env, entries[..|entries| - 1], scope, secrets);
      if before.None? || !Used(e, scope, secrets) then before
      else if ValueOf(e).None? then None
      else Some(before.value[e.key := ValueOf(e).value])
  }

  function Env(entries: seq<Entry>, secrets: bool): Option<map<string, string>> {
    match Applied(map[], entries, Shared, secrets)
    case None => None
    case Some(env) => Applied(env, entries, Own, secrets)
  }

  /** configEnvForService. */
  method ConfigEnvForService(entries: seq<Entry>, secrets: bool) returns (env: Option<map<string, string>>)
    ensures env == Env(entries, secrets)
  {
    env := Apply(map[], entries, Shared, secrets);
    if env.Some? { env := Apply(env.value, entries, Own, secrets); }
  }

  method Apply(start: map<string, string>, entries: seq<Entry>, scope: Scope, secrets: bool)
    returns (env: Option<map<string, string>>)
    ensures env == Applied(start, entries, scope, secrets)
  {
    var built := start;
    for n := 0 to |entries|
      invariant Applied(start, entries[..n], scope, secrets) == Some(built)
    {
      var e := entries[n];
      assert entries[..n + 1][..n] == entries[..n];
      if e.scope != scope { continue; }
      if e.secret && !secrets { continue; }
      if ValueOf(e).None? {
        FailureStays(start, entries, scope, secrets, n + 1);
        return None;
      }
      built := built[e.key := ValueOf(e).value];
    }
    assert entries[..|entries|] == entries;
    return Some(built);
  }

  lemma {:induction false} FailureStays(start: map<string, string>, entries: seq<Entry>, scope: Scope, secrets: bool,
          n: nat)
    requires n <= |entries| && Applied(start, entries[..n], scope, secrets).None?
    ensures Applied(start, entries, scope, secrets).None?
  {
    if n < |entries| {
      assert entries[..|entries| - 1][..n] == entries[..n];
      FailureStays(start, entries[..|entries| - 1], scope, secrets, n);
    } else {
      assert entries[..n] == entries;
    }
  }

  // ---- Failing ----

  /** A secret that cannot be opened. */
  predicate Sealed(e: Entry) { e.secret && e.value.None? }

  lemma {:induction false} AppliedFailsExactly(env: map<string, string>, entries: seq<Entry>, scope: Scope,
          secrets: bool)
    ensures Applied(env, entries, scope, secrets).None? <==>
              exists e | e in entries :: Used(e, scope, secrets) && Sealed(e)
  {
    if entries != [] {
      AppliedFailsExactly(env, entries[..|entries| - 1], scope, secrets);
      assert entries == entries[..|entries| - 1] + [entries[|entries| - 1]];
    }
  }

  /** The environment cannot be had exactly when secrets are wanted and one of them cannot be opened. */
  lemma EnvFailsExactly(entries: seq<Entry>, secrets: bool)
    ensures Env(entries, secrets).None? <==> secrets && exists e | e in entries :: Sealed(e)
  {
    AppliedFailsExactly(map[], entries, Shared, secrets);
    if Applied(map[], entries, Shared, secrets).Some? {
      AppliedFailsExactly(Applied(map[], entries, Shared, secrets).value, entries, Own, secrets);
    }
    if e :| e in entries && Sealed(e) && secrets { assert Used(e, Shared, secrets) || Used(e, Own, secrets); }
  }

  // ---- Overriding ----

  /** The value of a key after the entries of a scope: the last one's, or what was there. */
  function LastValue(entries: seq<Entry>, scope: Scope, secrets: bool, key: string): Option<string> {
    if entries == [] then None
    else
      var e := entries[|entries| - 1];
      if Used(e, scope, secrets) && e.key == key then ValueOf(e)
      else LastValue(entries[..|entries| - 1], scope, secrets, key)
  }

  function Lookup(env: map<string, string>, key: string): Option<string> { if key in env then Some(env[key]) else None }

  lemma {:induction false} AppliedLookup(env: map<string, string>, entries: seq<Entry>, scope: Scope, secrets: bool,
          key: string)
    requires Applied(env, entries, scope, secrets).Some?
    ensures Lookup(Applied(env, entries, scope, secrets).value, key) ==
            if LastValue(entries, scope, secrets, key).Some? then LastValue(entries, scope, secrets, key)
            else Lookup(env, key)
  {
    if entries != [] {
      AppliedLookup(env, entries[..|entries| - 1], scope, secrets, key);
    }
  }

  /** The service's own value of a key wins over the shared one. */
  lemma OwnOverridesShared(entries: seq<Entry>, secrets: bool, key: string)
    requires Env(entries, secrets).Some?
    ensures Lookup(Env(entries, secrets).value, key) ==
            if LastValue(entries, Own, secrets, key).Some? then LastValue(entries, Own, secrets, key)
            else LastValue(entries, Shared, secrets, key)
  {
    var env := Applied(map[], entries, Shared, secrets).value;
    AppliedLookup(map[], entries, Shared, secrets, key);
    AppliedLookup(env, entries, Own, secrets, key);
  }

  // ---- The values that arrive ----

  /** The entry is a variable, or a secret where secrets are wanted. */
  predicate Wanted(e: Entry, secrets: bool) { !e.secret || secrets }

  /** No other wanted entry of the key prevails over the k-th: the service's own go before the shared ones, and of
      one scope the last one counts. */
  predicate Prevails(entries: seq<Entry>, secrets: bool, k: nat) {
    && k < |entries| && Wanted(entries[k], secrets)
    && forall j | 0 <= j < |entries| && entries[j].key == entries[k].key && Wanted(entries[j], secrets) ::
         (entries[j].scope == entries[k].scope && j <= k) || (entries[j].scope.Shared? && entries[k].scope.Own?)
  }

  lemma {:induction false} LastIs(entries: seq<Entry>, scope: Scope, secrets: bool, k: nat)
    requires k < |entries| && entries[k].scope == scope && Wanted(entries[k], secrets)
    requires forall j | k < j < |entries| && entries[j].scope == scope && Wanted(entries[j], secrets) ::
               entries[j].key != entries[k].key
    ensures LastValue(entries, scope, secrets, entries[k].key) == ValueOf(entries[k])
  {
    if k < |entries| - 1 { LastIs(entries[..|entries| - 1], scope, secrets, k); }
  }

  lemma {:induction false} NoneLast(entries: seq<Entry>, scope: Scope, secrets: bool, key: string)
    requires forall e | e in entries && e.scope == scope && Wanted(e, secrets) :: e.key != key
    ensures LastValue(entries, scope, secrets, key).None?
  {
    if entries != [] {
      assert entries[|entries| - 1] in entries;
      NoneLast(entries[..|entries| - 1], scope, secrets, key);
    }
  }

  lemma {:induction false} LastFrom(entries: seq<Entry>, scope: Scope, secrets: bool, key: string)
    requires LastValue(entries, scope, secrets, key).Some?
    ensures exists e | e in entries :: e.key == key && Wanted(e, secrets)
  {
    var e := entries[|entries| - 1];
    assert e in entries;
    if !(Used(e, scope, secrets) && e.key == key) { LastFrom(entries[..|entries| - 1], scope, secrets, key); }
  }

  /** The value that prevails arrives as it is stored, or opened; a variable stored without one arrives empty. */
  lemma ValueArrives(entries: seq<Entry>, secrets: bool, k: nat)
    requires Env(entries, secrets).Some? && Prevails(entries, secrets, k)
    ensures var e, env := entries[k], Env(entries, secrets).value;
            e.key in env && env[e.key] == match e.value case Some(v) => v case None => ""
  {
    var e := entries[k];
    OwnOverridesShared(entries, secrets, e.key);
    LastIs(entries, e.scope, secrets, k);
    EnvFailsExactly(entries, secrets);
    assert e in entries && !Sealed(e);
    if e.scope.Shared? { NoneLast(entries, Own, secrets, e.key); }
  }

  /** No other key is set. */
  lemma KeysFrom(entries: seq<Entry>, secrets: bool, key: string)
    requires Env(entries, secrets).Some? && key in Env(entries, secrets).value
    ensures exists e | e in entries :: e.key == key && Wanted(e, secrets)
  {
    OwnOverridesShared(entries, secrets, key);
    if LastValue(entries, Own, secrets, key).Some? {
      LastFrom(entries, Own, secrets, key);
    } else {
      LastFrom(entries, Shared, secrets, key);
    }
  }

  // ---- Previews ----

  function Variables(entries: seq<Entry>): seq<Entry> {
    if entries == [] then []
    else
      var rest := Variables(entries[..|entries| - 1]);
      if entries[|entries| - 1].secret then rest else rest + [entries[|entries| - 1]]
  }

  lemma {:induction false} SecretsIgnored(env: map<string, string>, entries: seq<Entry>, scope: Scope)
    ensures Applied(env, entries, scope, false) == Applied(env, Variables(entries), scope, true)
    ensures Applied(env, entries, scope, false).Some?
  {
    if entries != [] {
      var init, e := entries[..|entries| - 1], entries[|entries| - 1];
      SecretsIgnored(env, init, scope);
      if !e.secret { assert (Variables(init) + [e])[..|Variables(init)|] == Variables(init); }
    }
  }

  /** A preview's environment is that of the service without its secrets: it never fails to open one, and
      services that differ in secrets only give their previews the same environment. */
  lemma PreviewsSeeNoSecret(a: seq<Entry>, b: seq<Entry>)
    requires Variables(a) == Variables(b)
    ensures Env(a, false).Some? && Env(a, false) == Env(b, false) == Env(Variables(a), true)
  {
    SecretsIgnored(map[], a, Shared);
    SecretsIgnored(map[], b, Shared);
    var env := Applied(map[], a, Shared, false).value;
    SecretsIgnored(env, a, Own);
    SecretsIgnored(env, b, Own);
  }
}
