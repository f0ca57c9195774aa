/**
 Attaching ConfigMaps and Secrets to a container's environment and detaching them again,
 internal/service/apps.go. The two kinds are handled by the same code over different fields.
 */
module EnvAttach {
  import opened Wrappers
  import opened Text
  import Keyset

  datatype Kind = ConfigMap | Secret

  datatype KeyRef = KeyRef(name: string, key: string, optional: Option<bool>)

  /** Where a variable's value comes from; other stands for field and resource references. */
  datatype ValueFrom = ValueFrom(configMapKeyRef: Option<KeyRef>, secretKeyRef: Option<KeyRef>, other: Option<string>)

  datatype EnvVar = EnvVar(name: string, value: string, valueFrom: Option<ValueFrom>)

  datatype ObjectRef = ObjectRef(name: string, optional: Option<bool>)

  datatype EnvFrom = EnvFrom(prefix: string, configMapRef: Option<ObjectRef>, secretRef: Option<ObjectRef>)

  predicate VarRefers(v: EnvVar, kind: Kind, name: string) {
    && v.valueFrom.Some?
    && var ref := if kind.ConfigMap? then v.valueFrom.value.configMapKeyRef else v.valueFrom.value.secretKeyRef;
       ref.Some? && ref.value.name == name
  }

  predicate FromRefers(e: EnvFrom, kind: Kind, name: string) {
    var ref := if kind.ConfigMap? then e.configMapRef else e.secretRef;
    ref.Some? && ref.value.name == name
  }

  function NewVar(kind: Kind, name: string, key: string, prefix: string): (v: EnvVar)
    ensures VarRefers(v, kind, name) && v.name == prefix + key
  {
    var ref := Some(KeyRef(name, key, None));
    EnvVar(prefix + key, "", Some(if kind.ConfigMap? then ValueFrom(ref, None, None) else ValueFrom(None, ref, None)))
  }

  function NewFrom(kind: Kind, name: string): (e: EnvFrom)
    ensures FromRefers(e, kind, name)
  {
    var ref := Some(ObjectRef(name, None));
    if kind.ConfigMap? then EnvFrom("", ref, None) else EnvFrom("", None, ref)
  }

  // ---------------------------------------------------------------- Keys

  /** The keys trimmed, without blanks, each once in order of first occurrence. */
  function Normalized(keys: seq<string>): seq<string> {
    if keys == [] then []
    else
      var before := Normalized(keys[..|keys| - 1]);
      var k := TrimSpace(keys[|keys| - 1]);
      if k == "" || k in before then before else before + [k]
  }

  ghost predicate Distinct<T(!new)>(s: seq<T>) { forall i, j :: 0 <= i < j < |s| ==> s[i] != s[j] }

  /** What the normalised list is: the distinct non-blank trimmed keys. */
  lemma {:induction false} NormalizedMeaning(keys: seq<string>, k: string)
    ensures Distinct(Normalized(keys))
    ensures k in Normalized(keys) <==> k != "" && exists i :: 0 <= i < |keys| && TrimSpace(keys[i]) == k
  {
    if keys != [] {
      var init := keys[..|keys| - 1];
      NormalizedMeaning(init, k);
      if k in Normalized(init) {
        var i :| 0 <= i < |init| && TrimSpace(init[i]) == k;
        assert TrimSpace(keys[i]) == k;
      } else if i :| 0 <= i < |keys| && TrimSpace(keys[i]) == k {
        assert i < |init| ==> TrimSpace(init[i]) == k;
      }
    }
  }

  method NormalizeAttachmentKeys(keys: seq<string>) returns (out: seq<string>)
    ensures out == Normalized(keys)
  {
    var seen: set<string> := {};
    out := [];
    for i := 0 to |keys|
      invariant out == Normalized(keys[..i])
      invariant seen == set k | k in out
    {
      assert keys[..i + 1][..i] == keys[..i];
      var k := TrimSpace(keys[i]);
      if k == "" {
        continue;
      }
      if k in seen {
        continue;
      }
      seen := seen + {k};
      out := out + [k];
    }
    assert keys[..|keys|] == keys;
  }

  // ---------------------------------------------------------------- Environments

  ghost predicate UniqueNames(env: seq<EnvVar>) { forall i, j :: 0 <= i < j < |env| ==> env[i].name != env[j].name }

  ghost predicate Named(env: seq<EnvVar>, name: string) { exists i :: 0 <= i < |env| && env[i].name == name }

  /** Replace the first variable of that name, or append. */
  function SetVar(env: seq<EnvVar>, v: EnvVar): seq<EnvVar> {
    if env == [] then [v]
    else if env[0].name == v.name then [v] + env[1..]
    else [env[0]] + SetVar(env[1..], v)
  }

  function SetAll(env: seq<EnvVar>, vars: seq<EnvVar>): seq<EnvVar> {
    if vars == [] then env else SetVar(SetAll(env, vars[..|vars| - 1]), vars[|vars| - 1])
  }

  function First(env: seq<EnvVar>, name: string): Option<EnvVar> {
    if env == [] then None else if env[0].name == name then Some(env[0]) else First(env[1..], name)
  }

  function RemoveFirst(env: seq<EnvVar>, name: string): seq<EnvVar> {
    if env == [] then [] else if env[0].name == name then env[1..] else [env[0]] + RemoveFirst(env[1..], name)
  }

  /** What a detach keeps. */
  function OtherVars(kind: Kind, name: string): EnvVar -> bool { (v: EnvVar) => !VarRefers(v, kind, name) }

  function OtherFroms(kind: Kind, name: string): EnvFrom -> bool { (e: EnvFrom) => !FromRefers(e, kind, name) }

  // ---------------------------------------------------------------- Laws of setting variables

  lemma {:induction false} FirstOfSet(env: seq<EnvVar>, v: EnvVar, name: string)
    ensures First(SetVar(env, v), name) == if name == v.name then Some(v) else First(env, name)
  {
    if env != [] && env[0].name != v.name {
      FirstOfSet(env[1..], v, name);
      assert SetVar(env, v)[1..] == SetVar(env[1..], v);
    } else {
      assert SetVar(env, v)[1..] == if env == [] then [] else env[1..];
    }
  }

  lemma {:induction false} SetIsFixed(env: seq<EnvVar>, v: EnvVar)
    requires First(env, v.name) == Some(v)
    ensures SetVar(env, v) == env
  {
    if env[0].name != v.name {
      SetIsFixed(env[1..], v);
    }
  }

  lemma {:induction false} NamedAfterSet(env: seq<EnvVar>, v: EnvVar, name: string)
    ensures Named(SetVar(env, v), name) <==> name == v.name || Named(env, name)
  {
    if env == [] {
      assert SetVar(env, v)[0].name == v.name;
    } else {
      var rest := if env[0].name == v.name then env[1..] else SetVar(env[1..], v);
      if env[0].name != v.name {
        NamedAfterSet(env[1..], v, name);
      }
      NamedSplit(env, name);
      NamedSplit(SetVar(env, v), name);
      assert SetVar(env, v)[1..] == rest;
    }
  }

  lemma NamedSplit(env: seq<EnvVar>, name: string)
    requires env != []
    ensures Named(env, name) <==> env[0].name == name || Named(env[1..], name)
  {
    if i :| 0 <= i < |env| && env[i].name == name {
      assert i > 0 ==> env[1..][i - 1].name == name;
    }
    if i :| 0 <= i < |env[1..]| && env[1..][i].name == name {
      assert env[i + 1].name == name;
    }
  }

  lemma UniqueSplit(env: seq<EnvVar>)
    requires env != []
    ensures UniqueNames(env) <==> !Named(env[1..], env[0].name) && UniqueNames(env[1..])
  {
    if UniqueNames(env) {
      assert forall i, j :: 0 <= i < j < |env[1..]| ==> env[1..][i] == env[i + 1] && env[1..][j] == env[j + 1];
    }
    if !Named(env[1..], env[0].name) && UniqueNames(env[1..]) {
      forall i, j | 0 <= i < j < |env| ensures env[i].name != env[j].name {
        assert env[j] == env[1..][j - 1];
        assert i > 0 ==> env[i] == env[1..][i - 1];
      }
    }
  }

  lemma {:induction false} SetKeepsUnique(env: seq<EnvVar>, v: EnvVar)
    requires UniqueNames(env)
    ensures UniqueNames(SetVar(env, v))
  {
    if env != [] {
      UniqueSplit(env);
      UniqueSplit(SetVar(env, v));
      if env[0].name != v.name {
        SetKeepsUnique(env[1..], v);
        NamedAfterSet(env[1..], v, env[0].name);
        assert SetVar(env, v)[1..] == SetVar(env[1..], v);
      } else {
        assert SetVar(env, v)[1..] == env[1..];
      }
    }
  }

  lemma {:induction false} SetAllKeepsUnique(env: seq<EnvVar>, vars: seq<EnvVar>)
    requires UniqueNames(env)
    ensures UniqueNames(SetAll(env, vars))
  {
    if vars != [] {
      SetAllKeepsUnique(env, vars[..|vars| - 1]);
      SetKeepsUnique(SetAll(env, vars[..|vars| - 1]), vars[|vars| - 1]);
    }
  }

  /** After setting distinct variables each of them is found, and no other name is affected. */
  lemma {:induction false} FirstOfSetAll(env: seq<EnvVar>, vars: seq<EnvVar>, name: string)
    requires UniqueNames(vars)
    ensures forall i :: 0 <= i < |vars| && vars[i].name == name ==> First(SetAll(env, vars), name) == Some(vars[i])
    ensures !Named(vars, name) ==> First(SetAll(env, vars), name) == First(env, name)
  {
    if vars != [] {
      var init, v := vars[..|vars| - 1], vars[|vars| - 1];
      FirstOfSetAll(env, init, name);
      FirstOfSet(SetAll(env, init), v, name);
      if Named(init, name) {
        var i :| 0 <= i < |init| && init[i].name == name;
        assert vars[i].name == name;
      }
      forall i | 0 <= i < |vars| && vars[i].name == name ensures First(SetAll(env, vars), name) == Some(vars[i]) {
        assert i < |init| ==> init[i] == vars[i];
      }
    }
  }

  lemma {:induction false} SetAllIsFixed(env: seq<EnvVar>, vars: seq<EnvVar>)
    requires forall i :: 0 <= i < |vars| ==> First(env, vars[i].name) == Some(vars[i])
    ensures SetAll(env, vars) == env
  {
    if vars != [] {
      SetAllIsFixed(env, vars[..|vars| - 1]);
      SetIsFixed(env, vars[|vars| - 1]);
    }
  }

  // ---------------------------------------------------------------- Laws of dropping references

  lemma {:induction false} KeptExactly<T>(s: seq<T>, keep: T -> bool)
    ensures |Keyset.Filter(s, keep)| <= |s|
    ensures Keyset.Filter(s, keep) == s <==> forall i :: 0 <= i < |s| ==> keep(s[i])
  {
    if s != [] {
      KeptExactly(s[1..], keep);
      if keep(s[0]) {
        assert Keyset.Filter(s, keep) == [s[0]] + Keyset.Filter(s[1..], keep);
        assert Keyset.Filter(s, keep) == s <==> Keyset.Filter(s[1..], keep) == s[1..];
        assert forall i :: 1 <= i < |s| ==> s[i] == s[1..][i - 1];
      }
    }
  }

  lemma {:induction false} KeepUnique(env: seq<EnvVar>, keep: EnvVar -> bool)
    requires UniqueNames(env)
    ensures UniqueNames(Keyset.Filter(env, keep))
  {
    if env != [] {
      UniqueSplit(env);
      KeepUnique(env[1..], keep);
      var rest := Keyset.Filter(env[1..], keep);
      forall i | 0 <= i < |rest| ensures rest[i].name != env[0].name {
        Keyset.FilterMember(env[1..], keep, rest[i]);
        assert rest[i] in env[1..];
      }
    }
  }

  /** A referring variable that was set leaves no trace but the variable it replaced. */
  lemma {:induction false} KeepOfSet(env: seq<EnvVar>, v: EnvVar, keep: EnvVar -> bool)
    requires !keep(v)
    ensures Keyset.Filter(SetVar(env, v), keep) == Keyset.Filter(RemoveFirst(env, v.name), keep)
  {
    if env == [] {
      assert [v][1..] == [];
    } else if env[0].name == v.name {
      Keyset.FilterConcat([v], env[1..], keep);
      assert [v][1..] == [];
    } else {
      KeepOfSet(env[1..], v, keep);
      Keyset.FilterConcat([env[0]], SetVar(env[1..], v), keep);
      Keyset.FilterConcat([env[0]], RemoveFirst(env[1..], v.name), keep);
    }
  }

  lemma {:induction false} RemoveCommutes(env: seq<EnvVar>, v: EnvVar, name: string)
    requires name != v.name
    ensures RemoveFirst(SetVar(env, v), name) == SetVar(RemoveFirst(env, name), v)
  {
    if env == [] {
      assert [v][1..] == [];
    } else {
      assert SetVar(env, v)[1..] == if env[0].name == v.name then env[1..] else SetVar(env[1..], v);
      if env[0].name != v.name && env[0].name != name {
        RemoveCommutes(env[1..], v, name);
      }
    }
  }

  lemma {:induction false} RemoveCommutesAll(env: seq<EnvVar>, vars: seq<EnvVar>, name: string)
    requires !Named(vars, name)
    ensures RemoveFirst(SetAll(env, vars), name) == SetAll(RemoveFirst(env, name), vars)
  {
    if vars != [] {
      var init, v := vars[..|vars| - 1], vars[|vars| - 1];
      NotNamedParts(vars, name);
      RemoveCommutesAll(env, init, name);
      RemoveCommutes(SetAll(env, init), v, name);
    }
  }

  lemma NotNamedParts(vars: seq<EnvVar>, name: string)
    requires vars != [] && !Named(vars, name)
    ensures vars[|vars| - 1].name != name && !Named(vars[..|vars| - 1], name)
  {
    var init := vars[..|vars| - 1];
    assert forall i :: 0 <= i < |init| ==> init[i] == vars[i];
  }

  /** The variables that setting vars would replace, removed. */
  function RemoveAll(env: seq<EnvVar>, vars: seq<EnvVar>): seq<EnvVar>
    decreases |vars|
  {
    if vars == [] then env else RemoveAll(RemoveFirst(env, vars[|vars| - 1].name), vars[..|vars| - 1])
  }

  lemma {:induction false} KeepOfSetAll(env: seq<EnvVar>, vars: seq<EnvVar>, keep: EnvVar -> bool)
    requires UniqueNames(vars) && forall v :: v in vars ==> !keep(v)
    ensures Keyset.Filter(SetAll(env, vars), keep) == Keyset.Filter(RemoveAll(env, vars), keep)
    decreases |vars|
  {
    if vars != [] {
      var init, v := vars[..|vars| - 1], vars[|vars| - 1];
      KeepOfSet(SetAll(env, init), v, keep);
      LastNotNamed(vars);
      RemoveCommutesAll(env, init, v.name);
      KeepOfSetAll(RemoveFirst(env, v.name), init, keep);
    }
  }

  lemma LastNotNamed(vars: seq<EnvVar>)
    requires vars != [] && UniqueNames(vars)
    ensures !Named(vars[..|vars| - 1], vars[|vars| - 1].name) && UniqueNames(vars[..|vars| - 1])
  {
    var init := vars[..|vars| - 1];
    assert forall i :: 0 <= i < |init| ==> init[i] == vars[i];
  }

  lemma {:induction false} RemoveFirstSize(env: seq<EnvVar>, name: string)
    ensures |RemoveFirst(env, name)| == if Named(env, name) then |env| - 1 else |env|
    ensures !Named(env, name) ==> RemoveFirst(env, name) == env
  {
    if env != [] {
      NamedSplit(env, name);
      if env[0].name != name {
        RemoveFirstSize(env[1..], name);
      }
    }
  }

  lemma {:induction false} RemoveFirstNames(env: seq<EnvVar>, name: string, other: string)
    requires other != name
    ensures Named(RemoveFirst(env, name), other) <==> Named(env, other)
  {
    if env != [] {
      NamedSplit(env, other);
      if env[0].name != name {
        RemoveFirstNames(env[1..], name, other);
        NamedSplit(RemoveFirst(env, name), other);
      }
    }
  }

  /** Removing shortens the environment exactly when one of the names is there. */
  lemma {:induction false} RemoveAllSize(env: seq<EnvVar>, vars: seq<EnvVar>)
    requires UniqueNames(vars)
    ensures |RemoveAll(env, vars)| <= |env|
    ensures |RemoveAll(env, vars)| == |env| <==> forall i :: 0 <= i < |vars| ==> !Named(env, vars[i].name)
    ensures |RemoveAll(env, vars)| == |env| ==> RemoveAll(env, vars) == env
    decreases |vars|
  {
    if vars != [] {
      var init, v := vars[..|vars| - 1], vars[|vars| - 1];
      LastNotNamed(vars);
      RemoveFirstSize(env, v.name);
      RemoveAllSize(RemoveFirst(env, v.name), init);
      forall i | 0 <= i < |init| ensures Named(RemoveFirst(env, v.name), init[i].name) <==> Named(env, vars[i].name) {
        RemoveFirstNames(env, v.name, init[i].name);
      }
      assert forall i :: 0 <= i < |vars| ==> vars[i] == if i < |init| then init[i] else v;
    }
  }

  // ---------------------------------------------------------------- Attach and detach

  datatype Env = Env(vars: seq<EnvVar>, froms: seq<EnvFrom>)

  function NewVars(kind: Kind, name: string, keys: seq<string>, prefix: string): seq<EnvVar> {
    seq(|keys|, i requires 0 <= i < |keys| => NewVar(kind, name, keys[i], prefix))
  }

  /** keys are normalised and prefix is trimmed. */
  function AttachTrimmed(c: Env, kind: Kind, name: string, keys: seq<string>, prefix: string): Env {
    if keys != [] then Env(SetAll(c.vars, NewVars(kind, name, keys, prefix)), c.froms)
    else if exists e :: e in c.froms && FromRefers(e, kind, name) then c
    else Env(c.vars, c.froms + [NewFrom(kind, name)])
  }

  function Attach(c: Env, kind: Kind, name: string, keys: seq<string>, prefix: string): Env {
    AttachTrimmed(c, kind, name, Normalized(keys), TrimSpace(prefix))
  }

  function Detach(c: Env, kind: Kind, name: string): Env {
    Env(Keyset.Filter(c.vars, OtherVars(kind, name)), Keyset.Filter(c.froms, OtherFroms(kind, name)))
  }

  /** Something in the environment refers to the source. */
  ghost predicate Referenced(c: Env, kind: Kind, name: string) {
    (exists v :: v in c.vars && VarRefers(v, kind, name)) || (exists e :: e in c.froms && FromRefers(e, kind, name))
  }

  lemma NewVarsUnique(kind: Kind, name: string, keys: seq<string>, prefix: string)
    requires Distinct(keys)
    ensures UniqueNames(NewVars(kind, name, keys, prefix))
  {
    forall i, j | 0 <= i < j < |keys| ensures prefix + keys[i] != prefix + keys[j] {
      assert (prefix + keys[i])[|prefix|..] == keys[i] && (prefix + keys[j])[|prefix|..] == keys[j];
    }
  }

  /** Attaching twice is attaching once. */
  lemma AttachIdempotent(c: Env, kind: Kind, name: string, keys: seq<string>, prefix: string)
    ensures Attach(Attach(c, kind, name, keys, prefix), kind, name, keys, prefix) == Attach(c, kind, name, keys, prefix)
  {
    NormalizedMeaning(keys, "");
    AttachTrimmedIdempotent(c, kind, name, Normalized(keys), TrimSpace(prefix));
  }

  lemma AttachTrimmedIdempotent(c: Env, kind: Kind, name: string, keys: seq<string>, prefix: string)
    requires Distinct(keys)
    ensures var once := AttachTrimmed(c, kind, name, keys, prefix);
            AttachTrimmed(once, kind, name, keys, prefix) == once
  {
    var once := AttachTrimmed(c, kind, name, keys, prefix);
    if keys == [] {
      assert exists e :: e in once.froms && FromRefers(e, kind, name) by {
        if !exists e :: e in c.froms && FromRefers(e, kind, name) {
          assert NewFrom(kind, name) in once.froms;
        }
      }
    } else {
      var vars := NewVars(kind, name, keys, prefix);
      NewVarsUnique(kind, name, keys, prefix);
      forall i | 0 <= i < |vars| ensures First(once.vars, vars[i].name) == Some(vars[i]) {
        FirstOfSetAll(c.vars, vars, vars[i].name);
      }
      SetAllIsFixed(once.vars, vars);
    }
  }

  /** Each requested key is bound to the source under its prefixed name; no other name is affected. */
  lemma AttachBinds(c: Env, kind: Kind, name: string, keys: seq<string>, prefix: string, envName: string)
    ensures var r := Attach(c, kind, name, keys, prefix);
            if exists k :: k in Normalized(keys) && envName == TrimSpace(prefix) + k
            then
              var ref := Some(KeyRef(name, envName[|TrimSpace(prefix)|..], None));
              match kind
              case ConfigMap => First(r.vars, envName) == Some(EnvVar(envName, "", Some(ValueFrom(ref, None, None))))
              case Secret => First(r.vars, envName) == Some(EnvVar(envName, "", Some(ValueFrom(None, ref, None))))
            else First(r.vars, envName) == First(c.vars, envName)
  {
    NormalizedMeaning(keys, "");
    var p, ks := TrimSpace(prefix), Normalized(keys);
    var vars := NewVars(kind, name, ks, p);
    NewVarsUnique(kind, name, ks, p);
    FirstOfSetAll(c.vars, vars, envName);
    if k :| k in ks && envName == p + k {
      var i :| 0 <= i < |ks| && ks[i] == k;
      assert vars[i].name == envName && envName[|p|..] == k;
    }
  }

  /** Without keys the whole source is added, unless it is there; with keys no whole source is. */
  lemma AttachWhole(c: Env, kind: Kind, name: string, keys: seq<string>, prefix: string)
    ensures var r, ref := Attach(c, kind, name, keys, prefix), Some(ObjectRef(name, None));
            if exists i :: 0 <= i < |keys| && TrimSpace(keys[i]) != "" then r.froms == c.froms
            else
              && r.vars == c.vars
              && match kind
                 case ConfigMap =>
                   r.froms == if exists e :: e in c.froms && e.configMapRef.Some? && e.configMapRef.value.name == name
                              then c.froms else c.froms + [EnvFrom("", ref, None)]
                 case Secret =>
                   r.froms == if exists e :: e in c.froms && e.secretRef.Some? && e.secretRef.value.name == name
                              then c.froms else c.froms + [EnvFrom("", None, ref)]
  {
    if i :| 0 <= i < |keys| && TrimSpace(keys[i]) != "" {
      NormalizedMeaning(keys, TrimSpace(keys[i]));
    } else if Normalized(keys) != [] {
      NormalizedMeaning(keys, Normalized(keys)[0]);
    }
    assert forall e :: FromRefers(e, ConfigMap, name) <==> e.configMapRef.Some? && e.configMapRef.value.name == name;
    assert forall e :: FromRefers(e, Secret, name) <==> e.secretRef.Some? && e.secretRef.value.name == name;
  }

  /** Which entries a detach drops, with the fields written out. */
  lemma DetachDrops(c: Env, name: string)
    ensures forall v :: v in Detach(c, ConfigMap, name).vars <==>
              v in c.vars && !(v.valueFrom.Some? && v.valueFrom.value.configMapKeyRef.Some? &&
                               v.valueFrom.value.configMapKeyRef.value.name == name)
    ensures forall v :: v in Detach(c, Secret, name).vars <==>
              v in c.vars && !(v.valueFrom.Some? && v.valueFrom.value.secretKeyRef.Some? &&
                               v.valueFrom.value.secretKeyRef.value.name == name)
    ensures forall e :: e in Detach(c, ConfigMap, name).froms <==>
              e in c.froms && !(e.configMapRef.Some? && e.configMapRef.value.name == name)
    ensures forall e :: e in Detach(c, Secret, name).froms <==>
              e in c.froms && !(e.secretRef.Some? && e.secretRef.value.name == name)
  {
    DetachExact(c, ConfigMap, name);
    DetachExact(c, Secret, name);
  }

  /** After a detach nothing refers to the source, and all that did not is there as often and in its order. */
  lemma DetachExact(c: Env, kind: Kind, name: string)
    ensures !Referenced(Detach(c, kind, name), kind, name)
    ensures Keyset.KeptInOrder(c.vars, OtherVars(kind, name), Detach(c, kind, name).vars)
    ensures Keyset.KeptInOrder(c.froms, OtherFroms(kind, name), Detach(c, kind, name).froms)
    ensures forall v :: v in Detach(c, kind, name).vars <==> v in c.vars && !VarRefers(v, kind, name)
    ensures forall e :: e in Detach(c, kind, name).froms <==> e in c.froms && !FromRefers(e, kind, name)
    ensures Detach(c, kind, name) == c <==> !Referenced(c, kind, name)
  {
    KeptExactly(c.vars, OtherVars(kind, name));
    KeptExactly(c.froms, OtherFroms(kind, name));
    Keyset.FilterKeepsOrder(c.vars, OtherVars(kind, name));
    Keyset.FilterKeepsOrder(c.froms, OtherFroms(kind, name));
    forall v: EnvVar ensures v in Detach(c, kind, name).vars <==> v in c.vars && !VarRefers(v, kind, name) {
      Keyset.FilterMember(c.vars, OtherVars(kind, name), v);
    }
    forall e: EnvFrom ensures e in Detach(c, kind, name).froms <==> e in c.froms && !FromRefers(e, kind, name) {
      Keyset.FilterMember(c.froms, OtherFroms(kind, name), e);
    }
  }

  /** Detaching undoes attaching exactly when nothing referred to the source and no variable was in the way. */
  lemma DetachUndoesAttachIff(c: Env, kind: Kind, name: string, keys: seq<string>, prefix: string)
    ensures Detach(Attach(c, kind, name, keys, prefix), kind, name) == c <==>
            && !Referenced(c, kind, name)
            && forall k :: k in Normalized(keys) ==> !Named(c.vars, TrimSpace(prefix) + k)
  {
    NormalizedMeaning(keys, "");
    if Normalized(keys) == [] {
      FromRoundTripIff(c, kind, name, TrimSpace(prefix));
    } else {
      KeyedRoundTripIff(c, kind, name, Normalized(keys), TrimSpace(prefix));
    }
  }

  lemma FromRoundTripIff(c: Env, kind: Kind, name: string, prefix: string)
    ensures Detach(AttachTrimmed(c, kind, name, [], prefix), kind, name) == c <==> !Referenced(c, kind, name)
  {
    FromsRoundTrip(c.froms, kind, name);
    assert Detach(AttachTrimmed(c, kind, name, [], prefix), kind, name) == Detach(c, kind, name);
    DetachExact(c, kind, name);
  }

  lemma KeyedRoundTripIff(c: Env, kind: Kind, name: string, keys: seq<string>, prefix: string)
    requires keys != [] && Distinct(keys)
    ensures Detach(AttachTrimmed(c, kind, name, keys, prefix), kind, name) == c <==>
            !Referenced(c, kind, name) && forall k :: k in keys ==> !Named(c.vars, prefix + k)
  {
    var keep, vars := OtherVars(kind, name), NewVars(kind, name, keys, prefix);
    NewVarsUnique(kind, name, keys, prefix);
    KeepOfSetAll(c.vars, vars, keep);
    VarsRoundTripIff(c.vars, vars, keep);
    KeptExactly(c.froms, OtherFroms(kind, name));
    assert forall i :: 0 <= i < |vars| ==> vars[i].name == prefix + keys[i];
  }

  lemma FromsRoundTrip(froms: seq<EnvFrom>, kind: Kind, name: string)
    ensures Keyset.Filter(froms + [NewFrom(kind, name)], OtherFroms(kind, name)) ==
      Keyset.Filter(froms, OtherFroms(kind, name))
  {
    Keyset.FilterLast(froms + [NewFrom(kind, name)], |froms|, OtherFroms(kind, name));
    assert (froms + [NewFrom(kind, name)])[..|froms|] == froms;
    assert (froms + [NewFrom(kind, name)])[..|froms| + 1] == froms + [NewFrom(kind, name)];
  }

  lemma VarsRoundTripIff(env: seq<EnvVar>, vars: seq<EnvVar>, keep: EnvVar -> bool)
    requires UniqueNames(vars)
    ensures Keyset.Filter(RemoveAll(env, vars), keep) == env <==>
            (forall v :: v in env ==> keep(v)) && forall i :: 0 <= i < |vars| ==> !Named(env, vars[i].name)
  {
    RemoveAllSize(env, vars);
    KeptExactly(RemoveAll(env, vars), keep);
  }

  // ---------------------------------------------------------------- Runs

  datatype Step =
    | AttachStep(kind: Kind, name: string, keys: seq<string>, prefix: string)
    | DetachStep(kind: Kind, name: string)

  function Apply(c: Env, s: Step): Env {
    match s
    case AttachStep(kind, name, keys, prefix) => Attach(c, kind, name, keys, prefix)
    case DetachStep(kind, name) => Detach(c, kind, name)
  }

  function Run(c: Env, steps: seq<Step>): Env {
    if steps == [] then c else Apply(Run(c, steps[..|steps| - 1]), steps[|steps| - 1])
  }

  /** Over every sequence of attach and detach calls, unique variable names stay unique. */
  lemma {:induction false} RunKeepsUnique(c: Env, steps: seq<Step>)
    requires UniqueNames(c.vars)
    ensures UniqueNames(Run(c, steps).vars)
  {
    if steps != [] {
      var before, s := Run(c, steps[..|steps| - 1]), steps[|steps| - 1];
      RunKeepsUnique(c, steps[..|steps| - 1]);
      match s
      case AttachStep(kind, name, keys, prefix) =>
        SetAllKeepsUnique(before.vars, NewVars(kind, name, Normalized(keys), TrimSpace(prefix)));
      case DetachStep(kind, name) =>
        KeepUnique(before.vars, OtherVars(kind, name));
    }
  }

  // ---------------------------------------------------------------- The code

  class Container {
    var env: seq<EnvVar>
    var envFrom: seq<EnvFrom>

    constructor (env: seq<EnvVar>, envFrom: seq<EnvFrom>)
      ensures Contents() == Env(env, envFrom)
    {
      this.env, this.envFrom := env, envFrom;
    }

    ghost function Contents(): Env
      reads this
    {
      Env(env, envFrom)
    }

    /** Search for the name and overwrite, or append. */
    method SetEnv(v: EnvVar)
      modifies this`env
      ensures env == SetVar(old(env), v)
    {
      var attached := false;
      var i := 0;
      while i < |env|
        invariant 0 <= i <= |env| && env == old(env)
        invariant SetVar(env, v) == env[..i] + SetVar(env[i..], v)
      {
        if env[i].name == v.name {
          SetHere(env, i, v);
          env := env[i := v];
          attached := true;
          break;
        }
        SetLater(env, i, v);
        i := i + 1;
      }
      if !attached {
        env := env + [v];
      }
    }

    /** One reference to the whole source, unless there is one. */
    method AttachAll(kind: Kind, name: string)
      modifies this`envFrom
      ensures envFrom == if exists e :: e in old(envFrom) && FromRefers(e, kind, name) then old(envFrom)
                         else old(envFrom) + [NewFrom(kind, name)]
    {
      for i := 0 to |envFrom|
        invariant envFrom == old(envFrom)
        invariant forall j :: 0 <= j < i ==> !FromRefers(envFrom[j], kind, name)
      {
        if FromRefers(envFrom[i], kind, name) {
          return;
        }
      }
      envFrom := envFrom + [NewFrom(kind, name)];
    }

    /** One variable for each key. */
    method AttachKeys(kind: Kind, name: string, keys: seq<string>, prefix: string)
      modifies this`env
      ensures env == SetAll(old(env), NewVars(kind, name, keys, prefix))
    {
      ghost var vars := NewVars(kind, name, keys, prefix);
      for i := 0 to |keys|
        invariant env == SetAll(old(env), vars[..i])
      {
        assert vars[..i + 1][..i] == vars[..i];
        SetEnv(NewVar(kind, name, keys[i], prefix));
      }
      assert vars[..|keys|] == vars;
    }
  }

  lemma SetHere(env: seq<EnvVar>, i: nat, v: EnvVar)
    requires i < |env| && env[i].name == v.name
    ensures env[..i] + SetVar(env[i..], v) == env[i := v]
  {
    var t := env[i..];
    assert t[0] == env[i] && t[1..] == env[i + 1..];
    assert SetVar(t, v) == [v] + env[i + 1..];
  }

  lemma SetLater(env: seq<EnvVar>, i: nat, v: EnvVar)
    requires i < |env| && env[i].name != v.name
    ensures env[..i] + SetVar(env[i..], v) == env[..i + 1] + SetVar(env[i + 1..], v)
  {
    var t, rest := env[i..], SetVar(env[i + 1..], v);
    assert t[0] == env[i] && t[1..] == env[i + 1..];
    assert SetVar(t, v) == [env[i]] + rest;
    MoveOver(env, i, rest);
  }

  lemma MoveOver<T>(s: seq<T>, i: nat, rest: seq<T>)
    requires i < |s|
    ensures s[..i] + ([s[i]] + rest) == s[..i + 1] + rest
  {
  }

  method AttachEnv(ctn: Container?, kind: Kind, name: string, keys: seq<string>, prefix: string)
    modifies ctn
    ensures ctn != null ==> ctn.Contents() == Attach(old(ctn.Contents()), kind, name, keys, prefix)
  {
    if ctn == null {
      return;
    }
    var p := TrimSpace(prefix);
    var ks := NormalizeAttachmentKeys(keys);
    if |ks| == 0 {
      ctn.AttachAll(kind, name);
    } else {
      ctn.AttachKeys(kind, name, ks, p);
    }
  }

  method DetachEnv(ctn: Container?, kind: Kind, name: string)
    modifies ctn
    ensures ctn != null ==> ctn.Contents() == Detach(old(ctn.Contents()), kind, name)
  {
    if ctn == null {
      return;
    }
    var filteredFrom: seq<EnvFrom> := [];
    for i := 0 to |ctn.envFrom|
      invariant ctn.Contents() == old(ctn.Contents())
      invariant filteredFrom == Keyset.Filter(ctn.envFrom[..i], OtherFroms(kind, name))
    {
      Keyset.FilterLast(ctn.envFrom, i, OtherFroms(kind, name));
      if FromRefers(ctn.envFrom[i], kind, name) {
        continue;
      }
      filteredFrom := filteredFrom + [ctn.envFrom[i]];
    }
    assert ctn.envFrom[..|ctn.envFrom|] == ctn.envFrom;
    ctn.envFrom := filteredFrom;
    var filteredEnv: seq<EnvVar> := [];
    for i := 0 to |ctn.env|
      invariant ctn.env == old(ctn.env) && ctn.envFrom == filteredFrom
      invariant filteredEnv == Keyset.Filter(ctn.env[..i], OtherVars(kind, name))
    {
      Keyset.FilterLast(ctn.env, i, OtherVars(kind, name));
      if VarRefers(ctn.env[i], kind, name) {
        continue;
      }
      filteredEnv := filteredEnv + [ctn.env[i]];
    }
    assert ctn.env[..|ctn.env|] == ctn.env;
    ctn.env := filteredEnv;
  }
}
