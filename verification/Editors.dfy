/** Keyed edits of a container's variables and arguments (pkg/mutation/editors/container.go). */
module Editors {
  import opened Mutators

  function SetEnv(env: seq<EnvVar>, ev: EnvVar): seq<EnvVar> {
    if env == [] then [ev]
    else if env[0].name == ev.name then [ev] + env[1..]
    else [env[0]] + SetEnv(env[1..], ev)
  }

  function DropEnv(env: seq<EnvVar>, name: string): seq<EnvVar> {
    if env == [] then []
    else if env[0].name == name then DropEnv(env[1..], name)
    else [env[0]] + DropEnv(env[1..], name)
  }

  function AddArg(args: seq<string>, arg: string): seq<string> {
    if arg in args then args else args + [arg]
  }

  function DropArg(args: seq<string>, arg: string): seq<string> {
    if args == [] then []
    else if args[0] == arg then DropArg(args[1..], arg)
    else [args[0]] + DropArg(args[1..], arg)
  }

  /** The value a name has; of several variables with one name the first counts. */
  function EnvByName(env: seq<EnvVar>): map<string, string> {
    if env == [] then map[] else EnvByName(env[1..])[env[0].name := env[0].value]
  }

  predicate UniqueEnv(env: seq<EnvVar>) {
    forall i, j :: 0 <= i < j < |env| ==> env[i].name != env[j].name
  }

  /** EnsureEnvVar is a map update. */
  lemma {:induction false} SetEnvRefinesMap(env: seq<EnvVar>, ev: EnvVar)
    ensures EnvByName(SetEnv(env, ev)) == EnvByName(env)[ev.name := ev.value]
  {
    if env != [] && env[0].name != ev.name {
      SetEnvRefinesMap(env[1..], ev);
      assert ([env[0]] + SetEnv(env[1..], ev))[1..] == SetEnv(env[1..], ev);
    }
  }

  /** RemoveEnvVar removes every variable of the name. */
  lemma {:induction false} DropEnvRefinesMap(env: seq<EnvVar>, name: string)
    ensures EnvByName(DropEnv(env, name)) == EnvByName(env) - {name}
  {
    if env != [] {
      DropEnvRefinesMap(env[1..], name);
      if env[0].name != name {
        assert ([env[0]] + DropEnv(env[1..], name))[1..] == DropEnv(env[1..], name);
      }
    }
  }

  lemma {:induction false} SetEnvNames(env: seq<EnvVar>, ev: EnvVar)
    requires UniqueEnv(env)
    ensures UniqueEnv(SetEnv(env, ev))
    ensures forall v :: v in SetEnv(env, ev) <==> v == ev || (v in env && v.name != ev.name)
  {
    if env != [] {
      assert forall v <- env[1..] :: v.name != env[0].name;
      if env[0].name != ev.name {
        SetEnvNames(env[1..], ev);
      }
    }
  }

  lemma {:induction false} DropEnvNames(env: seq<EnvVar>, name: string)
    requires UniqueEnv(env)
    ensures UniqueEnv(DropEnv(env, name))
    ensures forall v :: v in DropEnv(env, name) <==> v in env && v.name != name
  {
    if env != [] {
      assert forall v <- env[1..] :: v.name != env[0].name;
      DropEnvNames(env[1..], name);
    }
  }

  lemma {:induction false} DropArgExactly(args: seq<string>, arg: string, a: string)
    ensures a in DropArg(args, arg) <==> a in args && a != arg
  {
    if args != [] {
      DropArgExactly(args[1..], arg, a);
    }
  }

  lemma SetEnvStep(env: seq<EnvVar>, ev: EnvVar, i: nat)
    requires i < |env|
    ensures env[..i] + SetEnv(env[i..], ev) ==
            if env[i].name == ev.name then env[i := ev] else env[..i + 1] + SetEnv(env[i + 1..], ev)
  {
    assert env[i..][1..] == env[i + 1..];
    if env[i].name == ev.name {
      assert env[..i] + ([ev] + env[i + 1..]) == env[i := ev];
    } else {
      var rest := SetEnv(env[i + 1..], ev);
      assert env[..i] + ([env[i]] + rest) == (env[..i] + [env[i]]) + rest;
      assert env[..i] + [env[i]] == env[..i + 1];
    }
  }

  class ContainerEditor {
    var container: Container

    constructor (container: Container)
      ensures this.container == container
    {
      this.container := container;
    }

    method EnsureEnvVar(ev: EnvVar)
      modifies this
      ensures container == old(container).(env := SetEnv(old(container).env, ev))
    {
      for i := 0 to |container.env|
        invariant container == old(container)
        invariant SetEnv(container.env, ev) == container.env[..i] + SetEnv(container.env[i..], ev)
      {
        SetEnvStep(container.env, ev, i);
        if container.env[i].name == ev.name {
          container := container.(env := container.env[i := ev]);
          return;
        }
      }
      assert container.env[..|container.env|] == container.env;
      container := container.(env := container.env + [ev]);
    }

    method RemoveEnvVar(name: string)
      modifies this
      ensures container == old(container).(env := DropEnv(old(container).env, name))
    {
      var kept := [];
      for i := 0 to |container.env|
        invariant container == old(container)
        invariant DropEnv(container.env, name) == kept + DropEnv(container.env[i..], name)
      {
        assert container.env[i..][1..] == container.env[i + 1..];
        if container.env[i].name != name {
          kept := kept + [container.env[i]];
        }
      }
      container := container.(env := kept);
    }

    method EnsureArg(arg: string)
      modifies this
      ensures container == old(container).(args := AddArg(old(container).args, arg))
    {
      if arg !in container.args {
        container := container.(args := container.args + [arg]);
      }
    }

    method RemoveArg(arg: string)
      modifies this
      ensures container == old(container).(args := DropArg(old(container).args, arg))
    {
      var kept := [];
      for i := 0 to |container.args|
        invariant container == old(container)
        invariant DropArg(container.args, arg) == kept + DropArg(container.args[i..], arg)
      {
        assert container.args[i..][1..] == container.args[i + 1..];
        if container.args[i] != arg {
          kept := kept + [container.args[i]];
        }
      }
      container := container.(args := kept);
    }
  }
}
