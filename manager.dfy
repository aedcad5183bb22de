// The provider registry of cfitall/manager.py: an ordered, duplicate-free
// collection of providers keyed by their names. The Python class stores
// each provider as an attribute of the manager; here they are a map beside
// the `ordering` list.
module Manager {
  import opened Wrappers
  import opened Providers
  import Filesystem

  /** The names of `ps[..n]` in order, each kept at its first occurrence. */
  function RegisteredNames(ps: seq<Provider>, n: nat): seq<string>
    requires n <= |ps|
  {
    if n == 0 then []
    else
      var names := RegisteredNames(ps, n - 1);
      if Name(ps[n - 1]) in names then names else names + [Name(ps[n - 1])]
  }

  /** The first provider of `ps[..n]` named `name`. */
  function FirstNamed(ps: seq<Provider>, n: nat, name: string): Option<Provider>
    requires n <= |ps|
  {
    if n == 0 then None
    else if FirstNamed(ps, n - 1, name).Some? then FirstNamed(ps, n - 1, name)
    else if Name(ps[n - 1]) == name then Some(ps[n - 1])
    else None
  }

  /** `ord` and `provs` are what registering `ps[..n]` in order leaves. */
  ghost predicate Registered(ps: seq<Provider>, n: nat, ord: seq<string>, provs: map<string, Provider>)
    requires n <= |ps|
  {
    ord == RegisteredNames(ps, n) &&
    (forall k :: k in provs <==> FirstNamed(ps, n, k).Some?) &&
    (forall k :: k in provs ==> Some(provs[k]) == FirstNamed(ps, n, k))
  }

  lemma RegisteredStep(ps: seq<Provider>, n: nat, ord: seq<string>, provs: map<string, Provider>)
    requires n < |ps| && Registered(ps, n, ord, provs)
    requires forall k :: k in provs <==> k in ord
    ensures var name := Name(ps[n]);
      if name in provs then Registered(ps, n + 1, ord, provs)
      else Registered(ps, n + 1, ord + [name], provs[name := ps[n]])
  {
  }

  /** `[prov for prov in names if prov != name]` */
  function Without(names: seq<string>, name: string): (r: seq<string>)
  {
    if names == [] then []
    else Without(names[..|names| - 1], name) + if names[|names| - 1] == name then [] else [names[|names| - 1]]
  }

  predicate NoDuplicates(names: seq<string>)
  {
    forall i, j :: 0 <= i < j < |names| ==> names[i] != names[j]
  }

  /** The outcome of calling `update()` on each provider, in order. */
  function Outcomes(ps: seq<Provider>, world: World): (r: seq<Result<bool>>)
    ensures |r| == |ps| && forall i :: 0 <= i < |ps| ==> r[i] == UpdateResult(ps[i], world)
  {
    seq(|ps|, i requires 0 <= i < |ps| => UpdateResult(ps[i], world))
  }

  /** The outcomes of `update()` on each provider with the classes as written. */
  function OutcomesAsWritten(ps: seq<Provider>, world: World): (r: seq<Result<bool>>)
    ensures |r| == |ps| && forall i :: 0 <= i < |ps| ==> r[i] == UpdateResultAsWritten(ps[i], world)
  {
    seq(|ps|, i requires 0 <= i < |ps| => UpdateResultAsWritten(ps[i], world))
  }

  /** An exception `update_all` does not catch. */
  predicate Escapes(r: Result<bool>)
  {
    r.Err? && r.error != AttributeError
  }

  /** The position of the first outcome from `i` on that escapes `update_all`, or the end. */
  function StopAt(outs: seq<Result<bool>>, i: nat): (k: nat)
    requires i <= |outs|
    ensures i <= k <= |outs| && (k < |outs| ==> Escapes(outs[k]))
    ensures forall j :: i <= j < k ==> !Escapes(outs[j])
    decreases |outs| - i
  {
    if i == |outs| || Escapes(outs[i]) then i else StopAt(outs, i + 1)
  }

  /**
   * As written, `update_all` over providers that include an environment
   * provider stops at or before the first one and raises: the inherited
   * NotImplementedError is not an AttributeError, so it is not caught.
   */
  lemma {:induction false} UpdateAllRaisesAsWritten(ps: seq<Provider>, world: World, i: nat)
    requires i < |ps| && ps[i].Env?
    ensures var outs := OutcomesAsWritten(ps, world);
            StopAt(outs, 0) <= i && Escapes(outs[StopAt(outs, 0)])
    ensures (forall j :: 0 <= j < i ==> ps[j].Env?) ==> StopAt(OutcomesAsWritten(ps, world), 0) == 0
  {
    var outs := OutcomesAsWritten(ps, world);
    assert Escapes(outs[i]);
    if forall j :: 0 <= j < i ==> ps[j].Env? {
      if i > 0 {
        assert Escapes(outs[0]);
      }
    }
  }

  /**
   * With the environment provider's intended `update()`, which returns True,
   * no environment provider stops `update_all` and none is logged as failed.
   */
  lemma {:induction false} EnvironmentUpdateSucceeds(names: seq<string>, ps: seq<Provider>, world: World)
    requires |names| == |ps| && forall i :: 0 <= i < |ps| ==> ps[i].Env?
    ensures StopAt(Outcomes(ps, world), 0) == |ps|
    ensures Failed(names, Outcomes(ps, world), |ps|) == []
  {
    var outs := Outcomes(ps, world);
    FailedNone(names, outs, |ps|);
  }

  lemma {:induction false} FailedNone(names: seq<string>, outs: seq<Result<bool>>, n: nat)
    requires n <= |names| == |outs| && forall i :: 0 <= i < n ==> outs[i] == Ok(true)
    ensures Failed(names, outs, n) == []
  {
    if n > 0 {
      FailedNone(names, outs, n - 1);
    }
  }

  /** The names among `names[..n]` whose update returned False or raised AttributeError; both are logged. */
  function Failed(names: seq<string>, outs: seq<Result<bool>>, n: nat): seq<string>
    requires n <= |names| == |outs|
  {
    if n == 0 then []
    else Failed(names, outs, n - 1) + if outs[n - 1] == Ok(false) || outs[n - 1] == Err(AttributeError) then [names[n - 1]] else []
  }

  /** No two positions of `ps` share a file-provider object. */
  predicate Separate(ps: seq<Provider>)
  {
    forall i, j :: 0 <= i < |ps| && 0 <= j < |ps| && i != j && ps[i].Files? && ps[j].Files? ==> ps[i].fs != ps[j].fs
  }

  /** The file-provider objects of `ps`. */
  function FileObjects(ps: seq<Provider>): set<object>
  {
    set i | 0 <= i < |ps| && ps[i].Files? :: ps[i].fs
  }

  /**
   * The loop of `update_all()` over the providers `ps`, registered under
   * `names`: each provider is updated in turn until one raises an exception
   * other than AttributeError.
   */
  method UpdateEach(names: seq<string>, ps: seq<Provider>, world: World) returns (r: Result<seq<string>>)
    requires |names| == |ps| && Separate(ps)
    modifies FileObjects(ps)
    ensures var outs := Outcomes(ps, world);
            var k := StopAt(outs, 0);
            r == if k < |outs| then Err(outs[k].error) else Ok(Failed(names, outs, |outs|))
    ensures forall i :: 0 <= i < |ps| && ps[i].Files? ==>
              ps[i].fs.State() == if i <= StopAt(Outcomes(ps, world), 0)
                                  then Filesystem.AfterUpdate(ps[i].fs.path, ps[i].fs.prefix, old(ps[i].fs.State()), world.disk)
                                  else old(ps[i].fs.State())
  {
    ghost var outs := Outcomes(ps, world);
    ghost var k := StopAt(outs, 0);
    ghost var before := seq(|ps|, j requires 0 <= j < |ps| reads FileObjects(ps) => if ps[j].Files? then ps[j].fs.State() else Filesystem.FsState(None, None, []));
    var failed: seq<string> := [];
    for i := 0 to |ps|
      invariant i <= k
      invariant failed == Failed(names, outs, i)
      invariant forall j :: 0 <= j < |ps| && ps[j].Files? ==>
                  ps[j].fs.State() == if j < i then Filesystem.AfterUpdate(ps[j].fs.path, ps[j].fs.prefix, before[j], world.disk) else before[j]
    {
      var ok := Update(ps[i], world);
      if ok.Err? && ok.error != AttributeError {
        return Err(ok.error);
      }
      if ok == Ok(false) || ok == Err(AttributeError) {
        failed := failed + [names[i]];
      }
    }
    return Ok(failed);
  }

  class ProviderManager {
    var ordering: seq<string>
    var providers: map<string, Provider>

    /** `ordering` has no duplicates, names exactly the registered providers, and each under its own name. */
    ghost predicate Valid()
      reads this
    {
      NoDuplicates(ordering) &&
      (forall n :: n in providers <==> n in ordering) &&
      (forall n :: n in providers ==> Name(providers[n]) == n)
    }

    /** The file providers' objects, which `update_all` may change. */
    function Objects(): set<object>
      reads this
    {
      set n | n in providers && providers[n].Files? :: providers[n].fs
    }

    /** `ProviderManager(providers)`: registers the given providers in order. */
    constructor (initial: seq<Provider>)
      ensures Valid()
      ensures ordering == RegisteredNames(initial, |initial|)
      ensures forall n :: n in providers ==> Some(providers[n]) == FirstNamed(initial, |initial|, n)
    {
      ordering := [];
      providers := map[];
      new;
      for i := 0 to |initial|
        invariant Valid()
        invariant Registered(initial, i, ordering, providers)
      {
        RegisteredStep(initial, i, ordering, providers);
        Register(initial[i]);
      }
    }

    /** `get(name)`: the provider registered under `name`, or None. */
    function Get(name: string): (r: Option<Provider>)
      reads this
      requires Valid()
      ensures r.Some? <==> name in ordering
      ensures r.Some? ==> Name(r.value) == name
    {
      if name in providers then Some(providers[name]) else None
    }

    /** `register(provider)`: a name already registered keeps its provider and its place. */
    method Register(p: Provider)
      requires Valid()
      modifies this
      ensures Valid()
      ensures Name(p) in old(providers) ==> ordering == old(ordering) && providers == old(providers)
      ensures Name(p) !in old(providers) ==>
                ordering == old(ordering) + [Name(p)] && providers == old(providers)[Name(p) := p]
    {
      var name := Name(p);
      if name !in providers {
        providers := providers[name := p];
        ordering := ordering + [name];
      }
    }

    /** `deregister(name)`: the name leaves `ordering` and its provider goes; an unknown name changes nothing. */
    method Deregister(name: string)
      requires Valid()
      modifies this
      ensures Valid()
      ensures providers == old(providers) - {name}
      ensures ordering == Without(old(ordering), name)
    {
      providers := providers - {name};
      var kept: seq<string> := [];
      for i := 0 to |ordering|
        invariant kept == Without(ordering[..i], name)
      {
        assert ordering[..i + 1][..i] == ordering[..i];
        if ordering[i] != name {
          kept := kept + [ordering[i]];
        }
      }
      assert ordering[..|ordering|] == ordering;
      WithoutMembers(ordering, name);
      WithoutNoDuplicates(ordering, name);
      ordering := kept;
    }

    /**
     * `update_all()`: calls `update()` on each provider in `ordering` order.
     * A False result or an AttributeError is logged and the loop goes on;
     * any other exception ends it and propagates. Returns the logged names.
     */
    method UpdateAll(world: World) returns (r: Result<seq<string>>)
      requires Valid()
      modifies Objects()
      ensures var outs := Outcomes(InOrder(), world);
              var k := StopAt(outs, 0);
              r == if k < |outs| then Err(outs[k].error) else Ok(Failed(ordering, outs, |outs|))
      ensures var ps := InOrder();
              forall i :: 0 <= i < |ps| && ps[i].Files? ==>
                ps[i].fs.State() == if i <= StopAt(Outcomes(ps, world), 0)
                                    then Filesystem.AfterUpdate(ps[i].fs.path, ps[i].fs.prefix, old(ps[i].fs.State()), world.disk)
                                    else old(ps[i].fs.State())
    {
      var ps := InOrder();
      InOrderSeparate();
      r := UpdateEach(ordering, ps, world);
    }

    /** The registered providers in `ordering` order. */
    function InOrder(): (ps: seq<Provider>)
      reads this
      requires Valid()
      ensures |ps| == |ordering| && forall i :: 0 <= i < |ps| ==> ps[i] == providers[ordering[i]]
      ensures forall i :: 0 <= i < |ps| ==> Name(ps[i]) == ordering[i]
      ensures FileObjects(ps) <= Objects()
    {
      seq(|ordering|, i requires 0 <= i < |ordering| && ordering[i] in providers reads this => providers[ordering[i]])
    }

    /** Different positions of `ordering` hold different file-provider objects. */
    lemma InOrderSeparate()
      requires Valid()
      ensures Separate(InOrder())
    {
    }
  }

  lemma {:induction false} WithoutMembers(names: seq<string>, name: string)
    ensures forall n :: n in Without(names, name) <==> n in names && n != name
  {
    if names != [] {
      WithoutMembers(names[..|names| - 1], name);
      assert names == names[..|names| - 1] + [names[|names| - 1]];
    }
  }

  lemma {:induction false} WithoutNoDuplicates(names: seq<string>, name: string)
    requires NoDuplicates(names)
    ensures NoDuplicates(Without(names, name))
  {
    if names != [] {
      var init := names[..|names| - 1];
      WithoutNoDuplicates(init, name);
      WithoutMembers(init, name);
      assert names[|names| - 1] !in init;
    }
  }
}
