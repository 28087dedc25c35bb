/** The process-wide registry: the `drivers` and `instances` maps as fields of
    one object, updated in place by `Register` and `New`, read by `Get`, and
    walked by `Shutdown`. Each method is proved to do what the matching step
    of `RegistryModel` describes. */
module Registry {
  import opened Volume
  import opened RegistryModel

  class DriverRegistry {
    var drivers: map<string, Factory>
    var instances: map<string, Driver>
    /** Every call of a registered factory: the name it was called for, the
        factory called, and the configuration passed, oldest first. */
    ghost var factoryCalls: seq<(string, Factory, Config)>

    /** The registry's maps as a model state. */
    function Abstract(): State
      reads this
    {
      State(drivers, instances)
    }

    predicate Valid()
      reads this
    {
      Inv(Abstract())
    }

    /** The registry starts with no factories and no instances. */
    constructor ()
      ensures Abstract() == Empty && factoryCalls == []
      ensures Valid()
    {
      drivers := map[];
      instances := map[];
      factoryCalls := [];
    }

    /** Record `initFunc` under `name`; `ErrExist` if the name is taken. */
    method Register(name: string, initFunc: Factory) returns (err: Outcome)
      modifies this
      ensures Transition(Abstract(), err) == RegistryModel.Register(old(Abstract()), name, initFunc)
      ensures err == Pass <==> name !in old(drivers)
      ensures factoryCalls == old(factoryCalls)
      ensures old(Valid()) ==> Valid()
    {
      if name in drivers {
        return Fail(ErrExist);
      }
      drivers := drivers[name := initFunc];
      return Pass;
    }

    /** Create and cache the instance for `name`, calling its factory with
        `params` only when the name has a factory and no instance yet;
        `made` is what that call returns. */
    method New(name: string, params: Config, made: Result<Driver>) returns (r: Result<Driver>)
      modifies this
      ensures Transition(Abstract(), r) == RegistryModel.New(old(Abstract()), name, made)
      ensures factoryCalls == old(factoryCalls) +
        (if ConsultsFactory(old(Abstract()), name) then [(name, old(drivers)[name], params)] else [])
      ensures old(Valid()) ==> Valid()
    {
      if name in instances {
        return Err(ErrExist);
      }
      if name in drivers {
        var initFunc := drivers[name];
        factoryCalls := factoryCalls + [(name, initFunc, params)];
        if made.Err? {
          return made;
        }
        instances := instances[name := made.value];
        return made;
      }
      return Err(ErrNotSupported);
    }

    /** Look up the cached instance for `name`. */
    method Get(name: string) returns (r: Result<Driver>)
      ensures r == RegistryModel.Get(Abstract(), name)
      ensures r.Ok? ==> name in instances && r.value == instances[name]
    {
      if name in instances {
        return Ok(instances[name]);
      }
      return Err(ErrDriverNotFound);
    }

    /** Call `Shutdown` on the instance of every name, in no particular order.
        Both maps are left as they were; a driver cached under k names is shut
        down k times, so an unshared driver exactly once. */
    method Shutdown()
      modifies instances.Values
      ensures Abstract() == old(Abstract()) && factoryCalls == old(factoryCalls)
      ensures forall d :: d in instances.Values ==>
        d.shutdowns == old(d.shutdowns) + |NamesOf(instances, d)|
    {
      var pending := instances.Keys;
      while pending != {}
        invariant pending <= instances.Keys
        invariant forall d :: d in instances.Values ==>
          d.shutdowns == old(d.shutdowns) + |NamesOf(instances, d) - pending|
        decreases pending
      {
        var name :| name in pending;
        var v := instances[name];
        v.Shutdown();
        forall d | d in instances.Values
          ensures d.shutdowns == old(d.shutdowns) + |NamesOf(instances, d) - (pending - {name})|
        {
          NamesDone(instances, d, pending, name);
        }
        pending := pending - {name};
      }
      assert pending == {};
    }
  }

  /** A client that instantiates `name` and then looks it up, ignoring the
      error from `New` as the integration test does: the lookup finds the
      instance just built, or the one cached before, and otherwise reports
      the driver as not found. */
  method NewThenGet(reg: DriverRegistry, name: string, params: Config, made: Result<Driver>)
    returns (d: Result<Driver>)
    modifies reg
    ensures old(name in reg.instances) ==> d == Ok(old(reg.instances[name]))
    ensures old(ConsultsFactory(reg.Abstract(), name)) && made.Ok? ==> d == made
    ensures d.Err? <==> old(name !in reg.instances) && !(old(name in reg.drivers) && made.Ok?)
    ensures d.Err? ==> d.error == ErrDriverNotFound
    ensures reg.Abstract() == RegistryModel.New(old(reg.Abstract()), name, made).next
    ensures reg.factoryCalls == old(reg.factoryCalls) +
      (if old(ConsultsFactory(reg.Abstract(), name)) then [(name, old(reg.drivers)[name], params)] else [])
    ensures old(reg.Valid()) ==> reg.Valid()
  {
    var _ := reg.New(name, params, made);
    d := reg.Get(name);
  }
}
