/** The driver registry as a state machine over its two maps. Each operation
    is a function from the old state to the new state and the reply, taken as
    one atomic step (the package's mutex serialises them). */
module RegistryModel {
  import opened Volume

  /** `drivers` maps a name to its registered factory, `instances` a name to
      its live driver. */
  datatype State = State(drivers: map<string, Factory>, instances: map<string, Driver>)

  /** The state after a step, and what the step returned. */
  datatype Transition<R> = Transition(next: State, reply: R)

  /** Both maps start empty. */
  const Empty: State := State(map[], map[])

  /** Every live instance belongs to a name that has a registered factory. */
  predicate Inv(s: State)
  {
    s.instances.Keys <= s.drivers.Keys
  }

  /** Every entry of `s` is still in `t`, with the same value. */
  predicate Extends(s: State, t: State)
  {
    && (forall n :: n in s.drivers ==> n in t.drivers && t.drivers[n] == s.drivers[n])
    && (forall n :: n in s.instances ==> n in t.instances && t.instances[n] == s.instances[n])
  }

  /** Record `f` as the factory for `name`, unless one is already recorded. */
  function Register(s: State, name: string, f: Factory): (t: Transition<Outcome>)
    ensures name in s.drivers ==> t.reply == Fail(ErrExist) && t.next == s
    ensures name !in s.drivers ==>
      && t.reply == Pass
      && t.next.drivers.Keys == s.drivers.Keys + {name}
      && t.next.drivers[name] == f
      && t.next.instances == s.instances
    ensures Extends(s, t.next)
    ensures Inv(s) ==> Inv(t.next)
  {
    if name in s.drivers then Transition(s, Fail(ErrExist))
    else Transition(s.(drivers := s.drivers[name := f]), Pass)
  }

  /** True when `New(s, name, _)` calls the factory: the name has no instance
      yet and does have a factory. */
  predicate ConsultsFactory(s: State, name: string)
  {
    name !in s.instances && name in s.drivers
  }

  /** Create the instance for `name`. `made` is what the registered factory
      returns when called with the configuration; it matters only when the
      factory is consulted. */
  function New(s: State, name: string, made: Result<Driver>): (t: Transition<Result<Driver>>)
    // an existing instance wins over everything, and is not handed out
    ensures name in s.instances ==> t == Transition(s, Err(ErrExist))
    ensures name !in s.instances && name !in s.drivers ==> t == Transition(s, Err(ErrNotSupported))
    // a failing factory leaves nothing behind
    ensures ConsultsFactory(s, name) && made.Err? ==> t == Transition(s, made)
    // a succeeding factory's instance is installed under `name` and returned
    ensures ConsultsFactory(s, name) && made.Ok? ==>
      && t.reply == made
      && t.next.drivers == s.drivers
      && t.next.instances.Keys == s.instances.Keys + {name}
      && t.next.instances[name] == made.value
    ensures t.reply.Ok? <==> ConsultsFactory(s, name) && made.Ok?
    ensures t.reply.Ok? || t.next == s
    ensures Extends(s, t.next)
    ensures Inv(s) ==> Inv(t.next)
  {
    if name in s.instances then Transition(s, Err(ErrExist))
    else if name in s.drivers then
      match made
      case Err(_) => Transition(s, made)
      case Ok(d) => Transition(s.(instances := s.instances[name := d]), made)
    else Transition(s, Err(ErrNotSupported))
  }

  /** Look up the live instance for `name`. */
  function Get(s: State, name: string): (r: Result<Driver>)
    ensures r.Ok? <==> name in s.instances
    ensures r.Ok? ==> r.value == s.instances[name]
    ensures r.Err? ==> r.error == ErrDriverNotFound
  {
    if name in s.instances then Ok(s.instances[name]) else Err(ErrDriverNotFound)
  }

  /** The names whose instance is `d`: `Shutdown` calls `d.Shutdown()` once
      for each of them. */
  function NamesOf(instances: map<string, Driver>, d: Driver): set<string>
  {
    set n | n in instances && instances[n] == d
  }

  /** Proof helper for the shutdown loop: taking `name` off the set still to be shut down adds one call for the
      driver cached under it and none for any other driver. */
  lemma NamesDone(instances: map<string, Driver>, d: Driver, pending: set<string>, name: string)
    requires name in pending && name in instances
    ensures |NamesOf(instances, d) - (pending - {name})| ==
      |NamesOf(instances, d) - pending| + (if instances[name] == d then 1 else 0)
  {
    var done := NamesOf(instances, d) - pending;
    if instances[name] == d {
      assert NamesOf(instances, d) - (pending - {name}) == done + {name};
    } else {
      assert NamesOf(instances, d) - (pending - {name}) == done;
    }
  }

  /** No driver is cached under two names. */
  predicate Injective(instances: map<string, Driver>)
  {
    forall n, m :: n in instances && m in instances && n != m ==> instances[n] != instances[m]
  }

  /** When no driver is shared between names, shutting down every entry
      shuts down every live driver exactly once. */
  lemma ShutdownOncePerDriver(instances: map<string, Driver>, d: Driver)
    requires Injective(instances)
    requires d in instances.Values
    ensures |NamesOf(instances, d)| == 1
  {
    var n :| n in instances && instances[n] == d;
    assert NamesOf(instances, d) == {n};
  }

  /** `New` keeps instances unshared as long as the factory builds a driver
      that is not already cached, as a fresh object is not. */
  lemma NewKeepsInjective(s: State, name: string, made: Result<Driver>)
    requires Injective(s.instances)
    requires made.Ok? ==> made.value !in s.instances.Values
    ensures Injective(New(s, name, made).next.instances)
  {
  }

  /** Registering a name twice: the second attempt fails and the first
      factory stays. */
  lemma RegisterTwice(s: State, name: string, f: Factory, g: Factory)
    requires name !in s.drivers
    ensures var t1 := Register(s, name, f);
            var t2 := Register(t1.next, name, g);
            && t1.reply == Pass
            && t2.reply == Fail(ErrExist)
            && t2.next.drivers[name] == f
  {
  }

  /** A name without a factory cannot be instantiated. */
  lemma NewBeforeRegister(s: State, name: string, made: Result<Driver>)
    requires Inv(s)
    requires name !in s.drivers
    ensures New(s, name, made) == Transition(s, Err(ErrNotSupported))
  {
  }

  /** Instantiating twice: the second attempt fails without consulting the
      factory, and lookup still yields the first instance. */
  lemma NewTwice(s: State, name: string, first: Result<Driver>, second: Result<Driver>)
    requires ConsultsFactory(s, name) && first.Ok?
    ensures var t1 := New(s, name, first);
            var t2 := New(t1.next, name, second);
            && t1.reply == first
            && !ConsultsFactory(t1.next, name)
            && t2 == Transition(t1.next, Err(ErrExist))
            && Get(t2.next, name) == first
  {
  }

  /** A failed factory call can be retried: the name is as it was, so the
      next `New` consults the factory again and may succeed. */
  lemma NewRetriable(s: State, name: string, e: Error, d: Driver)
    requires ConsultsFactory(s, name)
    ensures var t1 := New(s, name, Err(e));
            && t1.reply == Err(e)
            && ConsultsFactory(t1.next, name)
            && New(t1.next, name, Ok(d)).reply == Ok(d)
  {
  }
}
