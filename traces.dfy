/** Sequences of registry operations. The package's mutex makes concurrent
    callers take turns, so every concurrent history is one of these sequences;
    the lemmas below hold for all of them. */
module Traces {
  import opened Volume
  import opened RegistryModel

  /** One call into the registry. A `NewOp` carries what the factory would
      return if called. */
  datatype Op =
    | RegisterOp(name: string, initFunc: Factory)
    | NewOp(name: string, made: Result<Driver>)
    | GetOp(name: string)
    | ShutdownOp

  /** What the call returned; for `New`, also whether it called the factory. */
  datatype Reply =
    | Registered(outcome: Outcome)
    | Created(result: Result<Driver>, consulted: bool)
    | Found(result: Result<Driver>)
    | ShutDown

  /** One call, as the matching step of the model. `Shutdown` leaves both maps
      as they are. */
  function Step(s: State, op: Op): (t: Transition<Reply>)
    ensures Extends(s, t.next)
    ensures Inv(s) ==> Inv(t.next)
    ensures op.GetOp? || op.ShutdownOp? ==> t.next == s
  {
    match op
    case RegisterOp(name, f) =>
      var r := Register(s, name, f);
      Transition(r.next, Registered(r.reply))
    case NewOp(name, made) =>
      var r := New(s, name, made);
      Transition(r.next, Created(r.reply, ConsultsFactory(s, name)))
    case GetOp(name) => Transition(s, Found(Get(s, name)))
    case ShutdownOp => Transition(s, ShutDown)
  }

  /** The calls in `ops`, one after the other, and their replies in order. */
  function Run(s: State, ops: seq<Op>): (t: Transition<seq<Reply>>)
    ensures |t.reply| == |ops|
    decreases |ops|
  {
    if ops == [] then Transition(s, [])
    else
      var first := Step(s, ops[0]);
      var rest := Run(first.next, ops[1..]);
      Transition(rest.next, [first.reply] + rest.reply)
  }

  /** How many calls in `ops` created the instance for `name`. */
  function Instantiations(ops: seq<Op>, replies: seq<Reply>, name: string): nat
    requires |replies| == |ops|
  {
    if ops == [] then 0
    else
      (if ops[0].NewOp? && ops[0].name == name && replies[0].Created? && replies[0].result.Ok? then 1 else 0)
      + Instantiations(ops[1..], replies[1..], name)
  }

  /** How many calls in `ops` called the factory registered for `name`. */
  function FactoryCalls(ops: seq<Op>, replies: seq<Reply>, name: string): nat
    requires |replies| == |ops|
  {
    if ops == [] then 0
    else
      (if ops[0].NewOp? && ops[0].name == name && replies[0].Created? && replies[0].consulted then 1 else 0)
      + FactoryCalls(ops[1..], replies[1..], name)
  }

  /** Proof helper: the first reply of a run is the reply of its first step,
      and the rest are the replies of the run from the state that step leaves. */
  lemma RunUnfold(s: State, ops: seq<Op>)
    requires ops != []
    ensures var first := Step(s, ops[0]);
            var rest := Run(first.next, ops[1..]);
            && Run(s, ops).next == rest.next
            && Run(s, ops).reply[0] == first.reply
            && Run(s, ops).reply[1..] == rest.reply
  {
  }

  /** No sequence of calls removes or replaces a factory or an instance, and
      every sequence keeps each live instance's name registered. */
  lemma {:induction false} RunExtends(s: State, ops: seq<Op>)
    ensures Extends(s, Run(s, ops).next)
    ensures Inv(s) ==> Inv(Run(s, ops).next)
    decreases |ops|
  {
    if ops != [] {
      var first := Step(s, ops[0]);
      RunExtends(first.next, ops[1..]);
    }
  }

  /** From the empty registry, whatever calls are made, every name with a live
      instance has a registered factory. */
  lemma InvariantFromEmpty(ops: seq<Op>)
    ensures Inv(Run(Empty, ops).next)
  {
    RunExtends(Empty, ops);
  }

  /** Once `name` has an instance, no call ever invokes its factory again or
      creates another instance, every `New(name)` fails with `ErrExist`, and
      every `Get(name)` returns that same instance. */
  lemma {:induction false} InstanceIsFinal(s: State, ops: seq<Op>, name: string)
    requires name in s.instances
    ensures var t := Run(s, ops);
            && FactoryCalls(ops, t.reply, name) == 0
            && Instantiations(ops, t.reply, name) == 0
            && name in t.next.instances && t.next.instances[name] == s.instances[name]
    ensures forall i :: 0 <= i < |ops| && ops[i] == GetOp(name) ==>
              Run(s, ops).reply[i] == Found(Ok(s.instances[name]))
    ensures forall i :: 0 <= i < |ops| && ops[i].NewOp? && ops[i].name == name ==>
              Run(s, ops).reply[i] == Created(Err(ErrExist), false)
    decreases |ops|
  {
    if ops != [] {
      var first := Step(s, ops[0]);
      InstanceIsFinal(first.next, ops[1..], name);
      RunUnfold(s, ops);
      var r := Run(s, ops).reply;
      forall i | 1 <= i < |ops|
        ensures r[i] == Run(first.next, ops[1..]).reply[i - 1] && ops[i] == ops[1..][i - 1]
      {
      }
    }
  }

  /** However many calls are made, in whatever order, at most one of them
      creates the instance for `name`, and none does if it already exists:
      the registry never builds a second instance for a name. */
  lemma {:induction false} AtMostOneInstantiation(s: State, ops: seq<Op>, name: string)
    ensures Instantiations(ops, Run(s, ops).reply, name) <= if name in s.instances then 0 else 1
    decreases |ops|
  {
    if name in s.instances {
      InstanceIsFinal(s, ops, name);
    } else if ops != [] {
      var first := Step(s, ops[0]);
      RunUnfold(s, ops);
      if name in first.next.instances {
        InstanceIsFinal(first.next, ops[1..], name);
      } else {
        AtMostOneInstantiation(first.next, ops[1..], name);
      }
    }
  }

  /** k callers racing to instantiate a registered name whose factory would
      succeed: the first to take the lock calls the factory and gets the
      instance, every other one gets `ErrExist` without a factory call. */
  lemma ConcurrentNew(s: State, name: string, ops: seq<Op>)
    requires ConsultsFactory(s, name)
    requires ops != []
    requires forall i :: 0 <= i < |ops| ==> ops[i].NewOp? && ops[i].name == name
    requires ops[0].made.Ok?
    ensures var r := Run(s, ops).reply;
            && r[0] == Created(ops[0].made, true)
            && (forall i :: 1 <= i < |ops| ==> r[i] == Created(Err(ErrExist), false))
            && FactoryCalls(ops, r, name) == 1
            && Instantiations(ops, r, name) == 1
  {
    var first := Step(s, ops[0]);
    RunUnfold(s, ops);
    InstanceIsFinal(first.next, ops[1..], name);
    var r := Run(s, ops).reply;
    forall i | 1 <= i < |ops|
      ensures r[i] == Created(Err(ErrExist), false)
    {
      assert r[i] == Run(first.next, ops[1..]).reply[i - 1];
      assert ops[1..][i - 1] == ops[i];
    }
  }

  /** After `New(name)` succeeds, every later `Get(name)`, whatever else
      happens in between, returns the instance that `New` returned. */
  lemma GetAfterNew(s: State, name: string, made: Result<Driver>, ops: seq<Op>)
    requires New(s, name, made).reply.Ok?
    ensures forall i :: 0 <= i < |ops| && ops[i] == GetOp(name) ==>
              Run(New(s, name, made).next, ops).reply[i] == Found(made)
  {
    InstanceIsFinal(New(s, name, made).next, ops, name);
  }

  /** True when the `j`-th call of `ops` created the instance for `name`. */
  predicate CreatedAt(ops: seq<Op>, replies: seq<Reply>, j: int, name: string)
    requires |replies| == |ops| && 0 <= j < |ops|
  {
    ops[j].NewOp? && ops[j].name == name && replies[j].Created? && replies[j].result.Ok?
  }

  /** Before `New(name)` first succeeds, every `Get(name)` reports the driver
      as not found, however many calls come first, failed `New(name)` calls
      included. */
  lemma {:induction false} GetBeforeNewRun(s: State, ops: seq<Op>, name: string)
    requires name !in s.instances
    ensures var r := Run(s, ops).reply;
            forall i :: 0 <= i < |ops| && ops[i] == GetOp(name) &&
                        (forall j :: 0 <= j < i ==> !CreatedAt(ops, r, j, name)) ==>
              r[i] == Found(Err(ErrDriverNotFound))
    decreases |ops|
  {
    if ops != [] {
      var first := Step(s, ops[0]);
      RunUnfold(s, ops);
      var r := Run(s, ops).reply;
      if !CreatedAt(ops, r, 0, name) {
        assert name !in first.next.instances;
        GetBeforeNewRun(first.next, ops[1..], name);
        var rest := Run(first.next, ops[1..]).reply;
        forall i | 1 <= i < |ops| && ops[i] == GetOp(name) &&
                   (forall j :: 0 <= j < i ==> !CreatedAt(ops, r, j, name))
          ensures r[i] == Found(Err(ErrDriverNotFound))
        {
          assert ops[1..][i - 1] == ops[i] && r[i] == rest[i - 1];
          forall j | 0 <= j < i - 1
            ensures !CreatedAt(ops[1..], rest, j, name)
          {
            assert ops[1..][j] == ops[j + 1] && rest[j] == r[j + 1];
            assert !CreatedAt(ops, r, j + 1, name);
          }
        }
      }
    }
  }

  /** Until a factory is registered for `name`, every `New(name)` fails with
      `ErrNotSupported` without side effects and every `Get(name)` reports the
      driver as not found. */
  lemma {:induction false} UnregisteredNameIsInert(s: State, ops: seq<Op>, name: string)
    requires Inv(s) && name !in s.drivers
    requires forall i :: 0 <= i < |ops| ==> !(ops[i].RegisterOp? && ops[i].name == name)
    ensures forall i :: 0 <= i < |ops| && ops[i].NewOp? && ops[i].name == name ==>
              Run(s, ops).reply[i] == Created(Err(ErrNotSupported), false)
    ensures forall i :: 0 <= i < |ops| && ops[i] == GetOp(name) ==>
              Run(s, ops).reply[i] == Found(Err(ErrDriverNotFound))
    ensures name !in Run(s, ops).next.drivers
    decreases |ops|
  {
    if ops != [] {
      var first := Step(s, ops[0]);
      assert name !in first.next.drivers;
      UnregisteredNameIsInert(first.next, ops[1..], name);
      RunUnfold(s, ops);
      var r := Run(s, ops).reply;
      forall i | 1 <= i < |ops|
        ensures r[i] == Run(first.next, ops[1..]).reply[i - 1] && ops[i] == ops[1..][i - 1]
      {
      }
    }
  }
}
