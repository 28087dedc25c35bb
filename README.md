# Volume driver registry, modelled in Dafny

This project models the driver registry of the openstorage `volume` package.
Storage backends register a factory under a driver name. A caller then
instantiates the driver by name with a string-to-string configuration. The
registry caches that one instance, hands it out on lookup, and shuts every
cached instance down at teardown. The state is two maps:

- `drivers`: name → factory;
- `instances`: name → live driver.

`Register`, `New`, `Get` and `Shutdown` act on these maps. Failures are the
package's fixed error values, or the factory's own error, which `New` passes
on.

Files:

- `volume.dfy` (module `Volume`) holds the shared vocabulary. It has the
  error values, the `Result`/`Outcome` return shapes and an
  opaque `Factory` handle. It also has the `Driver` class, whose only
  modelled method is `Shutdown`; a counter records each call to it.
- `registry_model.dfy` (module `RegistryModel`) is the registry as a state
  machine over the two maps. `Register`, `New` and `Get` are step functions.
  Lemmas about single steps sit beside them.
- `registry.dfy` (module `Registry`) holds the class `DriverRegistry`. Its
  fields are the two maps, and a ghost log records every factory call.
  `Register` and `New` update the maps in place, and each is proved to equal
  the model's step. `Shutdown` is a loop over the keys of `instances` that
  calls `Shutdown` on each driver.
- `traces.dfy` (module `Traces`) covers sequences of calls. The package's
  mutex serialises concurrent callers, so any concurrent history is one such
  sequence. The lemmas here hold for every sequence.

A factory is not executed. `New` takes `made`, the value the factory returns
when called, which is either a driver or an error. `made` is used only when
the registry actually calls the factory. The ghost `factoryCalls` log in the
class and the `consulted` flag in traces record when that happens.

`Register` accepts any name, including the empty string, as the code does.
No operation in the model takes a lock; the race from `Get`'s unlocked read
is listed under "## Left out".

## Model

| member | source | states |
|---|---|---|
| `Volume.Driver.Shutdown` | volume/volume.go:110-111 | A driver's shutdown is observed as exactly one more call on that driver. |
| `RegistryModel.Register` | volume/volume.go:174-182 | A taken name gives `ErrExist` and leaves the state unchanged. A fresh name gives success and adds exactly that name → factory entry; `instances` and every other factory stay as they were, and the invariant is kept. |
| `RegistryModel.New` | volume/volume.go:156-172 | Checks are made in order. A name with an instance gives `ErrExist`: nothing changes, and neither the factory nor the cached instance is used. A name with no factory gives `ErrNotSupported` and nothing changes. A failing factory's error is returned and nothing changes. A succeeding factory's driver is stored under the name and returned, and no other entry changes. Success happens exactly when the factory is called and succeeds. Entries are never removed, and the invariant is kept. |
| `RegistryModel.Get` | volume/volume.go:149-154 | Returns the cached instance exactly when the name has one; otherwise returns `ErrDriverNotFound`. |
| `RegistryModel.ShutdownOncePerDriver` | volume/volume.go:141-147 | When no driver is cached under two names, every live driver has exactly one entry, so it is shut down exactly once. |
| `RegistryModel.NewKeepsInjective` | volume/volume.go:163-169 | `New` never makes two names share a driver, unless the factory returns a driver that is already cached. |
| `RegistryModel.RegisterTwice` | volume/volume.go:177-181 | Registering a name twice succeeds and then fails with `ErrExist`; the first factory stays registered. |
| `RegistryModel.NewBeforeRegister` | volume/volume.go:163-171 | Instantiating a name that has no factory fails with `ErrNotSupported` and changes nothing. |
| `RegistryModel.NewTwice` | volume/volume.go:160-169 | After a successful `New`, a second `New` for the same name fails with `ErrExist` without calling the factory, and `Get` still returns the first instance. |
| `RegistryModel.NewRetriable` | volume/volume.go:164-166 | After a failed factory call the name is left uninstantiated, so the next `New` calls the factory again and can succeed. |
| `Registry.DriverRegistry.constructor` | volume/volume.go:22-23 | The registry starts with both maps empty and no factory calls, and the invariant holds. |
| `Registry.DriverRegistry.Register` | volume/volume.go:174-182 | The in-place update of `drivers` equals the model's `Register`. The call succeeds exactly for a fresh name, no factory is called, and the invariant is kept. |
| `Registry.DriverRegistry.New` | volume/volume.go:156-172 | The in-place update of `instances` and the reply equal the model's `New`. The factory registered for the name is called, once and with the given configuration, exactly when the name has a factory and no instance; the log records which factory that was. The invariant is kept. |
| `Registry.DriverRegistry.Get` | volume/volume.go:149-154 | Read-only lookup. It agrees with the model's `Get`, and a success returns the cached entry. |
| `Registry.DriverRegistry.Shutdown` | volume/volume.go:141-147 | Calls `Shutdown` once per map entry, in any order, and changes no other object. A driver cached under k names gets k calls. Neither map changes, and no factory is called. With no instances, nothing is modified. |
| `Registry.NewThenGet` | volume/drivers/aws/aws_test.go:16-23 | `New` followed by `Get` while ignoring `New`'s error, as in the integration test. `Get` returns the instance cached before, or the one the factory just built. It fails with `ErrDriverNotFound` exactly when neither exists. The registry is left as the model's `New` leaves it, the factory log grows as for `New`, and the invariant is kept. |
| `Traces.Step` | volume/volume.go:141-182 | No single operation removes or replaces an entry, and each keeps the invariant. `Get` and `Shutdown` leave both maps unchanged. |
| `Traces.RunExtends` | volume/volume.go:163-180 | No sequence of operations removes or replaces a factory or an instance, and every sequence keeps the invariant. |
| `Traces.InvariantFromEmpty` | volume/volume.go:22-23 | From the empty registry, every reachable state has a registered factory for each live instance. |
| `Traces.InstanceIsFinal` | volume/volume.go:160-161 | Once a name has an instance, no later call runs its factory or creates another instance. Every `New` for that name fails with `ErrExist`, and every `Get` returns that same instance. |
| `Traces.AtMostOneInstantiation` | volume/volume.go:156-172 | In any sequence of calls, at most one `New` creates the instance for a name, and none does if the name already has one. |
| `Traces.ConcurrentNew` | volume/volume.go:157-169 | k serialised `New` calls race for a registered name that has no instance yet and whose factory succeeds. The first gets the instance and is the only factory call; the other k−1 get `ErrExist`. |
| `Traces.GetBeforeNewRun` | volume/volume.go:149-153 | In any sequence of calls from a state where the name has no instance, every `Get` of that name made before the first successful `New` of it fails with `ErrDriverNotFound`, failed `New` calls in between included. |
| `Traces.GetAfterNew` | volume/volume.go:149-169 | After a successful `New`, every later `Get` of that name returns the same instance, whatever happens in between. |
| `Traces.UnregisteredNameIsInert` | volume/volume.go:163-171 | While a name has no factory, every `New` for it fails with `ErrNotSupported` without calling a factory, and every `Get` fails with `ErrDriverNotFound`. |

## Left out

- The mutex (volume/volume.go:24). Each operation is one atomic step, and a concurrent history is modelled as a sequence of steps. That `Get` reads `instances` without the lock is a data race in the code. The model does not capture it.
- Running a factory. `New` receives the factory's result as the parameter `made`. A factory that returns a nil driver together with a nil error is not modelled. The code would cache the nil driver under the name, and a later `Shutdown` would call a method on it.
- The methods of the `IODriver`, `ProtoDriver`, `Enumerator` and `BlockDriver` interfaces (volume/volume.go:29-139), other than `Shutdown`. They are declarations without bodies. A driver is an opaque object, and its `Shutdown` only counts calls.
- A nil factory. `Factory` has no nil value, so `Register(name, nil)` has no counterpart here. In the code, a later `New(name, …)` would call the nil function at volume/volume.go:164 and panic.
- The `api` types (volume locator, spec, stats, alerts, driver type). Their package is not part of this model.
- `Shutdown`'s map iteration order, which Go leaves unspecified. The loop chooses any pending key. The contract fixes only how many calls each driver receives.
- The configuration map passed to a factory. Only the ghost `factoryCalls` log records it, because no registry decision depends on it.
- `Volume.Driver.Shutdown`: a backend's shutdown may do anything. The model observes only that it was called.
