# configurable, modelled in Dafny

`configurable` is a small Ruby library. A class that includes `Configurable`
declares a default configuration Hash once. Callers may later override the
values of the declared keys. Anyone may read the class's current
configuration. Beside that per-class registry the library has a second,
independent store, `Configurable::Config`. It holds nested configuration data
whose key set is fixed when the node is built, and it offers attribute-style
reads and writes (`cfg.timeout`, `cfg.timeout = 5`).

The two components do not use each other: `ClassMethods` stores a plain Hash,
not a `Config`. They are modelled separately.

- `errors.dfy`, module `Errors`: the three exception classes
  (`DefaultConfigNotExists`, `ConfigParamNotFound`, `NotConfigured`) as one
  enumeration, and `Result`/`Outcome` for calls that return or raise.
- `values.dfy`, module `Values`: Hash keys (`Sym` for a Symbol, `Str` for a
  String), `ToSym` for `to_sym`, and input shapes (`Scalar` or a `Hash` of
  entries in insertion order).
- `configurable.dfy`, module `Configurable`: class `Owner` stands for one
  class that includes `Configurable`. Its field `config` is that class's
  `@config`, which is `None` until `DefaultConfiguration` fills it.
  `Configured` and `Current` are the specification functions that
  `Configure` and `Config` are proved against.
- `config.dfy`, module `ConfigStore`: class `Config`, with `data` (the
  `@data` Hash, keyed by normalised name) and `locked` (`@lock`). A ghost
  footprint `Repr` and the invariant `Valid` keep the nested nodes a tree.
  `Stores(input)` states what a node holds after it is built from `input`.
  `Dispatch` is the name-to-read/write rule of `method_missing`.
- `scenarios.dfy`, module `Scenarios`: call sequences on both stores. Each is
  proved from the methods' contracts alone. They cover the cases of
  `spec/configurable_spec.rb` and the properties that only show over several
  calls.

Four behaviours of the code worth knowing:
- The registry keeps a plain Hash, not a nested `Config`
  (lib/configurable.rb:45).
- `configure` on an owner without a default raises `DefaultConfigNotExists`,
  a different error from `config`'s `NotConfigured`
  (lib/configurable.rb:62-63, 84).
- `configure` checks every key before it changes anything, so a rejected
  override is all-or-nothing (lib/configurable.rb:65-70).
- Re-declaring a default replaces the stored Hash outright, discarding
  earlier overrides (lib/configurable.rb:45).

## Model

| member | source | states |
|---|---|---|
| `Configurable.Configured` | lib/configurable.rb:61-71 | Raises `DefaultConfigNotExists` exactly when there is no default. Raises `ConfigParamNotFound` exactly when some override key is undeclared. Never raises `NotConfigured`. On success the key set is unchanged, every override key holds the override's value, and every other key keeps its value. |
| `Configurable.Current` | lib/configurable.rb:83-86 | Returns the stored Hash exactly when one is stored. Otherwise raises `NotConfigured`. |
| `Configurable.ConfigureIdempotent` | lib/configurable.rb:65-70 | An override of declared keys is accepted. Applying it a second time leaves the same Hash as applying it once. |
| `Configurable.ConfigureComposes` | lib/configurable.rb:65-70 | Two accepted overrides in a row equal one override with the second merged over the first. |
| `Configurable.NestedHashReplacedWhole` | lib/configurable.rb:65-70 | Only top-level keys are validated. A nested Hash under a declared key is accepted whatever its inner keys are, and it replaces the old value whole. |
| `Configurable.Owner.constructor` | lib/configurable.rb:24-26 | A class that has just included `Configurable` has no configuration. |
| `Configurable.Owner.DefaultConfiguration` | lib/configurable.rb:44-46 | The slot holds exactly the given Hash, whatever it held before. |
| `Configurable.Owner.Configure` | lib/configurable.rb:61-71 | The result is `Configured` of the old slot. The slot takes the merged Hash on success and is untouched on any failure. |
| `Configurable.Owner.Config` | lib/configurable.rb:83-86 | Returns `Current` of the slot and changes nothing. |
| `ConfigStore.Lookup` | lib/configurable/config.rb:28-31 | What writing the input entries in order leaves under a name. When it finds something, that value is one of the input's values. |
| `ConfigStore.LookupFindsLast` | lib/configurable/config.rb:28-31 | The value left under a name is that of the last entry whose key normalises to it. Later writes override earlier ones. |
| `ConfigStore.LookupFindsEveryKey` | lib/configurable/config.rb:28-31 | A value is left under a name exactly when some key of the input normalises to that name. |
| `ConfigStore.Dispatch` | lib/configurable/config.rb:9-15 | A name is a write exactly when it has at least two characters and ends in `=`. The write goes to the name without its `=`, which is never empty. Every other name, a bare `=` included, reads the key of that name. |
| `ConfigStore.SetterDispatch` | lib/configurable/config.rb:9-15 | The setter name `key=` of every non-empty key is dispatched as a write to `key`. |
| `ConfigStore.Config.constructor` | lib/configurable/config.rb:4-7 | A new node is a tree of fresh nodes and is locked. Nested nodes under different keys share no node, so every Hash entry gets a node of its own. It stores its input: the normalised input keys, the last scalar verbatim, or a locked nested node for the last Hash, recursively. |
| `ConfigStore.Config.Update` | lib/configurable/config.rb:28-31 | Writing every entry into an empty, unlocked node, then locking it, leaves the node locked and storing the input. |
| `ConfigStore.Config.WriteEntry` | lib/configurable/config.rb:29 | One `self[k] = v` on an unlocked node cannot raise. Afterwards the node stores one more input entry. |
| `ConfigStore.Config.Lock` | lib/configurable/config.rb:33-35 | The node is locked, and no other field changes. |
| `ConfigStore.Config.ValidateKey` | lib/configurable/config.rb:37-45 | Raises `ConfigParamNotFound` exactly when the node is locked (`IsLocked`, which is `locked?`) and the name is not a current key. |
| `ConfigStore.Config.Set` | lib/configurable/config.rb:18-21 | On a locked node an unknown key raises and nothing changes. Otherwise a scalar is stored verbatim. A Hash becomes a fresh, locked node that stores exactly that Hash. No other key changes, the node's lock state is kept, and a locked node's key set is unchanged. It asks nothing of the node, and it keeps the tree invariant `Valid` when that held before. |
| `ConfigStore.Config.Get` | lib/configurable/config.rb:23-26 | Raises `ConfigParamNotFound` exactly when the node is locked and the normalised key is missing. Otherwise returns the stored value (`nil` for a missing key on an unlocked node) and changes nothing. |
| `ConfigStore.Config.Call` | lib/configurable/config.rb:9-15 | A setter name has the effect of `Set` on the named key and evaluates to the assigned argument. Any other name has the effect of `Get` on that name and changes nothing. Like `Set`, it asks nothing of the node. |
| `Scenarios.DeclaredThenRead` | spec/configurable_spec.rb:20-23 | Right after `default_configuration(h)`, `config` returns exactly `h`. |
| `Scenarios.NeverDeclared` | spec/configurable_spec.rb:42-50 | Without a default, `configure({})` raises `DefaultConfigNotExists` and `config` raises `NotConfigured`. These are two different errors. |
| `Scenarios.RedeclareDiscardsOverrides` | lib/configurable.rb:44-46 | Declaring a default again discards every earlier override. |
| `Scenarios.RejectedOverrideIsAtomic` | lib/configurable.rb:65-70 | An override with an undeclared key raises `ConfigParamNotFound`. The stored Hash stays exactly as declared, including the values of the override's declared keys. |
| `Scenarios.OverridesKeepKeySet` | lib/configurable.rb:65-70 | After any sequence of overrides, accepted or rejected, the key set is the declared one. |
| `Scenarios.MyClassSuite` | spec/configurable_spec.rb:4-40 | The declared `{param_one: 1, param_two: 2}` reads back. After `{param_one: 3, param_two: 4}` it reads `{3, 4}`. `{params_four: 10}` raises `ConfigParamNotFound`. |
| `Scenarios.ReadAfterConstruction` | lib/configurable/config.rb:18-31 | After construction, a key raises exactly when it is not an input key. A scalar reads back as the input value. A Hash reads back as a locked node with exactly that Hash's keys. |
| `Scenarios.SpellingsAgree` | lib/configurable/config.rb:19-25 | `:name` and `"name"` read the same entry. |
| `Scenarios.WritesKeepKeySet` | lib/configurable/config.rb:41-45 | After any sequence of writes to a locked node, its key set is the input's. A key outside it still raises `ConfigParamNotFound`. |
| `Scenarios.ReplaceNested` | lib/configurable/config.rb:18-21 | On any node, writing a Hash to a present key succeeds and keeps the key set. The new nested node's key set is exactly the Hash's keys, whatever was there before, and every other key keeps its value. |
| `Scenarios.NestedThenParentWrite` | lib/configurable/config.rb:18-20 | `cfg.a.b = 1` followed by `cfg.a = 2` succeeds twice, and `cfg.a` then reads `2`. |
| `Scenarios.SiblingsIndependent` | lib/configurable/config.rb:20 | Two keys built from equal Hashes get separate nodes: `cfg.a.x = 2` succeeds and `cfg.b.x` still reads `1`. |
| `Scenarios.NestedChain` | lib/configurable/config.rb:18-26 | `{param_three: {nested: 3}}` reads `3` through the nested node. |
| `Scenarios.SetterThenGetter` | lib/configurable/config.rb:9-15 | On a declared key, `name = x` followed by `name` reads back `x`. |

## Left out

- The `self.included` hook that extends a class with `ClassMethods`. An owning class is an explicit `Owner` object.
- Ruby method lookup and visibility behind `method_missing` and the private `[]`/`[]=`. Only the rule that maps a name to a read or a write is modelled. Names that `Object` already defines never reach `method_missing` in Ruby. The model does not know them.
- The error messages built from `self.name`, `inspect` and string interpolation. Only the error kind is modelled.
- Aliasing of the caller's Hash. `default_configuration` keeps the caller's object, `merge!` mutates it, and `config` hands it out. The model treats the stored Hash as a value owned by the registry.
- `default_configuration(nil)` and other non-Hash arguments to `default_configuration` and `configure`. The model accepts only Hashes.
- Hash keys of `Config` other than Symbols and Strings, whose `to_sym` would raise. Scalars are opaque integers. Non-Hash containers, such as an Array of Hashes, are not modelled.
- Writing an existing node as a value (`cfg.a = cfg.b`). Ruby stores any non-Hash value as it is, a `Config` node included, so the two keys then share one node and a write through one shows through the other. In the model a written value is an opaque integer or a Hash, so this sharing cannot arise; `Valid` rules it out as well.
- Registry keys are Symbols or Strings too, although `configure`'s `keys -` check accepts keys of any type. The registry treats keys as opaque, so nothing it does depends on this.
- The order of the registry's top-level Hash. It is a map in the model, so lookups do not depend on order.
- `ConfigStore.Dispatch`: Ruby's `.` and `$` treat a line break specially. The model treats every character of a name alike, so names that contain a line break are not modelled.
- `ConfigStore.Config.Call`: only the first argument of a call is modelled. A setter called with no argument, which would write `nil`, is not modelled.
- `ConfigStore.Config.Update`: it requires an empty, unlocked node, because its only caller is the constructor. A call on a locked node, which would raise partway, is not modelled.
- `ConfigStore.Config.Valid`: the tree invariant is not re-established for a parent after a write through a nested node reached by `Get`, even a scalar write. `Set`, `Call` and `Get` do not need it, so every such call sequence is still modelled, `cfg.a.b = 1; cfg.a = 2` included. Each node's key-set guarantees do not depend on it. What is lost after such a write is only the parent's `Valid`, and with it the promise that the parent and its nested nodes still form a tree.
