# Presets, modelled in Dafny

`presets` wraps a Python module in a `Preset` proxy so that default parameter values of
every function in the module, and in its submodules, can be overridden in one place:

- `P = Preset(module)` gives a proxy `P`.
- `P['sr'] = 44100` sets an override.
- `P.load(...)` then calls `module.load` with `sr=44100` unless the caller passes `sr` itself.

This project models the proxy in both of its versions:

- the current one, `presets/__init__.py` (module `Presets`);
- the legacy one, `presets.py` (module `LegacyPresets`).

It proves what each version guarantees.

- `PyObjects` describes the part of a Python program the proxy looks at, in plain values.
  Introspection is replaced by a `World`, which maps each module identity to its source file
  (`inspect.getfile`) and its members (`inspect.getmembers`, in order). A `Function` carries
  its identity, its parameter names as `inspect.signature` and `inspect.getargspec` report
  them, and its `__doc__`. The override store is the `DefaultsDict` class, one object that
  every proxy of a tree points at.
- `PathNames` holds `posixpath.dirname` and `os.path.commonprefix` as string functions, with
  the fact `commonprefix([a, b]) == a` exactly when `a` is a character-wise prefix of `b`.
- `Registries` holds facts about the `_dispatch` registry that both versions share: entries
  present when a construction starts are never replaced, the placeholder it writes is
  replaced only by its finished proxy, and the set of unvisited modules shrinks, which is
  why the traversal terminates.
- `Presets` models the current version:
  - keyword-argument resolution, as the function `Resolve` and the loop in `Preset.Call`;
  - the docstring prefix;
  - the classification of module members;
  - the traversal, as `Preset.New`, `Preset.Populate`, `Preset.BindMember` and
    `Preset.Submodule`. These are imperative methods over the shared `Dispatch` registry,
    with the `None` placeholder written before the recursion;
  - the dictionary interface on the shared store.
- `LegacyPresets` models the same pieces for `presets.py`. Lemmas relate its resolution and
  classification to the current version's.
- `PresetScenarios` plays each test of `tests/test_presets.py` on a concrete package `pt`.
  `pt` has a function `mult(a, b)`, the external module `pickle` and the submodule
  `pt.submod` with `add(a, b)`. It states the test's assertion as the ensures of a method.

Calling a wrapped function is modelled by what the wrapper hands on to the original
function: the `Forwarded` pair of positional arguments and keyword dictionary.

### Members the proxy binds

The member loop at `presets/__init__.py:125-152` has no final `else`:

- a constant, a non-callable object or a module without `__file__` gets no attribute on the
  proxy at all;
- only modules with a source file outside the package directory are copied.

In `Presets.AttrOk` the `Skip` case requires the name to be absent from the bindings, and
`PresetScenarios.BuiltinModuleMember` shows this on a module without `__file__`.

A module that has `__file__` but whose value is `None` or empty (a namespace package) passes
the `hasattr` guard at `presets/__init__.py:135-136`. `inspect.getfile` then raises
TypeError at line 138, and the construction of the whole tree is abandoned.
`PyObjects.FileAttr` tells the two cases apart.

The legacy version has no `hasattr(value, '__file__')` guard. For any member module that
`inspect.getfile` rejects (no `__file__`, or a `None` or empty one), it raises TypeError, and
the construction of the whole tree is abandoned. `PresetScenarios.NamespacePackageMember`
shows both versions raising.

## Model

| member | source | states |
|---|---|---|
| PathNames.CommonPrefix | presets/__init__.py:140 | the result is a prefix of both strings and cannot be extended: where both go on, their next characters differ |
| PathNames.CommonPrefixTest | presets/__init__.py:140 | `commonprefix([a, b]) == a` holds exactly when a is a character-wise prefix of b |
| PathNames.Dirname | presets/__init__.py:122 | dirname is the head of the path (everything up to its last separator) with trailing separators removed, unless that head is all separators, in which case it is kept whole |
| PathNames.DirnameUnique | presets/__init__.py:122 | the characterisation `IsDirname` (a prefix of the head, only separators dropped after it, no trailing separator unless the head is all separators) holds for exactly one string, dirname's result |
| PathNames.DirnameOfJoin | presets/__init__.py:122 | the directory of `dir/name` is dir, for a name without separators and a dir without a trailing one |
| Presets.Resolve | presets/__init__.py:81-92 | the forwarded keywords are the caller's keywords plus the declared names the store has a value for; a caller value wins, otherwise the store's value is used |
| Presets.EmptyStorePassthrough | presets/__init__.py:81-92 | with no overrides set, the forwarded keywords are exactly the caller's |
| Presets.IrrelevantOverride | presets/__init__.py:84-92 | removing an override for a name the function does not declare, or one the caller passes anyway, leaves the forwarded keywords unchanged |
| Presets.Preset.Call | presets/__init__.py:75-95 | an unreadable signature gives the introspection error; otherwise positional arguments pass through and the keyword loop computes `Resolve` of the declared names against the store as it is at call time |
| Presets.WrappedDoc | presets/__init__.py:100-103 | a wrapped docstring is the fixed warning prefix followed by the original doc (rendered "None" when absent) |
| Presets.ModPath | presets/__init__.py:122 | the package directory is the dirname of the module's file, as `IsDirname` characterises it |
| Presets.WrappedDocRoundTrip | presets/__init__.py:100-103 | stripping the fixed warning prefix from a wrapped docstring gives back the original doc (rendered "None" when absent) |
| Presets.WrappedDocWarns | presets/__init__.py:100-103 | every wrapped docstring starts with WARNING |
| Presets.Classify | presets/__init__.py:128-152 | a member is wrapped exactly when it is callable; it raises exactly when it is a module whose `__file__` exists but `getfile` rejects (None or empty); it is nested exactly when it is a module with a file whose path starts with the package directory; it is copied exactly when it is a module with a file elsewhere; it is skipped exactly when it is neither callable nor a module, or a module without `__file__` |
| Presets.BuiltHasNoUnreadableFileMember | presets/__init__.py:135-138 | a completely bound proxy shows that its module has no member module whose `__file__` is present but None or empty |
| Presets.Preset.Create | presets/__init__.py:106-120 | a new proxy holds the given module, registry and store, and no bindings yet |
| Presets.Preset.New | presets/__init__.py:106-152 | the only error is TypeError. It is raised when the module's own file is unreadable or the module has a member module whose `__file__` is None or empty. It is never raised when the module's file is readable and no module of the world has such a member. If the module's own file is unreadable, a given registry is unchanged. A given store and registry are shared, and existing registry entries are kept. Every proxy it registers holds its own module, the same registry and the same store, and is completely bound. A root construction registers itself, and none of its attributes is a placeholder |
| Presets.Preset.Populate | presets/__init__.py:122-152 | on success, after the member loop every member is bound as `Classify` prescribes and nothing else is bound; registry entries are written once and never replaced; each new entry is a fresh, completely bound proxy sharing the registry and the store; a nested attribute is the None placeholder exactly when the registry held the placeholder for that module when construction began; on failure, the registry keeps its entries and the module itself, or one whose construction began during the loop, has a member module whose `__file__` is None or empty |
| Presets.Preset.BindMember | presets/__init__.py:125-152 | one turn of the member loop: it extends the bindings by member i and keeps the registry invariant, or fails only because of a member module whose `__file__` is None or empty, here or below |
| Presets.Preset.Submodule | presets/__init__.py:140-150 | a module already registered is not rebuilt; otherwise it is registered once with a fresh proxy built in the same registry and store; the attribute is whatever the registry holds, and is the placeholder exactly when the registry already held it; on failure the module had no entry before and a newly registered module has a member module whose `__file__` is None or empty |
| Presets.Preset.GetItem | presets/__init__.py:154-156 | returns the override, or KeyError for an absent name |
| Presets.Preset.DelItem | presets/__init__.py:158-160 | removes the override, or raises KeyError and leaves the store unchanged |
| Presets.Preset.Contains | presets/__init__.py:162-164 | true exactly when the store has the name |
| Presets.Preset.SetItem | presets/__init__.py:166-168 | installs or replaces the override |
| Presets.Preset.Keys | presets/__init__.py:170-172 | exactly the stored names |
| Presets.Preset.Update | presets/__init__.py:174-176 | the store becomes the old store merged with D, D winning; other names keep their values |
| LegacyPresets.Resolve | presets.py:22-36 | the forwarded keywords are exactly the declared names that the caller or the store supplies, the caller's value winning |
| LegacyPresets.RestrictsCurrent | presets.py:25-36 | the legacy forwarding is the current one restricted to the declared names |
| LegacyPresets.CurrentAddsUndeclared | presets/__init__.py:81-92 | the current forwarding is the legacy one plus the caller's undeclared keywords |
| LegacyPresets.AgreeOnDeclaredKwargs | presets.py:28-36 | when the caller passes only declared names, both versions forward the same keywords |
| LegacyPresets.Preset.Call | presets.py:19-39 | an unreadable argspec gives the introspection error; otherwise positional arguments pass through and the loop computes the legacy `Resolve` against the store at call time |
| LegacyPresets.ModPath | presets.py:60 | the package directory is the dirname of the module's file, as `IsDirname` characterises it |
| LegacyPresets.Classify | presets.py:66-86 | as in the current version, except that every module `getfile` rejects (no `__file__`, or a None or empty one) is a raising case and only non-callable non-module objects are skipped |
| LegacyPresets.ClassifyAgreesWithCurrent | presets.py:71-73 | the two versions classify every member alike, except that a module without `__file__` is skipped by the current version and raises in the legacy one |
| LegacyPresets.BuiltHasNoFilelessMember | presets.py:71-73 | a completely bound legacy proxy shows that its module has no member module that `getfile` rejects |
| LegacyPresets.Preset.Create | presets.py:43-57 | a new proxy holds the given module, registry and store, and no bindings yet |
| LegacyPresets.Preset.New | presets.py:43-60 | the only error is TypeError. It is raised when the module's own file is unreadable or the module has a member module that `getfile` rejects. It is never raised when the module's own file is readable and no module of the world has such a member. Registry entries are kept even on failure. A successful construction gives the same sharing and binding guarantees as the current version |
| LegacyPresets.Preset.Populate | presets.py:60-86 | on success, as in the current version; on failure, the registry keeps its entries and the module itself, or one whose construction began during the loop, has a member module that `getfile` rejects |
| LegacyPresets.Preset.BindMember | presets.py:63-86 | one turn of the member loop: it extends the bindings by member i, or fails only because of a member module that `getfile` rejects here or below |
| LegacyPresets.Preset.Submodule | presets.py:75-84 | as in the current version on success; on failure the module had no entry before and a newly registered module has a member module that `getfile` rejects |
| LegacyPresets.Preset.GetItem | presets.py:89-90 | returns the override, or KeyError for an absent name |
| LegacyPresets.Preset.DelItem | presets.py:92-93 | removes the override, or raises KeyError and leaves the store unchanged |
| LegacyPresets.Preset.Contains | presets.py:95-96 | true exactly when the store has the name |
| LegacyPresets.Preset.SetItem | presets.py:98-100 | installs or replaces the override |
| LegacyPresets.Preset.Keys | presets.py:102-103 | exactly the stored names |
| LegacyPresets.Preset.Update | presets.py:105-108 | assigning D's items one at a time, in any order, leaves the old store merged with D, D winning |
| PresetScenarios.BuildTestPreset | tests/test_presets.py:9 | on the test package: mult is wrapped, pickle is the same module, submod is a nested proxy over pt.submod sharing P's store, and its add is wrapped |
| PresetScenarios.MainDefault | tests/test_presets.py:7-10 | `P.mult(4)` forwards exactly `mult(4)` |
| PresetScenarios.SubmodDefault | tests/test_presets.py:13-16 | `P.submod.add(4)` forwards exactly `add(4)` |
| PresetScenarios.MainOverride | tests/test_presets.py:19-24 | after `P['b'] = -3`, `P.mult(4)` forwards `mult(4, b=-3)` |
| PresetScenarios.SubmodOverride | tests/test_presets.py:27-32 | an override set on the root reaches `P.submod.add` |
| PresetScenarios.MainUpdate | tests/test_presets.py:35-41 | a later assignment to the override is seen by the next call |
| PresetScenarios.UserOverride | tests/test_presets.py:44-49 | the caller's `b` beats the override |
| PresetScenarios.Revert | tests/test_presets.py:52-58 | after deleting the override, `P.mult(4)` forwards exactly `mult(4)` again |
| PresetScenarios.ContainsAfterSet | tests/test_presets.py:61-67 | a set name is contained and an unset one is not |
| PresetScenarios.SetGet | tests/test_presets.py:70-76 | get after set returns the value set |
| PresetScenarios.UpdateThenGet | tests/test_presets.py:79-87 | after update, every key of D reads back D's value |
| PresetScenarios.KeysAfterUpdate | tests/test_presets.py:90-97 | after update on an empty store, the keys are exactly D's keys |
| PresetScenarios.External | tests/test_presets.py:100-103 | P.pickle is the pickle module itself |
| PresetScenarios.Docstring | tests/test_presets.py:106-109 | the docstring of P.mult contains WARNING |
| PresetScenarios.BuiltinModuleMember | presets/__init__.py:135-136 | on a package importing a module without `__file__` (a builtin), the current version builds the proxy without that attribute, and the legacy version raises TypeError |
| PresetScenarios.NamespacePackageMember | presets/__init__.py:135-138 | on a package importing a module whose `__file__` is None, both versions raise TypeError |
| PresetScenarios.UndeclaredKeyword | presets.py:25-36 | a keyword mult does not declare is forwarded by the current version and dropped by the legacy one |
| PresetScenarios.SiblingPrefixNests | presets/__init__.py:140 | because the submodule test compares characters, a module in a sibling directory whose name extends the package's (`ptx/` next to `pt/`) is nested as well |

## Left out

- Python reflection (`inspect.getmembers`, `inspect.getfile`, `inspect.signature`,
  `inspect.getargspec`, `callable`, `isinstance`) is not executed. It becomes the `World` and
  the `Function` fields given as input. Classes are callable in Python, so they are `Callable`
  values.
- Invoking the original function, its return value and the exceptions it raises are out of
  scope. This includes the TypeError it raises for an undeclared keyword, or for an override
  injected into a parameter the caller passed positionally: binding arguments to parameters
  is not modelled. The model stops at the `Forwarded` pair.
- `functools.update_wrapper` copies metadata through a foreign call, so it is left out. Only
  the docstring text is modelled.
- The legacy wrapped callable's docstring is not modelled: it is `deffunc`'s own docstring,
  which is `None`.
- Presets.Preset.Keys and LegacyPresets.Preset.Keys return a snapshot set. Python returns a
  live view (current version) or a list (legacy version).
- A failing `inspect.signature` raises `ValueError` or `TypeError` depending on the callable,
  and a failing `getargspec` raises either as well. Both are modelled as the single
  `ValueError` introspection error.
- Attribute name collisions between module members and the proxy's own methods (`keys`,
  `update`, `_defaults`) are not modelled. Bindings are kept in a map apart from the methods.
- Presets.Preset.New: the error is tied to some module of the world having a member module
  whose `__file__` is None or empty, not to that module being reached by the traversal. The
  exact set of modules a traversal reaches is not characterised.
- How `inspect.getfile` rejects a module (no `__file__`, or a None or empty one) follows
  current CPython. Both versions use that one rule.
- LegacyPresets.Preset.New: the error is tied to some module of the world having a member
  module that `getfile` rejects, not to that module being reached by the traversal. The exact set of
  modules a traversal reaches is not characterised.
- Presets.Preset.New: when construction raises, the entries it leaves in a given registry
  are not described beyond the old entries being kept. Those entries are finished proxies
  and `None` placeholders.
- LegacyPresets.Preset.New: when construction raises, the entries it leaves in a given
  registry are not described beyond the old entries being kept, as in the current version.
- Thread safety of the shared dictionaries is not modelled: the code has no concurrency
  handling.
- `setup.py`, the `six` compatibility shims and the test fixture module `preset_test` are not
  part of this model. The scenarios use their own package `pt` in place of `preset_test`.
