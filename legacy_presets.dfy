/** The legacy Preset proxy (presets.py, version 0.0.1).

    The same proxy tree as the current version, with four differences: the keyword arguments
    forwarded start from an empty dict and only ever hold declared parameter names (as reported
    by inspect.getargspec); the wrapped callable carries no docstring of its own; a member
    module without a source file is not skipped, so inspect.getfile raises TypeError and the
    construction of the whole tree is abandoned; and update copies D entry by entry.
 */
module LegacyPresets {
  import opened PyObjects
  import PathNames
  import opened Registries
  import Presets

  // ---------------------------------------------------------------------------------------
  // Keyword-argument resolution (deffunc)
  // ---------------------------------------------------------------------------------------

  /** One turn of `for kw in function_args`: the override is written first, then the caller's
      value on top of it. */
  function ResolveStep(acc: map<string, Value>, kw: string, kwargs: map<string, Value>,
                       store: map<string, Value>): map<string, Value>
  {
    var withOverride := if kw in store then acc[kw := store[kw]] else acc;
    if kw in kwargs then withOverride[kw := kwargs[kw]] else withOverride
  }

  /** The keyword arguments the legacy deffunc forwards: exactly the declared names the caller
      or the store supplies a value for, the caller's value winning. */
  function Resolve(params: seq<string>, kwargs: map<string, Value>, store: map<string, Value>)
    : (r: map<string, Value>)
    ensures r.Keys == set p | p in params && (p in kwargs || p in store)
    ensures forall k | k in r :: r[k] == if k in kwargs then kwargs[k] else store[k]
    decreases |params|
  {
    if params == [] then map[]
    else ResolveStep(Resolve(params[..|params| - 1], kwargs, store), params[|params| - 1], kwargs, store)
  }

  lemma ResolveSnoc(params: seq<string>, i: nat, kwargs: map<string, Value>, store: map<string, Value>)
    requires i < |params|
    ensures Resolve(params[..i + 1], kwargs, store)
         == ResolveStep(Resolve(params[..i], kwargs, store), params[i], kwargs, store)
  {
    assert params[..i + 1][..i] == params[..i];
  }

  /** The legacy forwarding is the current one restricted to the declared names. */
  lemma RestrictsCurrent(params: seq<string>, kwargs: map<string, Value>, store: map<string, Value>)
    ensures var cur := Presets.Resolve(params, kwargs, store);
      Resolve(params, kwargs, store) == map k | k in cur && k in params :: cur[k]
  {
    var cur := Presets.Resolve(params, kwargs, store);
    var r := Resolve(params, kwargs, store);
    assert r.Keys == (map k | k in cur && k in params :: cur[k]).Keys;
  }

  /** The current forwarding adds the caller's undeclared keyword arguments to the legacy one. */
  lemma CurrentAddsUndeclared(params: seq<string>, kwargs: map<string, Value>, store: map<string, Value>)
    ensures Presets.Resolve(params, kwargs, store)
         == Resolve(params, kwargs, store) + (map k | k in kwargs && k !in params :: kwargs[k])
  {
    var cur := Presets.Resolve(params, kwargs, store);
    var ext := Resolve(params, kwargs, store) + (map k | k in kwargs && k !in params :: kwargs[k]);
    forall k
      ensures k in cur <==> k in ext
      ensures k in cur ==> cur[k] == ext[k]
    {
      ForwardedKey(params, kwargs, store, k);
    }
  }

  lemma ForwardedKey(params: seq<string>, kwargs: map<string, Value>, store: map<string, Value>, k: string)
    ensures var cur, legacy := Presets.Resolve(params, kwargs, store), Resolve(params, kwargs, store);
      var ext := legacy + (map k | k in kwargs && k !in params :: kwargs[k]);
      (k in cur <==> k in ext) && (k in cur ==> cur[k] == ext[k])
  {
    var legacy := Resolve(params, kwargs, store);
    if k in params && (k in kwargs || k in store) {
      assert k in legacy;
    }
  }

  /** When the caller passes only declared names, both versions forward the same dict. */
  lemma AgreeOnDeclaredKwargs(params: seq<string>, kwargs: map<string, Value>, store: map<string, Value>)
    requires forall k | k in kwargs :: k in params
    ensures Resolve(params, kwargs, store) == Presets.Resolve(params, kwargs, store)
  {
    CurrentAddsUndeclared(params, kwargs, store);
    assert (map k | k in kwargs && k !in params :: kwargs[k]) == map[];
  }

  // ---------------------------------------------------------------------------------------
  // Classification of module members
  // ---------------------------------------------------------------------------------------

  datatype Kind =
    | Wrap   // callable: wrapped
    | Nest   // module whose file lies under the wrapped module's directory: a nested Preset
    | Copy   // module whose file lies elsewhere: the same object
    | Raise  // module without a source file: inspect.getfile raises TypeError
    | Skip   // any other object: no attribute

  function Classify(world: World, modpath: string, v: Value): (k: Kind)
    requires v.Module? ==> v.id in world
    ensures k == Wrap <==> v.Callable?
    ensures k == Raise <==> v.Module? && world[v.id].File().None?
    ensures k == Nest <==> v.Module? && world[v.id].File().Some? && modpath <= world[v.id].File().value
    ensures k == Copy <==> v.Module? && world[v.id].File().Some? && !(modpath <= world[v.id].File().value)
    ensures k == Skip <==> v.Other?
  {
    match v
    case Callable(_) => Wrap
    case Module(id) =>
      if world[id].File().None? then Raise
      else
        PathNames.CommonPrefixTest(modpath, world[id].File().value);
        if PathNames.CommonPrefix(modpath, world[id].File().value) == modpath then Nest else Copy
    case Other(_) => Skip
  }

  /** The two versions treat every member alike except a module without a `__file__`
      attribute, which the current version skips and the legacy one fails on. */
  lemma ClassifyAgreesWithCurrent(world: World, modpath: string, v: Value)
    requires v.Module? ==> v.id in world
    ensures var k, c := Classify(world, modpath, v), Presets.Classify(world, modpath, v);
      && (k == Wrap <==> c == Presets.Wrap)
      && (k == Nest <==> c == Presets.Nest)
      && (k == Copy <==> c == Presets.Copy)
      && (k == Skip <==> c == Presets.Skip && v.Other?)
      && (k == Raise <==> c == Presets.Raise || (c == Presets.Skip && v.Module?))
  {
  }

  /** os.path.dirname(inspect.getfile(module)): the package directory submodules must lie in. */
  function ModPath(world: World, id: ModuleId): (r: string)
    requires id in world && world[id].File().Some?
    ensures PathNames.IsDirname(world[id].File().value, r)
  {
    PathNames.DirnameUnique(world[id].File().value, PathNames.Dirname(world[id].File().value));
    PathNames.Dirname(world[id].File().value)
  }

  /** Module m has a member that is a module without a source file. */
  ghost predicate FilelessMember(world: World, m: ModuleId) {
    && m in world
    && exists j | 0 <= j < |world[m].members| ::
         && world[m].members[j].value.Module?
         && world[m].members[j].value.id in world
         && world[world[m].members[j].value.id].File().None?
  }

  /** Why a construction that started at `root` was abandoned: root, or a module whose proxy
      was begun during the construction, has a member module without a source file. */
  ghost predicate Aborted(world: World, root: ModuleId, before: map<ModuleId, Preset?>,
                          after: map<ModuleId, Preset?>) {
    || FilelessMember(world, root)
    || exists m | m in after && m !in before :: FilelessMember(world, m)
  }

  // ---------------------------------------------------------------------------------------
  // Proxies
  // ---------------------------------------------------------------------------------------

  /** The attribute a legacy Preset binds for a member. */
  datatype Attr =
    | Wrapped(func: Function)
    | Nested(node: Preset?)
    | Same(value: Value)

  class Dispatch {
    var entries: map<ModuleId, Preset?>

    constructor ()
      ensures entries == map[]
    {
      entries := map[];
    }
  }

  predicate SharedEntry(q: Preset?, m: ModuleId, reg: Dispatch, store: DefaultsDict) {
    q != null && q.moduleId == m && q.dispatch == reg && q.defaults == store
  }

  ghost predicate AttrOk(world: World, modpath: string, m: Member, attrs: map<string, Attr>,
                         entries: map<ModuleId, Preset?>)
    requires m.value.Module? ==> m.value.id in world
  {
    match Classify(world, modpath, m.value)
    case Wrap => m.name in attrs && attrs[m.name] == Wrapped(m.value.func)
    case Nest =>
      && m.name in attrs && attrs[m.name].Nested?
      && (attrs[m.name].node == null
          || (m.value.id in entries && attrs[m.name].node == entries[m.value.id]))
    case Copy => m.name in attrs && attrs[m.name] == Same(m.value)
    case Raise => false
    case Skip => m.name !in attrs
  }

  ghost predicate AttrsUpTo(world: World, modpath: string, ms: seq<Member>, i: nat,
                            attrs: map<string, Attr>, entries: map<ModuleId, Preset?>)
    requires i <= |ms| && MembersIn(world, ms)
  {
    && attrs.Keys <= (set j | 0 <= j < i :: ms[j].name)
    && forall j | 0 <= j < i :: AttrOk(world, modpath, ms[j], attrs, entries)
  }

  ghost predicate PlaceholdersUpTo(world: World, modpath: string, ms: seq<Member>, i: nat,
                                   attrs: map<string, Attr>, before: map<ModuleId, Preset?>)
    requires i <= |ms| && MembersIn(world, ms)
  {
    forall j | 0 <= j < i && Classify(world, modpath, ms[j].value) == Nest ::
      && ms[j].name in attrs && attrs[ms[j].name].Nested?
      && (attrs[ms[j].name].node == null <==> ms[j].value.id in before && before[ms[j].value.id] == null)
  }

  /** A completed proxy: every member of its module bound as __init__ prescribes. */
  ghost predicate NodeBuilt(world: World, q: Preset, entries: map<ModuleId, Preset?>)
    reads q
  {
    && q.moduleId in world && world[q.moduleId].File().Some?
    && MembersIn(world, world[q.moduleId].members)
    && AttrsUpTo(world, ModPath(world, q.moduleId), world[q.moduleId].members,
                 |world[q.moduleId].members|, q.attrs, entries)
  }

  /** A completed legacy proxy proves that its module has no member module without a file. */
  lemma BuiltHasNoFilelessMember(world: World, q: Preset, entries: map<ModuleId, Preset?>)
    requires NodeBuilt(world, q, entries)
    ensures !FilelessMember(world, q.moduleId)
  {
    var ms := world[q.moduleId].members;
    forall j | 0 <= j < |ms| && ms[j].value.Module?
      ensures world[ms[j].value.id].File().Some?
    {
      assert AttrOk(world, ModPath(world, q.moduleId), ms[j], q.attrs, entries);
    }
  }

  lemma AttrsUpToExtends(world: World, modpath: string, ms: seq<Member>, i: nat,
                         attrs: map<string, Attr>, e1: map<ModuleId, Preset?>, e2: map<ModuleId, Preset?>)
    requires i <= |ms| && MembersIn(world, ms)
    requires AttrsUpTo(world, modpath, ms, i, attrs, e1) && Extends(e1, e2, null)
    ensures AttrsUpTo(world, modpath, ms, i, attrs, e2)
  {
    forall j | 0 <= j < i
      ensures AttrOk(world, modpath, ms[j], attrs, e2)
    {
      assert AttrOk(world, modpath, ms[j], attrs, e1);
    }
  }

  lemma NodeBuiltExtends(world: World, q: Preset, e1: map<ModuleId, Preset?>, e2: map<ModuleId, Preset?>)
    requires NodeBuilt(world, q, e1) && Extends(e1, e2, null)
    ensures NodeBuilt(world, q, e2)
  {
    var ms := world[q.moduleId].members;
    AttrsUpToExtends(world, ModPath(world, q.moduleId), ms, |ms|, q.attrs, e1, e2);
  }

  lemma BindStep(world: World, modpath: string, ms: seq<Member>, i: nat, attrs: map<string, Attr>,
                 entries: map<ModuleId, Preset?>, before: map<ModuleId, Preset?>, a: Attr)
    requires i < |ms| && MembersIn(world, ms) && DistinctNames(ms)
    requires AttrsUpTo(world, modpath, ms, i, attrs, entries)
    requires PlaceholdersUpTo(world, modpath, ms, i, attrs, before)
    requires AttrOk(world, modpath, ms[i], attrs[ms[i].name := a], entries)
    requires Classify(world, modpath, ms[i].value) == Nest ==>
      a.Nested? && (a.node == null <==> ms[i].value.id in before && before[ms[i].value.id] == null)
    ensures AttrsUpTo(world, modpath, ms, i + 1, attrs[ms[i].name := a], entries)
    ensures PlaceholdersUpTo(world, modpath, ms, i + 1, attrs[ms[i].name := a], before)
  {
    var attrs' := attrs[ms[i].name := a];
    assert (set j | 0 <= j < i + 1 :: ms[j].name) == (set j | 0 <= j < i :: ms[j].name) + {ms[i].name};
    forall j | 0 <= j < i
      ensures AttrOk(world, modpath, ms[j], attrs', entries)
    {
      assert AttrOk(world, modpath, ms[j], attrs, entries);
      assert ms[j].name != ms[i].name;
      if ms[j].name !in attrs {
        assert ms[j].name !in attrs';
      }
    }
  }

  lemma SkipStep(world: World, modpath: string, ms: seq<Member>, i: nat, attrs: map<string, Attr>,
                 entries: map<ModuleId, Preset?>, before: map<ModuleId, Preset?>)
    requires i < |ms| && MembersIn(world, ms) && DistinctNames(ms)
    requires AttrsUpTo(world, modpath, ms, i, attrs, entries)
    requires PlaceholdersUpTo(world, modpath, ms, i, attrs, before)
    requires Classify(world, modpath, ms[i].value) == Skip
    ensures AttrsUpTo(world, modpath, ms, i + 1, attrs, entries)
    ensures PlaceholdersUpTo(world, modpath, ms, i + 1, attrs, before)
  {
    assert (set j | 0 <= j < i + 1 :: ms[j].name) == (set j | 0 <= j < i :: ms[j].name) + {ms[i].name};
  }

  class Preset {
    const moduleId: ModuleId
    const defaults: DefaultsDict
    const dispatch: Dispatch
    var attrs: map<string, Attr>

    constructor Create(moduleId: ModuleId, dispatch: Dispatch, defaults: DefaultsDict)
      ensures this.moduleId == moduleId && this.dispatch == dispatch && this.defaults == defaults
      ensures attrs == map[]
    {
      this.moduleId := moduleId;
      this.dispatch := dispatch;
      this.defaults := defaults;
      attrs := map[];
    }

    /** `Preset(module, dispatch, defaults)`. TypeError is raised when the module, or a module
        reached through its submodules, has a member module without a source file; the entries
        already written to a shared registry then stay there. */
    static method New(world: World, moduleId: ModuleId, dispatch: Dispatch?, defaults: DefaultsDict?)
      returns (r: Result<Preset>)
      requires ValidWorld(world) && moduleId in world
      modifies dispatch
      ensures r.Err? ==> r.error == TypeError
      ensures world[moduleId].File().None? || FilelessMember(world, moduleId) ==> r.Err?
      ensures r.Err? ==> world[moduleId].File().None? || exists m | m in world :: FilelessMember(world, m)
      ensures dispatch != null ==> Preserves(old(dispatch.entries), dispatch.entries)
      ensures world[moduleId].File().None? && dispatch != null ==> dispatch.entries == old(dispatch.entries)
      ensures r.Ok? ==> fresh(r.value) && r.value.moduleId == moduleId
      ensures r.Ok? ==> NodeBuilt(world, r.value, r.value.dispatch.entries)
      ensures r.Ok? && defaults != null ==> r.value.defaults == defaults
      ensures r.Ok? && defaults == null ==> fresh(r.value.defaults) && r.value.defaults.items == map[]
      ensures r.Ok? && dispatch != null ==>
        && r.value.dispatch == dispatch
        && forall m | m in dispatch.entries && m !in old(dispatch.entries) ::
             SharedEntry(dispatch.entries[m], m, dispatch, r.value.defaults)
             && NodeBuilt(world, dispatch.entries[m], dispatch.entries)
      ensures r.Ok? && dispatch == null ==>
        var p := r.value;
        && fresh(p.dispatch)
        && moduleId in p.dispatch.entries && p.dispatch.entries[moduleId] == p
        && (forall m | m in p.dispatch.entries ::
              SharedEntry(p.dispatch.entries[m], m, p.dispatch, p.defaults)
              && NodeBuilt(world, p.dispatch.entries[m], p.dispatch.entries))
        && forall a | a in p.attrs && p.attrs[a].Nested? :: p.attrs[a].node != null
    {
      var store := defaults;
      if store == null {
        store := new DefaultsDict();
      }
      var reg := dispatch;
      if reg == null {
        reg := new Dispatch();
      }
      var p := new Preset.Create(moduleId, reg, store);
      if dispatch == null {
        reg.entries := map[moduleId := p];
      }
      if world[moduleId].File().None? {
        return Err(TypeError);
      }
      var ok := p.Populate(world);
      if !ok {
        return Err(TypeError);
      }
      r := Ok(p);
      BuiltHasNoFilelessMember(world, p, reg.entries);
      if dispatch == null {
        var ms := world[moduleId].members;
        forall a | a in p.attrs && p.attrs[a].Nested?
          ensures p.attrs[a].node != null
        {
          var j :| 0 <= j < |ms| && ms[j].name == a;
          assert AttrOk(world, ModPath(world, moduleId), ms[j], p.attrs, reg.entries);
        }
      }
    }

    /** The loop of __init__ over inspect.getmembers(module); false when it raised. */
    method Populate(world: World) returns (ok: bool)
      requires ValidWorld(world) && moduleId in world && world[moduleId].File().Some?
      requires attrs == map[]
      modifies this, dispatch
      decreases |world.Keys - dispatch.entries.Keys|, 2
      ensures Preserves(old(dispatch.entries), dispatch.entries)
      ensures ok ==> forall m | m in dispatch.entries && m !in old(dispatch.entries) ::
        SharedEntry(dispatch.entries[m], m, dispatch, defaults)
        && fresh(dispatch.entries[m])
        && NodeBuilt(world, dispatch.entries[m], dispatch.entries)
      ensures ok ==> NodeBuilt(world, this, dispatch.entries)
      ensures ok ==> PlaceholdersUpTo(world, ModPath(world, moduleId), world[moduleId].members,
                                      |world[moduleId].members|, attrs, old(dispatch.entries))
      ensures !ok ==> Aborted(world, moduleId, old(dispatch.entries), dispatch.entries)
    {
      var modpath := PathNames.Dirname(world[moduleId].File().value);
      var members := world[moduleId].members;
      for i := 0 to |members|
        invariant AttrsUpTo(world, modpath, members, i, attrs, dispatch.entries)
        invariant PlaceholdersUpTo(world, modpath, members, i, attrs, old(dispatch.entries))
        invariant Preserves(old(dispatch.entries), dispatch.entries)
        invariant forall m | m in dispatch.entries && m !in old(dispatch.entries) ::
          SharedEntry(dispatch.entries[m], m, dispatch, defaults)
          && fresh(dispatch.entries[m])
          && NodeBuilt(world, dispatch.entries[m], dispatch.entries)
      {
        assert world.Keys - dispatch.entries.Keys <= world.Keys - old(dispatch.entries).Keys;
        SubsetCard(world.Keys - dispatch.entries.Keys, world.Keys - old(dispatch.entries).Keys);
        var bound := BindMember(world, modpath, i, old(dispatch.entries));
        if !bound {
          return false;
        }
      }
      ok := true;
    }

    /** One turn of __init__'s loop; false when inspect.getfile raised, here or below. */
    method BindMember(world: World, modpath: string, i: nat, ghost before: map<ModuleId, Preset?>)
      returns (ok: bool)
      requires ValidWorld(world) && moduleId in world && world[moduleId].File().Some?
      requires modpath == ModPath(world, moduleId) && i < |world[moduleId].members|
      requires AttrsUpTo(world, modpath, world[moduleId].members, i, attrs, dispatch.entries)
      requires PlaceholdersUpTo(world, modpath, world[moduleId].members, i, attrs, before)
      requires Preserves(before, dispatch.entries)
      requires forall m | m in dispatch.entries && m !in before ::
        SharedEntry(dispatch.entries[m], m, dispatch, defaults)
        && dispatch.entries[m] != this
        && NodeBuilt(world, dispatch.entries[m], dispatch.entries)
      modifies this, dispatch
      decreases |world.Keys - dispatch.entries.Keys|, 1
      ensures Preserves(old(dispatch.entries), dispatch.entries)
      ensures ok ==> AttrsUpTo(world, modpath, world[moduleId].members, i + 1, attrs, dispatch.entries)
      ensures ok ==> PlaceholdersUpTo(world, modpath, world[moduleId].members, i + 1, attrs, before)
      ensures ok ==> forall m | m in dispatch.entries && m !in old(dispatch.entries) ::
        SharedEntry(dispatch.entries[m], m, dispatch, defaults)
        && fresh(dispatch.entries[m])
        && NodeBuilt(world, dispatch.entries[m], dispatch.entries)
      ensures ok ==> forall m | m in dispatch.entries && m !in before ::
        SharedEntry(dispatch.entries[m], m, dispatch, defaults)
        && dispatch.entries[m] != this
        && NodeBuilt(world, dispatch.entries[m], dispatch.entries)
      ensures !ok ==> Aborted(world, moduleId, before, dispatch.entries)
    {
      var members := world[moduleId].members;
      var attr, value := members[i].name, members[i].value;
      if value.Callable? {
        BindStep(world, modpath, members, i, attrs, dispatch.entries, before, Wrapped(value.func));
        attrs := attrs[attr := Wrapped(value.func)];
      } else if value.Module? {
        if world[value.id].File().None? {
          // inspect.getfile(v) raises TypeError
          assert FilelessMember(world, moduleId) by {
            assert members[i].value.Module? && world[members[i].value.id].File().None?;
          }
          return false;
        }
        var submodpath := world[value.id].File().value;
        if PathNames.CommonPrefix(modpath, submodpath) == modpath {
          var node, subOk := Submodule(world, value.id);
          if !subOk {
            ghost var m :| m in dispatch.entries && m !in old(dispatch.entries) && FilelessMember(world, m);
            assert m !in before;
            return false;
          }
          forall m | m in dispatch.entries && m !in before && m in old(dispatch.entries)
            ensures NodeBuilt(world, dispatch.entries[m], dispatch.entries)
          {
            NodeBuiltExtends(world, old(dispatch.entries)[m], old(dispatch.entries), dispatch.entries);
          }
          AttrsUpToExtends(world, modpath, members, i, attrs, old(dispatch.entries), dispatch.entries);
          BindStep(world, modpath, members, i, attrs, dispatch.entries, before, Nested(node));
          attrs := attrs[attr := Nested(node)];
        } else {
          BindStep(world, modpath, members, i, attrs, dispatch.entries, before, Same(value));
          attrs := attrs[attr := Same(value)];
        }
      } else {
        SkipStep(world, modpath, members, i, attrs, dispatch.entries, before);
      }
      ok := true;
    }

    /** The registry step for a submodule. When the nested construction raises, the pre-seeded
        None stays in the registry and the error propagates. */
    method Submodule(world: World, id: ModuleId) returns (node: Preset?, ok: bool)
      requires ValidWorld(world) && id in world && world[id].File().Some?
      modifies dispatch
      decreases |world.Keys - dispatch.entries.Keys|, 0
      ensures Preserves(old(dispatch.entries), dispatch.entries)
      ensures ok ==> forall m | m in dispatch.entries && m !in old(dispatch.entries) ::
        SharedEntry(dispatch.entries[m], m, dispatch, defaults)
        && fresh(dispatch.entries[m])
        && NodeBuilt(world, dispatch.entries[m], dispatch.entries)
      ensures ok ==> id in dispatch.entries && node == dispatch.entries[id]
      ensures ok ==> (node == null <==> id in old(dispatch.entries) && old(dispatch.entries)[id] == null)
      ensures !ok ==> id !in old(dispatch.entries)
      ensures !ok ==> exists m | m in dispatch.entries && m !in old(dispatch.entries) :: FilelessMember(world, m)
    {
      if id !in dispatch.entries {
        dispatch.entries := dispatch.entries[id := null];
        var sub := new Preset.Create(id, dispatch, defaults);
        UnvisitedShrinks(world.Keys, old(dispatch.entries).Keys, dispatch.entries.Keys, id);
        var subOk := sub.Populate(world);
        ghost var e2 := dispatch.entries;
        if !subOk {
          PreservesSeeded(old(dispatch.entries), e2, id, null);
          if !FilelessMember(world, id) {
            ghost var m :| m in e2 && m !in old(dispatch.entries)[id := null] && FilelessMember(world, m);
            assert m !in old(dispatch.entries);
          }
          return null, false;
        }
        dispatch.entries := dispatch.entries[id := sub];
        PreservesAcross(old(dispatch.entries), e2, dispatch.entries, id, null, sub);
        forall m | m in dispatch.entries && m !in old(dispatch.entries)
          ensures SharedEntry(dispatch.entries[m], m, dispatch, defaults)
          ensures fresh(dispatch.entries[m])
          ensures NodeBuilt(world, dispatch.entries[m], dispatch.entries)
        {
          if m == id {
            NodeBuiltExtends(world, sub, e2, dispatch.entries);
          } else {
            assert m !in old(dispatch.entries)[id := null];
            NodeBuiltExtends(world, e2[m], e2, dispatch.entries);
          }
        }
      }
      node := dispatch.entries[id];
      ok := true;
    }

    /** A call of the legacy wrapped callable: getargspec is consulted at call time. */
    method Call(func: Function, args: seq<Value>, kwargs: map<string, Value>) returns (r: Result<Forwarded>)
      ensures func.argspec.None? ==> r == Err(ValueError)
      ensures func.argspec.Some? ==>
        r == Ok(Forwarded(args, Resolve(func.argspec.value, kwargs, defaults.items)))
    {
      if func.argspec.None? {
        return Err(ValueError);
      }
      var functionArgs := func.argspec.value;
      var filtered := map[];
      for i := 0 to |functionArgs|
        invariant filtered == Resolve(functionArgs[..i], kwargs, defaults.items)
      {
        var kw := functionArgs[i];
        ResolveSnoc(functionArgs, i, kwargs, defaults.items);
        if kw in defaults.items {
          filtered := filtered[kw := defaults.items[kw]];
        }
        if kw in kwargs {
          filtered := filtered[kw := kwargs[kw]];
        }
      }
      assert functionArgs[..|functionArgs|] == functionArgs;
      r := Ok(Forwarded(args, filtered));
    }

    // -------------------------------------------------------------------------------------
    // The dictionary interface, on the shared store
    // -------------------------------------------------------------------------------------

    method GetItem(key: string) returns (r: Result<Value>)
      ensures key in defaults.items ==> r == Ok(defaults.items[key])
      ensures key !in defaults.items ==> r == Err(KeyError(key))
    {
      if key in defaults.items {
        r := Ok(defaults.items[key]);
      } else {
        r := Err(KeyError(key));
      }
    }

    method DelItem(key: string) returns (r: Outcome)
      modifies defaults
      ensures old(key in defaults.items) ==> r == Pass && defaults.items == old(defaults.items) - {key}
      ensures old(key !in defaults.items) ==> r == Fail(KeyError(key)) && defaults.items == old(defaults.items)
    {
      if key in defaults.items {
        defaults.items := defaults.items - {key};
        r := Pass;
      } else {
        r := Fail(KeyError(key));
      }
    }

    method Contains(key: string) returns (b: bool)
      ensures b <==> key in defaults.items
    {
      b := key in defaults.items;
    }

    method SetItem(key: string, value: Value)
      modifies defaults
      ensures defaults.items == old(defaults.items)[key := value]
    {
      defaults.items := defaults.items[key := value];
    }

    method Keys() returns (ks: set<string>)
      ensures ks == defaults.items.Keys
    {
      ks := defaults.items.Keys;
    }

    /** `P.update(D)`: one store assignment per item of D, in whatever order D yields them. */
    method Update(d: map<string, Value>)
      modifies defaults
      ensures defaults.items == old(defaults.items) + d
    {
      var rest := d.Keys;
      while rest != {}
        invariant rest <= d.Keys
        invariant defaults.items == old(defaults.items) + map k | k in d.Keys - rest :: d[k]
        decreases rest
      {
        var k :| k in rest;
        ghost var done := map k' | k' in d.Keys - rest :: d[k'];
        assert (map k' | k' in d.Keys - (rest - {k}) :: d[k']) == done[k := d[k]];
        defaults.items := defaults.items[k := d[k]];
        rest := rest - {k};
      }
      assert (map k | k in d.Keys - rest :: d[k]) == d;
    }
  }
}
