/** The current Preset proxy (presets/__init__.py).

    A Preset stands in for a module. Every callable member becomes a wrapped callable whose
    keyword arguments are resolved against one override store shared by the whole proxy tree;
    every member module whose source file lies under the wrapped module's directory becomes a
    nested Preset built with the same store and the same dispatch registry; every other module
    that has a source file is copied through by identity.
 */
module Presets {
  import opened PyObjects
  import PathNames
  import opened Registries

  // ---------------------------------------------------------------------------------------
  // Keyword-argument resolution (deffunc)
  // ---------------------------------------------------------------------------------------

  /** One turn of the `for param in function_args` loop: the caller's value if it gave one,
      otherwise the override if the store has one, otherwise nothing changes. */
  function ResolveStep(acc: map<string, Value>, param: string, kwargs: map<string, Value>,
                       store: map<string, Value>): map<string, Value>
  {
    if param in kwargs then acc[param := kwargs[param]]
    else if param in store then acc[param := store[param]]
    else acc
  }

  /** The keyword arguments deffunc forwards, starting from a copy of the caller's kwargs and
      visiting the declared parameter names in order. The contract is the three-tier rule:
      a caller value wins, then an override for a declared name, otherwise the name is absent
      (so the function's own default applies); undeclared caller kwargs pass through and
      overrides for undeclared names are never injected. */
  function Resolve(params: seq<string>, kwargs: map<string, Value>, store: map<string, Value>)
    : (r: map<string, Value>)
    ensures r.Keys == kwargs.Keys + (set p | p in params && p in store)
    ensures forall k | k in r :: r[k] == if k in kwargs then kwargs[k] else store[k]
    decreases |params|
  {
    if params == [] then kwargs
    else ResolveStep(Resolve(params[..|params| - 1], kwargs, store), params[|params| - 1], kwargs, store)
  }

  lemma ResolveSnoc(params: seq<string>, i: nat, kwargs: map<string, Value>, store: map<string, Value>)
    requires i < |params|
    ensures Resolve(params[..i + 1], kwargs, store)
         == ResolveStep(Resolve(params[..i], kwargs, store), params[i], kwargs, store)
  {
    assert params[..i + 1][..i] == params[..i];
  }

  /** With no overrides set a wrapped call forwards exactly the caller's keyword arguments. */
  lemma EmptyStorePassthrough(params: seq<string>, kwargs: map<string, Value>)
    ensures Resolve(params, kwargs, map[]) == kwargs
  {
    var r := Resolve(params, kwargs, map[]);
    assert r.Keys == kwargs.Keys;
  }

  /** Only the store's entries for declared names matter: removing an override for a name the
      function does not declare, or one the caller passes anyway, changes nothing. */
  lemma IrrelevantOverride(params: seq<string>, kwargs: map<string, Value>,
                           store: map<string, Value>, name: string)
    requires name !in params || name in kwargs
    ensures Resolve(params, kwargs, store) == Resolve(params, kwargs, store - {name})
  {
    var r1, r2 := Resolve(params, kwargs, store), Resolve(params, kwargs, store - {name});
    assert r1.Keys == r2.Keys;
  }

  // ---------------------------------------------------------------------------------------
  // The docstring of a wrapped callable
  // ---------------------------------------------------------------------------------------

  const Warning: string := "WARNING"

  const WarningPrefix: string :=
    Warning + ": this function has been modified by the Presets package.\n"
    + "Default parameter values described in the documentation below may be inaccurate.\n\n"

  /** How an f-string renders `wrapped.__doc__`: the text, or "None" when there is none. */
  function DocText(doc: Option<string>): string {
    if doc.Some? then doc.value else "None"
  }

  /** The docstring a wrapped callable carries. */
  function WrappedDoc(doc: Option<string>): (r: string)
    ensures WarningPrefix <= r && r[|WarningPrefix|..] == DocText(doc)
  {
    WarningPrefix + DocText(doc)
  }

  /** Recovers the original documentation from a wrapped docstring. */
  function StripWarning(s: string): Option<string> {
    if WarningPrefix <= s then Some(s[|WarningPrefix|..]) else None
  }

  lemma WrappedDocRoundTrip(doc: Option<string>)
    ensures StripWarning(WrappedDoc(doc)) == Some(DocText(doc))
  {
    assert WrappedDoc(doc)[..|WarningPrefix|] == WarningPrefix;
  }

  /** Every wrapped docstring starts with the word WARNING. */
  lemma WrappedDocWarns(doc: Option<string>)
    ensures Warning <= WrappedDoc(doc)
  {
    assert WrappedDoc(doc)[..|Warning|] == Warning;
  }

  // ---------------------------------------------------------------------------------------
  // Classification of module members (the branches of __init__'s loop)
  // ---------------------------------------------------------------------------------------

  datatype Kind =
    | Wrap   // callable: wrapped
    | Nest   // module with a file under the wrapped module's directory: a nested Preset
    | Copy   // module with a file elsewhere: the same object
    | Raise  // module whose __file__ is set but unusable: inspect.getfile raises TypeError
    | Skip   // anything else, including a module without __file__: no attribute at all

  function Classify(world: World, modpath: string, v: Value): (k: Kind)
    requires v.Module? ==> v.id in world
    ensures k == Wrap <==> v.Callable?
    ensures k == Raise <==> v.Module? && world[v.id].HasFile() && world[v.id].File().None?
    ensures k == Nest <==> v.Module? && world[v.id].File().Some? && modpath <= world[v.id].File().value
    ensures k == Copy <==> v.Module? && world[v.id].File().Some? && !(modpath <= world[v.id].File().value)
    ensures k == Skip <==> v.Other? || (v.Module? && !world[v.id].HasFile())
  {
    match v
    case Callable(_) => Wrap
    case Module(id) =>
      if !world[id].HasFile() then Skip
      else if world[id].File().None? then Raise
      else
        PathNames.CommonPrefixTest(modpath, world[id].File().value);
        if PathNames.CommonPrefix(modpath, world[id].File().value) == modpath then Nest else Copy
    case Other(_) => Skip
  }

  /** os.path.dirname(inspect.getfile(module)): the package directory submodules must lie in. */
  function ModPath(world: World, id: ModuleId): (r: string)
    requires id in world && world[id].File().Some?
    ensures PathNames.IsDirname(world[id].File().value, r)
  {
    PathNames.DirnameUnique(world[id].File().value, PathNames.Dirname(world[id].File().value));
    PathNames.Dirname(world[id].File().value)
  }

  /** Module m has a member module whose `__file__` is set but which inspect.getfile rejects. */
  ghost predicate UnreadableFileMember(world: World, m: ModuleId) {
    && m in world
    && exists j | 0 <= j < |world[m].members| ::
         && world[m].members[j].value.Module?
         && world[m].members[j].value.id in world
         && world[world[m].members[j].value.id].HasFile()
         && world[world[m].members[j].value.id].File().None?
  }

  /** Why a construction that started at `root` was abandoned: root, or a module whose proxy
      was begun during the construction, has such a member. */
  ghost predicate Aborted(world: World, root: ModuleId, before: map<ModuleId, Preset?>,
                          after: map<ModuleId, Preset?>) {
    || UnreadableFileMember(world, root)
    || exists m | m in after && m !in before :: UnreadableFileMember(world, m)
  }

  // ---------------------------------------------------------------------------------------
  // Proxies
  // ---------------------------------------------------------------------------------------

  /** The attribute a Preset binds for a member. `Nested(null)` is the registry's `None`
      placeholder: the proxy of that module was still under construction. */
  datatype Attr =
    | Wrapped(func: Function, doc: string)
    | Nested(node: Preset?)
    | Same(value: Value)

  /** The `_dispatch` dict: module -> Preset, or None while that Preset is being built. */
  class Dispatch {
    var entries: map<ModuleId, Preset?>

    constructor ()
      ensures entries == map[]
    {
      entries := map[];
    }
  }

  /** A finished registry entry: the proxy of module m, sharing the registry and the store. */
  predicate SharedEntry(q: Preset?, m: ModuleId, reg: Dispatch, store: DefaultsDict) {
    q != null && q.moduleId == m && q.dispatch == reg && q.defaults == store
  }

  /** The attribute bound for member m is the one __init__'s branches prescribe. */
  ghost predicate AttrOk(world: World, modpath: string, m: Member, attrs: map<string, Attr>,
                         entries: map<ModuleId, Preset?>)
    requires m.value.Module? ==> m.value.id in world
  {
    match Classify(world, modpath, m.value)
    case Wrap => m.name in attrs && attrs[m.name] == Wrapped(m.value.func, WrappedDoc(m.value.func.doc))
    case Nest =>
      && m.name in attrs && attrs[m.name].Nested?
      && (attrs[m.name].node == null
          || (m.value.id in entries && attrs[m.name].node == entries[m.value.id]))
    case Copy => m.name in attrs && attrs[m.name] == Same(m.value)
    case Raise => false
    case Skip => m.name !in attrs
  }

  /** The first i members have been processed, and nothing else was bound. */
  ghost predicate AttrsUpTo(world: World, modpath: string, ms: seq<Member>, i: nat,
                            attrs: map<string, Attr>, entries: map<ModuleId, Preset?>)
    requires i <= |ms| && MembersIn(world, ms)
  {
    && attrs.Keys <= (set j | 0 <= j < i :: ms[j].name)
    && forall j | 0 <= j < i :: AttrOk(world, modpath, ms[j], attrs, entries)
  }

  /** A nested attribute is the None placeholder exactly when the registry held the
      placeholder for that module when this proxy's construction began. */
  ghost predicate PlaceholdersUpTo(world: World, modpath: string, ms: seq<Member>, i: nat,
                                   attrs: map<string, Attr>, before: map<ModuleId, Preset?>)
    requires i <= |ms| && MembersIn(world, ms)
  {
    forall j | 0 <= j < i && Classify(world, modpath, ms[j].value) == Nest ::
      && ms[j].name in attrs && attrs[ms[j].name].Nested?
      && (attrs[ms[j].name].node == null <==> ms[j].value.id in before && before[ms[j].value.id] == null)
  }

  /** Proxy q carries the attributes its module prescribes. */
  ghost predicate NodeBuilt(world: World, q: Preset, entries: map<ModuleId, Preset?>)
    reads q
  {
    && q.moduleId in world && world[q.moduleId].File().Some?
    && MembersIn(world, world[q.moduleId].members)
    && AttrsUpTo(world, ModPath(world, q.moduleId), world[q.moduleId].members,
                 |world[q.moduleId].members|, q.attrs, entries)
  }

  lemma AttrsUpToExtends(world: World, modpath: string, ms: seq<Member>, i: nat,
                         attrs: map<string, Attr>, e1: map<ModuleId, Preset?>, e2: map<ModuleId, Preset?>)
    requires i <= |ms| && MembersIn(world, ms)
    requires AttrsUpTo(world, modpath, ms, i, attrs, e1) && Extends(e1, e2, null)
    ensures AttrsUpTo(world, modpath, ms, i, attrs, e2)
  {
    forall j | 0 <= j < i
      ensures AttrOk(world, modpath, ms[j], attrs, e2)
    {
      assert AttrOk(world, modpath, ms[j], attrs, e1);
    }
  }

  lemma NodeBuiltExtends(world: World, q: Preset, e1: map<ModuleId, Preset?>, e2: map<ModuleId, Preset?>)
    requires NodeBuilt(world, q, e1) && Extends(e1, e2, null)
    ensures NodeBuilt(world, q, e2)
  {
    var ms := world[q.moduleId].members;
    AttrsUpToExtends(world, ModPath(world, q.moduleId), ms, |ms|, q.attrs, e1, e2);
  }

  /** A completed proxy shows that its module has no member module with an unusable file. */
  lemma BuiltHasNoUnreadableFileMember(world: World, q: Preset, entries: map<ModuleId, Preset?>)
    requires NodeBuilt(world, q, entries)
    ensures !UnreadableFileMember(world, q.moduleId)
  {
    var ms := world[q.moduleId].members;
    forall j | 0 <= j < |ms| && ms[j].value.Module? && world[ms[j].value.id].HasFile()
      ensures world[ms[j].value.id].File().Some?
    {
      assert AttrOk(world, ModPath(world, q.moduleId), ms[j], q.attrs, entries);
    }
  }

  /** Binding the attribute of member i keeps the bindings of the members before it. */
  lemma BindStep(world: World, modpath: string, ms: seq<Member>, i: nat, attrs: map<string, Attr>,
                 entries: map<ModuleId, Preset?>, before: map<ModuleId, Preset?>, a: Attr)
    requires i < |ms| && MembersIn(world, ms) && DistinctNames(ms)
    requires AttrsUpTo(world, modpath, ms, i, attrs, entries)
    requires PlaceholdersUpTo(world, modpath, ms, i, attrs, before)
    requires AttrOk(world, modpath, ms[i], attrs[ms[i].name := a], entries)
    requires Classify(world, modpath, ms[i].value) == Nest ==>
      a.Nested? && (a.node == null <==> ms[i].value.id in before && before[ms[i].value.id] == null)
    ensures AttrsUpTo(world, modpath, ms, i + 1, attrs[ms[i].name := a], entries)
    ensures PlaceholdersUpTo(world, modpath, ms, i + 1, attrs[ms[i].name := a], before)
  {
    var attrs' := attrs[ms[i].name := a];
    assert (set j | 0 <= j < i + 1 :: ms[j].name) == (set j | 0 <= j < i :: ms[j].name) + {ms[i].name};
    forall j | 0 <= j < i
      ensures AttrOk(world, modpath, ms[j], attrs', entries)
    {
      assert AttrOk(world, modpath, ms[j], attrs, entries);
      assert ms[j].name != ms[i].name;
      if ms[j].name !in attrs {
        assert ms[j].name !in attrs';
      }
    }
  }

  /** A member that gets no attribute keeps the bindings as they are. */
  lemma SkipStep(world: World, modpath: string, ms: seq<Member>, i: nat, attrs: map<string, Attr>,
                 entries: map<ModuleId, Preset?>, before: map<ModuleId, Preset?>)
    requires i < |ms| && MembersIn(world, ms) && DistinctNames(ms)
    requires AttrsUpTo(world, modpath, ms, i, attrs, entries)
    requires PlaceholdersUpTo(world, modpath, ms, i, attrs, before)
    requires Classify(world, modpath, ms[i].value) == Skip
    ensures AttrsUpTo(world, modpath, ms, i + 1, attrs, entries)
    ensures PlaceholdersUpTo(world, modpath, ms, i + 1, attrs, before)
  {
    assert (set j | 0 <= j < i + 1 :: ms[j].name) == (set j | 0 <= j < i :: ms[j].name) + {ms[i].name};
  }

  class Preset {
    const moduleId: ModuleId
    const defaults: DefaultsDict
    const dispatch: Dispatch
    var attrs: map<string, Attr>

    /** The fields __init__ sets before it inspects the module. */
    constructor Create(moduleId: ModuleId, dispatch: Dispatch, defaults: DefaultsDict)
      ensures this.moduleId == moduleId && this.dispatch == dispatch && this.defaults == defaults
      ensures attrs == map[]
    {
      this.moduleId := moduleId;
      this.dispatch := dispatch;
      this.defaults := defaults;
      attrs := map[];
    }

    /** `Preset(module, dispatch, defaults)`: a null dispatch or defaults stands for Python's
        None, for which __init__ makes a fresh dict (and registers the new proxy itself).
        TypeError is raised when inspect.getfile rejects the module, or a member module with
        `__file__` here or in a submodule reached; entries already written to a shared
        registry then stay there. */
    static method New(world: World, moduleId: ModuleId, dispatch: Dispatch?, defaults: DefaultsDict?)
      returns (r: Result<Preset>)
      requires ValidWorld(world) && moduleId in world
      modifies dispatch
      ensures r.Err? ==> r.error == TypeError
      ensures world[moduleId].File().None? || UnreadableFileMember(world, moduleId) ==> r.Err?
      ensures r.Err? ==> world[moduleId].File().None? || exists m | m in world :: UnreadableFileMember(world, m)
      ensures dispatch != null ==> Preserves(old(dispatch.entries), dispatch.entries)
      ensures world[moduleId].File().None? && dispatch != null ==> dispatch.entries == old(dispatch.entries)
      ensures r.Ok? ==> fresh(r.value) && r.value.moduleId == moduleId
      ensures r.Ok? ==> NodeBuilt(world, r.value, r.value.dispatch.entries)
      ensures r.Ok? && defaults != null ==> r.value.defaults == defaults
      ensures r.Ok? && defaults == null ==> fresh(r.value.defaults) && r.value.defaults.items == map[]
      ensures r.Ok? && dispatch != null ==>
        && r.value.dispatch == dispatch
        && forall m | m in dispatch.entries && m !in old(dispatch.entries) ::
             SharedEntry(dispatch.entries[m], m, dispatch, r.value.defaults)
             && NodeBuilt(world, dispatch.entries[m], dispatch.entries)
      ensures r.Ok? && dispatch == null ==>
        var p := r.value;
        && fresh(p.dispatch)
        && moduleId in p.dispatch.entries && p.dispatch.entries[moduleId] == p
        && (forall m | m in p.dispatch.entries ::
              SharedEntry(p.dispatch.entries[m], m, p.dispatch, p.defaults)
              && NodeBuilt(world, p.dispatch.entries[m], p.dispatch.entries))
        && forall a | a in p.attrs && p.attrs[a].Nested? :: p.attrs[a].node != null
    {
      var store := defaults;
      if store == null {
        store := new DefaultsDict();
      }
      var reg := dispatch;
      if reg == null {
        reg := new Dispatch();
      }
      var p := new Preset.Create(moduleId, reg, store);
      if dispatch == null {
        reg.entries := map[moduleId := p];
      }
      if world[moduleId].File().None? {
        return Err(TypeError);
      }
      var ok := p.Populate(world);
      if !ok {
        return Err(TypeError);
      }
      r := Ok(p);
      BuiltHasNoUnreadableFileMember(world, p, reg.entries);
      if dispatch == null {
        var ms := world[moduleId].members;
        forall a | a in p.attrs && p.attrs[a].Nested?
          ensures p.attrs[a].node != null
        {
          var j :| 0 <= j < |ms| && ms[j].name == a;
          assert AttrOk(world, ModPath(world, moduleId), ms[j], p.attrs, reg.entries);
        }
      }
    }

    /** The loop of __init__ over inspect.getmembers(module); false when it raised. */
    method Populate(world: World) returns (ok: bool)
      requires ValidWorld(world) && moduleId in world && world[moduleId].File().Some?
      requires attrs == map[]
      modifies this, dispatch
      decreases |world.Keys - dispatch.entries.Keys|, 2
      ensures Preserves(old(dispatch.entries), dispatch.entries)
      ensures ok ==> forall m | m in dispatch.entries && m !in old(dispatch.entries) ::
        SharedEntry(dispatch.entries[m], m, dispatch, defaults)
        && fresh(dispatch.entries[m])
        && NodeBuilt(world, dispatch.entries[m], dispatch.entries)
      ensures ok ==> NodeBuilt(world, this, dispatch.entries)
      ensures ok ==> PlaceholdersUpTo(world, ModPath(world, moduleId), world[moduleId].members,
                                      |world[moduleId].members|, attrs, old(dispatch.entries))
      ensures !ok ==> Aborted(world, moduleId, old(dispatch.entries), dispatch.entries)
    {
      var modpath := PathNames.Dirname(world[moduleId].File().value);
      var members := world[moduleId].members;
      for i := 0 to |members|
        invariant AttrsUpTo(world, modpath, members, i, attrs, dispatch.entries)
        invariant PlaceholdersUpTo(world, modpath, members, i, attrs, old(dispatch.entries))
        invariant Preserves(old(dispatch.entries), dispatch.entries)
        invariant forall m | m in dispatch.entries && m !in old(dispatch.entries) ::
          SharedEntry(dispatch.entries[m], m, dispatch, defaults)
          && fresh(dispatch.entries[m])
          && NodeBuilt(world, dispatch.entries[m], dispatch.entries)
      {
        assert world.Keys - dispatch.entries.Keys <= world.Keys - old(dispatch.entries).Keys;
        SubsetCard(world.Keys - dispatch.entries.Keys, world.Keys - old(dispatch.entries).Keys);
        var bound := BindMember(world, modpath, i, old(dispatch.entries));
        if !bound {
          return false;
        }
      }
      ok := true;
    }

    /** One turn of __init__'s loop: the branches for member i of the module; false when
        inspect.getfile raised, here or below. */
    method BindMember(world: World, modpath: string, i: nat, ghost before: map<ModuleId, Preset?>)
      returns (ok: bool)
      requires ValidWorld(world) && moduleId in world && world[moduleId].File().Some?
      requires modpath == ModPath(world, moduleId) && i < |world[moduleId].members|
      requires AttrsUpTo(world, modpath, world[moduleId].members, i, attrs, dispatch.entries)
      requires PlaceholdersUpTo(world, modpath, world[moduleId].members, i, attrs, before)
      requires Preserves(before, dispatch.entries)
      requires forall m | m in dispatch.entries && m !in before ::
        SharedEntry(dispatch.entries[m], m, dispatch, defaults)
        && dispatch.entries[m] != this
        && NodeBuilt(world, dispatch.entries[m], dispatch.entries)
      modifies this, dispatch
      decreases |world.Keys - dispatch.entries.Keys|, 1
      ensures Preserves(old(dispatch.entries), dispatch.entries)
      ensures ok ==> AttrsUpTo(world, modpath, world[moduleId].members, i + 1, attrs, dispatch.entries)
      ensures ok ==> PlaceholdersUpTo(world, modpath, world[moduleId].members, i + 1, attrs, before)
      ensures ok ==> forall m | m in dispatch.entries && m !in old(dispatch.entries) ::
        SharedEntry(dispatch.entries[m], m, dispatch, defaults)
        && fresh(dispatch.entries[m])
        && NodeBuilt(world, dispatch.entries[m], dispatch.entries)
      ensures ok ==> forall m | m in dispatch.entries && m !in before ::
        SharedEntry(dispatch.entries[m], m, dispatch, defaults)
        && dispatch.entries[m] != this
        && NodeBuilt(world, dispatch.entries[m], dispatch.entries)
      ensures !ok ==> Aborted(world, moduleId, before, dispatch.entries)
    {
      var members := world[moduleId].members;
      var attr, value := members[i].name, members[i].value;
      if value.Callable? {
        BindStep(world, modpath, members, i, attrs, dispatch.entries, before,
                 Wrapped(value.func, WrappedDoc(value.func.doc)));
        attrs := attrs[attr := Wrapped(value.func, WrappedDoc(value.func.doc))];
      } else if value.Module? && world[value.id].HasFile() {
        if world[value.id].File().None? {
          // inspect.getfile(value) raises TypeError
          assert UnreadableFileMember(world, moduleId) by {
            assert members[i].value.Module? && world[members[i].value.id].HasFile()
              && world[members[i].value.id].File().None?;
          }
          return false;
        }
        var submodpath := world[value.id].File().value;
        if PathNames.CommonPrefix(modpath, submodpath) == modpath {
          var node, subOk := Submodule(world, value.id);
          if !subOk {
            ghost var m :| m in dispatch.entries && m !in old(dispatch.entries) && UnreadableFileMember(world, m);
            assert m !in before;
            return false;
          }
          forall m | m in dispatch.entries && m !in before && m in old(dispatch.entries)
            ensures NodeBuilt(world, dispatch.entries[m], dispatch.entries)
          {
            NodeBuiltExtends(world, old(dispatch.entries)[m], old(dispatch.entries), dispatch.entries);
          }
          AttrsUpToExtends(world, modpath, members, i, attrs, old(dispatch.entries), dispatch.entries);
          BindStep(world, modpath, members, i, attrs, dispatch.entries, before, Nested(node));
          attrs := attrs[attr := Nested(node)];
        } else {
          BindStep(world, modpath, members, i, attrs, dispatch.entries, before, Same(value));
          attrs := attrs[attr := Same(value)];
        }
      } else {
        SkipStep(world, modpath, members, i, attrs, dispatch.entries, before);
      }
      ok := true;
    }

    /** The registry step for a member that is a submodule: unless the registry already has an
        entry for it, pre-seed None, build the nested Preset with the shared registry and store,
        and record it. The result is whatever the registry then holds. When the nested
        construction raises, the pre-seeded None stays and the error propagates. */
    method Submodule(world: World, id: ModuleId) returns (node: Preset?, ok: bool)
      requires ValidWorld(world) && id in world && world[id].File().Some?
      modifies dispatch
      decreases |world.Keys - dispatch.entries.Keys|, 0
      ensures Preserves(old(dispatch.entries), dispatch.entries)
      ensures ok ==> forall m | m in dispatch.entries && m !in old(dispatch.entries) ::
        SharedEntry(dispatch.entries[m], m, dispatch, defaults)
        && fresh(dispatch.entries[m])
        && NodeBuilt(world, dispatch.entries[m], dispatch.entries)
      ensures ok ==> id in dispatch.entries && node == dispatch.entries[id]
      ensures ok ==> (node == null <==> id in old(dispatch.entries) && old(dispatch.entries)[id] == null)
      ensures !ok ==> id !in old(dispatch.entries)
      ensures !ok ==> exists m | m in dispatch.entries && m !in old(dispatch.entries) :: UnreadableFileMember(world, m)
    {
      if id !in dispatch.entries {
        // pre-seed the entry so that a cycle back to this module stops here
        dispatch.entries := dispatch.entries[id := null];
        var sub := new Preset.Create(id, dispatch, defaults);
        UnvisitedShrinks(world.Keys, old(dispatch.entries).Keys, dispatch.entries.Keys, id);
        var subOk := sub.Populate(world);
        ghost var e2 := dispatch.entries;
        if !subOk {
          PreservesSeeded(old(dispatch.entries), e2, id, null);
          if !UnreadableFileMember(world, id) {
            ghost var m :| m in e2 && m !in old(dispatch.entries)[id := null] && UnreadableFileMember(world, m);
            assert m !in old(dispatch.entries);
          }
          return null, false;
        }
        dispatch.entries := dispatch.entries[id := sub];
        PreservesAcross(old(dispatch.entries), e2, dispatch.entries, id, null, sub);
        forall m | m in dispatch.entries && m !in old(dispatch.entries)
          ensures SharedEntry(dispatch.entries[m], m, dispatch, defaults)
          ensures fresh(dispatch.entries[m])
          ensures NodeBuilt(world, dispatch.entries[m], dispatch.entries)
        {
          if m == id {
            NodeBuiltExtends(world, sub, e2, dispatch.entries);
          } else {
            assert m !in old(dispatch.entries)[id := null];
            NodeBuiltExtends(world, e2[m], e2, dispatch.entries);
          }
        }
      }
      node := dispatch.entries[id];
      ok := true;
    }

    /** A call of the wrapped callable for `func` (deffunc): the signature is inspected at
        call time, positional arguments pass through untouched and the keyword arguments are
        resolved against the store as it is at the moment of the call. */
    method Call(func: Function, args: seq<Value>, kwargs: map<string, Value>) returns (r: Result<Forwarded>)
      ensures func.signature.None? ==> r == Err(ValueError)
      ensures func.signature.Some? ==>
        r == Ok(Forwarded(args, Resolve(func.signature.value, kwargs, defaults.items)))
    {
      if func.signature.None? {
        return Err(ValueError);
      }
      var functionArgs := func.signature.value;
      var filtered := kwargs;
      for i := 0 to |functionArgs|
        invariant filtered == Resolve(functionArgs[..i], kwargs, defaults.items)
      {
        var param := functionArgs[i];
        ResolveSnoc(functionArgs, i, kwargs, defaults.items);
        if param in kwargs {
          filtered := filtered[param := kwargs[param]];
        } else if param in defaults.items {
          filtered := filtered[param := defaults.items[param]];
        }
      }
      assert functionArgs[..|functionArgs|] == functionArgs;
      r := Ok(Forwarded(args, filtered));
    }

    // -------------------------------------------------------------------------------------
    // The dictionary interface, on the shared store
    // -------------------------------------------------------------------------------------

    /** `P[param]` */
    method GetItem(param: string) returns (r: Result<Value>)
      ensures param in defaults.items ==> r == Ok(defaults.items[param])
      ensures param !in defaults.items ==> r == Err(KeyError(param))
    {
      if param in defaults.items {
        r := Ok(defaults.items[param]);
      } else {
        r := Err(KeyError(param));
      }
    }

    /** `del P[param]` */
    method DelItem(param: string) returns (r: Outcome)
      modifies defaults
      ensures old(param in defaults.items) ==> r == Pass && defaults.items == old(defaults.items) - {param}
      ensures old(param !in defaults.items) ==> r == Fail(KeyError(param)) && defaults.items == old(defaults.items)
    {
      if param in defaults.items {
        defaults.items := defaults.items - {param};
        r := Pass;
      } else {
        r := Fail(KeyError(param));
      }
    }

    /** `param in P` */
    method Contains(param: string) returns (b: bool)
      ensures b <==> param in defaults.items
    {
      b := param in defaults.items;
    }

    /** `P[param] = value` */
    method SetItem(param: string, value: Value)
      modifies defaults
      ensures defaults.items == old(defaults.items)[param := value]
    {
      defaults.items := defaults.items[param := value];
    }

    /** `P.keys()` */
    method Keys() returns (ks: set<string>)
      ensures ks == defaults.items.Keys
    {
      ks := defaults.items.Keys;
    }

    /** `P.update(D)`: dict.update, D's values winning. */
    method Update(d: map<string, Value>)
      modifies defaults
      ensures defaults.items == old(defaults.items) + d
      ensures forall k | k in d :: defaults.items[k] == d[k]
      ensures forall k | k !in d :: (k in defaults.items <==> k in old(defaults.items))
                                    && (k in defaults.items ==> defaults.items[k] == old(defaults.items)[k])
    {
      defaults.items := defaults.items + d;
    }
  }
}
