/** The repository's test suite, stated on a concrete program: a package `pt` whose
    __init__ defines `mult(a, b)` and imports the standard `pickle` module and its own
    submodule `submod`, which defines `add(a, b)`. Each method plays one test and its
    ensures state what the test asserts, in terms of what the wrapped callable forwards
    to the original one.
 */
module PresetScenarios {
  import opened PyObjects
  import PathNames
  import Presets
  import LegacyPresets

  const Mult: Function := Function(1, Some(["a", "b"]), Some(["a", "b"]), Some("Multiply a by b."))
  const Add: Function := Function(2, Some(["a", "b"]), Some(["a", "b"]), Some("Add a and b."))

  const Root: ModuleId := 0
  const Submod: ModuleId := 1
  const Pickle: ModuleId := 2
  const NoFile: ModuleId := 3

  const RootFile: string := "pt/__init__.py"
  const SubmodFile: string := "pt/submod.py"
  const PickleFile: string := "lib/pickle.py"

  const TestWorld: World := map[
    Root := ModuleInfo(Set(Some(RootFile)),
      [Member("mult", Callable(Mult)), Member("pickle", Module(Pickle)), Member("submod", Module(Submod))]),
    Submod := ModuleInfo(Set(Some(SubmodFile)), [Member("add", Callable(Add))]),
    Pickle := ModuleInfo(Set(Some(PickleFile)), [])]

  /** The same package, but also importing a module that has no source file (a builtin). */
  const BuiltinWorld: World := map[
    Root := ModuleInfo(Set(Some(RootFile)), [Member("mult", Callable(Mult)), Member("sys", Module(NoFile))]),
    NoFile := ModuleInfo(Missing, [])]

  /** The same package, but also importing a namespace package, whose `__file__` is None. */
  const NamespaceWorld: World := map[
    Root := ModuleInfo(Set(Some(RootFile)), [Member("mult", Callable(Mult)), Member("ns", Module(NoFile))]),
    NoFile := ModuleInfo(Set(None), [])]

  // integers passed as arguments
  const Four: Value := Other(4)
  const MinusThree: Value := Other(-3)
  const Seven: Value := Other(7)
  const Twenty: Value := Other(20)
  const Thirty: Value := Other(30)
  const Fifty: Value := Other(50)

  lemma RootDir()
    ensures PathNames.Dirname(RootFile) == "pt"
  {
    assert RootFile == "pt" + [PathNames.Sep] + "__init__.py";
    PathNames.DirnameOfJoin("pt", "__init__.py");
  }

  lemma TestWorldValid()
    ensures ValidWorld(TestWorld)
  {
    assert TestWorld[Root].members[1].value.id in TestWorld;
    assert TestWorld[Root].members[2].value.id in TestWorld;
  }

  lemma SubmodDir()
    ensures PathNames.Dirname(SubmodFile) == "pt"
  {
    assert SubmodFile == "pt" + [PathNames.Sep] + "submod.py";
    PathNames.DirnameOfJoin("pt", "submod.py");
  }

  /** submod lies under the package directory, pickle does not. */
  lemma TestWorldKinds()
    ensures Presets.Classify(TestWorld, "pt", Module(Submod)) == Presets.Nest
    ensures Presets.Classify(TestWorld, "pt", Module(Pickle)) == Presets.Copy
  {
    assert SubmodFile == "pt" + "/submod.py";
    assert PickleFile[0] != "pt"[0];
  }

  /** The bindings of a completed proxy over pt. */
  lemma RootAttrs(p: Presets.Preset, entries: map<ModuleId, Presets.Preset?>)
    requires p.moduleId == Root && Presets.NodeBuilt(TestWorld, p, entries)
    ensures "mult" in p.attrs && p.attrs["mult"] == Presets.Wrapped(Mult, Presets.WrappedDoc(Mult.doc))
    ensures "pickle" in p.attrs && p.attrs["pickle"] == Presets.Same(Module(Pickle))
    ensures "submod" in p.attrs && p.attrs["submod"].Nested?
    ensures p.attrs["submod"].node == null || (Submod in entries && p.attrs["submod"].node == entries[Submod])
  {
    RootDir();
    TestWorldKinds();
    var ms := TestWorld[Root].members;
    assert Presets.AttrOk(TestWorld, "pt", ms[0], p.attrs, entries);
    assert Presets.AttrOk(TestWorld, "pt", ms[1], p.attrs, entries);
    assert Presets.AttrOk(TestWorld, "pt", ms[2], p.attrs, entries);
  }

  /** The binding of a completed proxy over pt.submod. */
  lemma SubmodAttrs(q: Presets.Preset, entries: map<ModuleId, Presets.Preset?>)
    requires q.moduleId == Submod && Presets.NodeBuilt(TestWorld, q, entries)
    ensures "add" in q.attrs && q.attrs["add"] == Presets.Wrapped(Add, Presets.WrappedDoc(Add.doc))
  {
    SubmodDir();
    assert Presets.AttrOk(TestWorld, "pt", TestWorld[Submod].members[0], q.attrs, entries);
  }

  /** `P = presets.Preset(preset_test)`, and what the tests then rely on: P.mult wraps mult,
      P.pickle is the pickle module itself, and P.submod is a Preset over submod whose add is
      wrapped and which shares P's store. */
  method BuildTestPreset() returns (p: Presets.Preset, sub: Presets.Preset)
    ensures fresh(p.defaults) && p.defaults.items == map[]
    ensures "mult" in p.attrs && p.attrs["mult"] == Presets.Wrapped(Mult, Presets.WrappedDoc(Mult.doc))
    ensures "pickle" in p.attrs && p.attrs["pickle"] == Presets.Same(Module(Pickle))
    ensures "submod" in p.attrs && p.attrs["submod"] == Presets.Nested(sub)
    ensures sub.moduleId == Submod && sub.defaults == p.defaults
    ensures "add" in sub.attrs && sub.attrs["add"] == Presets.Wrapped(Add, Presets.WrappedDoc(Add.doc))
  {
    TestWorldValid();
    var r := Presets.Preset.New(TestWorld, Root, null, null);
    p := r.value;
    var entries := p.dispatch.entries;
    RootAttrs(p, entries);
    sub := p.attrs["submod"].node;
    assert Presets.SharedEntry(entries[Submod], Submod, p.dispatch, p.defaults);
    SubmodAttrs(sub, entries);
  }

  /** test_main_default: P.mult(4) forwards exactly what mult(4) receives. */
  method MainDefault() returns (r: Result<Forwarded>)
    ensures r == Ok(Forwarded([Four], map[]))
  {
    var p, _ := BuildTestPreset();
    r := p.Call(p.attrs["mult"].func, [Four], map[]);
    Presets.EmptyStorePassthrough(Mult.signature.value, map[]);
  }

  /** test_submod_default: the same through the nested proxy. */
  method SubmodDefault() returns (r: Result<Forwarded>)
    ensures r == Ok(Forwarded([Four], map[]))
  {
    var p, sub := BuildTestPreset();
    r := sub.Call(sub.attrs["add"].func, [Four], map[]);
    Presets.EmptyStorePassthrough(Add.signature.value, map[]);
  }

  /** test_main_override: after P['b'] = -3, P.mult(4) behaves as mult(4, b=-3). */
  method MainOverride() returns (r: Result<Forwarded>)
    ensures r == Ok(Forwarded([Four], map["b" := MinusThree]))
  {
    var p, _ := BuildTestPreset();
    p.SetItem("b", MinusThree);
    r := p.Call(p.attrs["mult"].func, [Four], map[]);
    assert r.value.kwargs.Keys == {"b"};
  }

  /** test_submod_override: an override set on the root reaches the nested submodule. */
  method SubmodOverride() returns (r: Result<Forwarded>)
    ensures r == Ok(Forwarded([Four], map["b" := MinusThree]))
  {
    var p, sub := BuildTestPreset();
    p.SetItem("b", MinusThree);
    r := sub.Call(sub.attrs["add"].func, [Four], map[]);
    assert r.value.kwargs.Keys == {"b"};
  }

  /** test_main_update: an override is read at call time, so a later assignment is seen. */
  method MainUpdate() returns (r1: Result<Forwarded>, r2: Result<Forwarded>)
    ensures r1 == Ok(Forwarded([Four], map["b" := MinusThree]))
    ensures r2 == Ok(Forwarded([Four], map["b" := Seven]))
  {
    var p, _ := BuildTestPreset();
    p.SetItem("b", MinusThree);
    r1 := p.Call(p.attrs["mult"].func, [Four], map[]);
    assert r1.value.kwargs.Keys == {"b"};
    p.SetItem("b", Seven);
    r2 := p.Call(p.attrs["mult"].func, [Four], map[]);
    assert r2.value.kwargs.Keys == {"b"};
  }

  /** test_user_override: a keyword argument of the caller beats the override. */
  method UserOverride() returns (r: Result<Forwarded>)
    ensures r == Ok(Forwarded([Four], map["b" := Seven]))
  {
    var p, _ := BuildTestPreset();
    p.SetItem("b", MinusThree);
    r := p.Call(p.attrs["mult"].func, [Four], map["b" := Seven]);
    assert r.value.kwargs.Keys == {"b"};
    assert r.value.kwargs["b"] == Seven;
    assert r.value.kwargs == map["b" := Seven];
  }

  /** test_revert: deleting the override restores the function's own default. */
  method Revert() returns (r: Result<Forwarded>)
    ensures r == Ok(Forwarded([Four], map[]))
  {
    var p, _ := BuildTestPreset();
    p.SetItem("b", MinusThree);
    var _ := p.DelItem("b");
    r := p.Call(p.attrs["mult"].func, [Four], map[]);
    Presets.EmptyStorePassthrough(Mult.signature.value, map[]);
  }

  /** test_contains */
  method ContainsAfterSet() returns (hasB: bool, hasC: bool)
    ensures hasB && !hasC
  {
    var p, _ := BuildTestPreset();
    p.SetItem("b", Other(3));
    hasB := p.Contains("b");
    hasC := p.Contains("c");
  }

  /** test_set_get */
  method SetGet() returns (r: Result<Value>)
    ensures r == Ok(Twenty)
  {
    var p, _ := BuildTestPreset();
    p.SetItem("b", Twenty);
    r := p.GetItem("b");
  }

  /** test_update */
  method UpdateThenGet() returns (rb: Result<Value>, rc: Result<Value>, rd: Result<Value>)
    ensures rb == Ok(Thirty) && rc == Ok(Twenty) && rd == Ok(Fifty)
  {
    var p, _ := BuildTestPreset();
    p.Update(map["b" := Thirty, "c" := Twenty, "d" := Fifty]);
    rb := p.GetItem("b");
    rc := p.GetItem("c");
    rd := p.GetItem("d");
  }

  /** test_keys */
  method KeysAfterUpdate() returns (ks: set<string>)
    ensures ks == {"b", "c", "d"}
  {
    var p, _ := BuildTestPreset();
    p.Update(map["b" := Thirty, "c" := Twenty, "d" := Fifty]);
    ks := p.Keys();
  }

  /** test_external: a module outside the package directory is passed through unchanged. */
  method External() returns (a: Presets.Attr)
    ensures a == Presets.Same(Module(Pickle))
  {
    var p, _ := BuildTestPreset();
    a := p.attrs["pickle"];
  }

  /** test_docstring: the wrapped callable's docstring contains WARNING. */
  method Docstring() returns (doc: string)
    ensures Presets.Warning <= doc
  {
    var p, _ := BuildTestPreset();
    doc := p.attrs["mult"].doc;
    Presets.WrappedDocWarns(Mult.doc);
  }

  /** A member module without a source file: the current version leaves it out, the legacy
      version raises TypeError. */
  method BuiltinModuleMember() returns (current: Result<Presets.Preset>, legacy: Result<LegacyPresets.Preset>)
    ensures current.Ok? && "sys" !in current.value.attrs
    ensures legacy == Err(TypeError)
  {
    RootDir();
    assert ValidWorld(BuiltinWorld);
    current := Presets.Preset.New(BuiltinWorld, Root, null, null);
    assert Presets.AttrOk(BuiltinWorld, "pt", BuiltinWorld[Root].members[1], current.value.attrs,
                          current.value.dispatch.entries);
    assert LegacyPresets.FilelessMember(BuiltinWorld, Root) by {
      assert BuiltinWorld[Root].members[1].value == Module(NoFile);
    }
    legacy := LegacyPresets.Preset.New(BuiltinWorld, Root, null, null);
  }

  /** A member module whose `__file__` is None: both versions reach inspect.getfile, which
      raises TypeError. */
  method NamespacePackageMember() returns (current: Result<Presets.Preset>, legacy: Result<LegacyPresets.Preset>)
    ensures current == Err(TypeError)
    ensures legacy == Err(TypeError)
  {
    assert ValidWorld(NamespaceWorld);
    assert NamespaceWorld[Root].members[1].value == Module(NoFile);
    assert Presets.UnreadableFileMember(NamespaceWorld, Root);
    current := Presets.Preset.New(NamespaceWorld, Root, null, null);
    assert LegacyPresets.FilelessMember(NamespaceWorld, Root);
    legacy := LegacyPresets.Preset.New(NamespaceWorld, Root, null, null);
  }

  /** A keyword argument mult does not declare: the current version passes it on (and mult
      then raises its own TypeError), the legacy version drops it. */
  method UndeclaredKeyword() returns (current: Result<Forwarded>, legacy: Result<Forwarded>)
    ensures current == Ok(Forwarded([Four], map["c" := Seven]))
    ensures legacy == Ok(Forwarded([Four], map[]))
  {
    var store := new DefaultsDict();
    var reg := new Presets.Dispatch();
    var p := new Presets.Preset.Create(Root, reg, store);
    var lreg := new LegacyPresets.Dispatch();
    var q := new LegacyPresets.Preset.Create(Root, lreg, store);
    current := p.Call(Mult, [Four], map["c" := Seven]);
    Presets.EmptyStorePassthrough(Mult.signature.value, map["c" := Seven]);
    legacy := q.Call(Mult, [Four], map["c" := Seven]);
    assert legacy.value.kwargs.Keys == {};
  }

  /** The submodule test compares strings character by character, so a sibling directory
      whose name merely starts with the package directory's name also counts as inside it. */
  lemma SiblingPrefixNests(world: World, id: ModuleId)
    requires id in world && world[id].File() == Some("ptx/other.py")
    ensures Presets.Classify(world, "pt", Module(id)) == Presets.Nest
  {
    assert "ptx/other.py" == "pt" + "x/other.py";
  }
}
