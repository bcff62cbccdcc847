/** The part of a running Python program that a Preset proxy looks at, as plain values.

    Reflection (inspect.getmembers, inspect.getfile, inspect.signature, callable, isinstance)
    is replaced by a World: a finite map from module identities to what introspection would
    report about each module (its source file and its members, in getmembers order).
 */
module PyObjects {

  type ModuleId = nat

  datatype Option<T> = None | Some(value: T)

  /** The Python exceptions the proxy itself can raise or let through. */
  datatype Error =
    | KeyError(key: string)  // a missing override name in __getitem__ / __delitem__
    | ValueError             // inspect.signature / inspect.getargspec cannot describe the callable
    | TypeError              // inspect.getfile of a module whose __file__ is missing, None or empty

  datatype Result<T> = Ok(value: T) | Err(error: Error)

  /** The outcome of a statement that returns nothing or raises. */
  datatype Outcome = Pass | Fail(error: Error)

  /** A callable object together with what introspection reports about it. */
  datatype Function = Function(
    id: nat,                          // object identity
    signature: Option<seq<string>>,   // names in inspect.signature(f).parameters; None when it raises
    argspec: Option<seq<string>>,     // inspect.getargspec(f).args; None when it raises
    doc: Option<string>)              // __doc__, None when the object has none

  /** A module member: callables (functions, classes, ...), modules, and every other object. */
  datatype Value =
    | Callable(func: Function)
    | Module(id: ModuleId)
    | Other(ident: int)

  datatype Member = Member(name: string, value: Value)

  /** A module's `__file__` attribute: missing (a builtin module), or set to None (a namespace
      package) or to a path. */
  datatype FileAttr = Missing | Set(path: Option<string>)

  /** What introspection reports of one module: its `__file__` and inspect.getmembers. */
  datatype ModuleInfo = ModuleInfo(fileAttr: FileAttr, members: seq<Member>) {
    /** hasattr(module, '__file__') */
    predicate HasFile() {
      fileAttr.Set?
    }

    /** inspect.getfile(module): `__file__` when it is a non-empty string; None where
        inspect.getfile raises TypeError. */
    function File(): (f: Option<string>)
      ensures f.Some? ==> HasFile() && fileAttr.path == f && f.value != []
      ensures f.None? ==> !HasFile() || fileAttr.path.None? || fileAttr.path.value == []
    {
      if fileAttr.Set? && fileAttr.path.Some? && fileAttr.path.value != [] then fileAttr.path else None
    }
  }

  type World = map<ModuleId, ModuleInfo>

  /** Every module a member refers to is described by the world. */
  ghost predicate MembersIn(world: World, ms: seq<Member>) {
    forall j | 0 <= j < |ms| :: ms[j].value.Module? ==> ms[j].value.id in world
  }

  /** inspect.getmembers reports each attribute name once. */
  ghost predicate DistinctNames(ms: seq<Member>) {
    forall j, k | 0 <= j < k < |ms| :: ms[j].name != ms[k].name
  }

  ghost predicate ValidWorld(world: World) {
    forall id | id in world :: MembersIn(world, world[id].members) && DistinctNames(world[id].members)
  }

  /** What a wrapped callable hands on to the original one: positional and keyword arguments. */
  datatype Forwarded = Forwarded(args: seq<Value>, kwargs: map<string, Value>)

  /** A Python dict from parameter names to values: the override store every proxy shares. */
  class DefaultsDict {
    var items: map<string, Value>

    constructor ()
      ensures items == map[]
    {
      items := map[];
    }
  }
}
