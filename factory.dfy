/**
 * The named component registry of inc/WireCellUtil/NamedFactory.h.
 *
 * Two caches sit on top of each other:
 *  - a NamedFactory builds instances of one concrete class and keeps them
 *    by instance name, so a name always yields the same object;
 *  - a NamedFactoryRegistry, one per interface, keeps factories by class
 *    name and, on a miss, asks the plugin manager for the entry point
 *    "make_<class>_factory", caching what it returns only when it is
 *    not null.
 * The facade methods at the end of the module (C++ namespace Factory)
 * turn a null or false answer of the registry into a FactoryException.
 *
 * Object identity of shared pointers is Dafny object identity: a newly
 * built instance or factory is a freshly allocated object.  The process-wide
 * singleton registry of an interface is an explicit registry object passed
 * to the facade.  The plugin manager is an injected collaborator whose
 * plugins and entry points are given when it is built.
 */
module Factory {
  import opened Wrappers

  /** A component instance: an object of some concrete class. */
  class Component {
    /** The concrete class the instance was built as. */
    const concrete: string
    /** The interfaces that concrete class implements. */
    const interfaces: set<string>

    constructor (concrete: string, interfaces: set<string>)
      ensures this.concrete == concrete && this.interfaces == interfaces
    {
      this.concrete := concrete;
      this.interfaces := interfaces;
    }
  }

  /** The test dynamic_pointer_cast<IType> performs on an instance. */
  predicate Implements(c: Component, iface: string)
  {
    iface in c.interfaces
  }

  /** NamedFactory<Type>: builds and caches instances of one concrete class. */
  class NamedFactory {
    /** The class Type, and the interfaces Type implements. */
    const concrete: string
    const interfaces: set<string>
    /** m_objects: instance name to the shared instance. */
    var objects: map<string, Component>
    /** m_classname: the class name recorded for diagnostics. */
    var classname: string

    /**
     * Every cached instance is a Type, and distinct names hold distinct,
     * separately built instances.
     */
    ghost predicate Valid()
      reads this
    {
      && (forall n | n in objects :: objects[n].concrete == concrete && objects[n].interfaces == interfaces)
      && (forall a, b | a in objects && b in objects && a != b :: objects[a] != objects[b])
    }

    constructor (concrete: string, interfaces: set<string>)
      ensures this.concrete == concrete && this.interfaces == interfaces
      ensures objects == map[] && classname == ""
      ensures Valid()
    {
      this.concrete := concrete;
      this.interfaces := interfaces;
      objects := map[];
      classname := "";
    }

    /**
     * create(name): the instance cached under `name`, or a newly built one
     * that is cached under `name` first.  Nothing else in the cache changes.
     */
    method Create(name: string) returns (p: Component)
      modifies this`objects
      ensures name in old(objects) ==> p == old(objects)[name] && objects == old(objects)
      ensures name !in old(objects) ==>
                && fresh(p) && p.concrete == concrete && p.interfaces == interfaces
                && objects == old(objects)[name := p]
      ensures name in objects && objects[name] == p
      ensures old(Valid()) ==> Valid()
    {
      if name !in objects {
        p := new Component(concrete, interfaces);
        objects := objects[name := p];
        return;
      }
      p := objects[name];
    }

    /** create(): the default instance, the one named "". */
    method CreateDefault() returns (p: Component)
      modifies this`objects
      ensures "" in old(objects) ==> p == old(objects)[""] && objects == old(objects)
      ensures "" !in old(objects) ==>
                && fresh(p) && p.concrete == concrete && p.interfaces == interfaces
                && objects == old(objects)["" := p]
      ensures "" in objects && objects[""] == p
      ensures old(Valid()) ==> Valid()
    {
      p := Create("");
    }

    method SetClassname(name: string)
      modifies this`classname
      ensures classname == name
    {
      classname := name;
    }

    method Classname() returns (name: string)
      ensures name == classname
    {
      name := classname;
    }
  }

  /** The entry point a plugin exports for class `classname`. */
  function MakerSymbol(classname: string): string
  {
    "make_" + classname + "_factory"
  }

  /** Distinct class names are looked up under distinct entry points. */
  lemma {:induction false} MakerSymbolInjective(a: string, b: string)
    requires MakerSymbol(a) == MakerSymbol(b)
    ensures a == b
  {
    var s := MakerSymbol(a);
    assert |a| == |b|;
    forall i | 0 <= i < |a|
      ensures a[i] == b[i]
    {
      assert a[i] == s[5 + i];
      assert b[i] == MakerSymbol(b)[5 + i];
    }
  }

  /**
   * The entry point make_<CLASS>_factory.  One written by the
   * WIRECELL_NAMEDFACTORY_BEGIN/INTERFACE/END macros keeps the factory in
   * the lazily filled slot gs_<CLASS>_factory, associates it with the
   * registry of every interface listed, and returns it.  One with
   * `declines` set stands for a hand-written entry point that returns null.
   */
  class Maker {
    const concrete: string
    const interfaces: set<string>
    /** The registries named by the WIRECELL_NAMEDFACTORY_INTERFACE lines. */
    const targets: seq<NamedFactoryRegistry>
    const declines: bool
    /** gs_<CLASS>_factory */
    var slot: NamedFactory?

    constructor (concrete: string, interfaces: set<string>, targets: seq<NamedFactoryRegistry>, declines: bool)
      ensures this.concrete == concrete && this.interfaces == interfaces
      ensures this.targets == targets && this.declines == declines
      ensures slot == null
    {
      this.concrete := concrete;
      this.interfaces := interfaces;
      this.targets := targets;
      this.declines := declines;
      slot := null;
    }

    /**
     * Calling the entry point: the factory is built at most once, and every
     * call associates it under the class name in each listed registry.
     */
    method Make() returns (f: NamedFactory?)
      modifies this`slot, targets
      ensures declines ==> f == null && slot == old(slot) && unchanged(targets)
      ensures !declines ==> f != null && f == slot
      ensures !declines && old(slot) != null ==> f == old(slot)
      ensures !declines && old(slot) == null ==>
                && fresh(f) && f.concrete == concrete && f.interfaces == interfaces
                && f.objects == map[] && f.classname == "" && f.Valid()
      ensures !declines ==> forall r | r in targets :: r.lookup == old(r.lookup)[concrete := f]
    {
      if declines {
        return null;
      }
      if slot == null {
        slot := new NamedFactory(concrete, interfaces);
      }
      f := slot;
      var i := 0;
      while i < |targets|
        invariant 0 <= i <= |targets|
        invariant slot == f
        invariant old(slot) == null ==> f.objects == map[] && f.classname == "" && f.Valid()
        invariant forall r | r in targets[..i] :: r.lookup == old(r.lookup)[concrete := f]
        invariant forall r | r in targets[i..] && r !in targets[..i] :: r.lookup == old(r.lookup)
      {
        var r := Associate(targets[i], concrete, f);
        assert targets[..i + 1] == targets[..i] + [targets[i]];
        i := i + 1;
      }
      assert targets[..i] == targets;
    }
  }

  /** A loaded plugin module: the entry points it exports, by symbol name. */
  class Plugin {
    const symbols: map<string, Maker>

    constructor (symbols: map<string, Maker>)
      ensures this.symbols == symbols
    {
      this.symbols := symbols;
    }

    /** plugin->symbol(name, mf): the entry point, if exported. */
    function Symbol(name: string): (mf: Option<Maker>)
      ensures mf.Some? <==> name in symbols
      ensures mf.Some? ==> mf.value == symbols[name]
    {
      if name in symbols then Some(symbols[name]) else None
    }
  }

  /**
   * The plugin manager, injected: find() answers which loaded plugin, if
   * any, provides a symbol.
   */
  class PluginManager {
    const plugins: map<string, Plugin>
    /** Every entry point of every plugin. */
    ghost const Makers: set<Maker>
    /** The entry points and the registries they associate into. */
    ghost const Repr: set<object>

    /**
     * Every entry point is known and exported under the name the macros
     * give it, and what it may change lies in Repr.
     */
    ghost predicate Valid()
    {
      && (forall s, t | s in plugins && t in plugins[s].symbols ::
            plugins[s].symbols[t] in Makers && t == MakerSymbol(plugins[s].symbols[t].concrete))
      && (forall m | m in Makers :: m in Repr)
      && (forall m, r | m in Makers && r in m.targets :: r in Repr)
      && (forall o | o in Repr :: o is Maker || o is NamedFactoryRegistry)
    }

    constructor (plugins: map<string, Plugin>)
      requires forall s, t | s in plugins && t in plugins[s].symbols ::
                 t == MakerSymbol(plugins[s].symbols[t].concrete)
      ensures this.plugins == plugins
      ensures Valid()
      ensures Makers == set s, t | s in plugins && t in plugins[s].symbols :: plugins[s].symbols[t]
      ensures Repr == (set m: Maker | m in Makers :: m as object) + (set m, r | m in Makers && r in m.targets :: r as object)
    {
      this.plugins := plugins;
      var makers := set s, t | s in plugins && t in plugins[s].symbols :: plugins[s].symbols[t];
      Makers := makers;
      Repr := (set m: Maker | m in makers :: m as object)
        + (set m, r | m in makers && r in m.targets :: r as object);
    }

    /** pm.find(symbol): the plugin providing `symbol`, or null. */
    function Find(symbol: string): (p: Plugin?)
      ensures p != null <==> symbol in plugins
      ensures p != null ==> p == plugins[symbol]
    {
      if symbol in plugins then plugins[symbol] else null
    }

    /** The entry point a miss on `classname` would call, if there is one. */
    function Discover(classname: string): Option<Maker>
    {
      var p := Find(MakerSymbol(classname));
      if p == null then None else p.Symbol(MakerSymbol(classname))
    }

    /**
     * A miss on `classname` is answered with a factory: some plugin exports
     * its entry point, and that entry point does not return null.
     */
    predicate Answers(classname: string)
    {
      Discover(classname).Some? && !Discover(classname).value.declines
    }

    /** The factories already built by entry points. */
    ghost function Slots(): set<NamedFactory>
      reads Makers
    {
      set m | m in Makers && m.slot != null :: m.slot
    }
  }

  /** NamedFactoryRegistry<IType>: the factories of one interface, by class name. */
  class NamedFactoryRegistry {
    /** IType */
    const iface: string
    /** m_lookup */
    var lookup: map<string, NamedFactory>

    constructor (iface: string)
      ensures this.iface == iface && lookup == map[]
    {
      this.iface := iface;
      lookup := map[];
    }

    /** associate(classname, factory): last write wins; always succeeds. */
    method Associate(classname: string, factory: NamedFactory) returns (ok: bool)
      modifies this`lookup
      ensures ok
      ensures lookup == old(lookup)[classname := factory]
    {
      lookup := lookup[classname := factory];
      return true;
    }

    /**
     * What lookup_factory(classname) does between the old state and this
     * one, answering `f`.  A cached class is returned and nothing changes.
     * A miss that no entry point answers (no plugin, no symbol, or a null
     * result) gives null and changes nothing, so a later call tries again.
     * A miss answered by entry point m caches m's factory under
     * `classname`; m builds that factory at most once, typed as m says, and
     * associates it in each of its registries; every other registry of the
     * plugin manager and every other entry point is left as it was.
     */
    twostate predicate FoundFactory(classname: string, pm: PluginManager, new f: NamedFactory?)
      requires pm.Valid()
      reads this, pm.Repr
    {
      && (classname in old(lookup) ==>
            f == old(lookup)[classname] && lookup == old(lookup) && unchanged(pm.Repr))
      && (classname !in old(lookup) && !pm.Answers(classname) ==>
            f == null && lookup == old(lookup) && unchanged(pm.Repr))
      && (classname !in old(lookup) && pm.Answers(classname) ==>
            var m := pm.Discover(classname).value;
            && f != null && f == m.slot
            && lookup == old(lookup)[classname := f]
            && (old(m.slot) != null ==> f == old(m.slot))
            && (old(m.slot) == null ==>
                  fresh(f) && f.concrete == classname && f.interfaces == m.interfaces)
            && (forall r | r in m.targets :: r.lookup == old(r.lookup)[classname := f])
            && (forall r: NamedFactoryRegistry | r in pm.Repr && r != this && r !in m.targets ::
                  r.lookup == old(r.lookup))
            && (forall m2: Maker | m2 in pm.Makers && m2 != m :: m2.slot == old(m2.slot)))
    }

    /**
     * lookup_factory(classname): see FoundFactory.  A factory built by the
     * entry point starts with no instances.
     */
    method LookupFactory(classname: string, pm: PluginManager) returns (f: NamedFactory?)
      requires pm.Valid()
      modifies this`lookup, pm.Repr
      ensures FoundFactory(classname, pm, f)
      ensures f != null <==> classname in lookup
      ensures f != null ==> lookup[classname] == f
      ensures f != null ==> f in old(lookup.Values) || f in old(pm.Slots()) || fresh(f)
      ensures f != null && fresh(f) ==> f.objects == map[] && f.classname == "" && f.Valid()
    {
      if classname in lookup {
        return lookup[classname];
      }

      var factoryMaker := MakerSymbol(classname);
      var plugin := pm.Find(factoryMaker);
      if plugin == null {
        return null;
      }

      var mf := plugin.Symbol(factoryMaker);
      if mf.None? {
        return null;
      }

      var maker := mf.value;
      MakerSymbolInjective(classname, maker.concrete);
      f := maker.Make();
      if f == null {
        return null;
      }

      lookup := lookup[classname := f];
    }

    /**
     * instance(classname, instname): the named instance of the class, if a
     * factory is found and the instance implements this registry's
     * interface; null otherwise.  Finding the factory has the effect of
     * lookup_factory; creating the instance touches that factory alone.
     */
    method Instance(classname: string, instname: string := "", pm: PluginManager) returns (p: Component?)
      requires pm.Valid()
      modifies this`lookup, pm.Repr, lookup.Values`objects, pm.Slots()`objects
      ensures classname in lookup ==> FoundFactory(classname, pm, lookup[classname])
      ensures classname !in lookup ==> FoundFactory(classname, pm, null) && p == null
      ensures classname in lookup ==>
                var f := lookup[classname];
                && instname in f.objects
                && (p != null <==> Implements(f.objects[instname], iface))
                && (p != null ==> p == f.objects[instname])
                && (f in old(lookup.Values) || f in old(pm.Slots()) || fresh(f))
      ensures classname in lookup && (lookup[classname] in old(lookup.Values) || lookup[classname] in old(pm.Slots())) ==>
                var f := lookup[classname];
                && (instname in old(f.objects) ==> f.objects == old(f.objects))
                && (instname !in old(f.objects) ==>
                      && fresh(f.objects[instname])
                      && f.objects[instname].concrete == f.concrete && f.objects[instname].interfaces == f.interfaces
                      && f.objects == old(f.objects)[instname := f.objects[instname]])
      ensures classname in lookup && fresh(lookup[classname]) ==>
                var f := lookup[classname];
                && fresh(f.objects[instname])
                && f.objects[instname].concrete == f.concrete && f.objects[instname].interfaces == f.interfaces
                && f.objects == map[instname := f.objects[instname]] && f.classname == ""
      ensures forall g | g in old(lookup.Values) + old(pm.Slots()) && (classname !in lookup || g != lookup[classname]) ::
                g.objects == old(g.objects)
    {
      var fac := LookupFactory(classname, pm);
      // Looking up the factory changes registries and entry points only.
      forall g | g in old(lookup.Values) + old(pm.Slots())
        ensures g.objects == old(g.objects)
      {
        assert g !in pm.Repr;
      }
      if fac == null {
        return null;
      }
      var iptr := fac.Create(instname);
      p := if Implements(iptr, iface) then iptr else null;
    }
  }

  /** The exception the facade raises. */
  datatype FactoryException = FactoryException(message: string)

  /** Factory::associate<IType>: delegates, and would throw on failure. */
  method Associate(registry: NamedFactoryRegistry, classname: string, factory: NamedFactory)
    returns (r: Result<bool, FactoryException>)
    modifies registry`lookup
    ensures r == Success(true)
    ensures registry.lookup == old(registry.lookup)[classname := factory]
  {
    var ok := registry.Associate(classname, factory);
    r := if ok then Success(ok) else Failure(FactoryException("Failed to associate class " + classname));
  }

  /**
   * Factory::lookup_factory<IType>: the registry's answer, throwing exactly
   * when that answer is null.
   */
  method LookupFactory(registry: NamedFactoryRegistry, classname: string, pm: PluginManager)
    returns (r: Result<NamedFactory, FactoryException>)
    requires pm.Valid()
    modifies registry`lookup, pm.Repr
    ensures registry.FoundFactory(classname, pm, if r.Success? then r.value else null)
    ensures r.Failure? ==> r.error == FactoryException("Failed to lookup factory for " + classname)
    ensures r.Success? && fresh(r.value) ==> r.value.objects == map[] && r.value.classname == "" && r.value.Valid()
    ensures r.Success? <==> classname in registry.lookup
    ensures r.Success? ==> r.value == registry.lookup[classname]
  {
    var ret := registry.LookupFactory(classname, pm);
    r := if ret == null then Failure(FactoryException("Failed to lookup factory for " + classname)) else Success(ret);
  }

  /**
   * Factory::lookup<IType>: the registry's instance(), throwing exactly
   * when that gives null, whether no factory was found or the instance does
   * not implement the interface.
   */
  method Lookup(registry: NamedFactoryRegistry, classname: string, instname: string := "", pm: PluginManager)
    returns (r: Result<Component, FactoryException>)
    requires pm.Valid()
    modifies registry`lookup, pm.Repr, registry.lookup.Values`objects, pm.Slots()`objects
    ensures r.Failure? ==> r.error == FactoryException("Failed to lookup instance for " + classname + " " + instname)
    ensures classname in registry.lookup ==> registry.FoundFactory(classname, pm, registry.lookup[classname])
    ensures classname !in registry.lookup ==> registry.FoundFactory(classname, pm, null)
    ensures classname !in registry.lookup ==> r.Failure?
    ensures classname in registry.lookup ==>
              var f := registry.lookup[classname];
              && instname in f.objects
              && (r.Success? <==> Implements(f.objects[instname], registry.iface))
              && (r.Success? ==> r.value == f.objects[instname])
              && (f in old(registry.lookup.Values) || f in old(pm.Slots()) || fresh(f))
    ensures classname in registry.lookup
            && (registry.lookup[classname] in old(registry.lookup.Values) || registry.lookup[classname] in old(pm.Slots())) ==>
              var f := registry.lookup[classname];
              && (instname in old(f.objects) ==> f.objects == old(f.objects))
              && (instname !in old(f.objects) ==>
                    && fresh(f.objects[instname])
                    && f.objects[instname].concrete == f.concrete && f.objects[instname].interfaces == f.interfaces
                    && f.objects == old(f.objects)[instname := f.objects[instname]])
    ensures classname in registry.lookup && fresh(registry.lookup[classname]) ==>
              var f := registry.lookup[classname];
              && fresh(f.objects[instname])
              && f.objects[instname].concrete == f.concrete && f.objects[instname].interfaces == f.interfaces
              && f.objects == map[instname := f.objects[instname]] && f.classname == ""
    ensures forall g | g in old(registry.lookup.Values) + old(pm.Slots())
                       && (classname !in registry.lookup || g != registry.lookup[classname]) ::
              g.objects == old(g.objects)
  {
    var ret := registry.Instance(classname, instname, pm);
    r := if ret == null then Failure(FactoryException("Failed to lookup instance for " + classname + " " + instname))
         else Success(ret);
  }
}
