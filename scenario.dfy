/**
 * Worked runs of the registry: a class Widget implementing the interface
 * Drawable, whose factory is associated with the Drawable registry.
 */
module RegistryScenario {
  import opened Wrappers
  import opened Factory

  /**
   * A process with a Drawable and a Clickable registry in which the host
   * binary has associated Widget's factory with Drawable before first use,
   * and whose plugin manager has loaded no plugin.
   */
  method Setup() returns (drawable: NamedFactoryRegistry, clickable: NamedFactoryRegistry,
                          pm: PluginManager, factory: NamedFactory)
    ensures fresh(drawable) && fresh(clickable) && fresh(factory)
    ensures drawable.iface == "Drawable" && clickable.iface == "Clickable"
    ensures drawable.lookup == map["Widget" := factory] && clickable.lookup == map[]
    ensures factory.concrete == "Widget" && factory.interfaces == {"Drawable"} && factory.classname == ""
    ensures factory.objects == map[] && factory.Valid()
    ensures pm.Valid() && pm.plugins == map[] && pm.Repr == {} && pm.Makers == {}
  {
    drawable := new NamedFactoryRegistry("Drawable");
    clickable := new NamedFactoryRegistry("Clickable");
    factory := new NamedFactory("Widget", {"Drawable"});
    var ok := Associate(drawable, "Widget", factory);
    pm := new PluginManager(map[]);
  }

  /**
   * The Setup process after a first Drawable lookup of the instance "left",
   * which builds a new Widget.
   */
  method SetupWithLeft() returns (drawable: NamedFactoryRegistry, clickable: NamedFactoryRegistry,
                                  pm: PluginManager, factory: NamedFactory, left: Component)
    ensures fresh(drawable) && fresh(clickable) && fresh(factory) && fresh(left)
    ensures drawable.iface == "Drawable" && clickable.iface == "Clickable"
    ensures drawable.lookup == map["Widget" := factory] && clickable.lookup == map[]
    ensures factory.concrete == "Widget" && factory.interfaces == {"Drawable"} && factory.classname == ""
    ensures factory.objects == map["left" := left]
    ensures left.concrete == "Widget" && left.interfaces == {"Drawable"}
    ensures pm.Valid() && pm.plugins == map[] && pm.Repr == {} && pm.Makers == {}
  {
    drawable, clickable, pm, factory := Setup();
    var r := Lookup(drawable, "Widget", "left", pm);
    left := r.value;
  }

  /**
   * Through the Drawable facade, a name yields a new Widget the first time
   * and the same object afterwards; another name yields another object.
   */
  method IdentityScenario() returns (left: Component,
                                     again: Result<Component, FactoryException>,
                                     right: Result<Component, FactoryException>)
    ensures left.concrete == "Widget"
    ensures again == Success(left)
    ensures right.Success? && right.value.concrete == "Widget" && right.value != left
  {
    var drawable, clickable, pm, factory;
    drawable, clickable, pm, factory, left := SetupWithLeft();
    again := Lookup(drawable, "Widget", "left", pm);
    right := Lookup(drawable, "Widget", "right", pm);
  }

  /**
   * An unregistered class fails with a named exception every time it is
   * asked for, and the failures leave Widget's factory in place.
   */
  method MissScenario() returns (factory: NamedFactory,
                                 gadget: Result<Component, FactoryException>,
                                 gadgetAgain: Result<Component, FactoryException>,
                                 permanent: Result<NamedFactory, FactoryException>)
    ensures gadget == Failure(FactoryException("Failed to lookup instance for Gadget x"))
    ensures gadgetAgain == gadget
    ensures permanent == Success(factory)
  {
    assert "Failed to lookup instance for " + "Gadget" + " " + "x" == "Failed to lookup instance for Gadget x";
    var drawable, clickable, pm;
    drawable, clickable, pm, factory := Setup();
    gadget := Lookup(drawable, "Gadget", "x", pm);
    assert gadget.Failure?;
    gadgetAgain := Lookup(drawable, "Gadget", "x", pm);
    permanent := LookupFactory(drawable, "Widget", pm);
  }

  /** The SetupWithLeft process after Widget's factory is also associated with Clickable. */
  method SetupShared() returns (drawable: NamedFactoryRegistry, clickable: NamedFactoryRegistry,
                                pm: PluginManager, factory: NamedFactory, left: Component)
    ensures fresh(drawable) && fresh(clickable) && fresh(factory) && fresh(left)
    ensures drawable.iface == "Drawable" && clickable.iface == "Clickable"
    ensures drawable.lookup == map["Widget" := factory] && clickable.lookup == map["Widget" := factory]
    ensures factory.concrete == "Widget" && factory.interfaces == {"Drawable"} && factory.classname == ""
    ensures factory.objects == map["left" := left] && left.interfaces == {"Drawable"}
    ensures pm.Valid() && pm.plugins == map[] && pm.Repr == {} && pm.Makers == {}
  {
    drawable, clickable, pm, factory, left := SetupWithLeft();
    var ok := Associate(clickable, "Widget", factory);
  }

  /**
   * Once Widget's factory is also associated with the Clickable registry,
   * both registries reach the very instance built under "left", but only
   * the Drawable lookup succeeds: Widget does not implement Clickable.
   */
  method DowncastScenario()
    returns (drawable: NamedFactoryRegistry, clickable: NamedFactoryRegistry, factory: NamedFactory, left: Component,
             asDrawable: Result<Component, FactoryException>, asClickable: Result<Component, FactoryException>)
    ensures drawable.iface == "Drawable" && drawable.lookup == map["Widget" := factory]
    ensures clickable.iface == "Clickable" && clickable.lookup == map["Widget" := factory]
    ensures factory.concrete == "Widget" && factory.objects == map["left" := left]
    ensures asDrawable == Success(left)
    ensures asClickable == Failure(FactoryException("Failed to lookup instance for Widget left"))
  {
    assert "Failed to lookup instance for " + "Widget" + " " + "left" == "Failed to lookup instance for Widget left";
    var pm;
    drawable, clickable, pm, factory, left := SetupShared();
    assert "Clickable" !in left.interfaces by { assert "Clickable"[0] != "Drawable"[0]; }
    asClickable := Lookup(clickable, "Widget", "left", pm);
    asDrawable := Lookup(drawable, "Widget", "left", pm);
  }

  /**
   * A process with empty Drawable and Clickable registries and one loaded
   * plugin exporting make_Gadget_factory, an entry point whose Gadget
   * implements Drawable and is associated with the Drawable registry.
   */
  method PluginSetup(declines: bool)
    returns (drawable: NamedFactoryRegistry, clickable: NamedFactoryRegistry, maker: Maker, pm: PluginManager)
    ensures fresh(drawable) && fresh(clickable) && fresh(maker)
    ensures drawable.iface == "Drawable" && clickable.iface == "Clickable"
    ensures drawable.lookup == map[] && clickable.lookup == map[]
    ensures maker.concrete == "Gadget" && maker.interfaces == {"Drawable"} && maker.targets == [drawable]
    ensures maker.declines == declines && maker.slot == null
    ensures pm.Valid() && pm.Makers == {maker} && pm.Repr == {maker, drawable}
    ensures pm.Discover("Gadget") == Some(maker)
    ensures pm.Discover("Widget") == None
  {
    drawable := new NamedFactoryRegistry("Drawable");
    clickable := new NamedFactoryRegistry("Clickable");
    maker := new Maker("Gadget", {"Drawable"}, [drawable], declines);
    var symbol := MakerSymbol("Gadget");
    var plugin := new Plugin(map[symbol := maker]);
    pm := new PluginManager(map[symbol := plugin]);
    assert symbol in pm.plugins && symbol in pm.plugins[symbol].symbols;
    assert MakerSymbol("Widget")[5] != symbol[5];
  }

  /** The plugin process after Drawable's first lookup of Gadget's factory. */
  method PluginSetupWithGadget()
    returns (drawable: NamedFactoryRegistry, clickable: NamedFactoryRegistry, maker: Maker, pm: PluginManager,
             first: Result<NamedFactory, FactoryException>)
    ensures fresh(drawable) && fresh(clickable) && fresh(maker)
    ensures first.Success? && fresh(first.value)
    ensures first.value.concrete == "Gadget" && first.value.interfaces == {"Drawable"} && first.value.objects == map[]
    ensures first.value.classname == ""
    ensures drawable.lookup == map["Gadget" := first.value] && clickable.lookup == map[]
    ensures maker.slot == first.value && maker.targets == [drawable] && !maker.declines
    ensures pm.Valid() && pm.Makers == {maker} && pm.Repr == {maker, drawable}
    ensures pm.Discover("Gadget") == Some(maker)
  {
    drawable, clickable, maker, pm := PluginSetup(false);
    first := LookupFactory(drawable, "Gadget", pm);
  }

  /**
   * Gadget is not linked in, so its factory comes from the plugin: the
   * first Drawable lookup builds it through the entry point (above), the
   * second finds it cached; a Clickable lookup calls the entry point again,
   * which hands back the factory it already built, and Clickable caches it.
   */
  method PluginScenario()
    returns (first: Result<NamedFactory, FactoryException>, second: Result<NamedFactory, FactoryException>,
             viaClickable: Result<NamedFactory, FactoryException>)
    ensures first.Success? && first.value.concrete == "Gadget" && first.value.interfaces == {"Drawable"}
    ensures first.value.objects == map[] && first.value.classname == ""
    ensures second == first && viaClickable == first
  {
    var drawable, clickable, maker, pm;
    drawable, clickable, maker, pm, first := PluginSetupWithGadget();
    second := LookupFactory(drawable, "Gadget", pm);
    viaClickable := LookupFactory(clickable, "Gadget", pm);
  }

  /** A class no loaded plugin provides fails, and nothing is cached. */
  method PluginMissScenario() returns (unknown: Result<NamedFactory, FactoryException>)
    ensures unknown == Failure(FactoryException("Failed to lookup factory for Widget"))
  {
    assert "Failed to lookup factory for " + "Widget" == "Failed to lookup factory for Widget";
    var drawable, clickable, maker, pm := PluginSetup(false);
    unknown := LookupFactory(drawable, "Widget", pm);
  }

  /**
   * A hand-written entry point that returns null: the lookup fails and
   * nothing is cached, so asking again asks the plugin again.
   */
  method DecliningPluginScenario() returns (first: Result<Component, FactoryException>)
    ensures first == Failure(FactoryException("Failed to lookup instance for Gadget g"))
  {
    assert "Failed to lookup instance for " + "Gadget" + " " + "g" == "Failed to lookup instance for Gadget g";
    var drawable, clickable, maker, pm := PluginSetup(true);
    first := Lookup(drawable, "Gadget", "g", pm);
  }
}
