# Wire-Cell utility core, modelled in Dafny

This project models three parts of the Wire-Cell toolkit's utility library
and proves properties about them:

- **The named component registry** (`inc/WireCellUtil/NamedFactory.h`).
  - A `NamedFactory` builds instances of one concrete class. It keeps each instance under its instance name, so a name always gives back the same object.
  - A `NamedFactoryRegistry` exists once per interface. It keeps factories under their class name.
  - On a miss, the registry asks the plugin manager for the entry point `make_<class>_factory`. It caches the factory only when that entry point returns one, so a failed lookup is retried next time.
  - The entry points written by the `WIRECELL_NAMEDFACTORY_*` macros build their factory at most once. On every call they associate it with the registry of each interface they list.
  - The `Factory` facade turns a null answer into a `FactoryException`.
- **`fft_best_length`** (`src/FFTBestLength.cxx`). It rounds a window length up to a fast FFT length. It picks one of three fixed tables, depending on the `keep_odd_even` flag and the parity of the input.
- **File naming, path search and format dispatch of `Persist`** (`src/Persist.cxx`).
  - `file_extension`.
  - `resolve`, which looks in the working directory and then in each `WIRECELL_PATH` entry.
  - The `Parser` class, with its ordered load paths, Jsonnet import paths added in reverse, `Parser::resolve` and `Parser::load`.
  - The bzip2 and Jsonnet dispatch of `load`, `Parser::load` and `dump`.
  - The by-name JSON cache of `load`.

How the code is modelled:

- Object identity of shared pointers is Dafny object identity. A newly built instance or factory is a freshly allocated object.
- The process-wide singleton registry of an interface is an explicit `NamedFactoryRegistry` object, passed to the facade methods.
- `dynamic_pointer_cast<IType>` becomes a membership test. It asks whether the interface is among those the concrete class implements.
- The plugin manager is given as a value: its plugins and the entry points they export.
- The file system, `getenv` and the foreign libraries are given as functions:
  - `Persist.Env` stands for `current_path`, `WIRECELL_PATH`, `exists` and `canonical`;
  - `Persist.Libraries` stands for Jsonnet evaluation and JsonCpp reading.
- Exceptions become `Result` values. The error paths are modelled with the messages the code builds.
- `std::size_t` is modelled as `nat`. No arithmetic in the modelled code can overflow: the routine only compares and returns table entries and its input.

One thing in the code differs from what its own comment promises:

- **FFT parity.** The comment on `fft_best_length` says that with `keep_odd_even` set, an even length stays even.
  - The even table holds odd entries, including 33 and 77. So an even length of 32 is rounded to 33 (`FFTBestLength.EvenMayBecomeOdd`).
  - The promise does hold for odd lengths (`FFTBestLength.OddStaysOdd`).
  - The model keeps the tables exactly as written.

Messages are modelled as the code builds them:

- The facade throws "Failed to lookup factory for <class>" and "Failed to lookup instance for <class> <name>".
- The `WIRECELL_PATH` hint has two spellings: ". Maybe you need…" in `load` and `Parser::load`, and ", maybe you need…" in `evaluate_jsonnet_file`. Both are kept.

## Model

| member | source | states |
|---|---|---|
| Factory.NamedFactory.constructor | inc/WireCellUtil/NamedFactory.h:36 | A new factory caches no instance, has class name "", and satisfies the factory invariant. |
| Factory.NamedFactory.Create | inc/WireCellUtil/NamedFactory.h:40-48 | A cached name returns the cached object and leaves the cache alone. An uncached name returns a freshly built instance of the factory's type, and the cache gains exactly that entry. The invariant (one distinct instance per name, all of the factory's type) is preserved. |
| Factory.NamedFactory.CreateDefault | inc/WireCellUtil/NamedFactory.h:39 | `create()` behaves exactly as `create("")`. |
| Factory.NamedFactory.SetClassname | inc/WireCellUtil/NamedFactory.h:50 | Records the diagnostic class name and changes nothing else. |
| Factory.NamedFactory.Classname | inc/WireCellUtil/NamedFactory.h:51 | Returns the recorded class name. |
| Factory.MakerSymbolInjective | inc/WireCellUtil/NamedFactory.h:86 | The naming convention `"make_" + class + "_factory"` maps distinct class names to distinct symbols, so a symbol identifies its class. |
| Factory.Maker.Make | inc/WireCellUtil/NamedFactory.h:173-188 | An entry point that returns null changes nothing. Otherwise the factory is built on the first call only, as a fresh empty valid factory of the class with class name "", and later calls return that same object. Every call sets the class's entry in each listed registry to that factory, and changes no other entry. |
| Factory.Plugin.Symbol | inc/WireCellUtil/NamedFactory.h:95 | Gives the exported entry point exactly when the plugin exports that symbol. |
| Factory.PluginManager.Find | inc/WireCellUtil/NamedFactory.h:87 | Gives the plugin providing a symbol exactly when one is loaded. |
| Factory.PluginManager.constructor | inc/WireCellUtil/NamedFactory.h:84-98 | A plugin manager whose plugins export entry points under the macro's names satisfies its invariant. Its entry points are exactly those its plugins export, and what they may change is exactly those entry points and their registries. |
| Factory.NamedFactoryRegistry.constructor | inc/WireCellUtil/NamedFactory.h:61-62 | A new registry for an interface has no factory. |
| Factory.NamedFactoryRegistry.Associate | inc/WireCellUtil/NamedFactory.h:70-73 | Always succeeds. The class's entry becomes the given factory (last write wins) and no other entry changes. |
| Factory.NamedFactoryRegistry.LookupFactory | inc/WireCellUtil/NamedFactory.h:76-110 | `FoundFactory`, in three cases. A cached class returns its factory, and neither the registry nor any entry point or registry of the plugin manager changes. A miss with no plugin, no symbol or a null result gives null and changes nothing, so no negative answer is cached. A miss answered by entry point m returns m's factory and caches it under the class. That factory is m's existing one, or a fresh, empty, valid factory of m's class and interfaces, with class name "". It is associated in each of m's registries; every other registry and every other entry point is unchanged. The result is non-null exactly when the class is then cached. |
| Factory.NamedFactoryRegistry.Instance | inc/WireCellUtil/NamedFactory.h:112-129 | Finding the factory has exactly lookup_factory's effect (`FoundFactory`, all three cases). Without a factory the answer is null. With one, the named instance exists afterwards, and the answer is that instance exactly when it implements the registry's interface, null otherwise. An existing instance is kept; a new one is fresh, of the factory's type, and the factory's only new entry; a factory built by this call holds just that instance. Every other factory of the registry or the plugin manager keeps its instances. Of any factory it may change only the instance cache, never the class name; a factory built by this call has class name "". |
| Factory.Associate | inc/WireCellUtil/NamedFactory.h:139-146 | The facade's associate always succeeds and sets the class's entry in the registry. |
| Factory.LookupFactory | inc/WireCellUtil/NamedFactory.h:148-155 | Has the registry lookup's effect (`FoundFactory`, all three cases). It fails with "Failed to lookup factory for <class>" exactly when the class is not registered afterwards: on a miss with no plugin, no symbol or a null result, and then nothing changes. A miss answered by an entry point succeeds with that entry point's factory, now cached. A factory built by the entry point is empty, valid and has class name "". |
| Factory.Lookup | inc/WireCellUtil/NamedFactory.h:157-164 | Has the registry instance's effect (`FoundFactory`, all three cases, and the instance cache as for `Instance`). It fails with "Failed to lookup instance for <class> <name>" when no factory is found and when the instance does not implement the interface; otherwise it returns the named instance. Every other factory keeps its instances. Of any factory it may change only the instance cache, never the class name. |
| RegistryScenario.IdentityScenario | inc/WireCellUtil/NamedFactory.h:40-48 | Looking up the same instance name twice through the facade gives the same Widget object; another name gives a different Widget. |
| RegistryScenario.MissScenario | inc/WireCellUtil/NamedFactory.h:86-91 | An unregistered class fails with the named exception on every attempt, and Widget's factory stays registered. |
| RegistryScenario.DowncastScenario | inc/WireCellUtil/NamedFactory.h:123-128 | With Widget's factory associated with both a Drawable and a Clickable registry, the Drawable lookup of "left" gives the very instance built earlier, and the Clickable lookup fails with the named exception, because Widget does not implement Clickable. Afterwards both registries still map Widget to that factory, and the factory still holds only "left". |
| RegistryScenario.PluginScenario | inc/WireCellUtil/NamedFactory.h:84-109 | A class provided only by a plugin: the first Drawable lookup builds its factory through the plugin's entry point, with the class and interfaces the entry point declares, no instances and class name "". A second lookup gives the same factory from the cache. A lookup from the Clickable registry, which the entry point does not list, calls the entry point again and also gets that same factory. |
| RegistryScenario.PluginMissScenario | inc/WireCellUtil/NamedFactory.h:86-91 | With a plugin loaded, a class that no plugin provides still fails with "Failed to lookup factory for Widget". |
| RegistryScenario.DecliningPluginScenario | inc/WireCellUtil/NamedFactory.h:100-104 | An entry point that returns null makes the instance lookup fail with "Failed to lookup instance for Gadget g". |
| FFTBestLength.FftBestLength | src/FFTBestLength.cxx:13-41 | The routine returns the value of the specification function `BestLength` for its inputs, and never less than the window length. |
| FFTBestLength.ScanFrom | src/FFTBestLength.cxx:33-40 | The early-returning loop computes `Scan`: the first edge at least the window length, or the window length itself above the table. |
| FFTBestLength.FirstIndexAtLeast | src/FFTBestLength.cxx:34-37 | The position the loop stops at: every earlier edge is below the window length, and the entry there is at least the window length. |
| FFTBestLength.Scan | src/FFTBestLength.cxx:33-40 | The result is never below the window length. |
| FFTBestLength.EdgesStrictlyIncreasing | src/FFTBestLength.cxx:18-29 | Each of the three tables is non-empty and strictly ascending. |
| FFTBestLength.OddEdgesAreOdd | src/FFTBestLength.cxx:27 | Every entry of the odd table is odd. |
| FFTBestLength.AboveTableUnchanged | src/FFTBestLength.cxx:33-40 | A window length above the last edge of its table is returned as is. |
| FFTBestLength.InTableIsSmallestEdge | src/FFTBestLength.cxx:33-37 | Up to the last edge, the result is an entry of the chosen table, and the smallest entry that is at least the window length. |
| FFTBestLength.OddStaysOdd | src/FFTBestLength.cxx:9-11 | With `keep_odd_even` set, an odd window length gives an odd result. |
| FFTBestLength.EvenMayBecomeOdd | src/FFTBestLength.cxx:21-23 | With `keep_odd_even` set, the even length 32 is rounded to the odd 33, so the comment's promise for even lengths does not hold. |
| FFTBestLength.Idempotent | src/FFTBestLength.cxx:18-40 | Without parity keeping, rounding a rounded length gives it back. |
| FFTBestLength.Monotone | src/FFTBestLength.cxx:18-40 | Without parity keeping, a longer window never gets a shorter length. |
| Persist.RFind | src/Persist.cxx:30 | Finds the last occurrence of the character, or reports that there is none exactly when it does not occur. |
| Persist.FileExtension | src/Persist.cxx:28-35 | No '.' gives "". Otherwise the result is a suffix of the name that starts with '.' and holds no other '.'. |
| Persist.ExtensionIsSuffix | src/Persist.cxx:28-35 | For an extension with a single leading '.', the name has that extension if and only if it ends with it. |
| Persist.LoadReaderBySuffix | src/Persist.cxx:127-149 | `load` and `Parser::load` decompress with bzip2 exactly the names ending in ".bz2", and `load` evaluates with Jsonnet exactly the names ending in ".jsonnet". |
| Persist.ReadersDifferOnlyWithoutDot | src/Persist.cxx:294-296 | `load` and `Parser::load` choose different readers exactly for names without a '.', which `Parser::load` evaluates with Jsonnet. |
| Persist.Dump | src/Persist.cxx:37-56 | Writes the writer's text for the value and the style flag to the file. It compresses exactly when the name ends with ".bz2", which is exactly when `load` would decompress it. |
| Persist.GetPath | src/Persist.cxx:84-95 | No entries when `WIRECELL_PATH` is unset, otherwise its entries in order. |
| Persist.SearchIn | src/Persist.cxx:111-118 | "" when no candidate exists. Otherwise the canonical form of the first candidate that exists, whichever later candidates exist. |
| Persist.FirstExisting | src/Persist.cxx:111-118 | The candidate loop computes `SearchIn`. |
| Persist.Resolve | src/Persist.cxx:99-119 | "" gives "". A name starting with '/' is returned as is. Otherwise the search runs over the working directory followed by the `WIRECELL_PATH` entries. |
| Persist.ResolveOrder | src/Persist.cxx:108-118 | A relative name present in the working directory resolves there, whatever `WIRECELL_PATH` holds. Otherwise the search continues over `WIRECELL_PATH` alone. |
| Persist.EvaluateJsonnetFile | src/Persist.cxx:196-215 | An unresolved name fails with IOError "no such file: <name>, maybe you need to add to WIRECELL_PATH.". An evaluation error becomes a ValueError carrying the evaluator's message. Otherwise Jsonnet is given `WIRECELL_PATH` as import paths and the external variables. |
| Persist.JsonCache.constructor | src/Persist.cxx:121 | The cache starts empty and satisfies its invariant. |
| Persist.JsonCache.Load | src/Persist.cxx:123-161 | A ".jsonnet" name is evaluated every time and never cached. A cached name is answered from the cache without resolving. An unresolved name fails with IOError ". Maybe you need to add to WIRECELL_PATH." and caches nothing. A successful read is cached under the name as given. The cache never holds a Jsonnet name. |
| Persist.Parser.constructor | src/Persist.cxx:232-260 | The load paths are the working directory, then the given paths, then `WIRECELL_PATH`, all read at construction and fixed from then on. The import paths are their canonical forms in reverse order (import path i is the canonical form of load path n-1-i). The external variables and code are bound as given. |
| Persist.Parser.Resolve | src/Persist.cxx:269-285 | Same rules as `resolve`, searching the fixed load paths in forward order and asking the file system as it is at the time of the call. |
| Persist.Parser.Load | src/Persist.cxx:287-321 | An unresolved name fails with IOError. A ".jsonnet" or extension-less name is evaluated with the parser's import paths and variables, with errors becoming ValueError. Any other name is read as JSON, through bzip2 exactly for ".bz2". |
| Persist.ParserResolveMatchesResolve | src/Persist.cxx:238-244 | A `Parser` built from no extra paths, used while the working directory and `WIRECELL_PATH` are still those it was built under, resolves every name to the same file as `resolve`: it searches the same directories in the same order, against the same file system. |

## Left out

- The plugin manager's internals (loading shared libraries, `dlsym`) and the `Singleton` template are not modelled. The plugin manager is a given map from symbol to plugin, and each registry is an explicit object.
- The `reinterpret_cast` of the entry point's `void*` is not modelled as unchecked. An entry point's factory is always a `NamedFactory`, and the class-name convention is part of the plugin manager's invariant.
- `Factory.Maker.Make`: the `declines` flag stands for a hand-written entry point that returns null; the macros never produce one.
- `Factory.NamedFactoryRegistry.Instance`: the branch where `create` returns null is not modelled, because `create` never returns null here. A failed allocation is fatal in the code and outside the model.
- Diagnostic output (`std::cerr`, spdlog) and the `type()` demangling used in messages are not modelled.
- Concurrency: the registries and caches are modelled as used from one thread.
- Real I/O is replaced by the `Env` and `Libraries` parameters: the file system, `getenv`, file streams, bzip2 streams, JsonCpp reading and writing, and Jsonnet evaluation. `String::split` of `WIRECELL_PATH` is taken as already done, and `Persist.Join` is a simplified `boost::filesystem` path append.
- `Persist.Parser.constructor`: `boost::filesystem::canonical` throws for a load path that does not exist; the model's `canonical` is total, so that exception is not modelled.
- `slurp`, `exists`, `dumps`, `loads`, `Parser::loads`, `evaluate_jsonnet_text` and `json2object` are pure I/O or foreign-library wrappers and are not modelled separately. `json2object` appears only as the `parse` function applied to Jsonnet output. Note also that `slurp` opens the unresolved name rather than the resolved one.
- `Persist.JsonCache.Load`, `Persist.Parser.Load`: a failure of the JSON reader is modelled as a `ParseError` result; the code lets JsonCpp's exception propagate.
- The helpers `test_eigen` and `test_type` are test programs and are not part of this model.
