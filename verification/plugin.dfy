/** The plugin registry: which directory entries are plugin files, the
    ordered checks a loaded library must pass before it is registered, the
    registry that records accepted plugins, and the teardown that runs their
    `free` hooks. The dynamic loader, the directory reader and the memory
    allocator are not modelled; their outcomes are inputs. */
module Plugin {
  import opened CTypes
  import opened Wrappers

  /** The symbol a plugin library exports its descriptor under. */
  const PLUGIN_SYM: string := "tnt_plugin"

  /** The file-name suffix of plugin libraries. */
  const PLUGIN_EXT: string := ".so"

  /** The only plugin type; it is the first enumerator, so it is 0. */
  const PLUGIN_OTHER: i32 := 0

  /** The interface version a plugin of type PLUGIN_OTHER must declare. */
  const PLUGIN_OTHER_IFVER: u32 := 0

  /** The descriptor a plugin library exports (`struct plugin_if`).
      The optional `init` hook is represented by the value it returns when
      called (None for a NULL hook); the optional `free` hook by whether it
      is present. The untyped `iface` pointer is not modelled. */
  datatype PluginIf = PluginIf(
    pluginType: i32,
    name: string,
    desc: string,
    author: string,
    versionMajor: u32,
    versionMinor: u32,
    versionIf: u32,
    init: Option<i32>,
    free: bool)

  /** A library the loader opened: its handle and the descriptors it
      exports, by symbol name. */
  datatype Library = Library(handle: nat, symbols: map<string, PluginIf>)

  /** The outcome of opening a library: the loader's error message, or the
      library. */
  datatype Load = LoadFailed(reason: string) | Loaded(lib: Library)

  /** The server's own version, which every plugin must match. */
  datatype Version = Version(major: u32, minor: u32)

  /** One registered plugin (`struct plugin`). */
  datatype PluginEntry = PluginEntry(pif: PluginIf, path: string, handle: nat)

  /** The registry (`struct plugins`): a counter beside the list of
      plugins in registration order. */
  datatype Registry = Registry(count: int, list: seq<PluginEntry>)
  {
    /** The counter tracks the length of the list. */
    predicate Valid()
    {
      count == |list|
    }
  }

  /** Why a library was not registered. */
  datatype AttachError =
    | LoadError(reason: string)
    | SymbolNotFound
    | VersionMismatch
    | UnknownType
    | IfVersionMismatch
    | InitFailed
    | OutOfMemory

  /** Everything `plugin_attach` produces: the registry afterwards, the
      plugin or the reason for rejecting it, whether the `init` hook was
      called, and the library handle closed on rejection, if any. */
  datatype Attached = Attached(
    registry: Registry,
    result: Result<PluginEntry, AttachError>,
    initCalled: bool,
    closed: Option<nat>)

  // ---------------------------------------------------------------------
  // Initialisation
  // ---------------------------------------------------------------------

  /** `plugin_init`: an empty registry. */
  function Init(): (r: Registry)
    ensures r.Valid()
    ensures r.count == 0 && r.list == []
  {
    Registry(0, [])
  }

  // ---------------------------------------------------------------------
  // Acceptance checks
  // ---------------------------------------------------------------------

  /** The library opened and exports a descriptor under PLUGIN_SYM. */
  predicate HasDescriptor(load: Load)
  {
    load.Loaded? && PLUGIN_SYM in load.lib.symbols
  }

  /** The descriptor the library exports under PLUGIN_SYM. */
  function Descriptor(load: Load): PluginIf
    requires HasDescriptor(load)
  {
    load.lib.symbols[PLUGIN_SYM]
  }

  /** The plugin was built for this server's major and minor version. */
  predicate VersionOk(pif: PluginIf, server: Version)
  {
    pif.versionMajor == server.major && pif.versionMinor == server.minor
  }

  /** The plugin is of a known type. */
  predicate TypeOk(pif: PluginIf)
  {
    pif.pluginType == PLUGIN_OTHER
  }

  /** The plugin speaks the interface version its type requires. */
  predicate IfVersionOk(pif: PluginIf)
  {
    pif.versionIf == PLUGIN_OTHER_IFVER
  }

  /** The `init` hook is absent or does not report failure; failure is a
      return value of exactly -1. */
  predicate InitOk(pif: PluginIf)
  {
    pif.init != Some(-1)
  }

  /** A descriptor the server accepts. */
  predicate Acceptable(pif: PluginIf, server: Version)
  {
    VersionOk(pif, server) && TypeOk(pif) && IfVersionOk(pif) && InitOk(pif)
  }

  /** A rejection: the registry is untouched. */
  function Reject(reg: Registry, e: AttachError, initCalled: bool, closed: Option<nat>): Attached
  {
    Attached(reg, Failure(e), initCalled, closed)
  }

  /** `plugin_attach`: open the library at `path` (outcome `load`), look up
      its descriptor, run the checks in order, call `init`, and on success
      append the plugin to the registry. `allocOk` says whether the memory
      for the registry entry could be allocated. */
  function Attach(reg: Registry, path: string, load: Load, server: Version, allocOk: bool): (r: Attached)
    requires reg.Valid()
    ensures r.registry.Valid()
    // the checks, in the order they are made
    ensures r.result.Failure? && r.result.error.LoadError? <==> load.LoadFailed?
    ensures r.result == Failure(SymbolNotFound) <==> load.Loaded? && !HasDescriptor(load)
    ensures r.result == Failure(VersionMismatch)
        <==> HasDescriptor(load) && !VersionOk(Descriptor(load), server)
    ensures r.result == Failure(UnknownType)
        <==> HasDescriptor(load) && VersionOk(Descriptor(load), server) && !TypeOk(Descriptor(load))
    ensures r.result == Failure(IfVersionMismatch)
        <==> HasDescriptor(load) && VersionOk(Descriptor(load), server) && TypeOk(Descriptor(load))
             && !IfVersionOk(Descriptor(load))
    ensures r.result == Failure(InitFailed)
        <==> HasDescriptor(load) && VersionOk(Descriptor(load), server) && TypeOk(Descriptor(load))
             && IfVersionOk(Descriptor(load)) && !InitOk(Descriptor(load))
    ensures r.result == Failure(OutOfMemory)
        <==> HasDescriptor(load) && Acceptable(Descriptor(load), server) && !allocOk
    ensures r.result.Success? <==> HasDescriptor(load) && Acceptable(Descriptor(load), server) && allocOk
    // `init` runs only once every earlier check has passed
    ensures r.initCalled
        <==> HasDescriptor(load) && VersionOk(Descriptor(load), server) && TypeOk(Descriptor(load))
             && IfVersionOk(Descriptor(load)) && Descriptor(load).init.Some?
    // a rejected library that was opened is closed again
    ensures r.closed == (if r.result.Failure? && load.Loaded? then Some(load.lib.handle) else None)
    // the registry changes only on success, by one entry at the tail
    ensures r.result.Failure? ==> r.registry == reg
    ensures r.result.Success? ==>
              && r.result.value == PluginEntry(Descriptor(load), path, load.lib.handle)
              && r.registry.count == reg.count + 1
              && r.registry.list == reg.list + [r.result.value]
  {
    match load
    case LoadFailed(reason) => Reject(reg, LoadError(reason), false, None)
    case Loaded(lib) =>
      if PLUGIN_SYM !in lib.symbols then Reject(reg, SymbolNotFound, false, Some(lib.handle))
      else
        var pif := lib.symbols[PLUGIN_SYM];
        if pif.versionMajor != server.major || pif.versionMinor != server.minor then
          Reject(reg, VersionMismatch, false, Some(lib.handle))
        else if pif.pluginType != PLUGIN_OTHER then
          Reject(reg, UnknownType, false, Some(lib.handle))
        else if pif.versionIf != PLUGIN_OTHER_IFVER then
          Reject(reg, IfVersionMismatch, false, Some(lib.handle))
        else if pif.init.Some? && pif.init.value == -1 then
          Reject(reg, InitFailed, true, Some(lib.handle))
        else if !allocOk then
          Reject(reg, OutOfMemory, pif.init.Some?, Some(lib.handle))
        else
          var p := PluginEntry(pif, path, lib.handle);
          Attached(Registry(reg.count + 1, reg.list + [p]), Success(p), pif.init.Some?, None)
  }

  /** The example plugin's descriptor: type PLUGIN_OTHER, built for the
      server's version, interface version 0, an `init` hook that returns 0
      and a `free` hook. */
  function ExampleDescriptor(server: Version): PluginIf
  {
    PluginIf(PLUGIN_OTHER, "example", "example plugin", "pmwkaa",
             server.major, server.minor, PLUGIN_OTHER_IFVER, Some(0), true)
  }

  /** The example plugin passes every check: loaded into an empty registry
      it becomes the one registered plugin, and its `init` hook runs. */
  lemma ExampleAttaches(server: Version, handle: nat, path: string)
    ensures var load := Loaded(Library(handle, map[PLUGIN_SYM := ExampleDescriptor(server)]));
            var r := Attach(Init(), path, load, server, true);
            r.result.Success? && r.initCalled && r.registry.count == 1
            && r.registry.list == [PluginEntry(ExampleDescriptor(server), path, handle)]
  {
  }

  // ---------------------------------------------------------------------
  // Recognising plugin files
  // ---------------------------------------------------------------------

  /** `strrchr`: the position of the last occurrence of `c` in `s`. */
  function LastIndexOf(s: string, c: char): (r: Option<nat>)
    ensures r.None? <==> c !in s
    ensures r.Some? ==> r.value < |s| && s[r.value] == c
    ensures r.Some? ==> forall j :: r.value < j < |s| ==> s[j] != c
    decreases |s|
  {
    if |s| == 0 then None
    else if s[|s| - 1] == c then Some(|s| - 1)
    else
      assert s == s[..|s| - 1] + [s[|s| - 1]];
      LastIndexOf(s[..|s| - 1], c)
  }

  /** `plugin_is`: the part of the name from its last '.' on is exactly
      PLUGIN_EXT. */
  function PluginIs(name: string): (b: bool)
    ensures '.' !in name ==> !b
    ensures b <==> |name| >= |PLUGIN_EXT| && name[|name| - |PLUGIN_EXT|..] == PLUGIN_EXT
  {
    var n := |name|;
    assert n >= 3 && name[n - 3..] == PLUGIN_EXT ==>
             name[n - 3] == '.' && name[n - 3] in name && name[n - 2] != '.' && name[n - 1] != '.';
    match LastIndexOf(name, '.')
    case None => false
    case Some(i) => name[i..] == PLUGIN_EXT
  }

  /** Examples of the suffix rule: only a final ".so" marks a plugin. */
  lemma PluginIsExamples()
    ensures PluginIs("a.so")
    ensures !PluginIs("a.so.1")
    ensures !PluginIs("libexample")
    ensures !PluginIs(".") && !PluginIs("..")
  {
    assert "a.so"[4 - 3..] == ".so";
    assert "a.so.1"[6 - 3..] == "o.1";
    assert "."[0..] == ".";
    assert ".."[2 - 2..] == "..";
  }

  // ---------------------------------------------------------------------
  // Loading a plugin directory
  // ---------------------------------------------------------------------

  /** One directory entry: its name, what opening it as a library yields,
      and whether the registry entry for it can be allocated. */
  datatype DirEntry = DirEntry(name: string, load: Load, allocOk: bool)

  /** An entry `plugin_attach_dir` tries to attach: not "." or "..", and
      named like a plugin. Neither "." nor ".." ends in ".so", so the
      suffix alone decides. */
  function IsCandidate(name: string): (r: bool)
    ensures r <==> |name| >= |PLUGIN_EXT| && name[|name| - |PLUGIN_EXT|..] == PLUGIN_EXT
  {
    name != "." && name != ".." && PluginIs(name)
  }

  /** The candidate entries, in enumeration order. */
  function Candidates(entries: seq<DirEntry>): (c: seq<DirEntry>)
    ensures |c| <= |entries|
    decreases |entries|
  {
    if |entries| == 0 then []
    else
      var init := entries[..|entries| - 1];
      var last := entries[|entries| - 1];
      assert entries == init + [last];
      Candidates(init) + (if IsCandidate(last.name) then [last] else [])
  }

  /** The path an entry is loaded from. */
  function JoinPath(dir: string, name: string): string
  {
    dir + "/" + name
  }

  /** The paths of the given entries, in order. */
  function Paths(dir: string, entries: seq<DirEntry>): (ps: seq<string>)
    ensures |ps| == |entries|
    ensures forall i :: 0 <= i < |entries| ==> ps[i] == JoinPath(dir, entries[i].name)
  {
    seq(|entries|, i requires 0 <= i < |entries| => JoinPath(dir, entries[i].name))
  }

  /** Attach one directory entry as "dir/name", keeping only the registry. */
  function AttachEntry(reg: Registry, dir: string, e: DirEntry, server: Version): (r: Registry)
    requires reg.Valid()
    ensures r.Valid()
    ensures r == reg || (|r.list| == |reg.list| + 1 && r.list == reg.list + [r.list[|reg.list|]]
                         && r.list[|reg.list|].path == JoinPath(dir, e.name))
  {
    Attach(reg, JoinPath(dir, e.name), e.load, server, e.allocOk).registry
  }

  /** Attach each of the entries in order, each against the registry the
      previous ones left. */
  function AttachEach(reg: Registry, dir: string, entries: seq<DirEntry>, server: Version): (r: Registry)
    requires reg.Valid()
    ensures r.Valid()
    ensures |reg.list| <= |r.list| <= |reg.list| + |entries|
    ensures r.list[..|reg.list|] == reg.list
    decreases |entries|
  {
    if |entries| == 0 then reg
    else
      var init := entries[..|entries| - 1];
      var e := entries[|entries| - 1];
      var before := AttachEach(reg, dir, init, server);
      var r := AttachEntry(before, dir, e, server);
      assert r.list[..|reg.list|] == reg.list by {
        assert r.list[..|before.list|] == before.list;
        assert before.list[..|reg.list|] == reg.list;
      }
      r
  }

  /** What each `plugin_attach` call of a directory load produced, in
      order: entry k is attached against the registry the first k entries
      left. */
  function AttachOutcomes(reg: Registry, dir: string, entries: seq<DirEntry>, server: Version): (os: seq<Attached>)
    requires reg.Valid()
    ensures |os| == |entries|
    decreases |entries|
  {
    if |entries| == 0 then []
    else
      var init := entries[..|entries| - 1];
      var e := entries[|entries| - 1];
      AttachOutcomes(reg, dir, init, server)
        + [Attach(AttachEach(reg, dir, init, server), JoinPath(dir, e.name), e.load, server, e.allocOk)]
  }

  /** The k-th outcome is `plugin_attach` of the k-th entry, as "dir/name",
      against the registry the earlier entries left; so Attach's contract
      says for every entry whether its `init` hook ran and whether its
      library was closed. */
  lemma {:induction false} AttachOutcomesAt(reg: Registry, dir: string, entries: seq<DirEntry>, server: Version, k: nat)
    requires reg.Valid()
    requires k < |entries|
    ensures AttachOutcomes(reg, dir, entries, server)[k]
         == Attach(AttachEach(reg, dir, entries[..k], server), JoinPath(dir, entries[k].name),
                   entries[k].load, server, entries[k].allocOk)
    decreases |entries|
  {
    var init := entries[..|entries| - 1];
    if k < |init| {
      AttachOutcomesAt(reg, dir, init, server, k);
      assert init[..k] == entries[..k];
    }
  }

  /** Exactly the candidate entries are kept. */
  lemma {:induction false} CandidatesMembers(entries: seq<DirEntry>, e: DirEntry)
    ensures e in Candidates(entries) <==> e in entries && IsCandidate(e.name)
    decreases |entries|
  {
    if |entries| > 0 {
      var init := entries[..|entries| - 1];
      assert entries == init + [entries[|entries| - 1]];
      CandidatesMembers(init, e);
    }
  }

  /** Every plugin a directory load adds was loaded from "dir/name" for one
      of the entries. */
  lemma {:induction false} AttachEachPaths(reg: Registry, dir: string, entries: seq<DirEntry>, server: Version, k: nat)
    requires reg.Valid()
    requires |reg.list| <= k < |AttachEach(reg, dir, entries, server).list|
    ensures exists e :: e in entries && AttachEach(reg, dir, entries, server).list[k].path == JoinPath(dir, e.name)
    decreases |entries|
  {
    var init := entries[..|entries| - 1];
    var e := entries[|entries| - 1];
    var before := AttachEach(reg, dir, init, server);
    if k < |before.list| {
      AttachEachPaths(reg, dir, init, server, k);
      var e' :| e' in init && before.list[k].path == JoinPath(dir, e'.name);
      assert e' in entries;
    } else {
      assert e in entries;
    }
  }

  /** `plugin_attach_dir`: enumerate the directory (`listing`, None when it
      cannot be opened), skip "." and ".." and every name that is not a
      plugin file, and attach each remaining entry as "dir/name" in
      enumeration order. Returns the registry afterwards, the paths it
      tried to attach and what each of those attempts produced. */
  method AttachDir(reg: Registry, dir: string, listing: Option<seq<DirEntry>>, server: Version)
    returns (out: Registry, tried: seq<string>, outcomes: seq<Attached>)
    requires reg.Valid()
    ensures out.Valid()
    ensures listing.None? ==> out == reg && tried == [] && outcomes == []
    ensures listing.Some? ==>
              && tried == Paths(dir, Candidates(listing.value))
              && outcomes == AttachOutcomes(reg, dir, Candidates(listing.value), server)
              && out == AttachEach(reg, dir, Candidates(listing.value), server)
    ensures out.list[..|reg.list|] == reg.list
  {
    if listing.None? {
      return reg, [], [];
    }
    var entries := listing.value;
    out, tried, outcomes := reg, [], [];
    var i := 0;
    while i < |entries|
      invariant 0 <= i <= |entries|
      invariant tried == Paths(dir, Candidates(entries[..i]))
      invariant out == AttachEach(reg, dir, Candidates(entries[..i]), server)
      invariant outcomes == AttachOutcomes(reg, dir, Candidates(entries[..i]), server)
    {
      var e := entries[i];
      ghost var done := Candidates(entries[..i]);
      assert entries[..i + 1] == entries[..i] + [e];
      CandidatesSnoc(entries[..i], e);
      if e.name != "." && e.name != ".." && PluginIs(e.name) {
        var path := JoinPath(dir, e.name);
        assert Candidates(entries[..i + 1]) == done + [e];
        AttachEachSnoc(reg, dir, done, e, server);
        PathsSnoc(dir, done, e);
        AttachOutcomesSnoc(reg, dir, done, e, server);
        var step := Attach(out, path, e.load, server, e.allocOk);
        out := step.registry;
        outcomes := outcomes + [step];
        tried := tried + [path];
        assert out == AttachEach(reg, dir, done + [e], server);
      } else {
        assert Candidates(entries[..i + 1]) == done;
        assert out == AttachEach(reg, dir, done, server);
      }
      i := i + 1;
    }
    assert entries[..i] == entries;
  }

  lemma CandidatesSnoc(entries: seq<DirEntry>, e: DirEntry)
    ensures Candidates(entries + [e]) == Candidates(entries) + (if IsCandidate(e.name) then [e] else [])
  {
    assert (entries + [e])[..|entries|] == entries;
  }

  lemma AttachEachSnoc(reg: Registry, dir: string, entries: seq<DirEntry>, e: DirEntry, server: Version)
    requires reg.Valid()
    ensures AttachEach(reg, dir, entries + [e], server)
         == Attach(AttachEach(reg, dir, entries, server), JoinPath(dir, e.name), e.load, server, e.allocOk).registry
  {
    assert (entries + [e])[..|entries|] == entries;
  }

  lemma AttachOutcomesSnoc(reg: Registry, dir: string, entries: seq<DirEntry>, e: DirEntry, server: Version)
    requires reg.Valid()
    ensures AttachOutcomes(reg, dir, entries + [e], server)
         == AttachOutcomes(reg, dir, entries, server)
            + [Attach(AttachEach(reg, dir, entries, server), JoinPath(dir, e.name), e.load, server, e.allocOk)]
  {
    assert (entries + [e])[..|entries|] == entries;
  }

  lemma PathsSnoc(dir: string, entries: seq<DirEntry>, e: DirEntry)
    ensures Paths(dir, entries + [e]) == Paths(dir, entries) + [JoinPath(dir, e.name)]
  {
  }

  // ---------------------------------------------------------------------
  // Teardown
  // ---------------------------------------------------------------------

  /** One observable step of `plugin_free`: the `free` hook of the plugin
      at a registry position is called, or a library handle is closed. */
  datatype FreeEvent = HookCalled(index: nat) | Closed(handle: nat)

  /** What `plugin_free` does for the plugin at position `i`: call its
      `free` hook if it has one, then close its library. */
  function Teardown(list: seq<PluginEntry>, i: nat): seq<FreeEvent>
    requires i < |list|
  {
    (if list[i].pif.free then [HookCalled(i)] else []) + [Closed(list[i].handle)]
  }

  /** The events of tearing down the first `n` plugins, one plugin after
      the other in registration order. */
  function FreeSchedule(list: seq<PluginEntry>, n: nat): seq<FreeEvent>
    requires n <= |list|
    decreases n
  {
    if n == 0 then [] else FreeSchedule(list, n - 1) + Teardown(list, n - 1)
  }

  /** `plugin_free`: walk the registry in order; for each plugin call its
      `free` hook when it has one, then close its library, before moving
      on to the next plugin. Returns the events in the order they happen. */
  method Free(reg: Registry) returns (events: seq<FreeEvent>)
    requires reg.Valid()
    ensures events == FreeSchedule(reg.list, |reg.list|)
  {
    events := [];
    var i := 0;
    while i < |reg.list|
      invariant 0 <= i <= |reg.list|
      invariant events == FreeSchedule(reg.list, i)
    {
      if reg.list[i].pif.free {
        events := events + [HookCalled(i)];
      }
      events := events + [Closed(reg.list[i].handle)];
      i := i + 1;
    }
  }

  /** Tearing down fewer plugins yields a prefix of the events: everything
      done for an earlier plugin happens before anything done for a later one. */
  lemma {:induction false} FreeSchedulePrefix(list: seq<PluginEntry>, i: nat, n: nat)
    requires i <= n <= |list|
    ensures FreeSchedule(list, i) <= FreeSchedule(list, n)
    decreases n
  {
    if i < n {
      FreeSchedulePrefix(list, i, n - 1);
    }
  }

  /** A hook is called exactly for the plugins that have one, and each
      library is closed. */
  lemma {:induction false} FreeScheduleMembers(list: seq<PluginEntry>, n: nat, j: nat)
    requires n <= |list|
    ensures HookCalled(j) in FreeSchedule(list, n) <==> j < n && list[j].pif.free
    ensures j < n ==> Closed(list[j].handle) in FreeSchedule(list, n)
    decreases n
  {
    if n > 0 {
      FreeScheduleMembers(list, n - 1, j);
      assert Closed(list[n - 1].handle) in Teardown(list, n - 1);
    }
  }

  /** Wherever plugin i's `free` hook is called, the very next event closes
      plugin i's own library, so the hook never runs after its code is
      unloaded. */
  lemma {:induction false} HookAlwaysThenClose(list: seq<PluginEntry>, n: nat, i: nat, k: nat)
    requires n <= |list|
    requires k < |FreeSchedule(list, n)| && FreeSchedule(list, n)[k] == HookCalled(i)
    ensures i < n && k + 1 < |FreeSchedule(list, n)| && FreeSchedule(list, n)[k + 1] == Closed(list[i].handle)
    decreases n
  {
    var prev := FreeSchedule(list, n - 1);
    assert FreeSchedule(list, n) == prev + Teardown(list, n - 1);
    if k < |prev| {
      HookAlwaysThenClose(list, n - 1, i, k);
      assert FreeSchedule(list, n)[k + 1] == prev[k + 1];
    } else {
      assert Teardown(list, n - 1)[k - |prev|] == HookCalled(i);
    }
  }

  /** Every plugin that has a `free` hook gets it called, immediately
      before its own library is closed. */
  lemma HookThenClose(list: seq<PluginEntry>, i: nat)
    requires i < |list| && list[i].pif.free
    ensures var s := FreeSchedule(list, |list|);
            exists k :: 0 <= k < |s| - 1 && s[k] == HookCalled(i) && s[k + 1] == Closed(list[i].handle)
  {
    var s := FreeSchedule(list, |list|);
    var k := |FreeSchedule(list, i)|;
    FreeSchedulePrefix(list, i + 1, |list|);
    assert FreeSchedule(list, i + 1) == FreeSchedule(list, i) + [HookCalled(i), Closed(list[i].handle)];
    assert s[k] == FreeSchedule(list, i + 1)[k];
    assert s[k + 1] == FreeSchedule(list, i + 1)[k + 1];
  }
}
