/** Injecting client functions and registry tools into an agent's tool list: the
    per-device function registry, the dedup across devices over Go maps iterated
    in any order, and the merge with the tools already there. */
module ToolInjection {
  import opened Option

  // A Go string: comparisons and lengths are those of its bytes.
  type byte = b: int | 0 <= b < 256

  type Bytes = seq<byte>

  datatype FunctionInfo = FunctionInfo(name: Bytes, tags: seq<Bytes>, parameters: Bytes)

  // A client function's tool, or a tool from elsewhere whose Info may fail.
  datatype Tool = Client(info: FunctionInfo, device: Bytes) | Foreign(id: nat, name: Option<Bytes>)

  // creatable: the functions for which a tool can be built.
  datatype Config = Config(excluded: seq<Bytes>, tags: seq<Bytes>, creatable: FunctionInfo -> bool)

  type DeviceFuncs = map<Bytes, seq<FunctionInfo>>

  function NameOf(t: Tool): Option<Bytes> {
    match t
    case Client(info, _) => Some(info.name)
    case Foreign(_, name) => name
  }

  // --------------------------------------------------------------------
  // Lexicographic order
  // --------------------------------------------------------------------

  predicate Less(a: Bytes, b: Bytes) {
    b != [] && (a == [] || a[0] < b[0] || (a[0] == b[0] && Less(a[1..], b[1..])))
  }

  lemma {:induction false} LessIsTotal(a: Bytes, b: Bytes)
    ensures Less(a, b) || a == b || Less(b, a)
  {
    if a != [] && b != [] && a[0] == b[0] {
      LessIsTotal(a[1..], b[1..]);
      if a[1..] == b[1..] { assert a == [a[0]] + a[1..] && b == [b[0]] + b[1..]; }
    }
  }

  lemma {:induction false} LessIsTransitive(a: Bytes, b: Bytes, c: Bytes)
    requires Less(a, b) && Less(b, c)
    ensures Less(a, c)
  {
    if a != [] && a[0] == b[0] == c[0] { LessIsTransitive(a[1..], b[1..], c[1..]); }
  }

  lemma {:induction false} LessIsStrict(a: Bytes, b: Bytes)
    requires Less(a, b)
    ensures a != b && !Less(b, a)
  {
    if a != [] && a[0] == b[0] { LessIsStrict(a[1..], b[1..]); }
  }

  ghost predicate Ascending(ids: seq<Bytes>) {
    forall i, j :: 0 <= i < j < |ids| ==> Less(ids[i], ids[j])
  }

  // --------------------------------------------------------------------
  // Filters
  // --------------------------------------------------------------------

  // Excluded names first; then any one of the wanted tags, where none wanted accepts all.
  ghost predicate Passes(fn: FunctionInfo, c: Config) {
    fn.name !in c.excluded && (c.tags == [] || exists tag :: tag in fn.tags && tag in c.tags)
  }

  method ApplyFilters(funcs: seq<FunctionInfo>, c: Config) returns (result: seq<FunctionInfo>)
    ensures forall fn :: fn in result <==> fn in funcs && Passes(fn, c)
    ensures DistinctFunctions(funcs) ==> DistinctFunctions(result)
  {
    result := [];
    for i := 0 to |funcs|
      invariant forall fn :: fn in result <==> fn in funcs[..i] && Passes(fn, c)
      invariant DistinctFunctions(funcs) ==> DistinctFunctions(result)
    {
      var fn := funcs[i];
      assert funcs[..i + 1] == funcs[..i] + [fn];
      var matched := HasTag(fn.tags, c.tags);
      if fn.name !in c.excluded && (|c.tags| == 0 || matched) {
        if DistinctFunctions(funcs) { NewNameStaysDistinct(funcs, i, result); }
        result := result + [fn];
      }
    }
    assert funcs[..|funcs|] == funcs;
  }

  method HasTag(tags: seq<Bytes>, wanted: seq<Bytes>) returns (matched: bool)
    ensures matched <==> exists tag :: tag in tags && tag in wanted
  {
    for i := 0 to |tags|
      invariant forall tag :: tag in tags[..i] ==> tag !in wanted
    {
      assert tags[..i + 1] == tags[..i] + [tags[i]];
      if tags[i] in wanted { return true; }
    }
    assert tags[..|tags|] == tags;
    return false;
  }

  ghost predicate DistinctFunctions(funcs: seq<FunctionInfo>) {
    forall i, j :: 0 <= i < j < |funcs| ==> funcs[i].name != funcs[j].name
  }

  lemma NewNameStaysDistinct(funcs: seq<FunctionInfo>, i: nat, result: seq<FunctionInfo>)
    requires i < |funcs| && DistinctFunctions(funcs) && DistinctFunctions(result)
    requires forall fn :: fn in result ==> fn in funcs[..i]
    ensures DistinctFunctions(result + [funcs[i]])
  {
    forall j | 0 <= j < |result| ensures result[j].name != funcs[i].name {
      assert result[j] in funcs[..i];
      var k :| 0 <= k < i && funcs[k] == result[j];
    }
  }

  // --------------------------------------------------------------------
  // Which device provides a function
  // --------------------------------------------------------------------

  ghost predicate Registers(funcs: seq<FunctionInfo>, name: Bytes) {
    exists i :: 0 <= i < |funcs| && funcs[i].name == name
  }

  // The first entry of that name.
  ghost predicate IsFirst(funcs: seq<FunctionInfo>, fn: FunctionInfo) {
    exists i :: 0 <= i < |funcs| && funcs[i] == fn && forall j :: 0 <= j < i ==> funcs[j].name != fn.name
  }

  // Among the given devices, the smallest one that registers the name.
  ghost predicate Owns(devices: DeviceFuncs, among: set<Bytes>, device: Bytes, name: Bytes) {
    && device in among && device in devices && Registers(devices[device], name)
    && forall d :: d in among && d in devices && Registers(devices[d], name) ==> d == device || Less(device, d)
  }

  datatype Entry = Entry(device: Bytes, info: FunctionInfo)

  // What seenFuncs holds once the given devices have been visited.
  ghost predicate SeenIsOwners(seen: map<Bytes, Entry>, devices: DeviceFuncs, among: set<Bytes>) {
    && (forall name :: name in seen ==>
          seen[name].info.name == name && Owns(devices, among, seen[name].device, name)
          && IsFirst(devices[seen[name].device], seen[name].info))
    && (forall d, name :: d in among && d in devices && Registers(devices[d], name) ==> name in seen)
  }

  function Elems(ids: seq<Bytes>): set<Bytes> {
    set d | d in ids
  }

  method InsertSorted(ids: seq<Bytes>, d: Bytes) returns (longer: seq<Bytes>)
    requires Ascending(ids) && d !in ids
    ensures Ascending(longer) && Elems(longer) == Elems(ids) + {d}
  {
    var i := |ids|;
    while i > 0 && Less(d, ids[i - 1])
      invariant 0 <= i <= |ids|
      invariant i < |ids| ==> Less(d, ids[i])
    {
      i := i - 1;
    }
    longer := ids[..i] + [d] + ids[i..];
    InsertKeepsAscending(ids, i, d);
  }

  lemma JoinAscending(a: seq<Bytes>, b: seq<Bytes>)
    requires Ascending(a) && Ascending(b) && (a != [] && b != [] ==> Less(a[|a| - 1], b[0]))
    ensures Ascending(a + b)
  {
    forall i, j | 0 <= i < j < |a + b| ensures Less((a + b)[i], (a + b)[j]) {
      if i < |a| <= j {
        if i < |a| - 1 { LessIsTransitive(a[i], a[|a| - 1], b[0]); }
        if j > |a| { LessIsTransitive(a[i], b[0], b[j - |a|]); }
      }
    }
  }

  lemma InsertKeepsAscending(ids: seq<Bytes>, i: nat, d: Bytes)
    requires Ascending(ids) && d !in ids && i <= |ids|
    requires (i > 0 ==> !Less(d, ids[i - 1])) && (i < |ids| ==> Less(d, ids[i]))
    ensures Ascending(ids[..i] + [d] + ids[i..]) && Elems(ids[..i] + [d] + ids[i..]) == Elems(ids) + {d}
  {
    if i > 0 { LessIsTotal(d, ids[i - 1]); }
    JoinAscending(ids[..i], [d]);
    JoinAscending(ids[..i] + [d], ids[i..]);
    assert ids == ids[..i] + ids[i..];
  }

  // The keys, taken from the map in any order, then sorted.
  method SortedDevices(devices: DeviceFuncs) returns (ids: seq<Bytes>)
    ensures Ascending(ids) && Elems(ids) == devices.Keys
  {
    ids := [];
    var left := devices.Keys;
    while left != {}
      invariant Ascending(ids) && Elems(ids) == devices.Keys - left && left <= devices.Keys
      decreases left
    {
      var d :| d in left;
      assert d !in Elems(ids);
      ids := InsertSorted(ids, d);
      left := left - {d};
    }
  }

  lemma NotSmaller(a: Bytes, b: Bytes)
    requires a == b || Less(a, b)
    ensures !Less(b, a)
  {
    if Less(a, b) { LessIsStrict(a, b); } else if Less(b, a) { LessIsStrict(b, a); }
  }

  lemma SeenIsSmaller(seen: map<Bytes, Entry>, devices: DeviceFuncs, among: set<Bytes>, device: Bytes, name: Bytes)
    requires SeenIsOwners(seen, devices, among) && name in seen
    requires forall d :: d in among ==> Less(d, device)
    ensures !Less(device, seen[name].device)
  {
    assert Owns(devices, among, seen[name].device, name);
    NotSmaller(seen[name].device, device);
  }

  // What visiting the first i functions of a device has added.
  ghost predicate Visited(seen0: map<Bytes, Entry>, seen: map<Bytes, Entry>, funcs: seq<FunctionInfo>, device: Bytes,
                          i: nat)
  {
    && (forall name :: name in seen0 ==> name in seen && seen[name] == seen0[name])
    && (forall name :: name in seen && name !in seen0 ==>
          seen[name].device == device && seen[name].info.name == name && IsFirst(funcs, seen[name].info))
    && (forall j :: 0 <= j < i && j < |funcs| ==> funcs[j].name in seen)
  }

  // Later devices are larger, so what was seen is not taken over.
  lemma NeverTakenOver(seen0: map<Bytes, Entry>, seen: map<Bytes, Entry>, devices: DeviceFuncs, among: set<Bytes>,
                       device: Bytes, i: nat)
    requires SeenIsOwners(seen0, devices, among) && device in devices && i < |devices[device]|
    requires forall d :: d in among ==> Less(d, device)
    requires Visited(seen0, seen, devices[device], device, i)
    ensures var name := devices[device][i].name; name in seen ==> !Less(device, seen[name].device)
  {
    var name := devices[device][i].name;
    if name in seen0 {
      SeenIsSmaller(seen0, devices, among, device, name);
    } else if name in seen {
      NotSmaller(device, device);
    }
  }

  // They add only names not seen before.
  method SeeDevice(seen0: map<Bytes, Entry>, devices: DeviceFuncs, ghost among: set<Bytes>, device: Bytes)
    returns (seen: map<Bytes, Entry>)
    requires SeenIsOwners(seen0, devices, among) && device in devices
    requires forall d :: d in among ==> Less(d, device)
    ensures SeenIsOwners(seen, devices, among + {device})
  {
    seen := seen0;
    var funcs := devices[device];
    for i := 0 to |funcs|
      invariant Visited(seen0, seen, funcs, device, i)
    {
      var fn := funcs[i];
      NeverTakenOver(seen0, seen, devices, among, device, i);
      if fn.name !in seen || Less(device, seen[fn.name].device) { seen := seen[fn.name := Entry(device, fn)]; }
    }
    SeenAfterDevice(seen0, seen, devices, among, device);
  }

  lemma OwnerAmongMore(seen0: map<Bytes, Entry>, seen: map<Bytes, Entry>, devices: DeviceFuncs, among: set<Bytes>,
                       device: Bytes, name: Bytes)
    requires SeenIsOwners(seen0, devices, among) && device in devices && name in seen
    requires forall d :: d in among ==> Less(d, device)
    requires Visited(seen0, seen, devices[device], device, |devices[device]|)
    ensures Owns(devices, among + {device}, seen[name].device, name)
  {
    if name in seen0 {
      assert Owns(devices, among, seen0[name].device, name);
      assert Less(seen0[name].device, device);
    } else {
      assert Registers(devices[device], name);
      assert forall d :: d in among && d in devices ==> !Registers(devices[d], name);
    }
  }

  lemma SeenAfterDevice(seen0: map<Bytes, Entry>, seen: map<Bytes, Entry>, devices: DeviceFuncs, among: set<Bytes>,
                        device: Bytes)
    requires SeenIsOwners(seen0, devices, among) && device in devices
    requires forall d :: d in among ==> Less(d, device)
    requires Visited(seen0, seen, devices[device], device, |devices[device]|)
    ensures SeenIsOwners(seen, devices, among + {device})
  {
    forall name | name in seen ensures Owns(devices, among + {device}, seen[name].device, name) {
      OwnerAmongMore(seen0, seen, devices, among, device, name);
    }
  }

  method SeeAll(devices: DeviceFuncs) returns (seen: map<Bytes, Entry>)
    ensures SeenIsOwners(seen, devices, devices.Keys)
  {
    var ids := SortedDevices(devices);
    seen := map[];
    for i := 0 to |ids|
      invariant SeenIsOwners(seen, devices, Elems(ids[..i]))
    {
      assert ids[i] in Elems(ids);
      assert Elems(ids[..i + 1]) == Elems(ids[..i]) + {ids[i]} by { assert ids[..i + 1] == ids[..i] + [ids[i]]; }
      forall d | d in Elems(ids[..i]) ensures Less(d, ids[i]) {
        var j :| 0 <= j < i && ids[j] == d;
      }
      seen := SeeDevice(seen, devices, Elems(ids[..i]), ids[i]);
    }
    assert ids[..|ids|] == ids;
  }

  // --------------------------------------------------------------------
  // The client tools
  // --------------------------------------------------------------------

  /** The one tool a function name gives: the first entry of that name on the smallest
      device that registers it, if that entry passes the filters and a tool can be built. */
  ghost predicate Wanted(t: Tool, devices: DeviceFuncs, c: Config) {
    && t.Client? && Owns(devices, devices.Keys, t.device, t.info.name)
    && IsFirst(devices[t.device], t.info) && Passes(t.info, c) && c.creatable(t.info)
  }

  ghost predicate DistinctNames(tools: seq<Tool>) {
    forall i, j :: 0 <= i < j < |tools| && NameOf(tools[i]).Some? ==> NameOf(tools[i]) != NameOf(tools[j])
  }

  // Exactly the wanted tools, each once, in any order.
  ghost predicate IsClientList(client: seq<Tool>, devices: DeviceFuncs, c: Config) {
    DistinctNames(client) && forall t :: t in client <==> Wanted(t, devices, c)
  }

  ghost predicate Grouped(groups: DeviceFuncs, seen: map<Bytes, Entry>, names: set<Bytes>) {
    && (forall d, fn :: d in groups && fn in groups[d] ==>
          fn.name in names && fn.name in seen && seen[fn.name] == Entry(d, fn))
    && (forall name :: name in names && name in seen ==>
          seen[name].device in groups && seen[name].info in groups[seen[name].device])
    && (forall d :: d in groups ==> DistinctFunctions(groups[d]))
  }

  lemma GroupOneMore(groups: DeviceFuncs, seen: map<Bytes, Entry>, names: set<Bytes>, name: Bytes)
    requires forall n :: n in seen ==> seen[n].info.name == n
    requires Grouped(groups, seen, names) && name in seen && name !in names
    ensures var d := seen[name].device;
            Grouped(groups[d := (if d in groups then groups[d] else []) + [seen[name].info]], seen, names + {name})
  {
    var d, fn := seen[name].device, seen[name].info;
    var group := if d in groups then groups[d] else [];
    assert forall i :: 0 <= i < |group| ==> group[i] in group && group[i].name in names;
    assert fn in group + [fn];
  }

  // Go ranges over the map in an order of its own.
  method GroupByDevice(seen: map<Bytes, Entry>) returns (groups: DeviceFuncs)
    requires forall n :: n in seen ==> seen[n].info.name == n
    ensures Grouped(groups, seen, seen.Keys)
  {
    groups := map[];
    var left := seen.Keys;
    while left != {}
      invariant left <= seen.Keys && Grouped(groups, seen, seen.Keys - left)
      decreases left
    {
      var name :| name in left;
      var entry := seen[name];
      GroupOneMore(groups, seen, seen.Keys - left, name);
      assert seen.Keys - left + {name} == seen.Keys - (left - {name});
      groups := groups[entry.device := (if entry.device in groups then groups[entry.device] else []) + [entry.info]];
      left := left - {name};
    }
    assert seen.Keys - left == seen.Keys;
  }

  // The tools of one device; a function whose tool cannot be built is skipped.
  method BuildTools(funcs: seq<FunctionInfo>, device: Bytes, c: Config) returns (tools: seq<Tool>)
    requires DistinctFunctions(funcs)
    ensures forall t :: t in tools <==> t.Client? && t.device == device && t.info in funcs && c.creatable(t.info)
    ensures DistinctNames(tools)
  {
    tools := [];
    for i := 0 to |funcs|
      invariant forall t ::
                  t in tools <==> t.Client? && t.device == device && t.info in funcs[..i] && c.creatable(t.info)
      invariant DistinctNames(tools)
    {
      assert funcs[..i + 1] == funcs[..i] + [funcs[i]];
      if c.creatable(funcs[i]) {
        tools := tools + [Client(funcs[i], device)];
      }
    }
    assert funcs[..|funcs|] == funcs;
  }

  ghost predicate FromDevices(client: seq<Tool>, groups: DeviceFuncs, done: set<Bytes>, c: Config) {
    forall t :: t in client <==> t.Client? && t.device in done && t.device in groups && t.info in groups[t.device]
                                 && Passes(t.info, c) && c.creatable(t.info)
  }

  lemma NewDeviceIsDistinct(client: seq<Tool>, tools: seq<Tool>, groups: DeviceFuncs, seen: map<Bytes, Entry>,
                            done: set<Bytes>,
                            device: Bytes, c: Config)
    requires Grouped(groups, seen, seen.Keys) && FromDevices(client, groups, done, c)
    requires device !in done && device in groups
    requires DistinctNames(client) && DistinctNames(tools)
    requires forall t :: t in tools ==> t.Client? && t.device == device && t.info in groups[device]
    ensures DistinctNames(client + tools)
  {
    forall i, j | 0 <= i < |client| && 0 <= j < |tools| ensures NameOf(client[i]) != NameOf(tools[j]) {
      assert client[i] in client && tools[j] in tools;
      assert seen[client[i].info.name].device == client[i].device && seen[tools[j].info.name].device == device;
    }
  }

  method ClientTools(devices: DeviceFuncs, c: Config) returns (client: seq<Tool>)
    ensures IsClientList(client, devices, c)
  {
    var seen := SeeAll(devices);
    var groups := GroupByDevice(seen);
    client := [];
    var left := groups.Keys;
    while left != {}
      invariant left <= groups.Keys && DistinctNames(client) && FromDevices(client, groups, groups.Keys - left, c)
      decreases left
    {
      var device :| device in left;
      var funcs := ApplyFilters(groups[device], c);
      if |funcs| > 0 {
        var tools := BuildTools(funcs, device, c);
        NewDeviceIsDistinct(client, tools, groups, seen, groups.Keys - left, device, c);
        client := client + tools;
      }
      left := left - {device};
    }
    GroupedAreWanted(client, groups, seen, devices, c);
  }

  lemma OwnerIsUnique(devices: DeviceFuncs, among: set<Bytes>, a: Bytes, b: Bytes, name: Bytes)
    requires Owns(devices, among, a, name) && Owns(devices, among, b, name)
    ensures a == b
  {
    if a != b { NotSmaller(a, b); }
  }

  lemma EntryIsWanted(seen: map<Bytes, Entry>, devices: DeviceFuncs, t: Tool)
    requires SeenIsOwners(seen, devices, devices.Keys) && t.Client?
    ensures t.info.name in seen && seen[t.info.name] == Entry(t.device, t.info)
            <==> Owns(devices, devices.Keys, t.device, t.info.name) && IsFirst(devices[t.device], t.info)
  {
    var name := t.info.name;
    if Owns(devices, devices.Keys, t.device, name) && IsFirst(devices[t.device], t.info) {
      assert name in seen;
      OwnerIsUnique(devices, devices.Keys, t.device, seen[name].device, name);
    }
  }

  lemma GroupedAreWanted(client: seq<Tool>, groups: DeviceFuncs, seen: map<Bytes, Entry>, devices: DeviceFuncs,
                         c: Config)
    requires SeenIsOwners(seen, devices, devices.Keys) && Grouped(groups, seen, seen.Keys)
    requires FromDevices(client, groups, groups.Keys, c)
    ensures forall t :: t in client <==> Wanted(t, devices, c)
  {
    forall t ensures t in client <==> Wanted(t, devices, c) {
      if t.Client? { EntryIsWanted(seen, devices, t); }
    }
  }

  // --------------------------------------------------------------------
  // The merge
  // --------------------------------------------------------------------

  function Names(tools: seq<Tool>): set<Bytes> {
    set t | t in tools && NameOf(t).Some? :: NameOf(t).value
  }

  predicate Overridden(t: Tool, names: set<Bytes>) {
    NameOf(t).Some? && NameOf(t).value in names
  }

  // The existing tools that are not overridden, in order.
  function Kept(existing: seq<Tool>, names: set<Bytes>): seq<Tool> {
    if existing == [] then []
    else
      var rest, last := Kept(existing[..|existing| - 1], names), existing[|existing| - 1];
      if Overridden(last, names) then rest else rest + [last]
  }

  // The first tool of each name, and every tool without one.
  function Deduped(merged: seq<Tool>): seq<Tool> {
    if merged == [] then []
    else
      var front, last := merged[..|merged| - 1], merged[|merged| - 1];
      if Overridden(last, Names(front)) then Deduped(front) else Deduped(front) + [last]
  }

  function Merged(existing: seq<Tool>, merged: seq<Tool>): seq<Tool> {
    if merged == [] then existing else Kept(existing, Names(merged)) + Deduped(merged)
  }

  lemma {:induction false} DedupedKeepsNames(merged: seq<Tool>)
    ensures DistinctNames(Deduped(merged)) && Names(Deduped(merged)) == Names(merged)
    ensures forall t :: t in Deduped(merged) ==> t in merged
  {
    if merged != [] {
      var front, last := merged[..|merged| - 1], merged[|merged| - 1];
      DedupedKeepsNames(front);
      assert merged == front + [last];
      assert Names(merged) == Names(front) + Names([last]);
      if !Overridden(last, Names(front)) {
        assert Names(Deduped(front) + [last]) == Names(Deduped(front)) + Names([last]);
        forall i | 0 <= i < |Deduped(front)| && NameOf(Deduped(front)[i]).Some?
          ensures NameOf(Deduped(front)[i]) != NameOf(last)
        {
          assert Deduped(front)[i] in Deduped(front);
        }
      }
    }
  }

  lemma {:induction false} KeptIsFiltered(existing: seq<Tool>, names: set<Bytes>)
    ensures forall t :: t in Kept(existing, names) <==> t in existing && !Overridden(t, names)
  {
    if existing != [] {
      KeptIsFiltered(existing[..|existing| - 1], names);
      assert existing == existing[..|existing| - 1] + [existing[|existing| - 1]];
    }
  }

  // Deduped keeps a prefix with distinct names whole, and then the registry
  // tools whose names are new.
  lemma {:induction false} DedupedAfterDistinct(client: seq<Tool>, registry: seq<Tool>)
    requires DistinctNames(client)
    ensures Deduped(client + registry) == client + Kept(Deduped(registry), Names(client))
  {
    if registry == [] {
      assert client + registry == client;
      DistinctIsItsOwnDedup(client);
    } else {
      var front, last := registry[..|registry| - 1], registry[|registry| - 1];
      DedupedAfterDistinct(client, front);
      assert (client + registry)[..|client + registry| - 1] == client + front;
      assert Names(client + front) == Names(client) + Names(front);
      if !Overridden(last, Names(front)) {
        assert Deduped(registry)[..|Deduped(front)|] == Deduped(front);
      }
    }
  }

  lemma LastIsNew(front: seq<Tool>, last: Tool)
    requires DistinctNames(front + [last])
    ensures DistinctNames(front) && !Overridden(last, Names(front))
  {
    var all := front + [last];
    assert forall i :: 0 <= i < |front| ==> all[i] == front[i];
    assert all[|front|] == last;
  }

  lemma {:induction false} DistinctIsItsOwnDedup(client: seq<Tool>)
    requires DistinctNames(client)
    ensures Deduped(client) == client
  {
    if client != [] {
      var front, last := client[..|client| - 1], client[|client| - 1];
      assert client == front + [last];
      LastIsNew(front, last);
      DistinctIsItsOwnDedup(front);
    }
  }

  /** The injected tools have unique names, none of which an existing tool that was
      kept has; existing tools stay, in order, exactly when not overridden. */
  lemma InjectedNamesAreUnique(existing: seq<Tool>, merged: seq<Tool>)
    requires merged != []
    ensures var kept := Kept(existing, Names(merged));
            && Merged(existing, merged)[..|kept|] == kept
            && DistinctNames(Merged(existing, merged)[|kept|..])
            && Names(Merged(existing, merged)[|kept|..]) == Names(merged)
            && (forall t :: t in kept <==> t in existing && !Overridden(t, Names(merged)))
  {
    DedupedKeepsNames(merged);
    KeptIsFiltered(existing, Names(merged));
    var kept := Kept(existing, Names(merged));
    assert Merged(existing, merged)[|kept|..] == Deduped(merged);
  }

  ghost predicate SameTools(a: seq<Tool>, b: seq<Tool>) {
    multiset(a) == multiset(b)
  }

  lemma {:induction false} DistinctListsAgree(a: seq<Tool>, b: seq<Tool>)
    requires (forall t :: t in a <==> t in b) && DistinctNames(a) && DistinctNames(b)
    requires forall t :: t in a ==> NameOf(t).Some?
    ensures multiset(a) == multiset(b)
  {
    forall t ensures multiset(a)[t] == multiset(b)[t] {
      OccursOnce(a, t);
      OccursOnce(b, t);
    }
  }

  lemma {:induction false} OccursOnce(a: seq<Tool>, t: Tool)
    requires DistinctNames(a) && (t in a ==> NameOf(t).Some?)
    ensures multiset(a)[t] == if t in a then 1 else 0
  {
    if a != [] {
      var front, last := a[..|a| - 1], a[|a| - 1];
      assert a == front + [last];
      OccursOnce(front, t);
      if t in front {
        var i :| 0 <= i < |front| && front[i] == t;
        assert a[i] == t;
      }
    }
  }

  /** What an injection leaves: the existing tools that are not overridden, then the
      client tools, then the registry tools whose names are new. */
  lemma MergedShape(existing: seq<Tool>, client: seq<Tool>, registry: seq<Tool>)
    requires DistinctNames(client)
    ensures Merged(existing, client + registry)
            == Kept(existing, Names(client) + Names(registry)) + client + Kept(Deduped(registry), Names(client))
  {
    assert Names(client + registry) == Names(client) + Names(registry);
    DedupedAfterDistinct(client, registry);
    if client + registry == [] {
      assert client == [] && registry == [] && Names(client) + Names(registry) == {};
      NothingOverridden(existing);
    }
  }

  lemma {:induction false} NothingOverridden(existing: seq<Tool>)
    ensures Kept(existing, {}) == existing
  {
    if existing != [] { NothingOverridden(existing[..|existing| - 1]); }
  }

  /** Whatever order Go's maps are ranged over, the outcome is the same up to the
      order of the client tools: their names, and with them the existing tools that
      stay and the registry tools that are added, do not depend on it. */
  lemma MapOrderDoesNotMatter(existing: seq<Tool>, a: seq<Tool>, b: seq<Tool>, registry: seq<Tool>,
                              devices: DeviceFuncs, c: Config)
    requires IsClientList(a, devices, c) && IsClientList(b, devices, c)
    ensures Names(a) == Names(b) && multiset(a) == multiset(b)
    ensures SameTools(Merged(existing, a + registry), Merged(existing, b + registry))
  {
    forall t | t in a ensures NameOf(t).Some? { assert Wanted(t, devices, c); }
    DistinctListsAgree(a, b);
    assert Names(a) == Names(b);
    MergedShape(existing, a, registry);
    MergedShape(existing, b, registry);
  }

  /** A function name reaches the agent from the client side exactly when the entry on
      its smallest device passes the filters: a larger device whose own entry would
      pass does not step in. */
  lemma FilterSeesSmallestDeviceOnly(client: seq<Tool>, devices: DeviceFuncs, c: Config, device: Bytes,
                                     fn: FunctionInfo)
    requires IsClientList(client, devices, c)
    requires Owns(devices, devices.Keys, device, fn.name) && IsFirst(devices[device], fn)
    ensures fn.name in Names(client) <==> Passes(fn, c) && c.creatable(fn)
    ensures fn.name in Names(client) ==> Client(fn, device) in client
  {
    if fn.name in Names(client) {
      var t :| t in client && NameOf(t) == Some(fn.name);
      assert Wanted(t, devices, c);
      OwnerIsUnique(devices, devices.Keys, t.device, device, fn.name);
    }
    if Passes(fn, c) && c.creatable(fn) {
      var t := Client(fn, device);
      assert Wanted(t, devices, c) && NameOf(t) == Some(fn.name);
    }
  }

  method DedupMerged(merged: seq<Tool>) returns (deduped: seq<Tool>)
    ensures deduped == Deduped(merged)
  {
    var seen: set<Bytes> := {};
    deduped := [];
    for i := 0 to |merged|
      invariant seen == Names(merged[..i]) && deduped == Deduped(merged[..i])
    {
      var t := merged[i];
      assert merged[..i + 1] == merged[..i] + [t] && merged[..i + 1][..i] == merged[..i];
      if NameOf(t).Some? {
        if NameOf(t).value !in seen {
          seen := seen + {NameOf(t).value};
          deduped := deduped + [t];
        }
      } else {
        deduped := deduped + [t];
      }
    }
    assert merged[..|merged|] == merged;
  }

  method KeepExisting(existing: seq<Tool>, names: set<Bytes>) returns (kept: seq<Tool>)
    ensures kept == Kept(existing, names)
  {
    kept := [];
    for i := 0 to |existing|
      invariant kept == Kept(existing[..i], names)
    {
      assert existing[..i + 1][..i] == existing[..i];
      if !Overridden(existing[i], names) { kept := kept + [existing[i]]; }
    }
    assert existing[..|existing|] == existing;
  }

  class RunContext {
    var tools: seq<Tool>

    constructor (tools: seq<Tool>)
      ensures this.tools == tools
    {
      this.tools := tools;
    }

    /** One injection: some ordering of the client tools, then the registry's, merged
        into the tools already there. */
    method BeforeAgent(devices: DeviceFuncs, registry: seq<Tool>, c: Config) returns (ghost client: seq<Tool>)
      modifies this
      ensures IsClientList(client, devices, c)
      ensures tools == Merged(old(tools), client + registry)
    {
      var merged := ClientTools(devices, c);
      client := merged;
      merged := merged + registry;
      if |merged| > 0 {
        var kept := KeepExisting(tools, Names(merged));
        var deduped := DedupMerged(merged);
        tools := kept + deduped;
      }
    }
  }
}
