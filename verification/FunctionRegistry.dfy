/** The functions that client devices declare: a two-level map from user and device
    to the device's last registration. */
module FunctionRegistry {
  import opened Option
  import opened ToolInjection

  datatype Limits = Limits(maxFunctions: int, maxNameLength: int)

  datatype Error = NameEmpty | NameTooLong | NameDuplicate | TooManyFunctions

  type Devices = map<Bytes, DeviceFuncs>

  function WithDefaults(l: Limits): Limits {
    Limits(if l.maxFunctions <= 0 then 500 else l.maxFunctions, if l.maxNameLength <= 0 then 255 else l.maxNameLength)
  }

  function NamesOf(funcs: seq<FunctionInfo>): set<Bytes> {
    set fn | fn in funcs :: fn.name
  }

  // The error of one function, given the names before it.
  function NameError(fn: FunctionInfo, before: set<Bytes>, l: Limits): Option<Error> {
    if fn.name == [] then Some(NameEmpty)
    else if |fn.name| > l.maxNameLength then Some(NameTooLong)
    else if fn.name in before then Some(NameDuplicate)
    else None
  }

  // The first error met, counting first.
  function FirstError(funcs: seq<FunctionInfo>, l: Limits): Option<Error> {
    if |funcs| > l.maxFunctions then Some(TooManyFunctions) else FirstNameError(funcs, l)
  }

  function FirstNameError(funcs: seq<FunctionInfo>, l: Limits): Option<Error> {
    if funcs == [] then None
    else
      var front, last := funcs[..|funcs| - 1], funcs[|funcs| - 1];
      var earlier := FirstNameError(front, l);
      if earlier.Some? then earlier else NameError(last, NamesOf(front), l)
  }

  ghost predicate NamesFit(funcs: seq<FunctionInfo>, l: Limits) {
    forall i :: 0 <= i < |funcs| ==> 0 < |funcs[i].name| <= l.maxNameLength
  }

  ghost predicate Acceptable(funcs: seq<FunctionInfo>, l: Limits) {
    |funcs| <= l.maxFunctions && DistinctFunctions(funcs) && NamesFit(funcs, l)
  }

  lemma DistinctOneMore(front: seq<FunctionInfo>, last: FunctionInfo)
    ensures DistinctFunctions(front + [last]) <==> DistinctFunctions(front) && last.name !in NamesOf(front)
  {
    var funcs := front + [last];
    assert forall i :: 0 <= i < |front| ==> funcs[i] == front[i] && front[i] in front;
    if last.name in NamesOf(front) {
      var i :| 0 <= i < |front| && front[i].name == last.name;
      assert funcs[i].name == funcs[|front|].name;
    }
  }

  lemma FitOneMore(front: seq<FunctionInfo>, last: FunctionInfo, l: Limits)
    ensures NamesFit(front + [last], l) <==> NamesFit(front, l) && 0 < |last.name| <= l.maxNameLength
  {
    var funcs := front + [last];
    assert forall i :: 0 <= i < |front| ==> funcs[i] == front[i];
    assert funcs[|front|] == last;
  }

  lemma {:induction false} NoNameErrorIff(funcs: seq<FunctionInfo>, l: Limits)
    ensures FirstNameError(funcs, l) == None <==> DistinctFunctions(funcs) && NamesFit(funcs, l)
  {
    if funcs != [] {
      var front, last := funcs[..|funcs| - 1], funcs[|funcs| - 1];
      NoNameErrorIff(front, l);
      DistinctOneMore(front, last);
      FitOneMore(front, last, l);
      assert funcs == front + [last];
    }
  }

  /** A registration is accepted exactly when it is small enough and its names are
      non-empty, short enough and distinct. */
  lemma AcceptedIff(funcs: seq<FunctionInfo>, l: Limits)
    ensures FirstError(funcs, l) == None <==> Acceptable(funcs, l)
  {
    NoNameErrorIff(funcs, l);
  }

  // What is wrong with the function at i, given those before it.
  ghost predicate IsWrong(funcs: seq<FunctionInfo>, i: nat, l: Limits, e: Error) {
    && i < |funcs|
    && match e
       case NameEmpty => funcs[i].name == []
       case NameTooLong => funcs[i].name != [] && |funcs[i].name| > l.maxNameLength
       case NameDuplicate =>
         && 0 < |funcs[i].name| <= l.maxNameLength
         && exists j :: 0 <= j < i && funcs[j].name == funcs[i].name
       case TooManyFunctions => false
  }

  ghost predicate FirstWrong(funcs: seq<FunctionInfo>, i: nat, l: Limits, e: Error) {
    IsWrong(funcs, i, l, e) && forall j: nat, e' :: j < i ==> !IsWrong(funcs, j, l, e')
  }

  lemma LastIsWrong(funcs: seq<FunctionInfo>, l: Limits, e: Error)
    requires funcs != []
    ensures IsWrong(funcs, |funcs| - 1, l, e)
            <==> NameError(funcs[|funcs| - 1], NamesOf(funcs[..|funcs| - 1]), l) == Some(e)
  {
    var front, last := funcs[..|funcs| - 1], funcs[|funcs| - 1];
    if last.name in NamesOf(front) {
      var fn :| fn in front && fn.name == last.name;
      var j :| 0 <= j < |front| && front[j] == fn;
      assert funcs[j].name == last.name;
    }
    if j :| 0 <= j < |front| && funcs[j].name == last.name { assert front[j] in front; }
  }

  lemma WrongInFront(funcs: seq<FunctionInfo>, i: nat, l: Limits, e: Error)
    requires i + 1 < |funcs|
    ensures IsWrong(funcs[..|funcs| - 1], i, l, e) <==> IsWrong(funcs, i, l, e)
  {
    var front := funcs[..|funcs| - 1];
    assert forall j :: 0 <= j <= i ==> front[j] == funcs[j];
  }

  lemma {:induction false} FirstNameErrorIs(funcs: seq<FunctionInfo>, l: Limits) returns (i: nat)
    ensures match FirstNameError(funcs, l)
            case Some(e) => FirstWrong(funcs, i, l, e)
            case None => forall j: nat, e :: !IsWrong(funcs, j, l, e)
  {
    if funcs == [] {
      i := 0;
    } else {
      i := FirstNameErrorIs(funcs[..|funcs| - 1], l);
      forall j: nat, e | j + 1 < |funcs| ensures IsWrong(funcs[..|funcs| - 1], j, l, e) <==> IsWrong(funcs, j, l, e) {
        WrongInFront(funcs, j, l, e);
      }
      forall e ensures IsWrong(funcs, |funcs| - 1, l, e)
                       <==> NameError(funcs[|funcs| - 1], NamesOf(funcs[..|funcs| - 1]), l) == Some(e) {
        LastIsWrong(funcs, l, e);
      }
      if FirstNameError(funcs[..|funcs| - 1], l) == None { i := |funcs| - 1; }
    }
  }

  /** The error of a refused registration: that there are too many functions, and otherwise what is wrong with
      the first function that is wrong. Limits that are not positive stand for 500 functions and names
      of 255 bytes. */
  lemma RefusalIs(funcs: seq<FunctionInfo>, given: Limits) returns (i: nat)
    ensures var l := WithDefaults(given);
            && l.maxFunctions == (if given.maxFunctions > 0 then given.maxFunctions else 500)
            && l.maxNameLength == (if given.maxNameLength > 0 then given.maxNameLength else 255)
            && (FirstError(funcs, l) == Some(TooManyFunctions) <==> |funcs| > l.maxFunctions)
            && (|funcs| <= l.maxFunctions && FirstError(funcs, l).Some? ==>
                  FirstWrong(funcs, i, l, FirstError(funcs, l).value))
  {
    i := FirstNameErrorIs(funcs, WithDefaults(given));
  }

  function Registered(devices: Devices, user: Bytes, device: Bytes, funcs: seq<FunctionInfo>): Devices {
    devices[user := (if user in devices then devices[user] else map[])[device := funcs]]
  }

  function Disconnected(devices: Devices, user: Bytes, device: Bytes): Devices {
    if user !in devices || device !in devices[user] then devices
    else
      var rest := devices[user] - {device};
      if rest == map[] then devices - {user} else devices[user := rest]
  }

  function FunctionsOf(devices: Devices, user: Bytes, device: Bytes): Option<seq<FunctionInfo>> {
    if user in devices && device in devices[user] then Some(devices[user][device]) else None
  }

  // No user without a device, and every registration was acceptable.
  ghost predicate Inv(devices: Devices, l: Limits) {
    forall user :: user in devices ==> UserInv(devices[user], l)
  }

  ghost predicate UserInv(userDevices: DeviceFuncs, l: Limits) {
    userDevices != map[] && forall d :: d in userDevices ==> Acceptable(userDevices[d], l)
  }

  datatype Op = Register(user: Bytes, device: Bytes, funcs: seq<FunctionInfo>) | Disconnect(user: Bytes, device: Bytes)

  function Step(devices: Devices, op: Op, l: Limits): Devices {
    match op
    case Register(user, device, funcs) =>
      if FirstError(funcs, l).Some? then devices else Registered(devices, user, device, funcs)
    case Disconnect(user, device) => Disconnected(devices, user, device)
  }

  function Run(devices: Devices, ops: seq<Op>, l: Limits): Devices
    decreases |ops|
  {
    if ops == [] then devices else Run(Step(devices, ops[0], l), ops[1..], l)
  }

  // What a device's own operations left: its last accepted registration, unless it
  // has disconnected since.
  function LastOf(ops: seq<Op>, user: Bytes, device: Bytes, l: Limits,
                  before: Option<seq<FunctionInfo>>): Option<seq<FunctionInfo>>
    decreases |ops|
  {
    if ops == [] then before
    else
      LastOf(ops[1..], user, device, l, After(ops[0], user, device, l, before))
  }

  function After(op: Op, user: Bytes, device: Bytes, l: Limits,
                 before: Option<seq<FunctionInfo>>): Option<seq<FunctionInfo>>
  {
    match op
    case Register(u, d, funcs) => if u == user && d == device && FirstError(funcs, l).None? then Some(funcs) else before
    case Disconnect(u, d) => if u == user && d == device then None else before
  }

  // An operation reaches its own device only.
  lemma StepIsLocal(devices: Devices, op: Op, l: Limits, user: Bytes, device: Bytes)
    ensures FunctionsOf(Step(devices, op, l), user, device)
            == After(op, user, device, l, FunctionsOf(devices, user, device))
  {
    if op.Disconnect? && op.user == user && user in devices && op.device in devices[user] {
      var rest := devices[user] - {op.device};
      assert device in rest <==> device in devices[user] && device != op.device;
    }
  }

  lemma StepKeepsInv(devices: Devices, op: Op, l: Limits)
    requires Inv(devices, l)
    ensures Inv(Step(devices, op, l), l)
  {
    match op
    case Register(user, device, funcs) =>
      AcceptedIff(funcs, l);
      var there: DeviceFuncs := if user in devices then devices[user] else map[];
      assert device in there[device := funcs];
    case Disconnect(user, device) =>
  }

  /** Over every run a device has its last accepted registration until it disconnects,
      whatever other devices do, and no user entry is left empty. */
  lemma {:induction false} RegistryKeepsLast(devices: Devices, ops: seq<Op>, l: Limits, user: Bytes, device: Bytes)
    requires Inv(devices, l)
    ensures Inv(Run(devices, ops, l), l)
    ensures FunctionsOf(Run(devices, ops, l), user, device)
            == LastOf(ops, user, device, l, FunctionsOf(devices, user, device))
    decreases |ops|
  {
    if ops != [] {
      StepKeepsInv(devices, ops[0], l);
      StepIsLocal(devices, ops[0], l, user, device);
      RegistryKeepsLast(Step(devices, ops[0], l), ops[1..], l, user, device);
    }
  }

  /** Disconnecting undoes a first registration exactly. */
  lemma DisconnectUndoesRegister(devices: Devices, user: Bytes, device: Bytes, funcs: seq<FunctionInfo>, l: Limits)
    requires Inv(devices, l) && FunctionsOf(devices, user, device) == None
    ensures Disconnected(Registered(devices, user, device, funcs), user, device) == devices
  {
    var there := if user in devices then devices[user] else map[];
    assert there[device := funcs] - {device} == there;
  }

  class MemoryFunctionRegistry {
    var devices: Devices
    const limits: Limits

    constructor (limits: Limits)
      ensures this.limits == WithDefaults(limits) && devices == map[]
    {
      this.limits := WithDefaults(limits);
      devices := map[];
    }

    method RegisterFunctions(user: Bytes, device: Bytes, funcs: seq<FunctionInfo>) returns (error: Option<Error>)
      modifies this
      ensures error == FirstError(funcs, limits)
      ensures devices == Step(old(devices), Register(user, device, funcs), limits)
    {
      if |funcs| > limits.maxFunctions { return Some(TooManyFunctions); }
      error := CheckNames(funcs);
      if error.Some? { return; }
      var userDevices: DeviceFuncs := map[];
      if user in devices { userDevices := devices[user]; }
      devices := devices[user := userDevices[device := funcs]];
    }

    method CheckNames(funcs: seq<FunctionInfo>) returns (error: Option<Error>)
      ensures error == FirstNameError(funcs, limits)
    {
      var seen: set<Bytes> := {};
      for i := 0 to |funcs|
        invariant seen == NamesOf(funcs[..i]) && FirstNameError(funcs[..i], limits) == None
      {
        var name := funcs[i].name;
        assert funcs[..i + 1] == funcs[..i] + [funcs[i]];
        ErrorStays(funcs, i + 1, limits);
        if name == [] { return Some(NameEmpty); }
        if |name| > limits.maxNameLength { return Some(NameTooLong); }
        if name in seen { return Some(NameDuplicate); }
        seen := seen + {name};
      }
      assert funcs[..|funcs|] == funcs;
      return None;
    }

    method GetFunctionsByUser(user: Bytes) returns (found: Option<DeviceFuncs>)
      ensures found == if user in devices && devices[user] != map[] then Some(devices[user]) else None
    {
      if user !in devices { return None; }
      if |devices[user]| == 0 { return None; }
      return Some(devices[user]);
    }

    method OnDeviceDisconnect(user: Bytes, device: Bytes) returns (removed: Option<seq<FunctionInfo>>)
      modifies this
      ensures removed == FunctionsOf(old(devices), user, device)
      ensures devices == Disconnected(old(devices), user, device)
    {
      if user !in devices { return None; }
      var userDevices := devices[user];
      if device !in userDevices { return None; }
      removed := Some(userDevices[device]);
      userDevices := userDevices - {device};
      devices := devices[user := userDevices];
      if |userDevices| == 0 { devices := devices - {user}; }
    }
  }

  lemma {:induction false} ErrorStays(funcs: seq<FunctionInfo>, i: nat, l: Limits)
    requires 0 < i <= |funcs|
    ensures FirstNameError(funcs[..i], l).Some? ==> FirstNameError(funcs, l) == FirstNameError(funcs[..i], l)
    ensures FirstNameError(funcs[..i - 1], l) == None ==>
              FirstNameError(funcs[..i], l) == NameError(funcs[i - 1], NamesOf(funcs[..i - 1]), l)
    decreases |funcs| - i
  {
    assert funcs[..i][..i - 1] == funcs[..i - 1];
    if i == |funcs| {
      assert funcs[..i] == funcs;
    } else {
      ErrorStays(funcs, i + 1, l);
      assert funcs[..i + 1][..i] == funcs[..i];
    }
  }

  // The user part of an agent id: what stands before its first slash, if anything does.
  const SLASH: byte := 47

  function BaseUser(agent: Bytes): (user: Bytes)
    ensures user <= agent
    ensures user == agent || (user != [] && SLASH !in user && |user| < |agent| && agent[|user|] == SLASH)
    ensures user == agent ==> agent == [] || agent[0] == SLASH || SLASH !in agent
  {
    var i := FirstSlash(agent);
    if 0 < i < |agent| then agent[..i] else agent
  }

  function FirstSlash(agent: Bytes): (i: nat)
    ensures i <= |agent| && SLASH !in agent[..i] && (i < |agent| ==> agent[i] == SLASH)
  {
    if agent == [] || agent[0] == SLASH then 0
    else
      var i := FirstSlash(agent[1..]);
      assert agent[..i + 1] == [agent[0]] + agent[1..][..i];
      i + 1
  }

  class DynamicToolProvider {
    const registry: MemoryFunctionRegistry

    constructor (registry: MemoryFunctionRegistry)
      ensures this.registry == registry
    {
      this.registry := registry;
    }

    /** The tools of an agent's run: those of the devices of the agent's base user, and the
        tool registry's. Without an agent id only the latter. */
    method BeforeAgent(run: RunContext, agent: Bytes, fromRegistry: seq<Tool>, c: Config)
      returns (ghost client: seq<Tool>)
      modifies run
      ensures var user := BaseUser(agent);
              var devices := if agent != [] && user in registry.devices then registry.devices[user] else map[];
              IsClientList(client, devices, c)
      ensures run.tools == Merged(old(run.tools), client + fromRegistry)
    {
      var devices: DeviceFuncs := map[];
      if agent != [] {
        var found := registry.GetFunctionsByUser(BaseUser(agent));
        if found.Some? { devices := found.value; }
      }
      client := run.BeforeAgent(devices, fromRegistry, c);
    }
  }
}
