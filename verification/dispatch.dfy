/** Package `dispatch`: the process-wide registry of named publish/subscribe
    channels, each holding the websocket listeners subscribed to it.

    The registry (`channels`, a map from name to `*Channel`) is a map from
    name to channel value. Go hands out pointers into that map, so a
    listener added through a pointer is seen in the registry: the model
    writes the updated channel back under its name. Websocket I/O
    (`Broadcast`, `Close` on each connection) is not modelled. */
module Dispatch {
  import opened Wrappers
  import opened GoInts
  import opened Arith

  /** A websocket connection, known only by its identity. */
  type Conn = nat

  datatype Listener = Listener(wsConn: Conn)

  /** `Channel`: `lCount` is a `uint32` counter kept beside the slice. */
  datatype Channel = Channel(name: string, lCount: uint32, listeners: seq<Listener>)

  type Registry = map<string, Channel>

  /** The counter agrees with the listener slice, up to uint32 wrap-around. */
  predicate CountMatches(c: Channel) {
    c.lCount == |c.listeners| % TWO_32
  }

  /** Every registered channel has a non-empty name, is filed under that
      name, and its counter agrees with its listeners. */
  predicate Valid(reg: Registry) {
    forall name :: name in reg ==> name != "" && reg[name].name == name && CountMatches(reg[name])
  }

  /** `NewChannel(channelName)`: returns the registry afterwards and the
      new channel, or an error for an empty or already-registered name. */
  function NewChannel(reg: Registry, channelName: string): (out: (Registry, Result<Channel>))
    ensures channelName == "" ==> out.1.Err? && out.0 == reg
    ensures channelName in reg ==> out.1.Err? && out.0 == reg
    ensures channelName != "" && channelName !in reg ==>
      && out.1.Ok?
      && out.1.value.name == channelName && out.1.value.lCount == 0 && out.1.value.listeners == []
      && out.0.Keys == reg.Keys + {channelName}
      && out.0[channelName] == out.1.value
      && (forall other :: other in reg ==> out.0[other] == reg[other])
    ensures Valid(reg) ==> Valid(out.0)
  {
    if channelName == "" then (reg, Err("please provide a channel name"))
    else if channelName in reg then (reg, Err("channel with name " + channelName + " already exists"))
    else
      var c := Channel(channelName, 0, []);
      (reg[channelName := c], Ok(c))
  }

  /** `GetChannel(channelName)`. */
  function GetChannel(reg: Registry, channelName: string): (r: Result<Channel>)
    ensures r.Ok? <==> channelName in reg
    ensures r.Ok? ==> r.value == reg[channelName]
  {
    if channelName in reg then Ok(reg[channelName])
    else Err("channel with name " + channelName + " does not exist")
  }

  /** `GetListenerCount(channelName)`: zero for an unknown name. */
  function GetListenerCount(reg: Registry, channelName: string): (n: uint32)
    ensures channelName !in reg ==> n == 0
    ensures channelName in reg ==> n == reg[channelName].lCount
  {
    if channelName in reg then reg[channelName].lCount else 0
  }

  /** In a valid registry the reported count is the number of listeners
      (modulo 2^32), and zero for an unknown name. */
  lemma ListenerCountIsListeners(reg: Registry, channelName: string)
    requires Valid(reg)
    ensures channelName in reg ==> GetListenerCount(reg, channelName) == |reg[channelName].listeners| % TWO_32
    ensures channelName !in reg ==> GetListenerCount(reg, channelName) == 0
  {
  }

  /** `c.AddListener(wsConn)`: `Ok` is `(true, nil)` with the updated
      channel, `Err` is `(false, error)` for a nil connection, with the
      channel unchanged. */
  function AddListener(c: Channel, wsConn: Option<Conn>): (r: Result<Channel>)
    ensures r.Err? <==> wsConn.None?
    ensures r.Ok? ==>
      && r.value.name == c.name
      && r.value.listeners == c.listeners + [Listener(wsConn.value)]
      && r.value.lCount == WrapUint32(c.lCount + 1)
    ensures r.Ok? && CountMatches(c) ==> CountMatches(r.value)
  {
    match wsConn
    case None => Err("please pass a websocket connection")
    case Some(conn) =>
      var added := c.(listeners := c.listeners + [Listener(conn)], lCount := WrapUint32(c.lCount + 1));
      CountStep(|c.listeners|);
      Ok(added)
  }

  lemma CountStep(n: nat)
    ensures (n % TWO_32 + 1) % TWO_32 == (n + 1) % TWO_32
  {
    ModAddMod(1, n, TWO_32);
  }

  /** Adding a listener to a registered channel, through the pointer the
      registry holds, keeps the registry valid and touches no other channel. */
  lemma AddListenerKeepsRegistryValid(reg: Registry, channelName: string, wsConn: Conn)
    requires Valid(reg) && channelName in reg
    ensures AddListener(reg[channelName], Some(wsConn)).Ok?
    ensures Valid(reg[channelName := AddListener(reg[channelName], Some(wsConn)).value])
  {
  }

  /** `CloseChannel(channelName)`: closes every listener's connection,
      returns how many were closed (counted in a uint32) and removes the
      channel; an empty or unknown name is an error and changes nothing. */
  function CloseChannel(reg: Registry, channelName: string): (out: (Registry, Result<uint32>))
    ensures channelName == "" || channelName !in reg ==> out.1.Err? && out.0 == reg
    ensures channelName != "" && channelName in reg ==>
      && out.1 == Ok(|reg[channelName].listeners| % TWO_32)
      && out.0.Keys == reg.Keys - {channelName}
      && (forall other :: other in out.0 ==> out.0[other] == reg[other])
    ensures Valid(reg) && out.1.Ok? ==> out.1.value == reg[channelName].lCount
    ensures Valid(reg) ==> Valid(out.0)
  {
    if channelName == "" then (reg, Err("channel name need to close a channel listeners"))
    else if channelName !in reg then (reg, Err("channel with name " + channelName + " not found"))
    else (reg - {channelName}, Ok(ClosedCount(reg[channelName].listeners)))
  }

  /** The `closedConn` counter after the loop over `listeners`. */
  function ClosedCount(listeners: seq<Listener>): (n: uint32)
    ensures n == |listeners| % TWO_32
  {
    if |listeners| == 0 then 0
    else
      var before := ClosedCount(listeners[..|listeners| - 1]);
      CountStep(|listeners| - 1);
      WrapUint32(before + 1)
  }

  /** The tests' create, look-up, count-0, refuse-nil and add sequence,
      carried on to a count and a close: a fresh channel is found by name
      with no listeners, a nil connection is refused, a real one is
      counted, and closing reports it and forgets the name. */
  lemma ChannelLifecycle(reg: Registry, channelName: string, wsConn: Conn)
    requires Valid(reg) && channelName != "" && channelName !in reg
    ensures var (reg1, created) := NewChannel(reg, channelName);
      && created.Ok?
      && GetChannel(reg1, channelName) == created
      && GetListenerCount(reg1, channelName) == 0
      && AddListener(created.value, None).Err?
      && var added := AddListener(created.value, Some(wsConn)).value;
      && var reg2 := reg1[channelName := added];
      && GetListenerCount(reg2, channelName) == 1
      && CloseChannel(reg2, channelName) == (reg, Ok(1))
  {
    var (reg1, created) := NewChannel(reg, channelName);
    var added := AddListener(created.value, Some(wsConn)).value;
    var reg2 := reg1[channelName := added];
    assert reg2 - {channelName} == reg;
  }
}
