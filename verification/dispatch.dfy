/**
 * What both managers do with a frame that arrives and with a message that
 * leaves: decode it into a fresh instance of the registered class and run
 * the handlers filed under its key, or frame it and hand it to a player.
 */
module Dispatch {
  import opened JavaLang
  import opened DataStreams
  import opened BungeeCordMessages
  import opened Messages
  import opened MessageRegistries
  import opened Listeners

  /** A player connection; only Bukkit asks whether it is still online. */
  datatype Player = Player(name: JString, online: bool)

  /** One frame handed to a player's connection. */
  datatype Delivery = Delivery(player: Player, frame: Frame)

  /**
   * `sendPluginMessage(message, player)` once the frame is built (or
   * framing threw): nothing for a missing player (or, when the platform
   * checks it, one that is offline), nothing when framing threw, and
   * otherwise the frame to that player.
   */
  function Deliver(frame: Option<Frame>, player: Option<Player>, checksOnline: bool): (r: seq<Delivery>)
    ensures |r| <= 1
    ensures r != [] <==> player.Some? && (player.value.online || !checksOnline) && frame.Some?
    ensures r != [] ==> r[0] == Delivery(player.value, frame.value)
  {
    if player.Some? && (player.value.online || !checksOnline) && frame.Some? then [Delivery(player.value, frame.value)] else []
  }

  /** What sending a message to a player hands over; the channel is the message's own. */
  function Sends(m: Msg, player: Option<Player>, checksOnline: bool): (r: seq<Delivery>)
    reads m.Repr()
    ensures player.Some? && r != [] ==> r[0].player == player.value && r[0].frame.channel == (if m.IsBungeeCord() then BungeeCordChannel else MessagingLibChannel)
  {
    Deliver(FrameOf(m), player, checksOnline)
  }

  /** The first of the online players, if anyone is online. */
  function FirstPlayer(online: seq<Player>): (p: Option<Player>)
    ensures p.Some? <==> online != []
  {
    if online == [] then None else Some(online[0])
  }

  /** The frame of each message of a run, as it stands now. */
  function Framed(ms: seq<Msg>): (r: seq<Option<Frame>>)
    reads set m, o | m in ms && o in m.Repr() :: o
    ensures |r| == |ms| && forall i | 0 <= i < |ms| :: r[i] == FrameOf(ms[i])
  {
    if ms == [] then [] else [FrameOf(ms[0])] + Framed(ms[1..])
  }

  /** Handing a run of frames to the same player, in order. */
  function DeliverAll(frames: seq<Option<Frame>>, player: Option<Player>, checksOnline: bool): (r: seq<Delivery>)
    ensures |r| <= |frames|
  {
    if frames == [] then []
    else Deliver(frames[0], player, checksOnline) + DeliverAll(frames[1..], player, checksOnline)
  }

  lemma {:induction false} DeliverAllAppend(frames: seq<Option<Frame>>, frame: Option<Frame>, player: Option<Player>, checksOnline: bool)
    ensures DeliverAll(frames + [frame], player, checksOnline)
         == DeliverAll(frames, player, checksOnline) + Deliver(frame, player, checksOnline)
    decreases |frames|
  {
    if frames == [] {
      assert [frame][1..] == [];
    } else {
      assert (frames + [frame])[1..] == frames[1..] + [frame];
      DeliverAllAppend(frames[1..], frame, player, checksOnline);
    }
  }

  lemma DeliverAllPrefix(frames: seq<Option<Frame>>, i: nat, player: Option<Player>, checksOnline: bool)
    requires i < |frames|
    ensures DeliverAll(frames[..i + 1], player, checksOnline)
         == DeliverAll(frames[..i], player, checksOnline) + Deliver(frames[i], player, checksOnline)
  {
    assert frames[..i + 1] == frames[..i] + [frames[i]];
    DeliverAllAppend(frames[..i], frames[i], player, checksOnline);
  }

  /** With nobody to send to, nothing is handed over. */
  lemma {:induction false} DeliverAllToNobody(frames: seq<Option<Frame>>, checksOnline: bool)
    ensures DeliverAll(frames, None, checksOnline) == []
    decreases |frames|
  {
    if frames != [] {
      DeliverAllToNobody(frames[1..], checksOnline);
    }
  }

  /**
   * Frames that were all built reach a player who may receive them one for
   * one, in order; a player who may not receives nothing.
   */
  lemma {:induction false} DeliverAllInOrder(frames: seq<Option<Frame>>, player: Player, checksOnline: bool)
    ensures var r := DeliverAll(frames, Some(player), checksOnline);
      (checksOnline && !player.online ==> r == [])
      && ((player.online || !checksOnline) && (forall i | 0 <= i < |frames| :: frames[i].Some?) ==>
            |r| == |frames| && forall i | 0 <= i < |frames| :: r[i] == Delivery(player, frames[i].value))
    decreases |frames|
  {
    if frames != [] {
      DeliverAllInOrder(frames[1..], player, checksOnline);
    }
  }

  /** The framing and hand-over both `sendPluginMessage(message, player)` implementations share. */
  method SendTo(m: Msg, player: Option<Player>, checksOnline: bool) returns (r: seq<Delivery>)
    ensures r == Sends(m, player, checksOnline)
  {
    r := [];
    if player.Some? && (player.value.online || !checksOnline) {
      var frame := BuildFrame(m);
      if frame.Some? {
        r := [Delivery(player.value, frame.value)];
      }
    }
  }

  /**
   * `handleIncomingMessage`: the id, a fresh instance of the class
   * registered under it reading the rest of the frame, then the handlers
   * filed under the id. A frame too short for the id, an id nobody
   * registered, or a class without a public no-argument constructor (the
   * reflective exception is caught) is dropped before any handler runs.
   */
  method ReceivePluginMessage(registry: MessageRegistry, handlers: Table, data: seq<uint8>, throwing: set<MethodContainer>)
    returns (received: Option<Msg>, invoked: seq<MethodContainer>)
    requires registry.Valid()
    ensures received.Some? ==> fresh(received.value.Repr())
    ensures var id := ReadIntAt(data, 0).result;
      if id.Thrown? || id.value !in registry.PluginClasses() || !Instantiable(registry.PluginClasses()[id.value]) then
        received == None && invoked == []
      else
        var cls := registry.PluginClasses()[id.value];
        received.Some? && received.value.GeneralMsg? && received.value.Class() == cls
        && received.value.general.body == data[4..]
        && invoked == Run(handlers.Get(IdKey(id.value)), cls, throwing).invoked
  {
    received, invoked := None, [];
    var input := new DataInputStream(data);
    var id := input.ReadInt();
    if id.Thrown? || !registry.IsPluginMessageRegistered(id.value) {
      return;
    }
    var instance := NewInstance(registry.GetPluginMessage(id.value).value.Class());
    if instance.Thrown? {
      return;
    }
    var m := instance.value;
    var _ := ReadBody(m, input);
    received := Some(m);
    var thrown;   // a `PluginMessageEventException`, caught and logged
    invoked, thrown := InvokeHandlers(handlers.Get(IdKey(id.value)), m.Class(), throwing);
  }

  /**
   * `handleIncomingBungeeCordMessage`: the sub-channel name, a fresh
   * instance of the class registered under it reading its fields, then the
   * handlers filed under the name. A header that cannot be read, a name
   * nobody registered, or a read that throws ends it before any handler.
   */
  method ReceiveBungeeCordMessage(registry: MessageRegistry, handlers: Table, data: seq<uint8>, throwing: set<MethodContainer>)
    returns (received: Option<Msg>, invoked: seq<MethodContainer>)
    requires registry.Valid()
    ensures received.Some? ==> fresh(received.value.Repr())
    ensures var header := ReadUTFAt(data, 0);
      if header.result.Thrown? || Some(header.result.value) !in registry.BungeeCordClasses() then received == None && invoked == []
      else
        var cls := registry.BungeeCordClasses()[Some(header.result.value)];
        var parsed := Parse(Initial(cls.kind), data, header.next);
        received.Some? && received.value.Class() == cls
        && received.value.SubChannel() == Some(SubChannelOf(cls.kind))
        && received.value.Payload() == parsed.payload
        && invoked == if parsed.escaped.Some? then [] else Run(handlers.Get(SubChannelKey(Some(header.result.value))), cls, throwing).invoked
  {
    received, invoked := None, [];
    var input := new DataInputStream(data);
    var id := input.ReadUTF();
    if id.Thrown? || !registry.IsBungeeCordMessageRegistered(Some(id.value)) {
      return;
    }
    var instance := NewInstance(registry.GetBungeeCordMessage(Some(id.value)).value.Class());
    var m := instance.value;
    var escaped := ReadBody(m, input);
    received := Some(m);
    if escaped.None? {
      var thrown;   // a `PluginMessageEventException`, caught and logged
      invoked, thrown := InvokeHandlers(handlers.Get(SubChannelKey(Some(id.value))), m.Class(), throwing);
    }
  }
}
