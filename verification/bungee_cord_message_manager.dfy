/**
 * `BungeeCordMessageManager`: the proxy-side manager. It keeps no back log
 * and sends to any player it is given.
 */
module BungeeCordMessageManagers {
  import opened JavaLang
  import opened DataStreams
  import opened BungeeCordMessages
  import opened Messages
  import opened MessageRegistries
  import opened Listeners
  import opened Dispatch

  class BungeeCordMessageManager {
    var bungeeCordMessageListeners: map<Option<JString>, seq<MethodContainer>>
    var pluginMessageListeners: map<int32, seq<MethodContainer>>
    /** Every frame handed to a player's connection, in order. */
    var sent: seq<Delivery>

    function Handlers(): Table
      reads this
    {
      Table(bungeeCordMessageListeners, pluginMessageListeners)
    }

    constructor ()
      ensures Handlers() == Table(map[], map[]) && sent == []
    {
      bungeeCordMessageListeners := map[];
      pluginMessageListeners := map[];
      sent := [];
    }

    /** Files each qualifying handler method of the listener; see `Listeners.RegisterAppends`. */
    method RegisterListener(listener: Listener, declared: seq<HandlerMethod>, origin: Origin) returns (thrown: Option<Exception>)
      modifies this
      ensures Registration(Handlers(), thrown) == Register(old(Handlers()), listener, origin, declared)
      ensures sent == old(sent)
    {
      var t;
      t, thrown := RegisterEach(Handlers(), listener, origin, declared);
      bungeeCordMessageListeners, pluginMessageListeners := t.bungeeCord, t.plugin;
    }

    /** Removes every handler of the listener from every list; the keys stay. */
    method UnregisterListener(listener: Listener)
      modifies this
      ensures Handlers() == Unregister(old(Handlers()), ByListener(listener))
      ensures sent == old(sent)
    {
      bungeeCordMessageListeners := RemoveFromAll(bungeeCordMessageListeners, ByListener(listener));
      pluginMessageListeners := RemoveFromAll(pluginMessageListeners, ByListener(listener));
    }

    /** Removes every handler registered for the plugin from every list; the keys stay. */
    method UnregisterListeners(origin: Origin)
      modifies this
      ensures Handlers() == Unregister(old(Handlers()), ByOrigin(origin))
      ensures sent == old(sent)
    {
      bungeeCordMessageListeners := RemoveFromAll(bungeeCordMessageListeners, ByOrigin(origin));
      pluginMessageListeners := RemoveFromAll(pluginMessageListeners, ByOrigin(origin));
    }

    /** A frame on the MessagingLib channel. */
    method HandleIncomingMessage(registry: MessageRegistry, data: seq<uint8>, throwing: set<MethodContainer>)
      returns (received: Option<Msg>, invoked: seq<MethodContainer>)
      requires registry.Valid()
      ensures received.Some? ==> fresh(received.value.Repr())
      ensures var id := ReadIntAt(data, 0).result;
        if id.Thrown? || id.value !in registry.PluginClasses() || !Instantiable(registry.PluginClasses()[id.value]) then
          received == None && invoked == []
        else
          var cls := registry.PluginClasses()[id.value];
          received.Some? && received.value.Class() == cls && received.value.general.body == data[4..]
          && invoked == Run(Handlers().Get(IdKey(id.value)), cls, throwing).invoked
    {
      received, invoked := ReceivePluginMessage(registry, Handlers(), data, throwing);
    }

    /** A frame on the BungeeCord channel. */
    method HandleIncomingBungeeCordMessage(registry: MessageRegistry, data: seq<uint8>, throwing: set<MethodContainer>)
      returns (received: Option<Msg>, invoked: seq<MethodContainer>)
      requires registry.Valid()
      ensures received.Some? ==> fresh(received.value.Repr())
      ensures var header := ReadUTFAt(data, 0);
        if header.result.Thrown? || Some(header.result.value) !in registry.BungeeCordClasses() then received == None && invoked == []
        else
          var cls := registry.BungeeCordClasses()[Some(header.result.value)];
          var parsed := Parse(Initial(cls.kind), data, header.next);
          received.Some? && received.value.Class() == cls && received.value.Payload() == parsed.payload
          && invoked == if parsed.escaped.Some? then [] else Run(Handlers().Get(SubChannelKey(Some(header.result.value))), cls, throwing).invoked
    {
      received, invoked := ReceiveBungeeCordMessage(registry, Handlers(), data, throwing);
    }

    /** Sends to the player whenever there is one; the proxy does not ask whether it is connected. */
    method SendPluginMessageTo(m: Msg, player: Option<Player>)
      modifies this
      ensures sent == old(sent) + old(Sends(m, player, false))
      ensures Handlers() == old(Handlers())
    {
      var r := SendTo(m, player, false);
      sent := sent + r;
    }

    /** Not supported on the proxy: does nothing. */
    method SendPluginMessage(m: Msg)
      ensures unchanged(this)
    {
    }
  }
}
