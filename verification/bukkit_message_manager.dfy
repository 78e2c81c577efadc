/**
 * `BukkitMessageManager`: the server-side manager. Messages that cannot be
 * sent because nobody is online wait in a back log.
 */
module BukkitMessageManagers {
  import opened JavaLang
  import opened DataStreams
  import opened BungeeCordMessages
  import opened Messages
  import opened MessageRegistries
  import opened Listeners
  import opened Dispatch

  class BukkitMessageManager {
    var bungeeCordMessageListeners: map<Option<JString>, seq<MethodContainer>>
    var pluginMessageListeners: map<int32, seq<MethodContainer>>
    /** Messages waiting for a player to come online. */
    var backLog: seq<Msg>
    /** Every frame handed to a player's connection, in order. */
    var sent: seq<Delivery>

    function Handlers(): Table
      reads this
    {
      Table(bungeeCordMessageListeners, pluginMessageListeners)
    }

    constructor ()
      ensures Handlers() == Table(map[], map[]) && backLog == [] && sent == []
    {
      bungeeCordMessageListeners := map[];
      pluginMessageListeners := map[];
      backLog := [];
      sent := [];
    }

    /** Files each qualifying handler method of the listener; see `Listeners.RegisterAppends`. */
    method RegisterListener(listener: Listener, declared: seq<HandlerMethod>, origin: Origin) returns (thrown: Option<Exception>)
      modifies this
      ensures Registration(Handlers(), thrown) == Register(old(Handlers()), listener, origin, declared)
      ensures backLog == old(backLog) && sent == old(sent)
    {
      var t;
      t, thrown := RegisterEach(Handlers(), listener, origin, declared);
      bungeeCordMessageListeners, pluginMessageListeners := t.bungeeCord, t.plugin;
    }

    /** Removes every handler of the listener from every list; the keys stay. */
    method UnregisterListener(listener: Listener)
      modifies this
      ensures Handlers() == Unregister(old(Handlers()), ByListener(listener))
      ensures backLog == old(backLog) && sent == old(sent)
    {
      bungeeCordMessageListeners := RemoveFromAll(bungeeCordMessageListeners, ByListener(listener));
      pluginMessageListeners := RemoveFromAll(pluginMessageListeners, ByListener(listener));
    }

    /** Removes every handler registered for the plugin from every list; the keys stay. */
    method UnregisterListeners(origin: Origin)
      modifies this
      ensures Handlers() == Unregister(old(Handlers()), ByOrigin(origin))
      ensures backLog == old(backLog) && sent == old(sent)
    {
      bungeeCordMessageListeners := RemoveFromAll(bungeeCordMessageListeners, ByOrigin(origin));
      pluginMessageListeners := RemoveFromAll(pluginMessageListeners, ByOrigin(origin));
    }

    /** A frame on the MessagingLib channel. */
    method HandleIncomingMessage(registry: MessageRegistry, data: seq<uint8>, throwing: set<MethodContainer>)
      returns (received: Option<Msg>, invoked: seq<MethodContainer>)
      requires registry.Valid()
      ensures received.Some? ==> fresh(received.value.Repr())
      ensures var id := ReadIntAt(data, 0).result;
        if id.Thrown? || id.value !in registry.PluginClasses() || !Instantiable(registry.PluginClasses()[id.value]) then
          received == None && invoked == []
        else
          var cls := registry.PluginClasses()[id.value];
          received.Some? && received.value.Class() == cls && received.value.general.body == data[4..]
          && invoked == Run(Handlers().Get(IdKey(id.value)), cls, throwing).invoked
    {
      received, invoked := ReceivePluginMessage(registry, Handlers(), data, throwing);
    }

    /** A frame on the BungeeCord channel. */
    method HandleIncomingBungeeCordMessage(registry: MessageRegistry, data: seq<uint8>, throwing: set<MethodContainer>)
      returns (received: Option<Msg>, invoked: seq<MethodContainer>)
      requires registry.Valid()
      ensures received.Some? ==> fresh(received.value.Repr())
      ensures var header := ReadUTFAt(data, 0);
        if header.result.Thrown? || Some(header.result.value) !in registry.BungeeCordClasses() then received == None && invoked == []
        else
          var cls := registry.BungeeCordClasses()[Some(header.result.value)];
          var parsed := Parse(Initial(cls.kind), data, header.next);
          received.Some? && received.value.Class() == cls && received.value.Payload() == parsed.payload
          && invoked == if parsed.escaped.Some? then [] else Run(Handlers().Get(SubChannelKey(Some(header.result.value))), cls, throwing).invoked
    {
      received, invoked := ReceiveBungeeCordMessage(registry, Handlers(), data, throwing);
    }

    /** Sends to the player only when there is one and it is online. */
    method SendPluginMessageTo(m: Msg, player: Option<Player>)
      modifies this
      ensures sent == old(sent) + old(Sends(m, player, true))
      ensures Handlers() == old(Handlers()) && backLog == old(backLog)
    {
      var r := SendTo(m, player, true);
      sent := sent + r;
    }

    /**
     * Sends to the first online player, or queues the message when nobody
     * is online.
     */
    method SendPluginMessage(m: Msg, online: seq<Player>)
      modifies this
      ensures sent == old(sent) + old(Sends(m, FirstPlayer(online), true))
      ensures backLog == old(backLog) + (if online == [] then [m] else [])
      ensures Handlers() == old(Handlers())
    {
      if |online| > 0 {
        SendPluginMessageTo(m, Some(online[0]));
      } else {
        backLog := backLog + [m];
      }
    }

    /** A message is not part of the manager, so its frame survives what the manager does. */
    twostate lemma MessageKept(m: Msg)
      requires forall o | o in m.Repr() && o != this :: unchanged(o)
      ensures FrameOf(m) == old(FrameOf(m))
    {
      assert this !in m.Repr();
      FrameKept(m);
    }

    /**
     * Sends every queued message and empties the queue. When nobody is
     * online the first message goes straight back into the queue it is
     * being iterated over, and the iterator's next step throws
     * `ConcurrentModificationException`: the queue keeps its messages
     * plus a second copy of the first one.
     */
    method ResolveBackLog(online: seq<Player>) returns (thrown: Option<Exception>)
      modifies this
      ensures online != [] ==>
        backLog == [] && thrown == None && sent == old(sent) + DeliverAll(old(Framed(backLog)), Some(online[0]), true)
      ensures online == [] && old(backLog) == [] ==> backLog == [] && thrown == None && sent == old(sent)
      ensures online == [] && old(backLog) != [] ==>
        backLog == old(backLog) + [old(backLog)[0]] && thrown == Some(ConcurrentModificationException) && sent == old(sent)
      ensures Handlers() == old(Handlers())
    {
      // The proof needs only that frames survive the sends, not how they are built.
      hide FrameOf, Deliver, DeliverAll;
      thrown := None;
      ghost var frames := Framed(backLog);
      var expected := |backLog|;   // the list only grows, so its size tells whether it was modified
      var cursor := 0;
      while cursor != |backLog|
        invariant cursor <= expected == |old(backLog)| <= |backLog|
        invariant Handlers() == old(Handlers())
        invariant online != [] ==>
          backLog == old(backLog) && sent == old(sent) + DeliverAll(frames[..cursor], Some(online[0]), true)
        invariant online == [] ==>
          cursor <= 1 && sent == old(sent) && backLog == old(backLog) + (if cursor == 1 then [old(backLog)[0]] else [])
        decreases expected - cursor
      {
        if |backLog| != expected {
          thrown := Some(ConcurrentModificationException);
          return;
        }
        var m := backLog[cursor];
        if online != [] {
          MessageKept(m);
          DeliverAllPrefix(frames, cursor, Some(online[0]), true);
        }
        SendPluginMessage(m, online);
        cursor := cursor + 1;
      }
      if online != [] {
        assert frames[..cursor] == frames;
      }
      backLog := [];
    }
  }
}
