/**
 * `MessageRegistry`: the message classes a server understands. BungeeCord
 * messages are keyed by their sub-channel, general messages by the hash of
 * their class name; an incoming frame is decoded into a fresh instance of
 * the class registered under its key.
 */
module MessageRegistries {
  import opened JavaLang
  import opened JavaStrings
  import opened BungeeCordMessages
  import opened Messages

  /** Whether a key is the sub-channel name of one of the predefined messages. */
  predicate IsPredefined(k: Option<JString>) {
    exists kind :: k == Some(SubChannelOf(kind))
  }

  class MessageRegistry {
    var bungeeCordMessageMap: map<Option<JString>, Msg>
    var pluginMessageMap: map<int32, Msg>

    /** Only BungeeCord messages under sub-channels, only general messages under ids. */
    ghost predicate Valid()
      reads this
    {
      (forall k | k in bungeeCordMessageMap :: bungeeCordMessageMap[k].IsBungeeCord())
      && (forall id | id in pluginMessageMap :: !pluginMessageMap[id].IsBungeeCord())
    }

    constructor ()
      ensures Valid() && bungeeCordMessageMap == map[] && pluginMessageMap == map[]
    {
      bungeeCordMessageMap := map[];
      pluginMessageMap := map[];
    }

    /** The class registered under each sub-channel: what `newInstance()` will build. */
    function BungeeCordClasses(): map<Option<JString>, MessageClass>
      reads this
    {
      map k | k in bungeeCordMessageMap :: bungeeCordMessageMap[k].Class()
    }

    /** The class registered under each id. */
    function PluginClasses(): map<int32, MessageClass>
      reads this
    {
      map id | id in pluginMessageMap :: pluginMessageMap[id].Class()
    }

    /**
     * A BungeeCord message replaces whatever was registered under its current
     * sub-channel and is always accepted; a general message is accepted only
     * when no class is registered under its id yet (a colliding hash is
     * refused and changes nothing).
     */
    method RegisterMessage(m: Msg) returns (accepted: bool)
      requires Valid()
      modifies this
      ensures Valid()
      ensures m.IsBungeeCord() ==>
        accepted && bungeeCordMessageMap == old(bungeeCordMessageMap)[m.SubChannel() := m]
        && pluginMessageMap == old(pluginMessageMap)
      ensures !m.IsBungeeCord() ==>
        (bungeeCordMessageMap == old(bungeeCordMessageMap)
         && var id := MessageId(m.general.className);
            accepted == (id !in old(pluginMessageMap))
            && pluginMessageMap == if accepted then old(pluginMessageMap)[id := m] else old(pluginMessageMap))
    {
      if m.IsBungeeCord() {
        bungeeCordMessageMap := bungeeCordMessageMap[m.SubChannel() := m];
        accepted := true;
      } else {
        var id := MessageId(m.general.className);
        if id in pluginMessageMap {
          accepted := false;
        } else {
          pluginMessageMap := pluginMessageMap[id := m];
          accepted := true;
        }
      }
    }

    /**
     * Removes whatever is registered under the message's key, whether or not
     * it is the same message (or even the same class); reports whether
     * anything was there.
     */
    method UnregisterMessage(m: Msg) returns (removed: bool)
      requires Valid()
      modifies this
      ensures Valid()
      ensures m.IsBungeeCord() ==>
        removed == (m.SubChannel() in old(bungeeCordMessageMap))
        && bungeeCordMessageMap == old(bungeeCordMessageMap) - {m.SubChannel()}
        && pluginMessageMap == old(pluginMessageMap)
      ensures !m.IsBungeeCord() ==>
        (bungeeCordMessageMap == old(bungeeCordMessageMap)
         && var id := MessageId(m.general.className);
            removed == (id in old(pluginMessageMap)) && pluginMessageMap == old(pluginMessageMap) - {id})
    {
      if m.IsBungeeCord() {
        removed := m.SubChannel() in bungeeCordMessageMap;
        if removed {
          bungeeCordMessageMap := bungeeCordMessageMap - {m.SubChannel()};
        }
      } else {
        var id := MessageId(m.general.className);
        removed := id in pluginMessageMap;
        if removed {
          pluginMessageMap := pluginMessageMap - {id};
        }
      }
    }

    /** Whether a class is registered under the sub-channel; only BungeeCord classes are. */
    function IsBungeeCordMessageRegistered(id: Option<JString>): (registered: bool)
      reads this
      ensures registered <==> id in BungeeCordClasses()
      ensures Valid() && registered ==> BungeeCordClasses()[id].SubChannelClass?
    {
      id in bungeeCordMessageMap
    }

    /** `null` when nothing is registered under the sub-channel. */
    function GetBungeeCordMessage(id: Option<JString>): (m: Option<Msg>)
      reads this
      ensures m.Some? <==> IsBungeeCordMessageRegistered(id)
      ensures Valid() && m.Some? ==> m.value.IsBungeeCord()
    {
      if id in bungeeCordMessageMap then Some(bungeeCordMessageMap[id]) else None
    }

    /** Whether a class is registered under the id; only general classes are. */
    function IsPluginMessageRegistered(id: int32): (registered: bool)
      reads this
      ensures registered <==> id in PluginClasses()
      ensures Valid() && registered ==> PluginClasses()[id].GeneralClass?
    {
      id in pluginMessageMap
    }

    /** `null` when nothing is registered under the id. */
    function GetPluginMessage(id: int32): (m: Option<Msg>)
      reads this
      ensures m.Some? <==> IsPluginMessageRegistered(id)
      ensures Valid() && m.Some? ==> !m.value.IsBungeeCord()
    {
      if id in pluginMessageMap then Some(pluginMessageMap[id]) else None
    }

    /** Whether the sub-channel name of a predefined kind maps to that kind's class. */
    predicate Registered(kind: SubChannelKind)
      reads this
    {
      Some(SubChannelOf(kind)) in bungeeCordMessageMap
      && bungeeCordMessageMap[Some(SubChannelOf(kind))].Class() == SubChannelClass(kind)
    }

    /** `registerMessage(new XMessage())` for one predefined kind. */
    method RegisterFresh(kind: SubChannelKind)
      requires Valid()
      modifies this
      ensures Valid() && pluginMessageMap == old(pluginMessageMap)
      ensures Registered(kind)
      ensures forall other | old(Registered(other)) :: Registered(other)
      ensures forall k | k in old(bungeeCordMessageMap) && k != Some(SubChannelOf(kind)) ::
                k in bungeeCordMessageMap && bungeeCordMessageMap[k] == old(bungeeCordMessageMap)[k]
    {
      var r := NewInstance(SubChannelClass(kind));
      var _ := RegisterMessage(r.value);
      forall other | old(Registered(other)) ensures Registered(other) {
        if other != kind {
          SubChannelsDistinct(other, kind);
        }
      }
    }

    /**
     * Registers a fresh instance of each predefined BungeeCord message, so
     * that each sub-channel name maps to its own class and every other
     * entry stays.
     */
    method RegisterAllBungeeCordMessages()
      requires Valid()
      modifies this
      ensures Valid() && pluginMessageMap == old(pluginMessageMap)
      ensures forall kind :: Registered(kind)
      ensures forall k | k in old(bungeeCordMessageMap) && !IsPredefined(k) ::
                k in bungeeCordMessageMap && bungeeCordMessageMap[k] == old(bungeeCordMessageMap)[k]
    {
      RegisterFresh(Connect);
      RegisterFresh(ConnectOther);
      // GetServersMessage is not part of this model.
      RegisterFresh(IP);
      RegisterFresh(MessagePlayer);
      RegisterFresh(PlayerCount);
      RegisterFresh(PlayerList);
      forall kind ensures Registered(kind) {
        match kind
        case Connect =>
        case ConnectOther =>
        case IP =>
        case MessagePlayer =>
        case PlayerCount =>
        case PlayerList =>
      }
    }
  }
}
