/**
 * Messages as the managers and the registry see them: any `PluginMessage`,
 * either one of BungeeCord's sub-channel messages or a user-defined
 * ("general") message, and the frames `sendPluginMessage` builds from them.
 */
module Messages {
  import opened JavaLang
  import opened BigEndian
  import opened DataStreams
  import opened JavaStrings
  import opened BungeeCordMessages
  import ModifiedUtf8

  /**
   * A user-defined message class: its fully qualified name, whether it
   * declares a public no-argument constructor, and what its own `write`
   * emitted or its own `read` consumed.
   */
  class GeneralMessage {
    const className: JString
    const publicNoArgs: bool
    var body: seq<uint8>

    /** A constructor of the user's class; the message starts with an empty body. */
    constructor (className: JString, publicNoArgs: bool)
      ensures this.className == className && this.publicNoArgs == publicNoArgs && body == []
    {
      this.className := className;
      this.publicNoArgs := publicNoArgs;
      body := [];
    }

    method Write(output: DataOutputStream)
      modifies output
      ensures output.written == old(output.written) + body
    {
      output.Write(body);
    }

    /** Takes the rest of the frame as its own. */
    method Read(input: DataInputStream)
      requires input.Valid()
      modifies this, input
      ensures input.Valid() && input.pos == |input.data|
      ensures body == input.data[old(input.pos)..]
    {
      var rest := input.ReadFully(|input.data| - input.pos);
      body := rest.value;
    }
  }

  /** The run-time class of a message, or of a handler's first parameter. */
  datatype MessageClass =
    | SubChannelClass(kind: SubChannelKind)
    | GeneralClass(name: JString, publicNoArgs: bool)
    | AbstractBungeeCordClass   // `BungeeCordMessage` itself: `newInstance()` fails

  /** A reference of static type `PluginMessage`. */
  datatype Msg =
    | ConnectMsg(connect: ConnectMessage)
    | ConnectOtherMsg(connectOther: ConnectOtherMessage)
    | IPMsg(ip: IPMessage)
    | MessagePlayerMsg(messagePlayer: MessagePlayerMessage)
    | PlayerCountMsg(playerCount: PlayerCountMessage)
    | PlayerListMsg(playerList: PlayerListMessage)
    | GeneralMsg(general: GeneralMessage)
  {
    /** `BungeeCordMessage.class.isAssignableFrom(getClass())`. */
    predicate IsBungeeCord() {
      !GeneralMsg?
    }

    function Class(): (c: MessageClass)
      ensures c.SubChannelClass? <==> IsBungeeCord()
      ensures !c.AbstractBungeeCordClass?
    {
      match this
      case ConnectMsg(_) => SubChannelClass(Connect)
      case ConnectOtherMsg(_) => SubChannelClass(ConnectOther)
      case IPMsg(_) => SubChannelClass(IP)
      case MessagePlayerMsg(_) => SubChannelClass(MessagePlayer)
      case PlayerCountMsg(_) => SubChannelClass(PlayerCount)
      case PlayerListMsg(_) => SubChannelClass(PlayerList)
      case GeneralMsg(g) => GeneralClass(g.className, g.publicNoArgs)
    }

    /** The base-class part of a BungeeCord message. */
    function Base(): BungeeCordMessage
      requires IsBungeeCord()
    {
      match this
      case ConnectMsg(m) => m.base
      case ConnectOtherMsg(m) => m.base
      case IPMsg(m) => m.base
      case MessagePlayerMsg(m) => m.base
      case PlayerCountMsg(m) => m.base
      case PlayerListMsg(m) => m.base
    }

    /** The objects that make up the message. */
    function Repr(): set<object> {
      match this
      case ConnectMsg(m) => {m, m.base}
      case ConnectOtherMsg(m) => {m, m.base}
      case IPMsg(m) => {m, m.base}
      case MessagePlayerMsg(m) => {m, m.base}
      case PlayerCountMsg(m) => {m, m.base}
      case PlayerListMsg(m) => {m, m.base}
      case GeneralMsg(g) => {g}
    }

    function SubChannel(): Option<JString>
      requires IsBungeeCord()
      reads Repr()
    {
      Base().subChannel
    }

    function Payload(): (p: Payload)
      requires IsBungeeCord()
      reads Repr()
      ensures Class() == SubChannelClass(p.Kind())
    {
      match this
      case ConnectMsg(m) => m.Payload()
      case ConnectOtherMsg(m) => m.Payload()
      case IPMsg(m) => m.Payload()
      case MessagePlayerMsg(m) => m.Payload()
      case PlayerCountMsg(m) => m.Payload()
      case PlayerListMsg(m) => m.Payload()
    }
  }

  /** The key a general message class travels under: the hash of its name. */
  function MessageId(className: JString): (id: int32)
    ensures id == Wrap32(Polynomial(className))
  {
    HashCodeIsPolynomial(className);
    HashCode(className)
  }

  /** The plugin channels, "MessagingLib" and "BungeeCord". */
  datatype Channel = MessagingLibChannel | BungeeCordChannel

  /** What `sendPluginMessage` hands to the player: a channel and the bytes. */
  datatype Frame = Frame(channel: Channel, data: seq<uint8>)

  /**
   * The frame of a BungeeCord message: `writeUTF(subChannel)` then the
   * message's own `write`. Any exception that escapes either (a `null`
   * sub-channel, a `null` string field) means nothing is sent; an
   * `IOException` the message swallowed leaves its request cut short.
   */
  function BungeeCordFrame(subChannel: Option<JString>, p: Payload): (f: Option<Frame>)
    ensures f.Some? ==> f.value.channel == BungeeCordChannel && subChannel.Some?
  {
    var header := UTFBytes(subChannel);
    var body := Emit(p);
    if header.Thrown? || body.escaped.Some? then None
    else Some(Frame(BungeeCordChannel, header.value + body.bytes))
  }

  /** The frame of a general message: the hash of its class name, then its own `write`. */
  function GeneralFrame(className: JString, body: seq<uint8>): (f: Frame)
    ensures f.channel == MessagingLibChannel && |f.data| == 4 + |body|
  {
    Frame(MessagingLibChannel, IntBytes(MessageId(className)) + body)
  }

  /** The frame `sendPluginMessage` builds: a general message always frames, on its own channel. */
  function FrameOf(m: Msg): (f: Option<Frame>)
    reads m.Repr()
    ensures !m.IsBungeeCord() ==> f.Some?
    ensures f.Some? ==> (f.value.channel == BungeeCordChannel <==> m.IsBungeeCord())
  {
    if m.IsBungeeCord() then BungeeCordFrame(m.SubChannel(), m.Payload())
    else Some(GeneralFrame(m.general.className, m.general.body))
  }

  /** A frame depends only on the message's own objects. */
  twostate lemma FrameKept(m: Msg)
    requires unchanged(m.Repr())
    ensures FrameOf(m) == old(FrameOf(m))
  {
  }

  /** Calls the message's own `write`. */
  method WriteBody(m: Msg, output: DataOutputStream) returns (escaped: Option<Exception>)
    requires output !in m.Repr()
    modifies output
    ensures m.IsBungeeCord() ==>
      output.written == old(output.written) + Emit(m.Payload()).bytes && escaped == Emit(m.Payload()).escaped
    ensures !m.IsBungeeCord() ==> output.written == old(output.written) + m.general.body && escaped.None?
  {
    match m
    case ConnectMsg(c) => escaped := c.Write(output);
    case ConnectOtherMsg(c) => escaped := c.Write(output);
    case IPMsg(c) => escaped := c.Write(output);
    case MessagePlayerMsg(c) => escaped := c.Write(output);
    case PlayerCountMsg(c) => escaped := c.Write(output);
    case PlayerListMsg(c) => escaped := c.Write(output);
    case GeneralMsg(g) => g.Write(output); escaped := None;
  }

  /**
   * The body of `sendPluginMessage(message, player)`: a fresh stream, the
   * header, the message's own `write`; any escaping exception is caught and
   * nothing goes out.
   */
  method BuildFrame(m: Msg) returns (frame: Option<Frame>)
    ensures frame == FrameOf(m)
  {
    hide UTFBytes, Emit;
    var output := new DataOutputStream();
    if m.IsBungeeCord() {
      var thrown := output.WriteUTF(m.SubChannel());
      if thrown.Some? {
        return None;
      }
      var escaped := WriteBody(m, output);
      assert output.written == UTFBytes(m.SubChannel()).value + Emit(m.Payload()).bytes;
      frame := if escaped.Some? then None else Some(Frame(BungeeCordChannel, output.written));
    } else {
      output.WriteInt(MessageId(m.general.className));
      assert output.written == IntBytes(MessageId(m.general.className));
      var _ := WriteBody(m, output);
      assert output.written == IntBytes(MessageId(m.general.className)) + m.general.body;
      frame := Some(Frame(MessagingLibChannel, output.written));
      assert frame == Some(GeneralFrame(m.general.className, m.general.body));
    }
  }

  /**
   * A class `getConstructor().newInstance()` can instantiate: every predefined
   * message has a public no-argument constructor, a user class may lack one,
   * and the abstract `BungeeCordMessage` has none to call.
   */
  predicate Instantiable(cls: MessageClass) {
    cls.SubChannelClass? || (cls.GeneralClass? && cls.publicNoArgs)
  }

  /**
   * `getClass().getConstructor().newInstance()`: a fresh message of the
   * class in its initial state, or the reflective exception the call throws.
   */
  method NewInstance(cls: MessageClass) returns (r: Result<Msg>)
    ensures r.Ok? <==> Instantiable(cls)
    ensures r.Thrown? ==> r.exception == if cls.AbstractBungeeCordClass? then InstantiationException else NoSuchMethodException
    ensures r.Ok? ==> fresh(r.value.Repr()) && r.value.Class() == cls
    ensures r.Ok? && r.value.IsBungeeCord() ==>
      r.value.SubChannel() == Some(SubChannelOf(cls.kind)) && r.value.Payload() == Initial(cls.kind)
    ensures r.Ok? && !r.value.IsBungeeCord() ==> r.value.general.body == []
  {
    match cls
    case SubChannelClass(Connect) => var c := new ConnectMessage(); r := Ok(ConnectMsg(c));
    case SubChannelClass(ConnectOther) => var c := new ConnectOtherMessage(); r := Ok(ConnectOtherMsg(c));
    case SubChannelClass(IP) => var c := new IPMessage(); r := Ok(IPMsg(c));
    case SubChannelClass(MessagePlayer) => var c := new MessagePlayerMessage(); r := Ok(MessagePlayerMsg(c));
    case SubChannelClass(PlayerCount) => var c := new PlayerCountMessage(); r := Ok(PlayerCountMsg(c));
    case SubChannelClass(PlayerList) => var c := new PlayerListMessage(); r := Ok(PlayerListMsg(c));
    case GeneralClass(name, publicNoArgs) =>
      if publicNoArgs {
        var g := new GeneralMessage(name, true);
        r := Ok(GeneralMsg(g));
      } else {
        r := Thrown(NoSuchMethodException);
      }
    case AbstractBungeeCordClass => r := Thrown(InstantiationException);
  }

  /** Calls the message's own `read`. */
  method ReadBody(m: Msg, input: DataInputStream) returns (escaped: Option<Exception>)
    requires input.Valid() && input !in m.Repr()
    modifies m.Repr(), input
    ensures input.Valid()
    ensures m.IsBungeeCord() ==>
      Parsed(m.Payload(), input.pos, escaped) == Parse(old(m.Payload()), input.data, old(input.pos))
      && m.SubChannel() == old(m.SubChannel())
    ensures !m.IsBungeeCord() ==> m.general.body == input.data[old(input.pos)..] && escaped.None?
  {
    escaped := None;
    match m
    case ConnectMsg(c) => c.Read(input);
    case ConnectOtherMsg(c) => c.Read(input);
    case IPMsg(c) => c.Read(input);
    case MessagePlayerMsg(c) => c.Read(input);
    case PlayerCountMsg(c) => c.Read(input);
    case PlayerListMsg(c) => escaped := c.Read(input);
    case GeneralMsg(g) => g.Read(input);
  }

  // ------------------------------------------------------------ properties

  /**
   * A general message's frame starts with the id its class is registered
   * and listened to under, and its body follows whole.
   */
  lemma GeneralFrameRoundTrip(className: JString, body: seq<uint8>)
    ensures var data := GeneralFrame(className, body).data;
      ReadIntAt(data, 0) == Step(Ok(MessageId(className)), 4) && data[4..] == body
  {
    IntWritten([], MessageId(className), body);
    assert [] + IntBytes(MessageId(className)) + body == GeneralFrame(className, body).data;
  }

  /**
   * A BungeeCord frame starts with its sub-channel, and the request that
   * follows is exactly what the message emitted.
   */
  lemma BungeeCordFrameRoundTrip(subChannel: JString, p: Payload)
    requires Writable(subChannel) && Emit(p).escaped.None?
    ensures BungeeCordFrame(Some(subChannel), p).Some?
    ensures var data := BungeeCordFrame(Some(subChannel), p).value.data;
      var header := ReadUTFAt(data, 0);
      header.result == Ok(subChannel) && data[header.next..] == Emit(p).bytes
  {
    hide ReadUTFAt, Emit;
    var head := UTFBytes(Some(subChannel)).value;
    UTFWritten([], subChannel, Emit(p).bytes);
    assert [] + head + Emit(p).bytes == head + Emit(p).bytes;
  }

  /**
   * A Connect or ConnectOther request sent on its own sub-channel and
   * received by a fresh instance of the same class gives the same fields.
   */
  lemma RequestDeliveredWhole(p: Payload)
    requires p.ConnectPayload? || p.ConnectOtherPayload?
    requires p.server.Some? && Writable(p.server.value)
    requires p.ConnectOtherPayload? ==> p.other.Some? && Writable(p.other.value)
    ensures var kind := p.Kind();
      var frame := BungeeCordFrame(Some(SubChannelOf(kind)), p);
      frame.Some? &&
      var header := ReadUTFAt(frame.value.data, 0);
      header.result == Ok(SubChannelOf(kind)) && Parse(Initial(kind), frame.value.data, header.next).payload == p
  {
    hide ReadUTFAt, Parse, Emit;
    var kind := p.Kind();
    var name := SubChannelOf(kind);
    assert Writable(name) by {
      ModifiedUtf8.EncodeAscii(name);
    }
    var head := UTFBytes(Some(name)).value;
    if p.ConnectPayload? {
      ConnectRoundTrip(Initial(kind), p.server.value, head, []);
    } else {
      ConnectOtherRoundTrip(Initial(kind), p.other.value, p.server.value, head, []);
    }
    assert Emit(p).escaped.None?;
    BungeeCordFrameRoundTrip(name, p);
    var data := head + Emit(p).bytes;
    assert data == head + Emit(p).bytes + [];
  }

  /** A message whose sub-channel is `null` (all-arguments constructor) is never sent. */
  lemma NullSubChannelNotSent(p: Payload)
    ensures BungeeCordFrame(None, p).None?
  {
  }
}
