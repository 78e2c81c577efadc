/**
 * BungeeCord's own sub-channel messages: the abstract `BungeeCordMessage`
 * (a sub-channel name and a content reference) and the six messages built
 * on it. Each has a no-argument constructor that names its sub-channel and
 * points its content at itself, and an all-arguments constructor that sets
 * only its own fields. `write` emits the request, `read` parses the reply;
 * both swallow an `IOException` and keep what was done before it.
 */
module BungeeCordMessages {
  import opened JavaLang
  import opened BigEndian
  import opened DataStreams
  import opened JavaStrings

  datatype SubChannelKind = Connect | ConnectOther | IP | MessagePlayer | PlayerCount | PlayerList

  /** The sub-channel a kind's no-argument constructor sets. */
  function SubChannelOf(kind: SubChannelKind): (name: JString)
    ensures name != []
  {
    match kind
    case Connect => Ascii("Connect")
    case ConnectOther => Ascii("ConnectOther")
    case IP => Ascii("IP")
    case MessagePlayer => Ascii("Message")
    case PlayerCount => Ascii("PlayerCount")
    case PlayerList => Ascii("PlayerList")
  }

  /** Different kinds listen on different sub-channels. */
  lemma SubChannelsDistinct(a: SubChannelKind, b: SubChannelKind)
    ensures SubChannelOf(a) == SubChannelOf(b) <==> a == b
  {
    if a != b {
      var x, y := SubChannelOf(a), SubChannelOf(b);
      assert |x| != |y| || x[0] != y[0];
    }
  }

  /** The fields each message declares beyond those of `BungeeCordMessage`. */
  datatype Payload =
    | ConnectPayload(server: Option<JString>)
    | ConnectOtherPayload(other: Option<JString>, server: Option<JString>)
    | IPPayload(hostname: Option<JString>, port: int32)
    | MessagePlayerPayload(player: Option<JString>, message: Option<JString>)
    | PlayerCountPayload(server: Option<JString>, playerCount: int32)
    | PlayerListPayload(server: Option<JString>, players: Option<seq<JString>>)
  {
    function Kind(): SubChannelKind {
      match this
      case ConnectPayload(_) => Connect
      case ConnectOtherPayload(_, _) => ConnectOther
      case IPPayload(_, _) => IP
      case MessagePlayerPayload(_, _) => MessagePlayer
      case PlayerCountPayload(_, _) => PlayerCount
      case PlayerListPayload(_, _) => PlayerList
    }
  }

  /** The fields after the no-argument constructor: the declared initialisers. */
  function Initial(kind: SubChannelKind): (p: Payload)
    ensures p.Kind() == kind
  {
    match kind
    case Connect => ConnectPayload(None)
    case ConnectOther => ConnectOtherPayload(None, None)
    case IP => IPPayload(Some(Ascii("null")), -1)
    case MessagePlayer => MessagePlayerPayload(None, None)
    case PlayerCount => PlayerCountPayload(None, -1)
    case PlayerList => PlayerListPayload(None, Some([]))
  }

  /** The strings a request carries, in the order `write` sends them (an IP request has none). */
  function RequestStrings(p: Payload): seq<Option<JString>> {
    match p
    case ConnectPayload(server) => [server]
    case ConnectOtherPayload(other, server) => [other, server]
    case IPPayload(_, _) => []
    case MessagePlayerPayload(player, message) => [player, message]
    case PlayerCountPayload(server, _) => [server]
    case PlayerListPayload(server, _) => [server]
  }

  /**
   * What `write` emits: the request's strings in order. Only a `null`
   * string's `NullPointerException` escapes; an overlong string ends the
   * request quietly.
   */
  function Emit(p: Payload): (e: Emission)
    ensures e.escaped.Some? ==> e.escaped == Some(NullPointerException) && None in RequestStrings(p)
    ensures (forall s | s in RequestStrings(p) :: s.Some?) ==> e.escaped.None?
  {
    match p
    case ConnectPayload(server) => TryWrites([UTFBytes(server)])
    case ConnectOtherPayload(other, server) => TryWrites([UTFBytes(other), UTFBytes(server)])
    case IPPayload(_, _) => Emission([], None)
    case MessagePlayerPayload(player, message) => TryWrites([UTFBytes(player), UTFBytes(message)])
    case PlayerCountPayload(server, _) => TryWrites([UTFBytes(server)])
    case PlayerListPayload(server, _) => TryWrites([UTFBytes(server)])
  }

  /** What `read` leaves: the fields, where the stream stands, and an exception that escapes. */
  datatype Parsed = Parsed(payload: Payload, next: nat, escaped: Option<Exception>)

  /**
   * What `read` does to the fields: each field takes the next value in
   * turn; the first read that fails ends the parse and leaves that field and
   * the later ones as they were. A player list first clears the names, then
   * splits the second string at ", "; a `null` list escapes as
   * `NullPointerException`.
   */
  function Parse(p: Payload, data: seq<uint8>, pos: nat): (r: Parsed)
    requires pos <= |data|
    ensures r.payload.Kind() == p.Kind() && pos <= r.next <= |data|
    ensures r.escaped.Some? ==> r.escaped == Some(NullPointerException) && p.PlayerListPayload? && p.players.None?
  {
    match p
    case ConnectPayload(_) =>
      var s := ReadUTFAt(data, pos);
      if s.result.Thrown? then Parsed(p, s.next, None)
      else Parsed(ConnectPayload(Some(s.result.value)), s.next, None)
    case ConnectOtherPayload(_, _) =>
      var o := ReadUTFAt(data, pos);
      if o.result.Thrown? then Parsed(p, o.next, None)
      else
        var s := ReadUTFAt(data, o.next);
        if s.result.Thrown? then Parsed(ConnectOtherPayload(Some(o.result.value), p.server), s.next, None)
        else Parsed(ConnectOtherPayload(Some(o.result.value), Some(s.result.value)), s.next, None)
    case IPPayload(_, _) =>
      var h := ReadUTFAt(data, pos);
      if h.result.Thrown? then Parsed(p, h.next, None)
      else
        var n := ReadIntAt(data, h.next);
        if n.result.Thrown? then Parsed(IPPayload(Some(h.result.value), p.port), n.next, None)
        else Parsed(IPPayload(Some(h.result.value), n.result.value), n.next, None)
    case MessagePlayerPayload(_, _) =>
      Parsed(p, pos, None)
    case PlayerCountPayload(_, _) =>
      var s := ReadUTFAt(data, pos);
      if s.result.Thrown? then Parsed(p, s.next, None)
      else
        var n := ReadIntAt(data, s.next);
        if n.result.Thrown? then Parsed(PlayerCountPayload(Some(s.result.value), p.playerCount), n.next, None)
        else Parsed(PlayerCountPayload(Some(s.result.value), n.result.value), n.next, None)
    case PlayerListPayload(_, players) =>
      var s := ReadUTFAt(data, pos);
      if s.result.Thrown? then Parsed(p, s.next, None)
      else if players.None? then Parsed(PlayerListPayload(Some(s.result.value), None), s.next, Some(NullPointerException))
      else
        var names := ReadUTFAt(data, s.next);
        if names.result.Thrown? then Parsed(PlayerListPayload(Some(s.result.value), Some([])), names.next, None)
        else Parsed(PlayerListPayload(Some(s.result.value), Some(Split(names.result.value))), names.next, None)
  }

  // ------------------------------------------------------------ properties

  /** A Connect request read back gives its server, whatever the reader held before. */
  lemma ConnectRoundTrip(q: Payload, server: JString, pre: seq<uint8>, rest: seq<uint8>)
    requires q.ConnectPayload? && Writable(server)
    ensures UTFBytes(Some(server)).Ok?
    ensures Emit(ConnectPayload(Some(server))) == Emission(UTFBytes(Some(server)).value, None)
    ensures Parse(q, pre + Emit(ConnectPayload(Some(server))).bytes + rest, |pre|)
         == Parsed(ConnectPayload(Some(server)), |pre| + |UTFBytes(Some(server)).value|, None)
  {
    TryOneWrite(UTFBytes(Some(server)));
    UTFWritten(pre, server, rest);
  }

  /** A ConnectOther request read back gives both names, in order. */
  lemma ConnectOtherRoundTrip(q: Payload, other: JString, server: JString, pre: seq<uint8>, rest: seq<uint8>)
    requires q.ConnectOtherPayload? && Writable(other) && Writable(server)
    ensures UTFBytes(Some(other)).Ok? && UTFBytes(Some(server)).Ok?
    ensures Emit(ConnectOtherPayload(Some(other), Some(server)))
         == Emission(UTFBytes(Some(other)).value + UTFBytes(Some(server)).value, None)
    ensures Parse(q, pre + Emit(ConnectOtherPayload(Some(other), Some(server))).bytes + rest, |pre|).payload
         == ConnectOtherPayload(Some(other), Some(server))
  {
    hide ReadUTFAt, UTFBytes;
    var a, b := UTFBytes(Some(other)).value, UTFBytes(Some(server)).value;
    TryTwoWrites(UTFBytes(Some(other)), UTFBytes(Some(server)));
    assert pre + (a + b) + rest == pre + a + (b + rest);
    UTFWritten(pre, other, b + rest);
    assert pre + a + (b + rest) == (pre + a) + b + rest;
    UTFWritten(pre + a, server, rest);
  }

  /** A request whose first string is `null` emits nothing and lets `NullPointerException` escape. */
  lemma NullFirstFieldEscapes(p: Payload)
    requires match p
      case ConnectPayload(server) => server.None?
      case ConnectOtherPayload(other, _) => other.None?
      case IPPayload(_, _) => false
      case MessagePlayerPayload(player, _) => player.None?
      case PlayerCountPayload(server, _) => server.None?
      case PlayerListPayload(server, _) => server.None?
    ensures Emit(p) == Emission([], Some(NullPointerException))
  {
    match p
    case ConnectPayload(server) => TryOneWrite(UTFBytes(server));
    case ConnectOtherPayload(other, server) => TryTwoWrites(UTFBytes(other), UTFBytes(server));
    case IPPayload(_, _) =>
    case MessagePlayerPayload(player, message) => TryTwoWrites(UTFBytes(player), UTFBytes(message));
    case PlayerCountPayload(server, _) => TryOneWrite(UTFBytes(server));
    case PlayerListPayload(server, _) => TryOneWrite(UTFBytes(server));
  }

  /**
   * A second string that `writeUTF` refuses (over 65535 bytes) is swallowed:
   * the request ends after the first string and nothing escapes.
   */
  lemma OverlongSecondFieldDropped(first: JString, second: JString)
    requires Writable(first) && !Writable(second)
    ensures UTFBytes(Some(first)).Ok?
    ensures Emit(ConnectOtherPayload(Some(first), Some(second))) == Emission(UTFBytes(Some(first)).value, None)
    ensures Emit(MessagePlayerPayload(Some(first), Some(second))) == Emission(UTFBytes(Some(first)).value, None)
  {
    TryTwoWrites(UTFBytes(Some(first)), UTFBytes(Some(second)));
  }

  /** A ConnectOther reply that ends after the first name sets it and keeps the server as it was. */
  lemma ConnectOtherWithoutServer(q: Payload, other: JString, pre: seq<uint8>)
    requires q.ConnectOtherPayload? && Writable(other)
    ensures UTFBytes(Some(other)).Ok?
    ensures Parse(q, pre + UTFBytes(Some(other)).value, |pre|)
         == Parsed(ConnectOtherPayload(Some(other), q.server), |pre| + |UTFBytes(Some(other)).value|, None)
  {
    var a := UTFBytes(Some(other)).value;
    assert pre + a == pre + a + [];
    UTFWritten(pre, other, []);
  }

  /** BungeeCord's PlayerCount reply, a server name and a count, fills both fields. */
  lemma PlayerCountReply(q: Payload, server: JString, count: int32, pre: seq<uint8>, rest: seq<uint8>)
    requires q.PlayerCountPayload? && Writable(server)
    ensures UTFBytes(Some(server)).Ok?
    ensures Parse(q, pre + UTFBytes(Some(server)).value + IntBytes(count) + rest, |pre|).payload
         == PlayerCountPayload(Some(server), count)
  {
    var a := UTFBytes(Some(server)).value;
    assert pre + a + IntBytes(count) + rest == pre + a + (IntBytes(count) + rest);
    UTFWritten(pre, server, IntBytes(count) + rest);
    IntWritten(pre + a, count, rest);
  }

  /**
   * A PlayerCount reply that ends after the server name (the request alone
   * is one), or inside the count, sets the server and keeps the count.
   */
  lemma PlayerCountWithoutCount(q: Payload, server: JString, pre: seq<uint8>, rest: seq<uint8>)
    requires q.PlayerCountPayload? && Writable(server) && |rest| < 4
    ensures UTFBytes(Some(server)).Ok?
    ensures Parse(q, pre + UTFBytes(Some(server)).value + rest, |pre|)
         == Parsed(PlayerCountPayload(Some(server), q.playerCount), |pre| + |UTFBytes(Some(server)).value| + |rest|, None)
  {
    UTFWritten(pre, server, rest);
  }

  /** BungeeCord's IP reply, a host name and a port, fills both fields. */
  lemma IPReply(q: Payload, hostname: JString, port: int32, pre: seq<uint8>, rest: seq<uint8>)
    requires q.IPPayload? && Writable(hostname)
    ensures UTFBytes(Some(hostname)).Ok?
    ensures Parse(q, pre + UTFBytes(Some(hostname)).value + IntBytes(port) + rest, |pre|).payload
         == IPPayload(Some(hostname), port)
  {
    var a := UTFBytes(Some(hostname)).value;
    assert pre + a + IntBytes(port) + rest == pre + a + (IntBytes(port) + rest);
    UTFWritten(pre, hostname, IntBytes(port) + rest);
    IntWritten(pre + a, port, rest);
  }

  /** An IP reply that ends after the host name, or inside the port, sets the host name and keeps the port. */
  lemma IPWithoutPort(q: Payload, hostname: JString, pre: seq<uint8>, rest: seq<uint8>)
    requires q.IPPayload? && Writable(hostname) && |rest| < 4
    ensures UTFBytes(Some(hostname)).Ok?
    ensures Parse(q, pre + UTFBytes(Some(hostname)).value + rest, |pre|)
         == Parsed(IPPayload(Some(hostname), q.port), |pre| + |UTFBytes(Some(hostname)).value| + |rest|, None)
  {
    UTFWritten(pre, hostname, rest);
  }

  /** A PlayerList reply: the server name, then the second string split at ", ". */
  lemma PlayerListReplySplit(q: Payload, server: JString, list: JString, pre: seq<uint8>, rest: seq<uint8>)
    requires q.PlayerListPayload? && q.players.Some? && Writable(server) && Writable(list)
    ensures UTFBytes(Some(server)).Ok? && UTFBytes(Some(list)).Ok?
    ensures Parse(q, pre + UTFBytes(Some(server)).value + UTFBytes(Some(list)).value + rest, |pre|).payload
         == PlayerListPayload(Some(server), Some(Split(list)))
  {
    hide ReadUTFAt, Split;
    var a, b := UTFBytes(Some(server)).value, UTFBytes(Some(list)).value;
    assert pre + a + b + rest == pre + a + (b + rest);
    UTFWritten(pre, server, b + rest);
    UTFWritten(pre + a, list, rest);
  }

  /**
   * BungeeCord's PlayerList reply, a server name and the names joined by
   * ", ", gives back the names, provided none contains ", " and the last is
   * not empty (one empty name aside).
   */
  lemma PlayerListReply(q: Payload, server: JString, names: seq<JString>, pre: seq<uint8>, rest: seq<uint8>)
    requires q.PlayerListPayload? && q.players.Some? && Writable(server) && Writable(Join(names))
    requires names != [] && (names[|names| - 1] != [] || |names| == 1)
    requires forall k | 0 <= k < |names| :: !ContainsSeparator(names[k])
    ensures UTFBytes(Some(server)).Ok? && UTFBytes(Some(Join(names))).Ok?
    ensures Parse(q, pre + UTFBytes(Some(server)).value + UTFBytes(Some(Join(names))).value + rest, |pre|).payload
         == PlayerListPayload(Some(server), Some(names))
  {
    hide Split, Join, Parse, ReadUTFAt;
    PlayerListReplySplit(q, server, Join(names), pre, rest);
    SplitJoin(names);
  }

  /** A reply that ends after the server name still empties the player list. */
  lemma PlayerListWithoutNames(q: Payload, server: JString, pre: seq<uint8>)
    requires q.PlayerListPayload? && q.players.Some? && Writable(server)
    ensures UTFBytes(Some(server)).Ok?
    ensures Parse(q, pre + UTFBytes(Some(server)).value, |pre|).payload == PlayerListPayload(Some(server), Some([]))
  {
    var a := UTFBytes(Some(server)).value;
    assert pre + a == pre + a + [];
    UTFWritten(pre, server, []);
  }

  /** A `null` player list (all-arguments constructor) lets `NullPointerException` escape after the server is set. */
  lemma NullPlayerListEscapes(q: Payload, server: JString, pre: seq<uint8>, rest: seq<uint8>)
    requires q.PlayerListPayload? && q.players.None? && Writable(server)
    ensures UTFBytes(Some(server)).Ok?
    ensures var r := Parse(q, pre + UTFBytes(Some(server)).value + rest, |pre|);
      r.escaped == Some(NullPointerException) && r.payload == PlayerListPayload(Some(server), None)
  {
    UTFWritten(pre, server, rest);
  }

  /**
   * A reply cut short inside its first string changes no field and lets
   * nothing escape: `readUTF` throws `EOFException`, which `read` swallows
   * after consuming what was left.
   */
  lemma FirstFieldCutShort(p: Payload, first: JString, pre: seq<uint8>, k: nat)
    requires Writable(first) && k < |UTFBytes(Some(first)).value|
    ensures var r := Parse(p, pre + UTFBytes(Some(first)).value[..k], |pre|);
      r.payload == p && r.escaped.None?
      && r.next == if p.MessagePlayerPayload? then |pre| else |pre| + k
  {
    UTFCutShort(pre, first, k);
  }

  /** An exhausted stream changes nothing: every field keeps its value. */
  lemma ParseAtEnd(p: Payload, data: seq<uint8>)
    ensures Parse(p, data, |data|).payload == p
  {
  }

  // ------------------------------------------------------------ the classes

  /** The abstract base: the sub-channel a message travels on and its content. */
  class BungeeCordMessage {
    var subChannel: Option<JString>
    var content: object?

    /** `@NoArgsConstructor`: both fields `null`. */
    constructor ()
      ensures subChannel.None? && content == null
    {
      subChannel := None;
      content := null;
    }

    method SetSubChannel(subChannel: Option<JString>)
      modifies this
      ensures this.subChannel == subChannel && content == old(content)
    {
      this.subChannel := subChannel;
    }

    method SetContent(content: object?)
      modifies this
      ensures this.content == content && subChannel == old(subChannel)
    {
      this.content := content;
    }

    /** The base `write` emits nothing. */
    method Write(output: DataOutputStream)
      ensures unchanged(output)
    {
    }

    /** The base `read` consumes nothing. */
    method Read(input: DataInputStream)
      ensures unchanged(input)
    {
    }
  }

  class ConnectMessage {
    const base: BungeeCordMessage
    var server: Option<JString>

    function Payload(): Payload
      reads this
    {
      ConnectPayload(server)
    }

    constructor ()
      ensures fresh(base) && base.subChannel == Some(SubChannelOf(Connect)) && base.content == this
      ensures Payload() == Initial(Connect)
    {
      base := new BungeeCordMessage();
      server := None;
      new;
      base.SetSubChannel(Some(SubChannelOf(Connect)));
      base.SetContent(this);
    }

    constructor WithFields(server: Option<JString>)
      ensures fresh(base) && base.subChannel.None? && base.content == null
      ensures Payload() == ConnectPayload(server)
    {
      base := new BungeeCordMessage();
      this.server := server;
    }

    method Write(output: DataOutputStream) returns (escaped: Option<Exception>)
      modifies output
      ensures output.written == old(output.written) + Emit(Payload()).bytes
      ensures escaped == Emit(Payload()).escaped
    {
      base.Write(output);
      TryOneWrite(UTFBytes(server));
      escaped := output.WriteUTF(server);
      if escaped.Some? && IsIOException(escaped.value) {
        escaped := None;
      }
    }

    method Read(input: DataInputStream)
      requires input.Valid()
      modifies this, input
      ensures input.Valid()
      ensures Parsed(Payload(), input.pos, None) == Parse(old(Payload()), input.data, old(input.pos))
    {
      var s := input.ReadUTF();
      if s.Ok? {
        server := Some(s.value);
      }
    }
  }

  class ConnectOtherMessage {
    const base: BungeeCordMessage
    var other: Option<JString>
    var server: Option<JString>

    function Payload(): Payload
      reads this
    {
      ConnectOtherPayload(other, server)
    }

    constructor ()
      ensures fresh(base) && base.subChannel == Some(SubChannelOf(ConnectOther)) && base.content == this
      ensures Payload() == Initial(ConnectOther)
    {
      base := new BungeeCordMessage();
      other, server := None, None;
      new;
      base.SetSubChannel(Some(SubChannelOf(ConnectOther)));
      base.SetContent(this);
    }

    constructor WithFields(other: Option<JString>, server: Option<JString>)
      ensures fresh(base) && base.subChannel.None? && base.content == null
      ensures Payload() == ConnectOtherPayload(other, server)
    {
      base := new BungeeCordMessage();
      this.other, this.server := other, server;
    }

    method Write(output: DataOutputStream) returns (escaped: Option<Exception>)
      modifies output
      ensures output.written == old(output.written) + Emit(Payload()).bytes
      ensures escaped == Emit(Payload()).escaped
    {
      base.Write(output);
      assert [UTFBytes(other), UTFBytes(server)][1..] == [UTFBytes(server)];
      TryOneWrite(UTFBytes(server));
      escaped := output.WriteUTF(other);
      if escaped.None? {
        escaped := output.WriteUTF(server);
      }
      if escaped.Some? && IsIOException(escaped.value) {
        escaped := None;
      }
    }

    method Read(input: DataInputStream)
      requires input.Valid()
      modifies this, input
      ensures input.Valid()
      ensures Parsed(Payload(), input.pos, None) == Parse(old(Payload()), input.data, old(input.pos))
    {
      var o := input.ReadUTF();
      if o.Ok? {
        other := Some(o.value);
        var s := input.ReadUTF();
        if s.Ok? {
          server := Some(s.value);
        }
      }
    }
  }

  class IPMessage {
    const base: BungeeCordMessage
    var hostname: Option<JString>
    var port: int32

    function Payload(): Payload
      reads this
    {
      IPPayload(hostname, port)
    }

    constructor ()
      ensures fresh(base) && base.subChannel == Some(SubChannelOf(IP)) && base.content == this
      ensures Payload() == Initial(IP)
    {
      base := new BungeeCordMessage();
      hostname, port := Some(Ascii("null")), -1;
      new;
      base.SetSubChannel(Some(SubChannelOf(IP)));
      base.SetContent(this);
    }

    constructor WithFields(hostname: Option<JString>, port: int32)
      ensures fresh(base) && base.subChannel.None? && base.content == null
      ensures Payload() == IPPayload(hostname, port)
    {
      base := new BungeeCordMessage();
      this.hostname, this.port := hostname, port;
    }

    /** The request carries nothing beyond its sub-channel. */
    method Write(output: DataOutputStream) returns (escaped: Option<Exception>)
      ensures Emit(Payload()) == Emission([], escaped)
      ensures unchanged(output)
    {
      escaped := None;
    }

    method Read(input: DataInputStream)
      requires input.Valid()
      modifies this, input
      ensures input.Valid()
      ensures Parsed(Payload(), input.pos, None) == Parse(old(Payload()), input.data, old(input.pos))
    {
      var h := input.ReadUTF();
      if h.Ok? {
        hostname := Some(h.value);
        var n := input.ReadInt();
        if n.Ok? {
          port := n.value;
        }
      }
    }
  }

  class MessagePlayerMessage {
    const base: BungeeCordMessage
    var player: Option<JString>
    var message: Option<JString>

    function Payload(): Payload
      reads this
    {
      MessagePlayerPayload(player, message)
    }

    constructor ()
      ensures fresh(base) && base.subChannel == Some(SubChannelOf(MessagePlayer)) && base.content == this
      ensures Payload() == Initial(MessagePlayer)
    {
      base := new BungeeCordMessage();
      player, message := None, None;
      new;
      base.SetSubChannel(Some(SubChannelOf(MessagePlayer)));
      base.SetContent(this);
    }

    constructor WithFields(player: Option<JString>, message: Option<JString>)
      ensures fresh(base) && base.subChannel.None? && base.content == null
      ensures Payload() == MessagePlayerPayload(player, message)
    {
      base := new BungeeCordMessage();
      this.player, this.message := player, message;
    }

    method Write(output: DataOutputStream) returns (escaped: Option<Exception>)
      modifies output
      ensures output.written == old(output.written) + Emit(Payload()).bytes
      ensures escaped == Emit(Payload()).escaped
    {
      hide UTFBytes;
      TryTwoWrites(UTFBytes(player), UTFBytes(message));
      escaped := output.WriteUTF(player);
      if escaped.None? {
        escaped := output.WriteUTF(message);
      }
      if escaped.Some? && IsIOException(escaped.value) {
        escaped := None;
      }
    }

    /** Nothing comes back on this sub-channel: `read` leaves everything as it was. */
    method Read(input: DataInputStream)
      requires input.Valid()
      ensures Parsed(Payload(), input.pos, None) == Parse(Payload(), input.data, input.pos)
    {
    }
  }

  class PlayerCountMessage {
    const base: BungeeCordMessage
    var server: Option<JString>
    var playerCount: int32

    function Payload(): Payload
      reads this
    {
      PlayerCountPayload(server, playerCount)
    }

    constructor ()
      ensures fresh(base) && base.subChannel == Some(SubChannelOf(PlayerCount)) && base.content == this
      ensures Payload() == Initial(PlayerCount)
    {
      base := new BungeeCordMessage();
      server, playerCount := None, -1;
      new;
      base.SetSubChannel(Some(SubChannelOf(PlayerCount)));
      base.SetContent(this);
    }

    constructor WithFields(server: Option<JString>, playerCount: int32)
      ensures fresh(base) && base.subChannel.None? && base.content == null
      ensures Payload() == PlayerCountPayload(server, playerCount)
    {
      base := new BungeeCordMessage();
      this.server, this.playerCount := server, playerCount;
    }

    method Write(output: DataOutputStream) returns (escaped: Option<Exception>)
      modifies output
      ensures output.written == old(output.written) + Emit(Payload()).bytes
      ensures escaped == Emit(Payload()).escaped
    {
      TryOneWrite(UTFBytes(server));
      escaped := output.WriteUTF(server);
      if escaped.Some? && IsIOException(escaped.value) {
        escaped := None;
      }
    }

    method Read(input: DataInputStream)
      requires input.Valid()
      modifies this, input
      ensures input.Valid()
      ensures Parsed(Payload(), input.pos, None) == Parse(old(Payload()), input.data, old(input.pos))
    {
      var s := input.ReadUTF();
      if s.Ok? {
        server := Some(s.value);
        var n := input.ReadInt();
        if n.Ok? {
          playerCount := n.value;
        }
      }
    }
  }

  class PlayerListMessage {
    const base: BungeeCordMessage
    var server: Option<JString>
    var players: Option<seq<JString>>

    function Payload(): Payload
      reads this
    {
      PlayerListPayload(server, players)
    }

    constructor ()
      ensures fresh(base) && base.subChannel == Some(SubChannelOf(PlayerList)) && base.content == this
      ensures Payload() == Initial(PlayerList)
    {
      base := new BungeeCordMessage();
      server, players := None, Some([]);
      new;
      base.SetSubChannel(Some(SubChannelOf(PlayerList)));
      base.SetContent(this);
    }

    constructor WithFields(server: Option<JString>, players: Option<seq<JString>>)
      ensures fresh(base) && base.subChannel.None? && base.content == null
      ensures Payload() == PlayerListPayload(server, players)
    {
      base := new BungeeCordMessage();
      this.server, this.players := server, players;
    }

    method Write(output: DataOutputStream) returns (escaped: Option<Exception>)
      modifies output
      ensures output.written == old(output.written) + Emit(Payload()).bytes
      ensures escaped == Emit(Payload()).escaped
    {
      TryOneWrite(UTFBytes(server));
      escaped := output.WriteUTF(server);
      if escaped.Some? && IsIOException(escaped.value) {
        escaped := None;
      }
    }

    method Read(input: DataInputStream) returns (escaped: Option<Exception>)
      requires input.Valid()
      modifies this, input
      ensures input.Valid()
      ensures Parsed(Payload(), input.pos, escaped) == Parse(old(Payload()), input.data, old(input.pos))
    {
      escaped := None;
      var s := input.ReadUTF();
      if s.Ok? {
        server := Some(s.value);
        if players.None? {
          escaped := Some(NullPointerException);
          return;
        }
        players := Some([]);
        var names := input.ReadUTF();
        if names.Ok? {
          players := Some(Split(names.value));
        }
      }
    }
  }
}
