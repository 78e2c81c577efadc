# MessagingLib in Dafny

A model of the core of MessagingLib. MessagingLib is a Java library that
lets a Bukkit server and a BungeeCord proxy exchange typed messages over
plugin-message channels. The model covers five parts:

- **The primitive codec** every `PluginMessage` inherits (`codec.dfy`). It
  rests on exact models of the Java platform pieces it calls:
  - `DataOutputStream`/`DataInputStream` over byte arrays (`data_streams.dfy`);
  - big-endian two's-complement integers (`big_endian.dfy`);
  - Java's modified UTF-8 (`modified_utf8.dfy`) and standard UTF-8 (`utf8.dfy`);
  - `String.hashCode` and `String.split(", ")` (`java_strings.dfy`).
- **BungeeCord's sub-channel messages** (`bungee_cord_messages.dfy`): the
  abstract `BungeeCordMessage` and its six subclasses, one Dafny class
  each, with their constructors, `write` and `read`.
- **The message registry** (`message_registry.dfy`): a class with its two maps.
  BungeeCord messages are keyed by sub-channel; user-defined ("general")
  messages are keyed by the hash of their class name.
- **The frames a message travels in** (`messages.dfy`), and **the listener
  bookkeeping** shared by both managers (`listeners.dfy`):
  - registration of annotated handler methods;
  - unregistration by listener or by plugin;
  - handler dispatch that stops at the first failure.
- **The two managers** (`bukkit_message_manager.dfy`,
  `bungee_cord_message_manager.dfy`, with the shared receive and send logic
  in `dispatch.dfy`): classes whose methods update the listener maps, a
  back log (Bukkit only) and the record of frames handed to players.

Java's `null` is `Option.None`. A thrown exception is a `Result` or an
`Option<Exception>` out-parameter. A Java `int`, `short`, `byte` and `long`
are integer subset types, and every overflow is written out.

The main results:
- every primitive and `writeUTF` string read back where it was written, and
  every UUID whose most significant half is not -1 (one whose half is -1,
  like `null`, reads back as `null` after eight bytes);
- the exact conditions under which `writeString`/`readString` round-trip;
- `String.hashCode` collisions among class names, and how the registry
  refuses the second one;
- what registration files, and that unregistration undoes it;
- which handlers run on a dispatch;
- that a sent Connect or ConnectOther request is read back whole by a fresh
  instance (MessagePlayer's `read` reads nothing, and PlayerCount, PlayerList
  and IP read the reply format, so their requests do not come back whole);
- what `resolveBackLog` does with and without a player online.

Where this model and the library's design description differ, the model
follows the code:
- A malformed handler method makes `registerListener` throw, but the
  handlers filed before it, in the order `getDeclaredMethods()` returns
  them, stay registered (`Listeners.RegisterAppends`,
  `Listeners.MalformedKeepsEarlier`). The registries are not left unchanged.
  That order is unspecified in Java, so which handlers survive is fixed only
  once the reflection order is.
- Draining the back log with nobody online does not re-queue messages
  without end. The re-queued message modifies the list being iterated, so
  the iterator's next step throws `ConcurrentModificationException`. The
  back log is then not cleared and holds one extra copy of its first
  message (`BukkitMessageManagers.BukkitMessageManager.ResolveBackLog`).

## Model

| member | source | states |
|---|---|---|
| BigEndian.FromToBytes | messaging-lib-core/src/main/java/net/tmxx/messaginglib/core/message/PluginMessage.java:42-44 | The `n` big-endian bytes of an unsigned value decode back to that value. |
| BigEndian.ToFromBytes | messaging-lib-core/src/main/java/net/tmxx/messaginglib/core/message/PluginMessage.java:154-160 | Every byte string is the encoding of its own value in that many bytes, so decoding loses nothing. |
| BigEndian.SignedUnsigned | messaging-lib-core/src/main/java/net/tmxx/messaginglib/core/message/PluginMessage.java:42-44 | A two's-complement bit pattern read back as signed gives the original value. |
| BigEndian.BooleanBytes | messaging-lib-core/src/main/java/net/tmxx/messaginglib/core/message/PluginMessage.java:54-56 | `writeBoolean` writes exactly one byte, and it is non-zero exactly for `true` (it is 1 or 0), which is the test `readBoolean` applies. |
| BigEndian.ByteRoundTrip | messaging-lib-core/src/main/java/net/tmxx/messaginglib/core/message/PluginMessage.java:182-188 | `readByte` of what `writeByte` wrote gives the byte back. |
| BigEndian.ShortRoundTrip | messaging-lib-core/src/main/java/net/tmxx/messaginglib/core/message/PluginMessage.java:246-252 | `readShort` of what `writeShort` wrote gives the short back. |
| BigEndian.IntRoundTrip | messaging-lib-core/src/main/java/net/tmxx/messaginglib/core/message/PluginMessage.java:154-160 | `readInt` of what `writeInt` wrote gives the int back. |
| BigEndian.LongRoundTrip | messaging-lib-core/src/main/java/net/tmxx/messaginglib/core/message/PluginMessage.java:232-238 | `readLong` of what `writeLong` wrote gives the long back. |
| BigEndian.BooleanRoundTrip | messaging-lib-core/src/main/java/net/tmxx/messaginglib/core/message/PluginMessage.java:168-174 | `readBoolean` of what `writeBoolean` wrote gives the boolean back. |
| DataStreams.TakeAt | messaging-lib-core/src/main/java/net/tmxx/messaginglib/core/message/PluginMessage.java:154-160 | A fixed-width read yields exactly `n` bytes, or `EOFException` after consuming whatever was left. |
| DataStreams.ReadByteAt | messaging-lib-core/src/main/java/net/tmxx/messaginglib/core/message/PluginMessage.java:182-188 | `readByte` succeeds exactly when a byte is left and then advances by one; otherwise it throws `EOFException` and consumes the rest. |
| DataStreams.ReadBooleanAt | messaging-lib-core/src/main/java/net/tmxx/messaginglib/core/message/PluginMessage.java:168-174 | `readBoolean` succeeds exactly when a byte is left and then advances by one; otherwise `EOFException` after consuming the rest. |
| DataStreams.ReadShortAt | messaging-lib-core/src/main/java/net/tmxx/messaginglib/core/message/PluginMessage.java:246-252 | `readShort` succeeds exactly when two bytes are left and then advances by two; otherwise `EOFException` after consuming the rest. |
| DataStreams.ReadIntAt | messaging-lib-core/src/main/java/net/tmxx/messaginglib/core/message/PluginMessage.java:154-160 | `readInt` succeeds exactly when four bytes are left and then advances by four; otherwise `EOFException` after consuming the rest. |
| DataStreams.ReadLongAt | messaging-lib-core/src/main/java/net/tmxx/messaginglib/core/message/PluginMessage.java:232-238 | `readLong` succeeds exactly when eight bytes are left and then advances by eight; otherwise `EOFException` after consuming the rest. |
| DataStreams.ReadUTFAt | messaging-lib-core/src/main/java/net/tmxx/messaginglib/core/message/bungeecord/ConnectMessage.java:64-70 | `readUTF` only ever throws an `IOException` (end of stream or malformed body) and never reads past the data. |
| DataStreams.ReadIntoAt | messaging-lib-core/src/main/java/net/tmxx/messaginglib/core/message/PluginMessage.java:214-215 | `read(b)` returns a buffer of exactly `b.length` bytes and never advances past the end of the data. |
| DataStreams.TryWrites | messaging-lib-core/src/main/java/net/tmxx/messaginglib/core/message/bungeecord/ConnectOtherMessage.java:59-67 | Guarded writes run in order and the first failure stops the rest; the exception that escapes is one of the writes' own and never an `IOException`, and with no failure nothing escapes. |
| DataStreams.UTFBytes | messaging-lib-core/src/main/java/net/tmxx/messaginglib/core/message/bungeecord/ConnectMessage.java:57 | `writeUTF` succeeds exactly for a non-null string whose modified UTF-8 body fits 65535 bytes; `null` throws `NullPointerException` and an overlong body `UTFDataFormatException`; on success the two-byte header holds the body length. |
| DataStreams.Escaping | messaging-lib-core/src/main/java/net/tmxx/messaginglib/core/message/bungeecord/ConnectMessage.java:56-60 | A failed write escapes the `catch (IOException e)` exactly when its exception is not an `IOException`. |
| DataStreams.TryOneWrite | messaging-lib-core/src/main/java/net/tmxx/messaginglib/core/message/bungeecord/PlayerCountMessage.java:60-64 | A single guarded write either emits its bytes or emits nothing and lets only a non-`IOException` escape. |
| DataStreams.TryTwoWrites | messaging-lib-core/src/main/java/net/tmxx/messaginglib/core/message/bungeecord/ConnectOtherMessage.java:61-66 | The second of two guarded writes runs only when the first succeeded; its failure keeps the first one's bytes. |
| DataStreams.DataOutputStream.WriteUTF | messaging-lib-core/src/main/java/net/tmxx/messaginglib/core/message/bungeecord/ConnectMessage.java:57 | `writeUTF` appends the two-byte length and the modified UTF-8 body, or throws before writing anything (`null`, a body over 65535 bytes). |
| DataStreams.DataInputStream.ReadFully | messaging-lib-core/src/main/java/net/tmxx/messaginglib/core/message/PluginMessage.java:156 | Reading `n` bytes moves the stream exactly as `TakeAt` says. |
| DataStreams.DataInputStream.ReadUTF | messaging-lib-core/src/main/java/net/tmxx/messaginglib/core/message/bungeecord/ConnectMessage.java:66 | `readUTF` on the stream agrees with `ReadUTFAt`. |
| DataStreams.DataInputStream.Read | messaging-lib-core/src/main/java/net/tmxx/messaginglib/core/message/PluginMessage.java:215 | `read(b)` on the stream agrees with `ReadIntoAt`, including -1 at the end for an empty buffer. |
| DataStreams.IntWritten | messaging-lib-core/src/main/java/net/tmxx/messaginglib/core/message/PluginMessage.java:154-160 | An int read where one was written gives it back, with the stream four bytes further, whatever surrounds it. |
| DataStreams.LongWritten | messaging-lib-core/src/main/java/net/tmxx/messaginglib/core/message/PluginMessage.java:232-238 | A long read where one was written gives it back, with the stream eight bytes further. |
| DataStreams.UTFWritten | messaging-lib-core/src/main/java/net/tmxx/messaginglib/core/message/bungeecord/ConnectMessage.java:53-70 | `readUTF` gives back exactly the string `writeUTF` wrote and stops right after it. |
| DataStreams.UTFCutShort | messaging-lib-core/src/main/java/net/tmxx/messaginglib/core/message/bungeecord/ConnectMessage.java:64-70 | A `writeUTF` encoding cut short makes `readUTF` throw `EOFException` after consuming the rest. |
| ModifiedUtf8.EncodeChar | messaging-lib-core/src/main/java/net/tmxx/messaginglib/core/message/bungeecord/ConnectMessage.java:57 | Each code unit takes one to three bytes, exactly one for U+0001..U+007F. |
| ModifiedUtf8.Encode | messaging-lib-core/src/main/java/net/tmxx/messaginglib/core/message/bungeecord/ConnectMessage.java:57 | A string's modified UTF-8 body takes between one and three bytes per UTF-16 unit. |
| ModifiedUtf8.Decode | messaging-lib-core/src/main/java/net/tmxx/messaginglib/core/message/bungeecord/ConnectMessage.java:66 | Decoding fails only with `UTFDataFormatException` and never yields more units than bytes. |
| ModifiedUtf8.DecodeEncode | messaging-lib-core/src/main/java/net/tmxx/messaginglib/core/message/bungeecord/ConnectMessage.java:57-66 | Decoding the modified UTF-8 encoding of any string, surrogates and U+0000 included, gives the string back. |
| ModifiedUtf8.EncodeAscii | messaging-lib-bukkit/src/main/java/net/tmxx/messaginglib/BukkitMessageManager.java:265 | Units U+0001..U+007F, such as every sub-channel name, are written as themselves. |
| Utf8.UnitBytes | messaging-lib-core/src/main/java/net/tmxx/messaginglib/core/message/PluginMessage.java:88 | A non-surrogate unit takes one to three bytes, exactly one when it is ASCII. |
| Utf8.Encode | messaging-lib-core/src/main/java/net/tmxx/messaginglib/core/message/PluginMessage.java:88 | `getBytes(UTF_8)` never takes more than three bytes per UTF-16 unit (a surrogate pair takes four for two units). |
| Utf8.DecodeOne | messaging-lib-core/src/main/java/net/tmxx/messaginglib/core/message/PluginMessage.java:219 | A decoding step consumes at least one byte and never more than remain, and yields at least one and at most as many units as bytes consumed. |
| Utf8.EncodedSurrogateReplaced | messaging-lib-core/src/main/java/net/tmxx/messaginglib/core/message/PluginMessage.java:219 | A complete three-byte encoding of a surrogate (ED A0..BF 80..BF) decodes to one U+FFFD, and the bytes after it decode on their own. |
| Utf8.Decode | messaging-lib-core/src/main/java/net/tmxx/messaginglib/core/message/PluginMessage.java:219 | `new String(bytes, UTF_8)` yields no more units than bytes, and at least one unit for non-empty input. |
| Utf8.DecodeEncode | messaging-lib-core/src/main/java/net/tmxx/messaginglib/core/message/PluginMessage.java:86-89 | `new String(s.getBytes(UTF_8), UTF_8)` gives back every string whose surrogates come in pairs. |
| Utf8.EncodeLength | messaging-lib-core/src/main/java/net/tmxx/messaginglib/core/message/PluginMessage.java:87-88 | The UTF-8 encoding is never shorter than the number of UTF-16 units; it is as long only when every unit is ASCII or a lone surrogate, and then it is the units with '?' substituted. |
| Utf8.DecodeAscii | messaging-lib-core/src/main/java/net/tmxx/messaginglib/core/message/PluginMessage.java:219 | Bytes below 0x80 decode one to one. |
| Utf8.AsciiEncoding | messaging-lib-core/src/main/java/net/tmxx/messaginglib/core/message/PluginMessage.java:88 | An ASCII string is its own UTF-8 encoding and decodes back to itself. |
| JavaStrings.Wrap32 | messaging-lib-core/src/main/java/net/tmxx/messaginglib/core/message/MessageRegistry.java:69 | The wrapped `int` is congruent to the exact value modulo 2^32. |
| JavaStrings.HashCode | messaging-lib-core/src/main/java/net/tmxx/messaginglib/core/message/MessageRegistry.java:69 | `String.hashCode` of the empty string is 0 and of a one-unit string is that unit; `HashCodeIsPolynomial` pins it for every string. |
| JavaStrings.HashCodeIsPolynomial | messaging-lib-core/src/main/java/net/tmxx/messaginglib/core/message/MessageRegistry.java:69 | `String.hashCode`, which overflows at every step, equals the exact polynomial wrapped once at the end. |
| JavaStrings.CollisionsExtend | messaging-lib-core/src/main/java/net/tmxx/messaginglib/core/message/MessageRegistry.java:69-74 | Two equal-length suffixes with the same polynomial make every pair of class names sharing a prefix collide. |
| JavaStrings.AaCollidesWithBB | messaging-lib-core/src/main/java/net/tmxx/messaginglib/core/message/MessageRegistry.java:72-74 | Distinct class names ending in "Aa" and "BB" have the same id, so the registry refuses the second one. |
| JavaStrings.FindSeparator | messaging-lib-core/src/main/java/net/tmxx/messaginglib/core/message/bungeecord/PlayerListMessage.java:73 | The first occurrence of ", " at or after a position, or none at all. |
| JavaStrings.Split | messaging-lib-core/src/main/java/net/tmxx/messaginglib/core/message/bungeecord/PlayerListMessage.java:73 | `split(", ")` yields names none of which contains ", ", and its last name is non-empty unless the string had no separator (then the string itself comes back) or nothing but separators. |
| JavaStrings.Join | messaging-lib-core/src/main/java/net/tmxx/messaginglib/core/message/bungeecord/PlayerListMessage.java:73 | How the BungeeCord proxy formats the list string that this line splits (the library itself never joins names): with two or more names, the separator comes right after the first name. |
| JavaStrings.DropTrailingEmpty | messaging-lib-core/src/main/java/net/tmxx/messaginglib/core/message/bungeecord/PlayerListMessage.java:73 | Only trailing empty names are removed, and the result does not end with one. |
| JavaStrings.PiecesJoin | messaging-lib-core/src/main/java/net/tmxx/messaginglib/core/message/bungeecord/PlayerListMessage.java:73 | Joining the pieces between separators with ", " gives the string back, and no piece contains the separator. |
| JavaStrings.PiecesOfJoin | messaging-lib-core/src/main/java/net/tmxx/messaginglib/core/message/bungeecord/PlayerListMessage.java:73 | Names without ", " are split back out of their join one for one. |
| JavaStrings.SplitJoin | messaging-lib-core/src/main/java/net/tmxx/messaginglib/core/message/bungeecord/PlayerListMessage.java:73 | `split(", ")` of a player list joined with ", " gives back the names, provided none contains ", " and the last is not empty. |
| JavaStrings.SplitJoinBack | messaging-lib-core/src/main/java/net/tmxx/messaginglib/core/message/bungeecord/PlayerListMessage.java:73 | Joining the names `split(", ")` returns with ", " gives back the received string whenever it does not end with ", ". |
| JavaStrings.LastPieceNonEmpty | messaging-lib-core/src/main/java/net/tmxx/messaginglib/core/message/bungeecord/PlayerListMessage.java:73 | A non-empty string that does not end with ", " has a non-empty last piece, so `split` drops nothing from it. |
| JavaStrings.EmptyListSplit | messaging-lib-core/src/main/java/net/tmxx/messaginglib/core/message/bungeecord/PlayerListMessage.java:73 | An empty player list string splits into one empty name, not into no names. |
| Codec.IntAt | messaging-lib-core/src/main/java/net/tmxx/messaginglib/core/message/PluginMessage.java:154-160 | `readInt` never moves the stream backwards or past the end. |
| Codec.BooleanAt | messaging-lib-core/src/main/java/net/tmxx/messaginglib/core/message/PluginMessage.java:168-174 | `readBoolean` never moves the stream backwards or past the end. |
| Codec.ByteAt | messaging-lib-core/src/main/java/net/tmxx/messaginglib/core/message/PluginMessage.java:182-188 | `readByte` never moves the stream backwards or past the end. |
| Codec.ShortAt | messaging-lib-core/src/main/java/net/tmxx/messaginglib/core/message/PluginMessage.java:246-252 | `readShort` never moves the stream backwards or past the end. |
| Codec.LongAt | messaging-lib-core/src/main/java/net/tmxx/messaginglib/core/message/PluginMessage.java:232-238 | `readLong` never moves the stream backwards or past the end. |
| Codec.UUIDAt | messaging-lib-core/src/main/java/net/tmxx/messaginglib/core/message/PluginMessage.java:292-303 | A UUID is read back only when its most significant half is not -1, and then after exactly sixteen bytes. |
| Codec.StringAt | messaging-lib-core/src/main/java/net/tmxx/messaginglib/core/message/PluginMessage.java:197-224 | `readString` can throw only `NegativeArraySizeException` or `IOException`; the end of the stream yields `null`. |
| Codec.UUIDBytes | messaging-lib-core/src/main/java/net/tmxx/messaginglib/core/message/PluginMessage.java:139-146 | `writeUUID` writes sixteen bytes for a UUID and eight for `null`. |
| Codec.StringBytes | messaging-lib-core/src/main/java/net/tmxx/messaginglib/core/message/PluginMessage.java:86-89 | `writeString` fails exactly for `null`, with `NullPointerException`; otherwise its four-byte prefix decodes to the number of UTF-16 units, and the output is at least that many bytes beyond the prefix. |
| Codec.WriteInt | messaging-lib-core/src/main/java/net/tmxx/messaginglib/core/message/PluginMessage.java:42-44 | Appends the four big-endian bytes of the value. |
| Codec.WriteBoolean | messaging-lib-core/src/main/java/net/tmxx/messaginglib/core/message/PluginMessage.java:54-56 | Appends one byte, 1 or 0. |
| Codec.WriteByte | messaging-lib-core/src/main/java/net/tmxx/messaginglib/core/message/PluginMessage.java:64-66 | Appends the byte. |
| Codec.WriteLong | messaging-lib-core/src/main/java/net/tmxx/messaginglib/core/message/PluginMessage.java:97-99 | Appends the eight big-endian bytes of the value. |
| Codec.WriteShort | messaging-lib-core/src/main/java/net/tmxx/messaginglib/core/message/PluginMessage.java:107-109 | Appends the two big-endian bytes of the value. |
| Codec.WriteUUID | messaging-lib-core/src/main/java/net/tmxx/messaginglib/core/message/PluginMessage.java:139-146 | Appends -1 alone for `null`, otherwise both halves. |
| Codec.WriteString | messaging-lib-core/src/main/java/net/tmxx/messaginglib/core/message/PluginMessage.java:75-89 | Appends the unit count and the UTF-8 bytes, or throws `NullPointerException` for `null` without writing. |
| Codec.ReadInt | messaging-lib-core/src/main/java/net/tmxx/messaginglib/core/message/PluginMessage.java:154-160 | Reads as `IntAt` says: the value, or -1 at the end of the stream. |
| Codec.ReadBoolean | messaging-lib-core/src/main/java/net/tmxx/messaginglib/core/message/PluginMessage.java:168-174 | Reads as `BooleanAt` says: the value, or false at the end of the stream. |
| Codec.ReadByte | messaging-lib-core/src/main/java/net/tmxx/messaginglib/core/message/PluginMessage.java:182-188 | Reads as `ByteAt` says: the value, or -1 at the end of the stream. |
| Codec.ReadLong | messaging-lib-core/src/main/java/net/tmxx/messaginglib/core/message/PluginMessage.java:232-238 | Reads as `LongAt` says: the value, or -1 at the end of the stream. |
| Codec.ReadShort | messaging-lib-core/src/main/java/net/tmxx/messaginglib/core/message/PluginMessage.java:246-252 | Reads as `ShortAt` says: the value, or -1 at the end of the stream. |
| Codec.ReadUUID | messaging-lib-core/src/main/java/net/tmxx/messaginglib/core/message/PluginMessage.java:292-303 | Reads as `UUIDAt` says. |
| Codec.ReadString | messaging-lib-core/src/main/java/net/tmxx/messaginglib/core/message/PluginMessage.java:197-224 | Reads as `StringAt` says. |
| Codec.PrimitiveRoundTrips | messaging-lib-core/src/main/java/net/tmxx/messaginglib/core/message/PluginMessage.java:154-252 | Every fixed-width value comes back as written, with the stream right after it, wherever it sits. |
| Codec.ReadsPastEnd | messaging-lib-core/src/main/java/net/tmxx/messaginglib/core/message/PluginMessage.java:154-303 | With too few bytes left every read answers its default (-1, false or `null`) and consumes what was left. |
| Codec.UUIDRoundTrip | messaging-lib-core/src/main/java/net/tmxx/messaginglib/core/message/PluginMessage.java:292-303 | A UUID comes back exactly when its most significant half is not -1; otherwise, and for `null`, the read gives `null` after eight bytes. |
| Codec.UUIDCutShort | messaging-lib-core/src/main/java/net/tmxx/messaginglib/core/message/PluginMessage.java:292-303 | A UUID whose second half is cut off reads as `null`. |
| Codec.AsciiBodyRead | messaging-lib-core/src/main/java/net/tmxx/messaginglib/core/message/PluginMessage.java:214-219 | An ASCII body is read back whole, unless it is empty and nothing follows it. |
| Codec.OtherBodyRead | messaging-lib-core/src/main/java/net/tmxx/messaginglib/core/message/PluginMessage.java:86-89 | A body that is not all ASCII is never read back whole as the same string. |
| Codec.StringRoundTrip | messaging-lib-core/src/main/java/net/tmxx/messaginglib/core/message/PluginMessage.java:197-224 | A string comes back from `writeString`/`readString`, with the stream right after it, if and only if it is ASCII and is not an empty string at the very end of the stream. |
| Codec.NonAsciiStringMisread | messaging-lib-core/src/main/java/net/tmxx/messaginglib/core/message/PluginMessage.java:86-89 | "é" is written as the prefix 1 and two bytes, and reads back as U+FFFD with one byte left behind. |
| Codec.EmptyStringAtEnd | messaging-lib-core/src/main/java/net/tmxx/messaginglib/core/message/PluginMessage.java:214-217 | The empty string as the last field makes `readString` throw `IOException`. |
| Codec.CorrectedStringAt | messaging-lib-core/src/main/java/net/tmxx/messaginglib/core/message/PluginMessage.java:212-224 | The corrected reader can throw only `NegativeArraySizeException`; a short stream yields `null`. |
| Codec.CorrectedStringRoundTrip | messaging-lib-core/src/main/java/net/tmxx/messaginglib/core/message/PluginMessage.java:86-89 | With the byte count as the prefix and `readFully`, every well-formed string comes back, empty or not and wherever it sits. |
| Codec.CorrectedWriteString | messaging-lib-core/src/main/java/net/tmxx/messaginglib/core/message/PluginMessage.java:86-89 | Appends the corrected encoding, or throws `NullPointerException` without writing. |
| Codec.CorrectedReadString | messaging-lib-core/src/main/java/net/tmxx/messaginglib/core/message/PluginMessage.java:212-224 | Reads as `CorrectedStringAt` says. |
| BungeeCordMessages.SubChannelOf | messaging-lib-core/src/main/java/net/tmxx/messaginglib/core/message/bungeecord/ConnectMessage.java:48-51 | Each predefined message names a non-empty sub-channel. |
| BungeeCordMessages.SubChannelsDistinct | messaging-lib-core/src/main/java/net/tmxx/messaginglib/core/message/MessageRegistry.java:156-164 | Two predefined messages share a sub-channel only when they are of the same kind. |
| BungeeCordMessages.Initial | messaging-lib-core/src/main/java/net/tmxx/messaginglib/core/message/bungeecord/IPMessage.java:44-57 | A fresh message of a kind holds that kind's declared initial fields. |
| BungeeCordMessages.Emit | messaging-lib-core/src/main/java/net/tmxx/messaginglib/core/message/bungeecord/ConnectOtherMessage.java:59-67 | Only `NullPointerException` escapes a request's `write`, and only when one of its strings is `null`; with every string present nothing escapes (an overlong one ends the request quietly). |
| BungeeCordMessages.Parse | messaging-lib-core/src/main/java/net/tmxx/messaginglib/core/message/bungeecord/PlayerListMessage.java:67-77 | `read` keeps the kind and stays within the data; only a `null` player list lets an exception escape, and that is `NullPointerException`. |
| BungeeCordMessages.ConnectRoundTrip | messaging-lib-core/src/main/java/net/tmxx/messaginglib/core/message/bungeecord/ConnectMessage.java:53-70 | A Connect request read back gives its server, whatever the reader held before, with the stream right after it. |
| BungeeCordMessages.ConnectOtherRoundTrip | messaging-lib-core/src/main/java/net/tmxx/messaginglib/core/message/bungeecord/ConnectOtherMessage.java:58-77 | A ConnectOther request read back gives both names, in order. |
| BungeeCordMessages.ConnectOtherWithoutServer | messaging-lib-core/src/main/java/net/tmxx/messaginglib/core/message/bungeecord/ConnectOtherMessage.java:70-76 | A reply that ends after the first name sets it, keeps the server as it was, consumes everything and lets nothing escape. |
| BungeeCordMessages.NullFirstFieldEscapes | messaging-lib-core/src/main/java/net/tmxx/messaginglib/core/message/bungeecord/ConnectMessage.java:56-60 | A request whose first string is `null` emits nothing and lets `NullPointerException` escape. |
| BungeeCordMessages.OverlongSecondFieldDropped | messaging-lib-core/src/main/java/net/tmxx/messaginglib/core/message/bungeecord/ConnectOtherMessage.java:61-66 | A second string too long for `writeUTF` is swallowed: the request ends after the first string. |
| BungeeCordMessages.PlayerCountReply | messaging-lib-core/src/main/java/net/tmxx/messaginglib/core/message/bungeecord/PlayerCountMessage.java:67-75 | A PlayerCount reply fills the server name and the count. |
| BungeeCordMessages.PlayerCountWithoutCount | messaging-lib-core/src/main/java/net/tmxx/messaginglib/core/message/bungeecord/PlayerCountMessage.java:67-75 | A reply that ends after the server name, or with one to three bytes of the count, sets the server, keeps the count, consumes the input and lets nothing escape: `readInt` throws `EOFException` and the catch keeps the old count. |
| BungeeCordMessages.IPReply | messaging-lib-core/src/main/java/net/tmxx/messaginglib/core/message/bungeecord/IPMessage.java:64-72 | An IP reply fills the host name and the port. |
| BungeeCordMessages.IPWithoutPort | messaging-lib-core/src/main/java/net/tmxx/messaginglib/core/message/bungeecord/IPMessage.java:65-71 | A reply that ends after the host name, or inside the port, sets the host name, keeps the port as it was and lets nothing escape. |
| BungeeCordMessages.PlayerListReplySplit | messaging-lib-core/src/main/java/net/tmxx/messaginglib/core/message/bungeecord/PlayerListMessage.java:67-77 | A PlayerList reply sets the server, then the second string split at ", ". |
| BungeeCordMessages.PlayerListReply | messaging-lib-core/src/main/java/net/tmxx/messaginglib/core/message/bungeecord/PlayerListMessage.java:67-77 | A PlayerList reply of joined names gives back those names, under the conditions of `SplitJoin`. |
| BungeeCordMessages.PlayerListWithoutNames | messaging-lib-core/src/main/java/net/tmxx/messaginglib/core/message/bungeecord/PlayerListMessage.java:70-73 | A reply that ends after the server name still empties the player list. |
| BungeeCordMessages.NullPlayerListEscapes | messaging-lib-core/src/main/java/net/tmxx/messaginglib/core/message/bungeecord/PlayerListMessage.java:70-72 | A `null` player list lets `NullPointerException` escape after the server is set. |
| BungeeCordMessages.ParseAtEnd | messaging-lib-core/src/main/java/net/tmxx/messaginglib/core/message/bungeecord/IPMessage.java:64-72 | At the end of the stream `read` changes no field. |
| BungeeCordMessages.FirstFieldCutShort | messaging-lib-core/src/main/java/net/tmxx/messaginglib/core/message/bungeecord/IPMessage.java:65-71 | A reply cut short inside its first string changes no field of any of the six messages, consumes the rest and lets nothing escape. |
| BungeeCordMessages.BungeeCordMessage.constructor | messaging-lib-core/src/main/java/net/tmxx/messaginglib/core/message/BungeeCordMessage.java:37-51 | The no-argument constructor leaves the sub-channel and the content `null`. |
| BungeeCordMessages.BungeeCordMessage.SetSubChannel | messaging-lib-core/src/main/java/net/tmxx/messaginglib/core/message/BungeeCordMessage.java:46 | Sets the sub-channel and nothing else. |
| BungeeCordMessages.BungeeCordMessage.SetContent | messaging-lib-core/src/main/java/net/tmxx/messaginglib/core/message/BungeeCordMessage.java:51 | Sets the content and nothing else. |
| BungeeCordMessages.BungeeCordMessage.Write | messaging-lib-core/src/main/java/net/tmxx/messaginglib/core/message/BungeeCordMessage.java:53-55 | The base `write` writes nothing. |
| BungeeCordMessages.BungeeCordMessage.Read | messaging-lib-core/src/main/java/net/tmxx/messaginglib/core/message/BungeeCordMessage.java:57-59 | The base `read` reads nothing. |
| BungeeCordMessages.ConnectMessage.constructor | messaging-lib-core/src/main/java/net/tmxx/messaginglib/core/message/bungeecord/ConnectMessage.java:48-51 | Sub-channel "Connect", the content is the message itself, and the server is `null`. |
| BungeeCordMessages.ConnectMessage.WithFields | messaging-lib-core/src/main/java/net/tmxx/messaginglib/core/message/bungeecord/ConnectMessage.java:35-43 | The all-arguments constructor sets the server and leaves the sub-channel `null`. |
| BungeeCordMessages.ConnectMessage.Write | messaging-lib-core/src/main/java/net/tmxx/messaginglib/core/message/bungeecord/ConnectMessage.java:53-61 | Writes the request as `Emit` says, and reports what escapes. |
| BungeeCordMessages.ConnectMessage.Read | messaging-lib-core/src/main/java/net/tmxx/messaginglib/core/message/bungeecord/ConnectMessage.java:63-70 | Reads the reply as `Parse` says. |
| BungeeCordMessages.ConnectOtherMessage.constructor | messaging-lib-core/src/main/java/net/tmxx/messaginglib/core/message/bungeecord/ConnectOtherMessage.java:53-56 | Sub-channel "ConnectOther", both names `null`. |
| BungeeCordMessages.ConnectOtherMessage.WithFields | messaging-lib-core/src/main/java/net/tmxx/messaginglib/core/message/bungeecord/ConnectOtherMessage.java:35-48 | Sets both names and leaves the sub-channel `null`. |
| BungeeCordMessages.ConnectOtherMessage.Write | messaging-lib-core/src/main/java/net/tmxx/messaginglib/core/message/bungeecord/ConnectOtherMessage.java:58-67 | Writes the request as `Emit` says. |
| BungeeCordMessages.ConnectOtherMessage.Read | messaging-lib-core/src/main/java/net/tmxx/messaginglib/core/message/bungeecord/ConnectOtherMessage.java:69-77 | Reads the reply as `Parse` says. |
| BungeeCordMessages.IPMessage.constructor | messaging-lib-core/src/main/java/net/tmxx/messaginglib/core/message/bungeecord/IPMessage.java:44-57 | Sub-channel "IP", host name "null" and port -1. |
| BungeeCordMessages.IPMessage.WithFields | messaging-lib-core/src/main/java/net/tmxx/messaginglib/core/message/bungeecord/IPMessage.java:36-49 | Sets host name and port and leaves the sub-channel `null`. |
| BungeeCordMessages.IPMessage.Write | messaging-lib-core/src/main/java/net/tmxx/messaginglib/core/message/bungeecord/IPMessage.java:59-62 | The request carries nothing beyond its sub-channel. |
| BungeeCordMessages.IPMessage.Read | messaging-lib-core/src/main/java/net/tmxx/messaginglib/core/message/bungeecord/IPMessage.java:64-72 | Reads the reply as `Parse` says. |
| BungeeCordMessages.MessagePlayerMessage.constructor | messaging-lib-core/src/main/java/net/tmxx/messaginglib/core/message/bungeecord/MessagePlayerMessage.java:53-56 | Sub-channel "Message", player and message `null`. |
| BungeeCordMessages.MessagePlayerMessage.WithFields | messaging-lib-core/src/main/java/net/tmxx/messaginglib/core/message/bungeecord/MessagePlayerMessage.java:35-48 | Sets player and message and leaves the sub-channel `null`. |
| BungeeCordMessages.MessagePlayerMessage.Write | messaging-lib-core/src/main/java/net/tmxx/messaginglib/core/message/bungeecord/MessagePlayerMessage.java:58-66 | Writes the request as `Emit` says. |
| BungeeCordMessages.MessagePlayerMessage.Read | messaging-lib-core/src/main/java/net/tmxx/messaginglib/core/message/bungeecord/MessagePlayerMessage.java:68-71 | Reads nothing and changes nothing. |
| BungeeCordMessages.PlayerCountMessage.constructor | messaging-lib-core/src/main/java/net/tmxx/messaginglib/core/message/bungeecord/PlayerCountMessage.java:48-56 | Sub-channel "PlayerCount", server `null`, count -1. |
| BungeeCordMessages.PlayerCountMessage.WithFields | messaging-lib-core/src/main/java/net/tmxx/messaginglib/core/message/bungeecord/PlayerCountMessage.java:35-48 | Sets server and count and leaves the sub-channel `null`. |
| BungeeCordMessages.PlayerCountMessage.Write | messaging-lib-core/src/main/java/net/tmxx/messaginglib/core/message/bungeecord/PlayerCountMessage.java:58-65 | Writes the request as `Emit` says. |
| BungeeCordMessages.PlayerCountMessage.Read | messaging-lib-core/src/main/java/net/tmxx/messaginglib/core/message/bungeecord/PlayerCountMessage.java:67-75 | Reads the reply as `Parse` says. |
| BungeeCordMessages.PlayerListMessage.constructor | messaging-lib-core/src/main/java/net/tmxx/messaginglib/core/message/bungeecord/PlayerListMessage.java:48-56 | Sub-channel "PlayerList", server `null`, an empty list. |
| BungeeCordMessages.PlayerListMessage.WithFields | messaging-lib-core/src/main/java/net/tmxx/messaginglib/core/message/bungeecord/PlayerListMessage.java:38-48 | Sets server and list, possibly `null`, and leaves the sub-channel `null`. |
| BungeeCordMessages.PlayerListMessage.Write | messaging-lib-core/src/main/java/net/tmxx/messaginglib/core/message/bungeecord/PlayerListMessage.java:58-65 | Writes the request as `Emit` says. |
| BungeeCordMessages.PlayerListMessage.Read | messaging-lib-core/src/main/java/net/tmxx/messaginglib/core/message/bungeecord/PlayerListMessage.java:67-77 | Reads the reply as `Parse` says, including the escaping `NullPointerException`. |
| Messages.Msg.Class | messaging-lib-core/src/main/java/net/tmxx/messaginglib/core/message/MessageRegistry.java:61 | A message is a BungeeCord message exactly when its class is a sub-channel class. |
| Messages.Msg.Payload | messaging-lib-core/src/main/java/net/tmxx/messaginglib/core/message/MessageRegistry.java:61-64 | The fields of a BungeeCord message belong to the kind of its class. |
| Messages.GeneralMessage.constructor | messaging-lib-bukkit/src/main/java/net/tmxx/messaginglib/BukkitMessageManager.java:199 | A user message starts with its class name, whether the class has a public no-argument constructor, and an empty body. |
| Messages.GeneralMessage.Write | messaging-lib-core/src/main/java/net/tmxx/messaginglib/core/message/PluginMessage.java:305-309 | A user message's `write` appends its body. |
| Messages.GeneralMessage.Read | messaging-lib-core/src/main/java/net/tmxx/messaginglib/core/message/PluginMessage.java:311-315 | A user message's `read` takes the rest of the frame as its body. |
| Messages.BungeeCordFrame | messaging-lib-bukkit/src/main/java/net/tmxx/messaginglib/BukkitMessageManager.java:262-267 | A built BungeeCord frame goes on the BungeeCord channel and has a non-null sub-channel. |
| Messages.GeneralFrame | messaging-lib-bukkit/src/main/java/net/tmxx/messaginglib/BukkitMessageManager.java:268-271 | A general frame goes on the MessagingLib channel and is four bytes longer than the body. |
| Messages.MessageId | messaging-lib-core/src/main/java/net/tmxx/messaginglib/core/message/MessageRegistry.java:69 | The id of a general message class is its name's polynomial hash wrapped once to an `int`. |
| Messages.FrameOf | messaging-lib-bukkit/src/main/java/net/tmxx/messaginglib/BukkitMessageManager.java:257-277 | A general message always yields a frame; a frame travels on the BungeeCord channel exactly when its message is a BungeeCord message. |
| Messages.WriteBody | messaging-lib-bukkit/src/main/java/net/tmxx/messaginglib/BukkitMessageManager.java:266 | Calls the message's own `write`, which appends what `Emit` or the body says. |
| Messages.BuildFrame | messaging-lib-bukkit/src/main/java/net/tmxx/messaginglib/BukkitMessageManager.java:260-272 | Builds exactly the frame `FrameOf` describes, or none when an exception escapes the framing. |
| Messages.NewInstance | messaging-lib-bukkit/src/main/java/net/tmxx/messaginglib/BukkitMessageManager.java:199 | `getConstructor().newInstance()` gives a fresh message of the requested class in its initial state exactly when the class is instantiable; otherwise it throws `NoSuchMethodException` (no public no-argument constructor) or `InstantiationException` (the abstract base class). |
| Messages.ReadBody | messaging-lib-bukkit/src/main/java/net/tmxx/messaginglib/BukkitMessageManager.java:201 | Calls the message's own `read`, which parses the fields as `Parse` says or takes the rest of the frame. |
| Messages.GeneralFrameRoundTrip | messaging-lib-bukkit/src/main/java/net/tmxx/messaginglib/BukkitMessageManager.java:269-271 | A general frame starts with the id of its class name, and the body follows whole. |
| Messages.BungeeCordFrameRoundTrip | messaging-lib-bukkit/src/main/java/net/tmxx/messaginglib/BukkitMessageManager.java:265-266 | A BungeeCord frame starts with its sub-channel, and the request follows exactly as emitted. |
| Messages.RequestDeliveredWhole | messaging-lib-bukkit/src/main/java/net/tmxx/messaginglib/BukkitMessageManager.java:262-267 | A Connect or ConnectOther request sent on its sub-channel and read by a fresh instance gives back the same fields. |
| Messages.NullSubChannelNotSent | messaging-lib-bukkit/src/main/java/net/tmxx/messaginglib/BukkitMessageManager.java:265 | A message whose sub-channel is `null` is never sent. |
| MessageRegistries.MessageRegistry.constructor | messaging-lib-core/src/main/java/net/tmxx/messaginglib/core/message/MessageRegistry.java:43-49 | Both maps start empty. |
| MessageRegistries.MessageRegistry.RegisterMessage | messaging-lib-core/src/main/java/net/tmxx/messaginglib/core/message/MessageRegistry.java:60-81 | A BungeeCord message replaces the entry under its sub-channel and is accepted; a general message is accepted only when its id is free; nothing else changes. |
| MessageRegistries.MessageRegistry.UnregisterMessage | messaging-lib-core/src/main/java/net/tmxx/messaginglib/core/message/MessageRegistry.java:90-111 | Removes whatever sits under the message's key and reports whether anything was there. |
| MessageRegistries.MessageRegistry.GetBungeeCordMessage | messaging-lib-core/src/main/java/net/tmxx/messaginglib/core/message/MessageRegistry.java:128-130 | A message comes back exactly when one is registered under the sub-channel, and it is a BungeeCord message. |
| MessageRegistries.MessageRegistry.IsBungeeCordMessageRegistered | messaging-lib-core/src/main/java/net/tmxx/messaginglib/core/message/MessageRegistry.java:119-121 | A sub-channel is registered exactly when the registry holds a class under it, and that class is a predefined BungeeCord one. |
| MessageRegistries.MessageRegistry.GetPluginMessage | messaging-lib-core/src/main/java/net/tmxx/messaginglib/core/message/MessageRegistry.java:147-149 | A message comes back exactly when one is registered under the id, and it is a general message. |
| MessageRegistries.MessageRegistry.IsPluginMessageRegistered | messaging-lib-core/src/main/java/net/tmxx/messaginglib/core/message/MessageRegistry.java:138-140 | An id is registered exactly when the registry holds a class under it, and that class is a general one. |
| MessageRegistries.MessageRegistry.RegisterFresh | messaging-lib-core/src/main/java/net/tmxx/messaginglib/core/message/MessageRegistry.java:157 | One predefined kind becomes registered, and every other entry and registration stays. |
| MessageRegistries.MessageRegistry.RegisterAllBungeeCordMessages | messaging-lib-core/src/main/java/net/tmxx/messaginglib/core/message/MessageRegistry.java:156-164 | Every predefined kind ends up registered under its own sub-channel; entries under other keys and all general messages stay. |
| Listeners.KeyOf | messaging-lib-bukkit/src/main/java/net/tmxx/messaginglib/BukkitMessageManager.java:74-99 | Only an annotated (message, player) method gets a key: the sub-channel of a fresh instance or the hash of the class name. |
| Listeners.Table.Add | messaging-lib-bukkit/src/main/java/net/tmxx/messaginglib/BukkitMessageManager.java:80-86 | Appends the handler under its key and leaves every other key alone. |
| Listeners.Register | messaging-lib-bukkit/src/main/java/net/tmxx/messaginglib/BukkitMessageManager.java:72-106 | Registration can throw only `InvalidListenerException`. |
| Listeners.FirstMalformed | messaging-lib-bukkit/src/main/java/net/tmxx/messaginglib/BukkitMessageManager.java:101-103 | The position of the first annotated method without two parameters. |
| Listeners.RegisterAppends | messaging-lib-bukkit/src/main/java/net/tmxx/messaginglib/BukkitMessageManager.java:72-106 | Registration appends under every key exactly the handlers that come before the first malformed method in the order reflection returns the methods, keeping that order, and throws exactly when there is a malformed method. |
| Listeners.MalformedKeepsEarlier | messaging-lib-bukkit/src/main/java/net/tmxx/messaginglib/BukkitMessageManager.java:97-103 | A malformed method throws but leaves the handler filed before it registered. |
| Listeners.RegisterEach | messaging-lib-bukkit/src/main/java/net/tmxx/messaginglib/BukkitMessageManager.java:73-105 | The registration loop leaves the maps and the exception that `Register` describes. |
| Listeners.Without | messaging-lib-bukkit/src/main/java/net/tmxx/messaginglib/BukkitMessageManager.java:132-137 | Removal keeps exactly the handlers that do not match, in order. |
| Listeners.WithoutAll | messaging-lib-bukkit/src/main/java/net/tmxx/messaginglib/BukkitMessageManager.java:129-138 | Removal from every list keeps every key. |
| Listeners.Unregister | messaging-lib-bukkit/src/main/java/net/tmxx/messaginglib/BukkitMessageManager.java:127-151 | Every key's list loses exactly its matching handlers. |
| Listeners.WithoutConcat | messaging-lib-bukkit/src/main/java/net/tmxx/messaginglib/BukkitMessageManager.java:132-137 | Removal from two lists joined is removal from each. |
| Listeners.WithoutNothing | messaging-lib-bukkit/src/main/java/net/tmxx/messaginglib/BukkitMessageManager.java:132-137 | Removing handlers that are not there changes nothing. |
| Listeners.WithoutEverything | messaging-lib-bukkit/src/main/java/net/tmxx/messaginglib/BukkitMessageManager.java:158-182 | A list of only matching handlers becomes empty. |
| Listeners.UnregisterUndoesRegister | messaging-lib-bukkit/src/main/java/net/tmxx/messaginglib/BukkitMessageManager.java:127-151 | Unregistering a listener or a plugin that had no handlers before undoes its registration, key by key. |
| Listeners.WithoutIdempotent | messaging-lib-bukkit/src/main/java/net/tmxx/messaginglib/BukkitMessageManager.java:127-151 | Unregistering twice is unregistering once. |
| Listeners.RemoveMatching | messaging-lib-bukkit/src/main/java/net/tmxx/messaginglib/BukkitMessageManager.java:130-137 | The iterator loop over one list leaves what `Without` describes. |
| Listeners.RemoveFromAll | messaging-lib-bukkit/src/main/java/net/tmxx/messaginglib/BukkitMessageManager.java:129-138 | The loop over a map's keys leaves what `WithoutAll` describes. |
| Listeners.Fails | messaging-lib-bukkit/src/main/java/net/tmxx/messaginglib/BukkitMessageManager.java:204-210 | A handler in the throwing set fails; a handler whose parameter takes the message's class fails exactly when it throws. |
| Listeners.Run | messaging-lib-bukkit/src/main/java/net/tmxx/messaginglib/BukkitMessageManager.java:203-211 | A dispatch can only end with `PluginMessageEventException`. |
| Listeners.RunStops | messaging-lib-bukkit/src/main/java/net/tmxx/messaginglib/BukkitMessageManager.java:204-210 | All handlers run when none fails; otherwise exactly those up to and including the first that fails, and the dispatch throws. |
| Listeners.InvokeHandlers | messaging-lib-bukkit/src/main/java/net/tmxx/messaginglib/BukkitMessageManager.java:204-210 | The handler loop runs the handlers and throws as `Run` describes. |
| Dispatch.Deliver | messaging-lib-bukkit/src/main/java/net/tmxx/messaginglib/BukkitMessageManager.java:259 | A frame goes out exactly when there is a player, the player is online where the platform checks it, and framing did not throw. |
| Dispatch.Sends | messaging-lib-bukkit/src/main/java/net/tmxx/messaginglib/BukkitMessageManager.java:257-277 | What goes out is addressed to the given player, on the channel of the message's kind. |
| Dispatch.FirstPlayer | messaging-lib-bukkit/src/main/java/net/tmxx/messaginglib/BukkitMessageManager.java:287-288 | There is a first player exactly when someone is online. |
| Dispatch.DeliverAll | messaging-lib-bukkit/src/main/java/net/tmxx/messaginglib/BukkitMessageManager.java:298-300 | A run of sends hands over at most one frame per message. |
| Dispatch.DeliverAllToNobody | messaging-lib-bukkit/src/main/java/net/tmxx/messaginglib/BukkitMessageManager.java:257-259 | Without a player nothing is handed over. |
| Dispatch.DeliverAllInOrder | messaging-lib-bukkit/src/main/java/net/tmxx/messaginglib/BukkitMessageManager.java:297-303 | Frames that were all built reach an online player one for one and in order; an offline player receives nothing. |
| Dispatch.SendTo | messaging-lib-bukkit/src/main/java/net/tmxx/messaginglib/BukkitMessageManager.java:257-277 | Hands over exactly what `Sends` describes. |
| Dispatch.ReceivePluginMessage | messaging-lib-bukkit/src/main/java/net/tmxx/messaginglib/BukkitMessageManager.java:190-215 | A frame too short for the id, an unregistered id, or a registered class without a public no-argument constructor is dropped before any handler runs; otherwise a fresh instance of the registered class takes the rest of the frame and the handlers under the id run as `Run` says. |
| Dispatch.ReceiveBungeeCordMessage | messaging-lib-bukkit/src/main/java/net/tmxx/messaginglib/BukkitMessageManager.java:223-249 | An unreadable header or an unregistered sub-channel is dropped; otherwise a fresh instance parses its fields, and the handlers run unless its `read` threw. |
| BukkitMessageManagers.BukkitMessageManager.constructor | messaging-lib-bukkit/src/main/java/net/tmxx/messaginglib/BukkitMessageManager.java:54-64 | No listeners, an empty back log, and nothing sent. |
| BukkitMessageManagers.BukkitMessageManager.RegisterListener | messaging-lib-bukkit/src/main/java/net/tmxx/messaginglib/BukkitMessageManager.java:72-106 | The maps change exactly as `Register` describes; the back log stays. |
| BukkitMessageManagers.BukkitMessageManager.UnregisterListener | messaging-lib-bukkit/src/main/java/net/tmxx/messaginglib/BukkitMessageManager.java:127-151 | The maps change exactly as `Unregister` by listener describes. |
| BukkitMessageManagers.BukkitMessageManager.UnregisterListeners | messaging-lib-bukkit/src/main/java/net/tmxx/messaginglib/BukkitMessageManager.java:158-182 | The maps change exactly as `Unregister` by plugin describes. |
| BukkitMessageManagers.BukkitMessageManager.HandleIncomingMessage | messaging-lib-bukkit/src/main/java/net/tmxx/messaginglib/BukkitMessageManager.java:190-215 | As `ReceivePluginMessage`, on this manager's handlers: dropped for a short frame, an unregistered id or a class without a public no-argument constructor. |
| BukkitMessageManagers.BukkitMessageManager.HandleIncomingBungeeCordMessage | messaging-lib-bukkit/src/main/java/net/tmxx/messaginglib/BukkitMessageManager.java:223-249 | As `ReceiveBungeeCordMessage`, on this manager's handlers. |
| BukkitMessageManagers.BukkitMessageManager.SendPluginMessageTo | messaging-lib-bukkit/src/main/java/net/tmxx/messaginglib/BukkitMessageManager.java:257-277 | Sends the frame to the player only when there is one and it is online. |
| BukkitMessageManagers.BukkitMessageManager.SendPluginMessage | messaging-lib-bukkit/src/main/java/net/tmxx/messaginglib/BukkitMessageManager.java:286-292 | Sends to the first online player, or appends the message to the back log when nobody is online. |
| BukkitMessageManagers.BukkitMessageManager.ResolveBackLog | messaging-lib-bukkit/src/main/java/net/tmxx/messaginglib/BukkitMessageManager.java:297-303 | With someone online, every queued message is sent to the first player in order and the back log is emptied. With nobody online and a non-empty back log, `ConcurrentModificationException` is thrown and the first message is queued a second time. |
| BungeeCordMessageManagers.BungeeCordMessageManager.constructor | messaging-lib-bungeecord/src/main/java/net/tmxx/messaginglib/BungeeCordMessageManager.java:52-57 | No listeners and nothing sent. |
| BungeeCordMessageManagers.BungeeCordMessageManager.RegisterListener | messaging-lib-bungeecord/src/main/java/net/tmxx/messaginglib/BungeeCordMessageManager.java:65-99 | The maps change exactly as `Register` describes. |
| BungeeCordMessageManagers.BungeeCordMessageManager.UnregisterListener | messaging-lib-bungeecord/src/main/java/net/tmxx/messaginglib/BungeeCordMessageManager.java:119-143 | The maps change exactly as `Unregister` by listener describes. |
| BungeeCordMessageManagers.BungeeCordMessageManager.UnregisterListeners | messaging-lib-bungeecord/src/main/java/net/tmxx/messaginglib/BungeeCordMessageManager.java:150-174 | The maps change exactly as `Unregister` by plugin describes. |
| BungeeCordMessageManagers.BungeeCordMessageManager.HandleIncomingMessage | messaging-lib-bungeecord/src/main/java/net/tmxx/messaginglib/BungeeCordMessageManager.java:182-207 | As `ReceivePluginMessage`, on this manager's handlers: dropped for a short frame, an unregistered id or a class without a public no-argument constructor. |
| BungeeCordMessageManagers.BungeeCordMessageManager.HandleIncomingBungeeCordMessage | messaging-lib-bungeecord/src/main/java/net/tmxx/messaginglib/BungeeCordMessageManager.java:215-240 | As `ReceiveBungeeCordMessage`, on this manager's handlers. |
| BungeeCordMessageManagers.BungeeCordMessageManager.SendPluginMessageTo | messaging-lib-bungeecord/src/main/java/net/tmxx/messaginglib/BungeeCordMessageManager.java:248-268 | Sends the frame to any player given, without asking whether it is connected. |
| BungeeCordMessageManagers.BungeeCordMessageManager.SendPluginMessage | messaging-lib-bungeecord/src/main/java/net/tmxx/messaginglib/BungeeCordMessageManager.java:279-281 | Does nothing on the proxy. |

## Left out

- `writeFloat`/`writeDouble`/`readFloat`/`readDouble` (messaging-lib-core/src/main/java/net/tmxx/messaginglib/core/message/PluginMessage.java:117-129 and 260-280): floating point is not modelled.
- The `Charset` overloads of `writeString`/`readString` are modelled only with UTF-8, the charset the other overloads pass.
- Utf8.Decode: agrees with Java's decoder on well-formed input, on a complete three-byte encoding of a surrogate (one U+FFFD for all three bytes), on a lead byte with no valid continuation and on a stray continuation byte. For a multi-byte sequence that breaks off after a valid second byte, Java emits one U+FFFD for the sequence and the model emits one per byte.
- `readString` with a huge length prefix can throw `OutOfMemoryError` when allocating the array. The model allocates nothing.
- Reflection is abstracted:
  - A listener's declared methods are `HandlerMethod` values (name, annotation, parameter types), in the order `getDeclaredMethods()` returns them. Java leaves that order unspecified; the model takes it as given.
  - `isAssignableFrom` between user message classes is not modelled. A handler's first parameter is an exact class, and the player parameter is `PlayerParam`.
- What a handler does is not modelled. Which handlers throw is the `throwing` parameter of the dispatch methods, and the player argument handed to handlers is dropped.
- `printStackTrace` and the other logging are left out.
- GetServersMessage is not part of this model, so `registerAllBungeeCordMessages` registers the six messages shown.
- User subclasses of `BungeeCordMessage` are not modelled. A message is one of the six predefined ones or a general message.
- A general message's own `write` and `read` are abstracted: `write` emits its body bytes and `read` takes the rest of the frame.
- BungeeCordMessages.PlayerListMessage.Read: the player list is a value. In Java, `read` clears and refills the `List` object the all-arguments constructor was given, so the caller sees the new names through its own reference, and an unmodifiable list makes `clear()` throw `UnsupportedOperationException`, which escapes `catch (IOException e)`. The model's `Read` always stores the new names and never throws that exception.
- Lombok's generated `equals`, `hashCode`, `toString` and getters are left out. The base class's all-arguments constructor is modelled only through the six subclasses' `WithFields` constructors, which leave the sub-channel `null`.
- The deprecated `registerListeners(path, origin)` does nothing in either manager and is not modelled.
- The host platform is passed in as parameters:
  - `Bukkit.getOnlinePlayers()` is the `online` parameter;
  - `MessagingLib.getMessageRegistry()` is the `registry` parameter;
  - `Player.sendPluginMessage`/`ProxiedPlayer.sendData` become entries appended to the manager's `sent` field.
- The listener lists of the managers are sequence values, so the aliasing of Java's `ArrayList` objects between maps is not captured. No operation of the core shares a list between two keys.
- BukkitMessageManagers.BukkitMessageManager.ResolveBackLog: the `ArrayList` iterator's modification count is modelled by the list's size. That is exact here, because nothing removes from the back log while it is iterated.
- Concurrency: the managers are used from one thread and the model has none.

## Findings

| source | as written | input that shows it | evidently intended | confidence | as-written member | corrected member |
|---|---|---|---|---|---|---|
| messaging-lib-core/src/main/java/net/tmxx/messaginglib/core/message/PluginMessage.java:86-89 | `writeString` prefixes `value.length()`, the number of UTF-16 units, but writes the UTF-8 bytes; `readString` then reads that many bytes | "é" (U+00E9): prefix 1, body C3 A9; it reads back as U+FFFD and leaves A9 in the stream for the next field | the prefix counts the bytes written, so every well-formed string comes back | high, not executed | Codec.NonAsciiStringMisread | Codec.CorrectedStringRoundTrip |
| messaging-lib-core/src/main/java/net/tmxx/messaginglib/core/message/PluginMessage.java:214-217 | `readString` treats `read(payload) == -1` as an error, but a byte-array stream answers -1 at its end even for an empty array | the empty string as the last field: bytes 00 00 00 00; `readString` throws `IOException` | an empty body needs no bytes (`readFully`), so "" comes back wherever it sits | high, not executed | Codec.EmptyStringAtEnd | Codec.CorrectedStringRoundTrip |
