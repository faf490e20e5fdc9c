/** HandshakeResponse41: the cursor, the parser and its inverse. */
module Handshake {
  import opened Wrappers
  import opened Bits
  import opened Bytes
  import opened LengthEncoding

  // ---------------------------------------------------------------- capabilities

  /** A capability word is the set of its bit numbers. */
  type Capabilities = set<nat>

  const ConnectWithDB: nat := 3
  const Compress: nat := 5
  const Protocol41: nat := 9
  const SSL: nat := 11
  const SecureConnection: nat := 15
  const PluginAuth: nat := 19
  const ConnectAttrs: nat := 20
  const PluginAuthLenenc: nat := 21
  const Zstd: nat := 26

  /** FoundRows, LocalFiles, SSL, MultiStatements, MultiResults, PSMultiResults, SessionTrack, RememberOptions. */
  const PermittedClientOnly: Capabilities := {1, 7, SSL, 16, 17, 18, 23, 31}

  const Required: Capabilities := {Protocol41, SecureConnection, PluginAuth}

  function BitsOf(word: nat): Capabilities {
    set k: nat | k < 32 && BitOf(word, k)
  }

  function WordOf(capabilities: Capabilities): (n: nat)
    ensures n < Pow256(4)
  {
    var flags := seq(32, k => k in capabilities);
    WordWidth();
    Pack(flags)
  }

  lemma WordWidth()
    ensures Pow2(32) == Pow256(4)
  {
    Widths();
    assert Pow2(8) == 0x100;
    assert Pow2(16) == 0x1_0000;
    assert Pow2(24) == 0x100_0000;
  }

  lemma BitsOfWord(capabilities: Capabilities)
    requires forall k | k in capabilities :: k < 32
    ensures BitsOf(WordOf(capabilities)) == capabilities
  {
    hide BitOf, Pack;
    var flags := seq(32, k => k in capabilities);
    forall k: nat | k < 32
      ensures k in BitsOf(WordOf(capabilities)) <==> k in capabilities
    {
      BitOfPack(flags, k);
    }
  }

  datatype Config = Config(capabilities: Capabilities, authPlugin: bytes, maxAttributesBytes: nat)

  datatype Refusal = Malformed | UnsupportedCapability | UnsupportedCharset

  predicate SupportedCharset(charset: uint8) { charset in {8, 33, 45, 46, 224, 255} }

  function Validate(config: Config, client: Capabilities, charset: uint8): Option<Refusal> {
    if !(Required <= client) then Some(UnsupportedCapability)
    else if Compress in client || Zstd in client then Some(UnsupportedCapability)
    else if client - config.capabilities - PermittedClientOnly != {} then Some(UnsupportedCapability)
    else if !SupportedCharset(charset) then Some(UnsupportedCharset)
    else None
  }

  // ---------------------------------------------------------------- the pieces

  /** The first NUL at or after the offset, or the end. */
  function NulFrom(data: bytes, offset: nat): (i: nat)
    requires offset <= |data|
    ensures offset <= i <= |data|
    ensures i < |data| ==> data[i] == 0
    ensures forall j | offset <= j < i :: data[j] != 0
    decreases |data| - offset
  {
    if offset == |data| || data[offset] == 0 then offset else NulFrom(data, offset + 1)
  }

  function Terminated(data: bytes, offset: nat): (r: Option<At<bytes>>)
    requires offset <= |data|
    ensures r.Some? ==> offset < r.value.next <= |data|
  {
    var i := NulFrom(data, offset);
    if i == |data| then None else Some(At(data[offset..i], i + 1))
  }

  function AuthAt(client: Capabilities, data: bytes, offset: nat): (r: Option<At<bytes>>)
    requires offset <= |data|
    ensures r.Some? ==> offset <= r.value.next <= |data|
  {
    if PluginAuthLenenc in client then CursorBytes(data, offset)
    else if SecureConnection in client then
      if offset == |data| then None else CursorTake(data, offset + 1, data[offset])
    else Terminated(data, offset)
  }

  /** A field that is there only when its capability is. */
  function NameAt(present: bool, data: bytes, offset: nat): (r: Option<At<bytes>>)
    requires offset <= |data|
    ensures r.Some? ==> offset <= r.value.next <= |data|
  {
    if present then Terminated(data, offset) else Some(At([], offset))
  }

  type Attributes = map<bytes, bytes>

  function ReadAttributes(data: bytes, offset: nat, read: Attributes): Option<Attributes>
    requires offset <= |data|
    decreases |data| - offset
  {
    if offset == |data| then Some(read)
    else
      var key := CursorBytes(data, offset);
      if key.None? then None
      else
        var value := CursorBytes(data, key.value.next);
        if value.None? || key.value.value == [] then None
        else ReadAttributes(data, value.value.next, read[key.value.value := value.value.value])
  }

  function AttributesAt(config: Config, client: Capabilities, data: bytes, offset: nat): (r: Option<At<Attributes>>)
    requires offset <= |data|
    ensures r.Some? ==> offset <= r.value.next <= |data|
  {
    if ConnectAttrs !in client then Some(At(map[], offset))
    else
      var block := CursorBytes(data, offset);
      if block.None? || |block.value.value| > config.maxAttributesBytes then None
      else
        var read := ReadAttributes(block.value.value, 0, map[]);
        if read.None? then None else Some(At(read.value, block.value.next))
  }

  // ---------------------------------------------------------------- the parser

  datatype Response = Response(
    clientCapabilities: Capabilities, negotiated: Capabilities, maxPacketBytes: nat, charset: uint8,
    username: bytes, authResponse: bytes, database: bytes, authPlugin: bytes, attributes: Attributes, wantsTLS: bool)

  datatype Names = Names(username: bytes, auth: bytes, database: bytes, plugin: bytes)

  function NamesAt(client: Capabilities, data: bytes, offset: nat): (r: Option<At<Names>>)
    requires offset <= |data|
    ensures r.Some? ==> offset <= r.value.next <= |data|
  {
    var username := Terminated(data, offset);
    if username.None? then None else
    var auth := AuthAt(client, data, username.value.next);
    if auth.None? then None else
    var database := NameAt(ConnectWithDB in client, data, auth.value.next);
    if database.None? then None else
    var plugin := NameAt(PluginAuth in client, data, database.value.next);
    if plugin.None? then None else
    Some(At(Names(username.value.value, auth.value.value, database.value.value, plugin.value.value), plugin.value.next))
  }

  function Parse(config: Config, payload: bytes): (r: Result<Response, Refusal>)
    ensures r.Success? ==> Validate(config, r.value.clientCapabilities, r.value.charset).None?
  {
    if |payload| < 32 then Failure(Malformed)
    else
      var client, charset := BitsOf(FromLE(payload[..4])), payload[8];
      var refusal := Validate(config, client, charset);
      if refusal.Some? then Failure(refusal.value)
      else
        var r := Response(client, client * config.capabilities, FromLE(payload[4..8]), charset, [], [], [], [], map[], false);
        if |payload| == 32 && SSL in client then
          if SSL !in config.capabilities then Failure(UnsupportedCapability) else Success(r.(wantsTLS := true))
        else ParseRest(config, r, payload)
  }

  function ParseRest(config: Config, r: Response, payload: bytes): (s: Result<Response, Refusal>)
    requires |payload| >= 32
    ensures s.Success? ==> s.value.clientCapabilities == r.clientCapabilities && s.value.charset == r.charset
  {
    var names := NamesAt(r.clientCapabilities, payload, 32);
    if names.None? then Failure(Malformed)
    else
      var attributes := AttributesAt(config, r.clientCapabilities, payload, names.value.next);
      if attributes.None? || attributes.value.next != |payload| then Failure(Malformed)
      else
        var n := names.value.value;
        Success(r.(username := n.username, authResponse := n.auth, database := n.database,
          authPlugin := if n.plugin == [] then config.authPlugin else n.plugin, attributes := attributes.value.value))
  }

  // ---------------------------------------------------------------- the client
  // Bit numbers as the protocol gives them: 3 a database, 9 the protocol, 11 TLS, 15 and 19 authentication, 20 attributes,
  // 21 length-encoded authentication data.

  /** What a client sends. */
  datatype Login = Login(
    capabilities: Capabilities, maxPacketBytes: uint32, charset: uint8, filler: bytes,
    names: Names, attributes: seq<(bytes, bytes)>)

  predicate NulFree(s: bytes) { forall i | 0 <= i < |s| :: s[i] != 0 }

  function NameWire(present: bool, name: bytes): bytes {
    if present then name + [0] else []
  }

  function AuthWire(client: Capabilities, auth: bytes): bytes
    requires |auth| <= MaxLength && (21 !in client ==> |auth| <= 255)
  {
    if 21 in client then EncodeBytes(auth) else [|auth|] + auth
  }

  predicate PairsFit(pairs: seq<(bytes, bytes)>) {
    forall i | 0 <= i < |pairs| :: |pairs[i].0| <= MaxLength && |pairs[i].1| <= MaxLength
  }

  predicate AllKeyed(pairs: seq<(bytes, bytes)>) {
    forall i | 0 <= i < |pairs| :: pairs[i].0 != []
  }

  function PairsWire(pairs: seq<(bytes, bytes)>): bytes
    requires PairsFit(pairs)
  {
    if pairs == [] then [] else EncodeBytes(pairs[0].0) + (EncodeBytes(pairs[0].1) + PairsWire(pairs[1..]))
  }

  function AttributesWire(client: Capabilities, pairs: seq<(bytes, bytes)>): bytes
    requires PairsFit(pairs) && |PairsWire(pairs)| <= MaxLength
  {
    if 20 in client then EncodeBytes(PairsWire(pairs)) else []
  }

  /** Pairs taken in order, so that the last one for a key stays. */
  function Collected(pairs: seq<(bytes, bytes)>, read: Attributes): Attributes {
    if pairs == [] then read else Collected(pairs[1..], read[pairs[0].0 := pairs[0].1])
  }

  predicate NamesFit(client: Capabilities, names: Names) {
    && NulFree(names.username) && NulFree(names.database) && NulFree(names.plugin)
    && |names.auth| <= MaxLength && (21 !in client ==> |names.auth| <= 255)
    && (3 !in client ==> names.database == []) && (19 !in client ==> names.plugin == [])
  }

  predicate Sendable(l: Login) {
    && (forall k | k in l.capabilities :: k < 32)
    && |l.filler| == 23
    && NamesFit(l.capabilities, l.names)
    && PairsFit(l.attributes)
    && |PairsWire(l.attributes)| <= MaxLength
    && (20 !in l.capabilities ==> l.attributes == [])
  }

  function NamesWire(client: Capabilities, names: Names): bytes
    requires NamesFit(client, names)
  {
    names.username + [0] + (AuthWire(client, names.auth)
      + (NameWire(3 in client, names.database) + NameWire(19 in client, names.plugin)))
  }

  function HeaderWire(l: Login): bytes {
    LE(WordOf(l.capabilities), 4) + LE(l.maxPacketBytes, 4) + [l.charset] + l.filler
  }

  function Wire(l: Login): bytes
    requires Sendable(l)
  {
    HeaderWire(l) + (NamesWire(l.capabilities, l.names) + AttributesWire(l.capabilities, l.attributes))
  }

  /** The protocol and authentication bits asked for, no compression, and nothing else that the server does not offer or ignore. */
  predicate Negotiable(config: Config, client: Capabilities) {
    && 9 in client && 15 in client && 19 in client && 5 !in client && 26 !in client
    && forall k | k in client :: k in config.capabilities || k in {1, 7, 11, 16, 17, 18, 23, 31}
  }

  predicate KnownCharset(charset: uint8) {
    charset == 8 || charset == 33 || charset == 45 || charset == 46 || charset == 224 || charset == 255
  }

  lemma ValidateIff(config: Config, client: Capabilities, charset: uint8)
    ensures Validate(config, client, charset) ==
              if !Negotiable(config, client) then Some(UnsupportedCapability)
              else if !KnownCharset(charset) then Some(UnsupportedCharset) else None
  {
    if Required <= client { assert {9, 15, 19} == Required; }
    if 9 in client && 15 in client && 19 in client { assert Required <= client; }
    var left := client - config.capabilities - PermittedClientOnly;
    if left == {} {
      forall k | k in client
        ensures k in config.capabilities || k in {1, 7, 11, 16, 17, 18, 23, 31}
      {
        assert k !in left;
      }
    } else {
      var k :| k in left;
      assert k in client && k !in config.capabilities && k !in PermittedClientOnly;
    }
  }

  /** Attributes, if any are sent, keep to the limit and have keys. */
  predicate AttributesWelcome(config: Config, client: Capabilities, pairs: seq<(bytes, bytes)>)
    requires PairsFit(pairs)
  {
    20 in client ==> |PairsWire(pairs)| <= config.maxAttributesBytes && AllKeyed(pairs)
  }

  /** What the gateway is to learn from a login, or why it is to refuse it. */
  function Learned(config: Config, l: Login): Result<Response, Refusal>
    requires Sendable(l)
  {
    if !Negotiable(config, l.capabilities) then Failure(UnsupportedCapability)
    else if !KnownCharset(l.charset) then Failure(UnsupportedCharset)
    else if !AttributesWelcome(config, l.capabilities, l.attributes) then Failure(Malformed)
    else Success(Response(l.capabilities, l.capabilities * config.capabilities, l.maxPacketBytes, l.charset,
      l.names.username, l.names.auth, l.names.database,
      if l.names.plugin == [] then config.authPlugin else l.names.plugin, Collected(l.attributes, map[]), false))
  }

  // ---------------------------------------------------------------- inversion

  lemma TerminatedStands(data: bytes, offset: nat, name: bytes)
    requires NulFree(name) && Stands(data, offset, name + [0])
    ensures Terminated(data, offset) == Some(At(name, offset + |name| + 1))
  {
    StandsSplit(data, offset, name, [0]);
    StandsFirst(data, offset + |name|, [0]);
    assert forall i | offset <= i < offset + |name| :: data[i] == data[offset..offset + |name|][i - offset];
  }

  lemma NameStands(present: bool, data: bytes, offset: nat, name: bytes)
    requires NulFree(name) && (!present ==> name == []) && offset <= |data|
    requires Stands(data, offset, NameWire(present, name))
    ensures NameAt(present, data, offset) == Some(At(name, offset + |NameWire(present, name)|))
  {
    if present {
      TerminatedStands(data, offset, name);
    }
  }

  lemma AuthStands(client: Capabilities, data: bytes, offset: nat, auth: bytes)
    requires SecureConnection in client && |data| <= MaxLength
    requires |auth| <= MaxLength && (PluginAuthLenenc !in client ==> |auth| <= 255)
    requires Stands(data, offset, AuthWire(client, auth))
    ensures AuthAt(client, data, offset) == Some(At(auth, offset + |AuthWire(client, auth)|))
  {
    hide CursorBytes, PreparedBytes;
    if PluginAuthLenenc in client {
      BytesStand(data, offset, auth);
    } else {
      StandsSplit(data, offset, [|auth|], auth);
      StandsFirst(data, offset, [|auth|]);
    }
  }

  lemma NamesPlaced(client: Capabilities, data: bytes, offset: nat, names: Names)
    requires NamesFit(client, names) && Stands(data, offset, NamesWire(client, names))
    ensures var a := AuthWire(client, names.auth);
            var d := NameWire(ConnectWithDB in client, names.database);
            var p := NameWire(PluginAuth in client, names.plugin);
            var at := offset + |names.username| + 1;
            && Stands(data, offset, names.username + [0])
            && Stands(data, at, a) && Stands(data, at + |a|, d) && Stands(data, at + |a| + |d|, p)
            && at + |a| + |d| + |p| == offset + |NamesWire(client, names)|
  {
    hide AuthWire, NameWire, NulFree;
    var a, d, p := AuthWire(client, names.auth), NameWire(ConnectWithDB in client, names.database), NameWire(PluginAuth in client, names.plugin);
    var u := names.username + [0];
    StandsSplit(data, offset, u, a + (d + p));
    StandsSplit(data, offset + |u|, a, d + p);
    StandsSplit(data, offset + |u| + |a|, d, p);
  }

  lemma NamesStand(client: Capabilities, data: bytes, offset: nat, names: Names)
    requires SecureConnection in client && |data| <= MaxLength && NamesFit(client, names)
    requires Stands(data, offset, NamesWire(client, names))
    ensures NamesAt(client, data, offset) == Some(At(names, offset + |NamesWire(client, names)|))
  {
    hide Terminated, AuthAt, NameAt, AuthWire, NameWire, NulFree, NamesWire;
    NamesPlaced(client, data, offset, names);
    var a, d := AuthWire(client, names.auth), NameWire(ConnectWithDB in client, names.database);
    var at := offset + |names.username| + 1;
    TerminatedStands(data, offset, names.username);
    AuthStands(client, data, at, names.auth);
    NameStands(ConnectWithDB in client, data, at + |a|, names.database);
    NameStands(PluginAuth in client, data, at + |a| + |d|, names.plugin);
  }

  lemma {:induction false} PairsStand(data: bytes, offset: nat, pairs: seq<(bytes, bytes)>, read: Attributes)
    requires PairsFit(pairs) && |data| <= MaxLength
    requires offset + |PairsWire(pairs)| == |data| && Stands(data, offset, PairsWire(pairs))
    ensures ReadAttributes(data, offset, read) == if AllKeyed(pairs) then Some(Collected(pairs, read)) else None
    decreases |pairs|
  {
    hide CursorBytes, PreparedBytes, EncodeBytes;
    if pairs != [] {
      var key, value, rest := EncodeBytes(pairs[0].0), EncodeBytes(pairs[0].1), PairsWire(pairs[1..]);
      StandsSplit(data, offset, key, value + rest);
      StandsSplit(data, offset + |key|, value, rest);
      BytesStand(data, offset, pairs[0].0);
      BytesStand(data, offset + |key|, pairs[0].1);
      assert AllKeyed(pairs) <==> pairs[0].0 != [] && AllKeyed(pairs[1..]);
      PairsStand(data, offset + |key| + |value|, pairs[1..], read[pairs[0].0 := pairs[0].1]);
    }
  }

  lemma AttributesStand(config: Config, client: Capabilities, data: bytes, offset: nat, pairs: seq<(bytes, bytes)>)
    requires PairsFit(pairs) && |PairsWire(pairs)| <= MaxLength
    requires 20 !in client ==> pairs == []
    requires offset <= |data| <= MaxLength && Stands(data, offset, AttributesWire(client, pairs))
    ensures AttributesAt(config, client, data, offset)
      == if !AttributesWelcome(config, client, pairs) then None
         else Some(At(Collected(pairs, map[]), offset + |AttributesWire(client, pairs)|))
  {
    hide CursorBytes, PreparedBytes, EncodeBytes, PairsWire, ReadAttributes;
    if ConnectAttrs in client {
      var block := PairsWire(pairs);
      BytesStand(data, offset, block);
      StandsWhole(block);
      PairsStand(block, 0, pairs, map[]);
    }
  }

  lemma HeaderStands(data: bytes, l: Login)
    requires |l.filler| == 23 && Stands(data, 0, HeaderWire(l)) && (forall k | k in l.capabilities :: k < 32)
    ensures |HeaderWire(l)| == 32 <= |data|
    ensures BitsOf(FromLE(data[..4])) == l.capabilities && FromLE(data[4..8]) == l.maxPacketBytes && data[8] == l.charset
  {
    hide LE, FromLE, WordOf, BitsOf;
    Widths();
    var e, word := HeaderWire(l), WordOf(l.capabilities);
    StandsSlice(data, 0, e, 0, 4);
    StandsSlice(data, 0, e, 4, 8);
    StandsSlice(data, 0, e, 8, 9);
    assert e[0..4] == LE(word, 4) && e[4..8] == LE(l.maxPacketBytes, 4) && e[8] == l.charset;
    assert data[..4] == data[0..4] && data[8..9][0] == data[8] == e[8..9][0];
    FromLEOfLE(word, 4);
    FromLEOfLE(l.maxPacketBytes, 4);
    BitsOfWord(l.capabilities);
  }

  /** `ParseResponse` inverts the client's encoding: it learns every field, or refuses what cannot be negotiated. */
  lemma ParseInverts(config: Config, l: Login)
    requires Sendable(l) && |Wire(l)| <= MaxLength
    ensures Parse(config, Wire(l)) == Learned(config, l)
  {
    hide HeaderWire, NamesWire, AttributesWire, NamesAt, AttributesAt, Collected, PairsFit, PairsWire, BitsOf, FromLE, NamesFit, Validate, KnownCharset, AttributesWelcome;
    var data := Wire(l);
    var h, n, a := HeaderWire(l), NamesWire(l.capabilities, l.names), AttributesWire(l.capabilities, l.attributes);
    StandsWhole(data);
    StandsSplit(data, 0, h, n + a);
    StandsSplit(data, |h|, n, a);
    HeaderStands(data, l);
    ValidateIff(config, l.capabilities, l.charset);
    NamesNotEmpty(l.capabilities, l.names);
    if Negotiable(config, l.capabilities) {
      NamesStand(l.capabilities, data, 32, l.names);
      AttributesStand(config, l.capabilities, data, 32 + |n|, l.attributes);
    }
  }

  /** The header alone is a request for TLS if bit 11 asks for it, and no login otherwise. */
  lemma HeaderAlone(config: Config, l: Login)
    requires (forall k | k in l.capabilities :: k < 32) && |l.filler| == 23
    ensures Parse(config, HeaderWire(l)) ==
              if !Negotiable(config, l.capabilities) then Failure(UnsupportedCapability)
              else if !KnownCharset(l.charset) then Failure(UnsupportedCharset)
              else if 11 !in l.capabilities then Failure(Malformed)
              else if 11 !in config.capabilities then Failure(UnsupportedCapability)
              else Success(Response(l.capabilities, l.capabilities * config.capabilities, l.maxPacketBytes, l.charset, [], [], [], [], map[], true))
  {
    hide HeaderWire, BitsOf, FromLE, Validate, KnownCharset, Negotiable;
    var data := HeaderWire(l);
    StandsWhole(data);
    HeaderStands(data, l);
    ValidateIff(config, l.capabilities, l.charset);
    assert Terminated(data, 32) == None;
  }

  lemma NamesNotEmpty(client: Capabilities, names: Names)
    requires NamesFit(client, names)
    ensures |NamesWire(client, names)| > 0
  {
  }

  /** Of the values sent for one key, the gateway keeps the last. */
  lemma {:induction false} LastValueStays(pairs: seq<(bytes, bytes)>, read: Attributes, i: nat)
    requires i < |pairs| && forall j | i < j < |pairs| :: pairs[j].0 != pairs[i].0
    ensures pairs[i].0 in Collected(pairs, read) && Collected(pairs, read)[pairs[i].0] == pairs[i].1
    decreases |pairs|
  {
    var rest, next := pairs[1..], read[pairs[0].0 := pairs[0].1];
    if i > 0 {
      LastValueStays(rest, next, i - 1);
    } else {
      Untouched(rest, next, pairs[0].0);
    }
  }

  lemma {:induction false} Untouched(pairs: seq<(bytes, bytes)>, read: Attributes, key: bytes)
    requires forall j | 0 <= j < |pairs| :: pairs[j].0 != key
    ensures key in Collected(pairs, read) <==> key in read
    ensures key in read ==> Collected(pairs, read)[key] == read[key]
    decreases |pairs|
  {
    if pairs != [] {
      Untouched(pairs[1..], read[pairs[0].0 := pairs[0].1], key);
    }
  }

  // ---------------------------------------------------------------- accepted payloads

  /** What may be negotiated: every accepted payload asks for what is required and nothing outside both sets. */
  lemma NegotiatedWithinBoth(config: Config, payload: bytes)
    requires Parse(config, payload).Success?
    ensures var r := Parse(config, payload).value;
            && r.negotiated == r.clientCapabilities * config.capabilities
            && Negotiable(config, r.clientCapabilities) && KnownCharset(r.charset)
            && (r.wantsTLS ==> 11 in r.negotiated && |payload| == 32)
  {
    hide NamesAt, AttributesAt, BitsOf, FromLE, Validate, Negotiable, KnownCharset;
    var r := Parse(config, payload).value;
    ValidateIff(config, r.clientCapabilities, r.charset);
  }

  /** The NUL-terminated form of the authentication data is never read. */
  lemma NulAuthUnreachable(config: Config, client: Capabilities, charset: uint8, data: bytes, offset: nat)
    requires Validate(config, client, charset).None? && offset <= |data|
    ensures AuthAt(client, data, offset)
      == if PluginAuthLenenc in client then CursorBytes(data, offset)
         else if offset == |data| then None else CursorTake(data, offset + 1, data[offset])
  {
    hide CursorBytes, Terminated;
    assert SecureConnection in Required;
  }

  lemma TerminatedExtends(data: bytes, extra: bytes, offset: nat)
    requires offset <= |data| && Terminated(data, offset).Some?
    ensures Terminated(data + extra, offset) == Terminated(data, offset)
  {
    var i, j := NulFrom(data, offset), NulFrom(data + extra, offset);
    assert (data + extra)[i] == 0;
    assert forall k | offset <= k < i :: (data + extra)[k] == data[k];
    assert i == j;
    assert (data + extra)[offset..i] == data[offset..i];
  }

  lemma TakeExtends(data: bytes, extra: bytes, offset: nat, length: nat)
    requires offset <= |data| && CursorTake(data, offset, length).Some?
    ensures CursorTake(data + extra, offset, length) == CursorTake(data, offset, length)
  {
    assert (data + extra)[offset..offset + length] == data[offset..offset + length];
  }

  lemma IntExtends(data: bytes, extra: bytes, offset: nat)
    requires offset <= |data| && CursorInt(data, offset).Some?
    ensures CursorInt(data + extra, offset) == CursorInt(data, offset)
  {
    hide FromLE, CursorTake;
    var first := data[offset];
    assert (data + extra)[offset] == first;
    if first == 0xfc || first == 0xfd || first == 0xfe {
      TakeExtends(data, extra, offset + 1, if first == 0xfc then 2 else if first == 0xfd then 3 else 8);
    }
  }

  lemma BytesExtend(data: bytes, extra: bytes, offset: nat)
    requires offset <= |data| && CursorBytes(data, offset).Some?
    ensures CursorBytes(data + extra, offset) == CursorBytes(data, offset)
  {
    hide CursorInt, FromLE, CursorTake;
    IntExtends(data, extra, offset);
    var length := CursorInt(data, offset).value;
    TakeExtends(data, extra, length.next, length.value);
  }

  lemma AuthExtends(client: Capabilities, data: bytes, extra: bytes, offset: nat)
    requires offset <= |data| && AuthAt(client, data, offset).Some?
    ensures AuthAt(client, data + extra, offset) == AuthAt(client, data, offset)
  {
    hide CursorBytes, CursorTake, Terminated;
    if PluginAuthLenenc in client {
      BytesExtend(data, extra, offset);
    } else if SecureConnection in client {
      TakeExtends(data, extra, offset + 1, data[offset]);
    } else {
      TerminatedExtends(data, extra, offset);
    }
  }

  lemma NameExtends(present: bool, data: bytes, extra: bytes, offset: nat)
    requires offset <= |data| && NameAt(present, data, offset).Some?
    ensures NameAt(present, data + extra, offset) == NameAt(present, data, offset)
  {
    hide Terminated;
    if present {
      TerminatedExtends(data, extra, offset);
    }
  }

  lemma NamesExtend(client: Capabilities, data: bytes, extra: bytes, offset: nat)
    requires offset <= |data| && NamesAt(client, data, offset).Some?
    ensures NamesAt(client, data + extra, offset) == NamesAt(client, data, offset)
  {
    hide Terminated, AuthAt, NameAt;
    TerminatedExtends(data, extra, offset);
    var at := Terminated(data, offset).value.next;
    AuthExtends(client, data, extra, at);
    var next := AuthAt(client, data, at).value.next;
    NameExtends(ConnectWithDB in client, data, extra, next);
    NameExtends(PluginAuth in client, data, extra, NameAt(ConnectWithDB in client, data, next).value.next);
  }

  lemma AttributesExtend(config: Config, client: Capabilities, data: bytes, extra: bytes, offset: nat)
    requires offset <= |data| && AttributesAt(config, client, data, offset).Some?
    ensures AttributesAt(config, client, data + extra, offset) == AttributesAt(config, client, data, offset)
  {
    hide CursorBytes, ReadAttributes;
    if ConnectAttrs in client {
      BytesExtend(data, extra, offset);
    }
  }

  /** An accepted login is consumed to its last byte: no longer payload that starts with it is accepted. */
  lemma AcceptedIsConsumed(config: Config, payload: bytes, extra: bytes)
    requires Parse(config, payload).Success? && !Parse(config, payload).value.wantsTLS && extra != []
    ensures Parse(config, payload + extra) == Failure(Malformed)
  {
    hide NamesAt, AttributesAt, BitsOf, FromLE, Validate;
    var longer := payload + extra;
    assert longer[..4] == payload[..4] && longer[4..8] == payload[4..8] && longer[8] == payload[8];
    var client := BitsOf(FromLE(payload[..4]));
    NamesExtend(client, payload, extra, 32);
    AttributesExtend(config, client, payload, extra, NamesAt(client, payload, 32).value.next);
  }

  // ---------------------------------------------------------------- the cursor and the method

  class ByteCursor {
    const data: bytes
    var offset: nat

    ghost predicate Valid()
      reads this
    {
      offset <= |data|
    }

    constructor (data: bytes)
      ensures Valid() && this.data == data && offset == 0
    {
      this.data := data;
      offset := 0;
    }

    function Remaining(): nat
      requires Valid()
      reads this
    {
      |data| - offset
    }

    method Skip(length: nat) returns (ok: bool)
      requires Valid()
      modifies this
      ensures Valid() && ok == (old(offset) + length <= |data|)
      ensures offset == if ok then old(offset) + length else old(offset)
    {
      if length > Remaining() {
        return false;
      }
      offset := offset + length;
      return true;
    }

    method Byte() returns (r: Option<uint8>)
      requires Valid()
      modifies this
      ensures Valid() && (r.Some? <==> old(offset) < |data|)
      ensures r.Some? ==> r.value == data[old(offset)] && offset == old(offset) + 1
    {
      if Remaining() < 1 {
        return None;
      }
      r := Some(data[offset]);
      offset := offset + 1;
    }

    method Take(length: nat) returns (r: Option<bytes>)
      requires Valid()
      modifies this
      ensures Valid() && Follows(CursorTake(data, old(offset), length), r, offset)
    {
      if length > Remaining() {
        return None;
      }
      r := Some(data[offset..offset + length]);
      offset := offset + length;
    }

    method Uint32() returns (r: Option<nat>)
      requires Valid()
      modifies this
      ensures Valid() && (r.Some? <==> old(offset) + 4 <= |data|)
      ensures r.Some? ==> r.value == FromLE(data[old(offset)..old(offset) + 4]) && offset == old(offset) + 4
    {
      if Remaining() < 4 {
        return None;
      }
      r := Some(FromLE(data[offset..offset + 4]));
      offset := offset + 4;
    }

    method NullTerminated() returns (r: Option<bytes>)
      requires Valid()
      modifies this
      ensures Valid() && Follows(Terminated(data, old(offset)), r, offset)
    {
      var index := offset;
      while index < |data|
        invariant offset == old(offset) <= index <= |data|
        invariant NulFrom(data, offset) == NulFrom(data, index)
      {
        if data[index] == 0 {
          r := Some(data[offset..index]);
          offset := index + 1;
          return;
        }
        index := index + 1;
      }
      r := None;
    }

    method LenEncodedInt() returns (r: Option<nat>)
      requires Valid()
      modifies this
      ensures Valid() && Follows(CursorInt(data, old(offset)), r, offset)
    {
      hide FromLE;
      var first := Byte();
      if first.None? {
        return None;
      }
      var b := first.value;
      if b == 0xfc || b == 0xfd || b == 0xfe {
        var word := Take(if b == 0xfc then 2 else if b == 0xfd then 3 else 8);
        return if word.None? then None else Some(FromLE(word.value));
      } else if b == 0xfb || b == 0xff {
        return None;
      }
      return Some(b);
    }

    method LenEncodedBytes() returns (r: Option<bytes>)
      requires Valid()
      modifies this
      ensures Valid() && Follows(CursorBytes(data, old(offset)), r, offset)
    {
      hide CursorInt;
      var length := LenEncodedInt();
      if length.None? || length.value > Remaining() || length.value > MaxLength {
        return None;
      }
      r := Take(length.value);
    }
  }

  /** A reader's outcome agrees with its specification; after a failure the position is of no use. */
  predicate Follows<T(==)>(spec: Option<At<T>>, r: Option<T>, offset: nat) {
    (r.Some? <==> spec.Some?) && (r.Some? ==> spec.value == At(r.value, offset))
  }

  method ParseAttributes(block: bytes) returns (r: Option<Attributes>)
    ensures r == ReadAttributes(block, 0, map[])
  {
    hide CursorBytes;
    var cursor := new ByteCursor(block);
    var read: Attributes := map[];
    while cursor.Remaining() > 0
      invariant cursor.Valid() && cursor.data == block
      invariant ReadAttributes(block, 0, map[]) == ReadAttributes(block, cursor.offset, read)
      decreases |block| - cursor.offset
    {
      var key := cursor.LenEncodedBytes();
      if key.None? {
        return None;
      }
      var value := cursor.LenEncodedBytes();
      if value.None? || key.value == [] {
        return None;
      }
      read := read[key.value := value.value];
    }
    return Some(read);
  }

  method ParseNames(client: Capabilities, cursor: ByteCursor) returns (r: Option<Names>)
    requires cursor.Valid()
    modifies cursor
    ensures cursor.Valid() && Follows(NamesAt(client, cursor.data, old(cursor.offset)), r, cursor.offset)
  {
    hide Terminated, CursorBytes;
    var username := cursor.NullTerminated();
    if username.None? {
      return None;
    }
    var auth: Option<bytes>;
    if PluginAuthLenenc in client {
      auth := cursor.LenEncodedBytes();
    } else if SecureConnection in client {
      var length := cursor.Byte();
      if length.None? {
        return None;
      }
      auth := cursor.Take(length.value);
    } else {
      auth := cursor.NullTerminated();
    }
    if auth.None? {
      return None;
    }
    var database, plugin := Some([]), Some([]);
    if ConnectWithDB in client {
      database := cursor.NullTerminated();
      if database.None? {
        return None;
      }
    }
    if PluginAuth in client {
      plugin := cursor.NullTerminated();
      if plugin.None? {
        return None;
      }
    }
    return Some(Names(username.value, auth.value, database.value, plugin.value));
  }

  method ParseResponse(config: Config, payload: bytes) returns (r: Result<Response, Refusal>)
    ensures r == Parse(config, payload)
  {
    hide NamesAt, ReadAttributes, BitsOf, FromLE, Validate, CursorBytes;
    if |payload| < 32 {
      return Failure(Malformed);
    }
    var cursor := new ByteCursor(payload);
    var word := cursor.Uint32();
    var maxPacket := cursor.Uint32();
    var charset := cursor.Byte();
    var skipped := cursor.Skip(23);
    assert payload[0..4] == payload[..4];
    var client := BitsOf(word.value);
    var refusal := Validate(config, client, charset.value);
    if refusal.Some? {
      return Failure(refusal.value);
    }
    var response := Response(client, client * config.capabilities, maxPacket.value, charset.value, [], [], [], [], map[], false);
    if cursor.Remaining() == 0 && SSL in client {
      if SSL !in config.capabilities {
        return Failure(UnsupportedCapability);
      }
      return Success(response.(wantsTLS := true));
    }
    var names := ParseNames(client, cursor);
    if names.None? {
      return Failure(Malformed);
    }
    if ConnectAttrs in client {
      var block := cursor.LenEncodedBytes();
      if block.None? || |block.value| > config.maxAttributesBytes {
        return Failure(Malformed);
      }
      var attributes := ParseAttributes(block.value);
      if attributes.None? {
        return Failure(Malformed);
      }
      response := response.(attributes := attributes.value);
    }
    if cursor.Remaining() != 0 {
      return Failure(Malformed);
    }
    var n := names.value;
    return Success(response.(username := n.username, authResponse := n.auth, database := n.database,
      authPlugin := if n.plugin == [] then config.authPlugin else n.plugin));
  }
}
