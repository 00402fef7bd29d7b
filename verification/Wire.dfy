/** The messages between client and server as bytes: what the client writes (networking/Client.cpp), what the server
    accepts (networking/Server.cpp), and what the server sends back (networking/ServerFrontendGrpc.cpp). */
module Wire {
  import opened CombatEvents
  import opened Bytes

  datatype ClientMsg =
    | RegisterSelf(selfId: u16, name: seq<byte>)
    | SetSelfId(selfId: u16)
    | AddPeer(peerId: u16, name: seq<byte>)
    | RemovePeer(peerId: u16)
    | CombatEvent(event: CbtEvent, senderId: u16)

  const TYPE_REGISTER_SELF := 1
  const TYPE_SET_SELF_ID := 2
  const TYPE_ADD_PEER := 3
  const TYPE_REMOVE_PEER := 4
  const TYPE_COMBAT_EVENT := 5
  const HEADER_SIZE := 8
  const EVENT_SIZE := 64
  const BUFFER_SIZE := 1024

  // ----- The 64 bytes of a combat event

  function Unsigned(v: i32): (u: nat)
    ensures u < 0x1_0000_0000
  {
    v % 0x1_0000_0000
  }

  function Signed(u: nat): i32
    requires u < 0x1_0000_0000
  {
    if u < 0x8000_0000 then u else u - 0x1_0000_0000
  }

  function Times(ev: CbtEvent): seq<nat> {
    [ev.time, ev.srcAgent, ev.dstAgent]
  }

  function Values(ev: CbtEvent): seq<nat> {
    [Unsigned(ev.value), Unsigned(ev.buffDmg), ev.overstackValue, ev.skillId]
  }

  function InstIds(ev: CbtEvent): seq<nat> {
    [ev.srcInstId, ev.dstInstId, ev.srcMasterInstId, ev.dstMasterInstId]
  }

  function Flags(ev: CbtEvent): seq<byte> {
    [ev.iff, ev.buff, ev.result, ev.isActivation, ev.isBuffremove, ev.isNinety, ev.isFifty, ev.isMoving,
     ev.isStatechange, ev.isFlanking, ev.isShields, ev.isOffcycle, ev.pad61, ev.pad62, ev.pad63, ev.pad64]
  }

  function EventBytes(ev: CbtEvent): (b: seq<byte>)
    ensures |b| == EVENT_SIZE
  {
    EncodeWords(Times(ev), 8) + EncodeWords(Values(ev), 4) + EncodeWords(InstIds(ev), 2) + Flags(ev)
  }

  function FromFields(t: seq<nat>, v: seq<nat>, i: seq<nat>, f: seq<byte>): CbtEvent
    requires |t| == 3 && |v| == 4 && |i| == 4 && |f| == 16
    requires (forall k :: 0 <= k < 3 ==> t[k] < 0x1_0000_0000_0000_0000) && (forall k :: 0 <= k < 4 ==> v[k] < 0x1_0000_0000)
    requires forall k :: 0 <= k < 4 ==> i[k] < 0x1_0000
  {
    CbtEvent(t[0], t[1], t[2], Signed(v[0]), Signed(v[1]), v[2], v[3], i[0], i[1], i[2], i[3],
             f[0], f[1], f[2], f[3], f[4], f[5], f[6], f[7], f[8], f[9], f[10], f[11], f[12], f[13], f[14], f[15])
  }

  function EventFrom(b: seq<byte>): CbtEvent
    requires |b| == EVENT_SIZE
  {
    Widths();
    FromFields(DecodeWords(b[..24], 3, 8), DecodeWords(b[24..40], 4, 4), DecodeWords(b[40..48], 4, 2), b[48..])
  }

  lemma FieldsOf(t: seq<nat>, v: seq<nat>, i: seq<nat>, f: seq<byte>)
    requires |t| == 3 && |v| == 4 && |i| == 4 && |f| == 16
    requires (forall k :: 0 <= k < 3 ==> t[k] < 0x1_0000_0000_0000_0000) && (forall k :: 0 <= k < 4 ==> v[k] < 0x1_0000_0000)
    requires forall k :: 0 <= k < 4 ==> i[k] < 0x1_0000
    ensures var ev := FromFields(t, v, i, f); Times(ev) == t && Values(ev) == v && InstIds(ev) == i && Flags(ev) == f
  {
    var ev := FromFields(t, v, i, f);
    forall k | 0 <= k < 16 ensures Flags(ev)[k] == f[k] {}
  }

  lemma Parts(ev: CbtEvent)
    ensures var b := EventBytes(ev);
            && b[..24] == EncodeWords(Times(ev), 8) && b[24..40] == EncodeWords(Values(ev), 4)
            && b[40..48] == EncodeWords(InstIds(ev), 2) && b[48..] == Flags(ev)
  {
    var t, v, i, f := EncodeWords(Times(ev), 8), EncodeWords(Values(ev), 4), EncodeWords(InstIds(ev), 2), Flags(ev);
    assert |t| == 24 && |v| == 16 && |i| == 8 && |f| == 16;
    hide *;
    Concatenated(t, v, i, f);
  }

  lemma Concatenated(t: seq<byte>, v: seq<byte>, i: seq<byte>, f: seq<byte>)
    requires |t| == 24 && |v| == 16 && |i| == 8 && |f| == 16
    ensures var b := t + v + i + f; b[..24] == t && b[24..40] == v && b[40..48] == i && b[48..] == f
  {
  }

  lemma FieldsInRange(ev: CbtEvent)
    ensures Pow256(8) == 0x1_0000_0000_0000_0000 && Pow256(4) == 0x1_0000_0000 && Pow256(2) == 0x1_0000
    ensures |Times(ev)| == 3 && |Values(ev)| == 4 && |InstIds(ev)| == 4 && |Flags(ev)| == 16
    ensures forall k :: 0 <= k < 3 ==> Times(ev)[k] < 0x1_0000_0000_0000_0000
    ensures forall k :: 0 <= k < 4 ==> Values(ev)[k] < 0x1_0000_0000
    ensures forall k :: 0 <= k < 4 ==> InstIds(ev)[k] < 0x1_0000
  {
    hide Pow256;
    Widths();
  }

  lemma DecodedParts(ev: CbtEvent)
    ensures var b := EventBytes(ev);
            && DecodeWords(b[..24], 3, 8) == Times(ev) && DecodeWords(b[24..40], 4, 4) == Values(ev)
            && DecodeWords(b[40..48], 4, 2) == InstIds(ev) && b[48..] == Flags(ev)
  {
    hide *;
    FieldsInRange(ev);
    Parts(ev);
    WordsDecodeEncode(Times(ev), 8);
    WordsDecodeEncode(Values(ev), 4);
    WordsDecodeEncode(InstIds(ev), 2);
  }

  lemma FieldsBack(ev: CbtEvent)
    requires |Times(ev)| == 3 && |Values(ev)| == 4 && |InstIds(ev)| == 4 && |Flags(ev)| == 16
    requires forall k :: 0 <= k < 3 ==> Times(ev)[k] < 0x1_0000_0000_0000_0000
    requires forall k :: 0 <= k < 4 ==> Values(ev)[k] < 0x1_0000_0000
    requires forall k :: 0 <= k < 4 ==> InstIds(ev)[k] < 0x1_0000
    ensures FromFields(Times(ev), Values(ev), InstIds(ev), Flags(ev)) == ev
  {
    assert Signed(Unsigned(ev.value)) == ev.value && Signed(Unsigned(ev.buffDmg)) == ev.buffDmg;
    hide Signed, Unsigned;
  }

  lemma EventDecodeEncode(ev: CbtEvent)
    ensures EventFrom(EventBytes(ev)) == ev
  {
    hide EncodeWords, DecodeWords, EventBytes, FromFields, Times, Values, InstIds, Flags, Pow256;
    FieldsInRange(ev);
    DecodedParts(ev);
    FieldsBack(ev);
  }

  lemma EncodedParts(b: seq<byte>)
    requires |b| == EVENT_SIZE
    ensures EncodeWords(DecodeWords(b[..24], 3, 8), 8) == b[..24] && EncodeWords(DecodeWords(b[24..40], 4, 4), 4) == b[24..40]
    ensures EncodeWords(DecodeWords(b[40..48], 4, 2), 2) == b[40..48]
  {
    hide EncodeWords, DecodeWords, ToBytes, FromBytes;
    WordsEncodeDecode(b[..24], 3, 8);
    WordsEncodeDecode(b[24..40], 4, 4);
    WordsEncodeDecode(b[40..48], 4, 2);
  }

  lemma EventEncodeDecode(b: seq<byte>)
    requires |b| == EVENT_SIZE
    ensures EventBytes(EventFrom(b)) == b
  {
    hide EncodeWords, DecodeWords, FromFields, Times, Values, InstIds, Flags, Pow256;
    Widths();
    EncodedParts(b);
    FieldsOf(DecodeWords(b[..24], 3, 8), DecodeWords(b[24..40], 4, 4), DecodeWords(b[40..48], 4, 2), b[48..]);
    Joined(b);
  }

  lemma Joined(b: seq<byte>)
    requires |b| == EVENT_SIZE
    ensures b == b[..24] + b[24..40] + b[40..48] + b[48..]
  {
  }

  // ----- Messages of the client

  function TypeOf(msg: ClientMsg): nat {
    match msg
    case RegisterSelf(_, _) => TYPE_REGISTER_SELF
    case SetSelfId(_) => TYPE_SET_SELF_ID
    case AddPeer(_, _) => TYPE_ADD_PEER
    case RemovePeer(_) => TYPE_REMOVE_PEER
    case CombatEvent(_, _) => TYPE_COMBAT_EVENT
  }

  function Header(kind: nat): (b: seq<byte>)
    ensures |b| == HEADER_SIZE
  {
    ToBytes(1, 4) + ToBytes(kind, 4)
  }

  /** The part behind the header.  The length of a name is cast to one byte. */
  function Body(msg: ClientMsg): seq<byte> {
    match msg
    case RegisterSelf(id, name) => ToBytes(id, 2) + [|name| % 256] + name
    case SetSelfId(id) => ToBytes(id, 2)
    case AddPeer(id, name) => ToBytes(id, 2) + [|name| % 256] + name
    case RemovePeer(id) => ToBytes(id, 2)
    case CombatEvent(event, senderId) => EventBytes(event) + ToBytes(senderId, 2)
  }

  function Encode(msg: ClientMsg): seq<byte> {
    Header(TypeOf(msg)) + Body(msg)
  }

  /** `HandleIncomingMessage`: a message, an error that disconnects the client, or an unknown type that is ignored. */
  datatype Decoded = Message(msg: ClientMsg) | Malformed(error: string) | Ignored

  function DecodeBody(kind: nat, b: seq<byte>): Decoded {
    Widths();
    if kind == TYPE_REGISTER_SELF then
      if |b| < 3 then Malformed("short RegisterSelf content")
      else if |b| - 3 != b[2] then Malformed("mismatched RegisterSelf length")
      else Message(RegisterSelf(FromBytes(b[0..2]), b[3..]))
    else if kind == TYPE_SET_SELF_ID then
      if |b| != 2 then Malformed("short SetSelfId content") else Message(SetSelfId(FromBytes(b)))
    else if kind == TYPE_ADD_PEER then
      if |b| < 3 then Malformed("short AddPeer content")
      else if |b| - 3 != b[2] then Malformed("mismatched AddPeer length")
      else Message(AddPeer(FromBytes(b[0..2]), b[3..]))
    else if kind == TYPE_REMOVE_PEER then
      if |b| != 2 then Malformed("RemovePeer size mismatch") else Message(RemovePeer(FromBytes(b)))
    else if kind == TYPE_COMBAT_EVENT then
      if |b| != EVENT_SIZE + 2 then Malformed("CombatEvent size mismatch")
      else Message(CombatEvent(EventFrom(b[..EVENT_SIZE]), FromBytes(b[EVENT_SIZE..])))
    else Ignored
  }

  function Decode(b: seq<byte>): Decoded {
    if |b| < HEADER_SIZE then Malformed("short message header")
    else if FromBytes(b[0..4]) != 1 then Malformed("incorrect version")
    else DecodeBody(FromBytes(b[4..8]), b[HEADER_SIZE..])
  }

  function NameLength(msg: ClientMsg): nat {
    if msg.RegisterSelf? || msg.AddPeer? then |msg.name| else 0
  }

  lemma HeaderFields(kind: nat, body: seq<byte>)
    requires kind < 256
    ensures var b := Header(kind) + body;
            |b| == HEADER_SIZE + |body| && FromBytes(b[0..4]) == 1 && FromBytes(b[4..8]) == kind && b[HEADER_SIZE..] == body
  {
    var b := Header(kind) + body;
    assert b[0..4] == ToBytes(1, 4) && b[4..8] == ToBytes(kind, 4) && b[HEADER_SIZE..] == body;
    Widths();
    DecodeEncode(1, 4);
    DecodeEncode(kind, 4);
  }

  lemma HeaderDecodes(kind: nat, body: seq<byte>)
    requires kind < 256
    ensures Decode(Header(kind) + body) == DecodeBody(kind, body)
  {
    hide DecodeBody, FromBytes, Header;
    HeaderFields(kind, body);
  }

  lemma NamedBodyDecodes(kind: nat, id: u16, name: seq<byte>)
    requires kind == TYPE_REGISTER_SELF || kind == TYPE_ADD_PEER
    ensures var body := ToBytes(id, 2) + [|name| % 256] + name;
            var msg := if kind == TYPE_REGISTER_SELF then RegisterSelf(id, name) else AddPeer(id, name);
            if |name| < 256 then DecodeBody(kind, body) == Message(msg) else DecodeBody(kind, body).Malformed?
  {
    var body := ToBytes(id, 2) + [|name| % 256] + name;
    assert body[0..2] == ToBytes(id, 2) && body[3..] == name && body[2] == |name| % 256;
    Widths();
    DecodeEncode(id, 2);
  }

  lemma OtherBodyDecodes(msg: ClientMsg)
    requires !msg.RegisterSelf? && !msg.AddPeer?
    ensures DecodeBody(TypeOf(msg), Body(msg)) == Message(msg)
  {
    Widths();
    hide EventFrom, EventBytes, ToBytes, FromBytes, Pow256;
    match msg
    case SetSelfId(id) => DecodeEncode(id, 2);
    case RemovePeer(id) => DecodeEncode(id, 2);
    case CombatEvent(event, senderId) =>
      EventFields(event, senderId);
  }

  lemma EventFields(event: CbtEvent, senderId: u16)
    ensures var body := EventBytes(event) + ToBytes(senderId, 2);
            |body| == EVENT_SIZE + 2 && EventFrom(body[..EVENT_SIZE]) == event && FromBytes(body[EVENT_SIZE..]) == senderId
  {
    Widths();
    hide EventFrom, EventBytes, ToBytes, FromBytes, Pow256;
    var body := EventBytes(event) + ToBytes(senderId, 2);
    assert body[..EVENT_SIZE] == EventBytes(event) && body[EVENT_SIZE..] == ToBytes(senderId, 2);
    EventDecodeEncode(event);
    DecodeEncode(senderId, 2);
  }

  /** The server decodes what the client encoded exactly when the name fits the length byte. */
  lemma RoundTrip(msg: ClientMsg)
    ensures Decode(Encode(msg)) == Message(msg) <==> NameLength(msg) < 256
    ensures NameLength(msg) >= 256 ==> Decode(Encode(msg)).Malformed?
  {
    HeaderDecodes(TypeOf(msg), Body(msg));
    match msg
    case RegisterSelf(id, name) => NamedBodyDecodes(TYPE_REGISTER_SELF, id, name);
    case AddPeer(id, name) => NamedBodyDecodes(TYPE_ADD_PEER, id, name);
    case _ => OtherBodyDecodes(msg);
  }

  lemma BodyEncodes(kind: nat, body: seq<byte>)
    requires DecodeBody(kind, body).Message?
    ensures TypeOf(DecodeBody(kind, body).msg) == kind && Body(DecodeBody(kind, body).msg) == body
  {
    hide EventFrom, EventBytes, ToBytes, FromBytes;
    if kind == TYPE_REGISTER_SELF || kind == TYPE_ADD_PEER {
      EncodeDecode(body[0..2]);
      assert body == body[0..2] + [body[2]] + body[3..];
    } else if kind == TYPE_COMBAT_EVENT {
      EventEncodeDecode(body[..EVENT_SIZE]);
      EncodeDecode(body[EVENT_SIZE..]);
      assert body == body[..EVENT_SIZE] + body[EVENT_SIZE..];
    } else {
      EncodeDecode(body);
    }
  }

  /** Every accepted byte string is the encoding of what it decodes to: there is only one way to write a message. */
  lemma OnlyEncodingsAccepted(b: seq<byte>)
    requires Decode(b).Message?
    ensures Encode(Decode(b).msg) == b && NameLength(Decode(b).msg) < 256
  {
    EncodeDecode(b[0..4]);
    EncodeDecode(b[4..8]);
    BodyEncodes(FromBytes(b[4..8]), b[HEADER_SIZE..]);
    assert b == b[0..4] + b[4..8] + b[HEADER_SIZE..];
    RoundTrip(Decode(b).msg);
  }

  /** Messages with names that the client's assertion admits fit its 1024-byte buffer. */
  lemma FitsBuffer(msg: ClientMsg)
    requires NameLength(msg) < 256
    ensures |Encode(msg)| <= BUFFER_SIZE
  {
  }

  // ----- The bytes themselves

  lemma {:induction false} ByteAt(n: nat, width: nat, k: nat)
    requires k < width
    ensures ToBytes(n, width)[k] == (n / Pow256(k)) % 256
  {
    if k > 0 {
      ByteAt(n / 256, width - 1, k - 1);
      assert n / 256 / Pow256(k - 1) == n / Pow256(k) by { DivTwice(n, Pow256(k - 1)); }
    }
  }

  lemma DivTwice(n: nat, p: nat)
    requires p > 0
    ensures n / 256 / p == n / (256 * p)
  {
    var q := n / 256 / p;
    var r, s := n % 256, (n / 256) % p;
    assert n == 256 * (p * q + s) + r;
    assert 256 * s + r < 256 * p;
    Quotient(n, 256 * p, q, 256 * s + r);
  }

  lemma Quotient(n: nat, d: nat, q: nat, r: nat)
    requires d > 0 && n == d * q + r && r < d
    ensures n / d == q
  {
    assert n == d * (n / d) + n % d;
    NoMultiple(d, q - n / d);
  }

  lemma NoMultiple(d: int, a: int)
    ensures d > 0 && -d < d * a < d ==> a == 0
  {
    assert d > 0 && a >= 1 ==> d * a >= d;
    assert d > 0 && a <= -1 ==> d * a <= -d;
  }

  lemma TwoBytesOf(n: u16)
    ensures ToBytes(n, 2) == [n % 256, n / 256]
  {
    assert ToBytes(n / 256, 1) == [n / 256 % 256] + ToBytes(n / 256 / 256, 0);
  }

  lemma HeaderOf(kind: nat)
    requires kind < 256
    ensures Header(kind) == [1, 0, 0, 0, kind, 0, 0, 0]
  {
    FourBytesOf(1);
    FourBytesOf(kind);
  }

  lemma FourBytesOf(n: nat)
    requires n < 256
    ensures ToBytes(n, 4) == [n, 0, 0, 0]
  {
    assert ToBytes(0, 3) == [0] + ToBytes(0, 2) && ToBytes(0, 2) == [0] + ToBytes(0, 1) && ToBytes(0, 1) == [0] + ToBytes(0, 0);
  }

  /** Every message byte by byte: version, type, and then ids with the lower byte first, and names behind their length. */
  lemma MessageLayout(id: u16, name: seq<byte>, event: CbtEvent)
    ensures Encode(RegisterSelf(id, name)) == [1, 0, 0, 0, 1, 0, 0, 0] + [id % 256, id / 256, |name| % 256] + name
    ensures Encode(SetSelfId(id)) == [1, 0, 0, 0, 2, 0, 0, 0] + [id % 256, id / 256]
    ensures Encode(AddPeer(id, name)) == [1, 0, 0, 0, 3, 0, 0, 0] + [id % 256, id / 256, |name| % 256] + name
    ensures Encode(RemovePeer(id)) == [1, 0, 0, 0, 4, 0, 0, 0] + [id % 256, id / 256]
    ensures Encode(CombatEvent(event, id)) == [1, 0, 0, 0, 5, 0, 0, 0] + EventBytes(event) + [id % 256, id / 256]
    ensures EncodeServerEvent(event, id) == [1, 0, 0, 0, 5, 0, 0, 0] + EventBytes(event) + [id % 256, id / 256]
  {
    TwoBytesOf(id);
    HeaderOf(1);
    HeaderOf(2);
    HeaderOf(3);
    HeaderOf(4);
    HeaderOf(5);
    hide ToBytes, EventBytes, Header;
    NamedLayout([1, 0, 0, 0, 1, 0, 0, 0], id, name);
    NamedLayout([1, 0, 0, 0, 3, 0, 0, 0], id, name);
    assert [1, 0, 0, 0, 5, 0, 0, 0] + (EventBytes(event) + [id % 256, id / 256]) == [1, 0, 0, 0, 5, 0, 0, 0] + EventBytes(event) + [id % 256, id / 256];
  }

  lemma NamedLayout(header: seq<byte>, id: u16, name: seq<byte>)
    ensures header + ([id % 256, id / 256] + [|name| % 256] + name) == header + [id % 256, id / 256, |name| % 256] + name
  {
  }

  /** The fields of an event at their places; negative numbers in two's complement. */
  lemma EventLayout(ev: CbtEvent)
    ensures var b := EventBytes(ev);
            && b[0..8] == ToBytes(ev.time, 8) && b[8..16] == ToBytes(ev.srcAgent, 8) && b[16..24] == ToBytes(ev.dstAgent, 8)
            && b[24..28] == ToBytes(if ev.value < 0 then ev.value + 0x1_0000_0000 else ev.value, 4)
            && b[28..32] == ToBytes(if ev.buffDmg < 0 then ev.buffDmg + 0x1_0000_0000 else ev.buffDmg, 4)
            && b[32..36] == ToBytes(ev.overstackValue, 4) && b[36..40] == ToBytes(ev.skillId, 4)
            && b[40..42] == ToBytes(ev.srcInstId, 2) && b[42..44] == ToBytes(ev.dstInstId, 2)
            && b[44..46] == ToBytes(ev.srcMasterInstId, 2) && b[46..48] == ToBytes(ev.dstMasterInstId, 2)
            && b[48..] == [ev.iff, ev.buff, ev.result, ev.isActivation, ev.isBuffremove, ev.isNinety, ev.isFifty, ev.isMoving,
                           ev.isStatechange, ev.isFlanking, ev.isShields, ev.isOffcycle, ev.pad61, ev.pad62, ev.pad63, ev.pad64]
  {
    Parts(ev);
    TimesLayout(ev);
    ValuesLayout(ev);
    IdsLayout(ev);
    hide EncodeWords, ToBytes, EventBytes, Times, Values, InstIds;
    var b := EventBytes(ev);
    Section(b, 0, 24, 0, 8);
    Section(b, 0, 24, 8, 16);
    Section(b, 0, 24, 16, 24);
    Section(b, 24, 40, 0, 4);
    Section(b, 24, 40, 4, 8);
    Section(b, 24, 40, 8, 12);
    Section(b, 24, 40, 12, 16);
    Section(b, 40, 48, 0, 2);
    Section(b, 40, 48, 2, 4);
    Section(b, 40, 48, 4, 6);
    Section(b, 40, 48, 6, 8);
  }

  lemma Section(b: seq<byte>, lo: nat, hi: nat, i: nat, j: nat)
    requires i <= j && lo + j <= hi <= |b|
    ensures b[lo..hi][i..j] == b[lo + i..lo + j]
  {
    var x, y := b[lo..hi][i..j], b[lo + i..lo + j];
    assert |x| == |y| && forall k :: 0 <= k < |x| ==> x[k] == y[k];
  }

  lemma TimesLayout(ev: CbtEvent)
    ensures var b := EncodeWords(Times(ev), 8);
            |b| == 24 && b[0..8] == ToBytes(ev.time, 8) && b[8..16] == ToBytes(ev.srcAgent, 8) && b[16..24] == ToBytes(ev.dstAgent, 8)
  {
    hide EncodeWords, ToBytes;
    WordAt(Times(ev), 8, 0);
    WordAt(Times(ev), 8, 1);
    WordAt(Times(ev), 8, 2);
  }

  lemma ValuesLayout(ev: CbtEvent)
    ensures var b := EncodeWords(Values(ev), 4);
            && |b| == 16
            && b[0..4] == ToBytes(if ev.value < 0 then ev.value + 0x1_0000_0000 else ev.value, 4)
            && b[4..8] == ToBytes(if ev.buffDmg < 0 then ev.buffDmg + 0x1_0000_0000 else ev.buffDmg, 4)
            && b[8..12] == ToBytes(ev.overstackValue, 4) && b[12..16] == ToBytes(ev.skillId, 4)
  {
    hide EncodeWords, ToBytes;
    WordAt(Values(ev), 4, 0);
    WordAt(Values(ev), 4, 1);
    WordAt(Values(ev), 4, 2);
    WordAt(Values(ev), 4, 3);
  }

  lemma IdsLayout(ev: CbtEvent)
    ensures var b := EncodeWords(InstIds(ev), 2);
            && |b| == 8
            && b[0..2] == ToBytes(ev.srcInstId, 2) && b[2..4] == ToBytes(ev.dstInstId, 2)
            && b[4..6] == ToBytes(ev.srcMasterInstId, 2) && b[6..8] == ToBytes(ev.dstMasterInstId, 2)
  {
    hide EncodeWords, ToBytes;
    WordAt(InstIds(ev), 2, 0);
    WordAt(InstIds(ev), 2, 1);
    WordAt(InstIds(ev), 2, 2);
    WordAt(InstIds(ev), 2, 3);
  }

  lemma {:induction false} WordAt(values: seq<nat>, width: nat, k: nat)
    requires k < |values|
    ensures 0 <= k * width <= (k + 1) * width <= |values| * width
    ensures EncodeWords(values, width)[k * width..(k + 1) * width] == ToBytes(values[k], width)
    decreases k
  {
    var b := EncodeWords(values, width);
    assert b[..width] == ToBytes(values[0], width) && b[width..] == EncodeWords(values[1..], width);
    Multiples(width, k, |values|);
    hide EncodeWords, ToBytes;
    if k > 0 {
      WordAt(values[1..], width, k - 1);
      Section(b, width, |b|, (k - 1) * width, k * width);
    }
  }

  lemma Multiples(width: nat, k: nat, n: nat)
    requires k < n
    ensures (k + 1) * width == k * width + width && (k > 0 ==> (k - 1) * width + width == k * width)
    ensures 0 <= k * width && (k + 1) * width <= n * width
  {
    Monotone(k + 1, n, width);
  }

  lemma Monotone(a: nat, b: nat, width: nat)
    requires a <= b
    ensures 0 <= a * width <= b * width
  {
    assert b * width == a * width + (b - a) * width;
  }

  // ----- The event that the server sends

  function EncodeServerEvent(event: CbtEvent, senderId: u16): seq<byte> {
    Header(TYPE_COMBAT_EVENT) + (EventBytes(event) + ToBytes(senderId, 2))
  }

  datatype ClientDecoded = Deliver(event: CbtEvent, senderId: u16) | DropConnection | Skip

  /** `HandleReadMessage` of the client. */
  function ClientDecode(b: seq<byte>): ClientDecoded {
    Widths();
    if |b| < HEADER_SIZE then DropConnection
    else if FromBytes(b[0..4]) != 1 then DropConnection
    else if FromBytes(b[4..8]) != TYPE_COMBAT_EVENT then Skip
    else if |b| - HEADER_SIZE != EVENT_SIZE + 2 then DropConnection
    else Deliver(EventFrom(b[HEADER_SIZE..][..EVENT_SIZE]), FromBytes(b[HEADER_SIZE..][EVENT_SIZE..]))
  }

  /** Both ends use one format for combat events, so what the server sends reaches the callback unchanged. */
  lemma ServerEventRoundTrip(event: CbtEvent, senderId: u16)
    ensures ClientDecode(EncodeServerEvent(event, senderId)) == Deliver(event, senderId)
  {
    hide EventFrom, EventBytes, ToBytes, FromBytes, Header;
    HeaderFields(TYPE_COMBAT_EVENT, EventBytes(event) + ToBytes(senderId, 2));
    EventFields(event, senderId);
  }

  // ----- Writing into the client's buffer with a moving position

  method Copy(buffer: array<byte>, pos: nat, bytes: seq<byte>) returns (next: nat)
    requires pos + |bytes| <= buffer.Length
    modifies buffer
    ensures next == pos + |bytes|
    ensures buffer[..pos] == old(buffer[..pos]) && buffer[pos..next] == bytes && buffer[next..] == old(buffer[next..])
  {
    next := pos;
    for k := 0 to |bytes|
      invariant next == pos + k
      invariant buffer[..pos] == old(buffer[..pos]) && buffer[pos..next] == bytes[..k] && buffer[next..] == old(buffer[next..])
    {
      buffer[next] := bytes[k];
      next := next + 1;
    }
  }

  /** The serialising part of `SendEvent`: the body is written first, behind space reserved for the header. */
  method WriteMessage(buffer: array<byte>, msg: ClientMsg) returns (length: nat)
    requires buffer.Length == BUFFER_SIZE && NameLength(msg) < 255
    modifies buffer
    ensures length <= BUFFER_SIZE && buffer[..length] == Encode(msg)
  {
    hide ToBytes, EventBytes, Header;
    var bufferpos := HEADER_SIZE;
    match msg {
      case RegisterSelf(id, name) =>
        bufferpos := CopyNamed(buffer, bufferpos, id, name);
      case SetSelfId(id) =>
        bufferpos := Copy(buffer, bufferpos, ToBytes(id, 2));
      case AddPeer(id, name) =>
        bufferpos := CopyNamed(buffer, bufferpos, id, name);
      case RemovePeer(id) =>
        bufferpos := Copy(buffer, bufferpos, ToBytes(id, 2));
      case CombatEvent(event, senderId) =>
        bufferpos := Copy(buffer, bufferpos, EventBytes(event) + ToBytes(senderId, 2));
    }
    assert buffer[HEADER_SIZE..bufferpos] == Body(msg);
    ghost var body := buffer[HEADER_SIZE..bufferpos];
    length := bufferpos;
    ghost var behind := buffer[HEADER_SIZE..];
    var _ := Copy(buffer, 0, Header(TypeOf(msg)));
    assert buffer[HEADER_SIZE..] == behind;
    assert buffer[HEADER_SIZE..length] == behind[..length - HEADER_SIZE] == body;
    assert buffer[..length] == buffer[..HEADER_SIZE] + buffer[HEADER_SIZE..length];
  }

  method CopyNamed(buffer: array<byte>, pos: nat, id: u16, name: seq<byte>) returns (next: nat)
    requires pos + 3 + |name| <= buffer.Length
    modifies buffer
    ensures next == pos + 3 + |name|
    ensures buffer[pos..next] == ToBytes(id, 2) + [|name| % 256] + name
  {
    var middle := Copy(buffer, pos, ToBytes(id, 2) + [|name| % 256]);
    hide ToBytes;
    ghost var before := buffer[..middle];
    assert before[pos..] == buffer[pos..middle];
    next := Copy(buffer, middle, name);
    assert buffer[..middle] == before;
    assert buffer[pos..middle] == before[pos..];
    assert buffer[pos..next] == buffer[pos..middle] + buffer[middle..next];
  }
}
