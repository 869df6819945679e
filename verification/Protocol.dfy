/** The wire formats of shared/src/protocol.rs: UDP packets and TCP frames as bytes. */
module Protocol {
  import opened Types

  type u8 = x: int | 0 <= x < 0x100

  type Bytes = seq<u8>

  const MAX_UDP_PACKET_SIZE: nat := 1400
  const UDP_HEADER_SIZE: nat := 4 + 8 + 1 + 2
  const TCP_HEADER_SIZE: nat := 4 + 1 + 16

  /** Overflow stands for the abort of an unsigned subtraction below zero. */
  datatype ProtocolError =
    | PacketTooLarge(size: nat)
    | PacketTooSmall(size: nat)
    | InvalidMessageType(code: u8)
    | Overflow

  // ---------- Little-endian numbers ----------

  /** The low `width` bytes of n, least significant first: casts to fixed widths drop the rest. */
  function PutLe(n: nat, width: nat): (bs: Bytes)
    ensures |bs| == width
  {
    if width == 0 then [] else [n % 0x100] + PutLe(n / 0x100, width - 1)
  }

  function GetLe(bs: Bytes): nat {
    if bs == [] then 0 else bs[0] + 0x100 * GetLe(bs[1..])
  }

  function Base(width: nat): (b: nat)
    ensures b > 0
  {
    if width == 0 then 1 else 0x100 * Base(width - 1)
  }

  lemma {:induction false} GetLeBound(bs: Bytes)
    ensures GetLe(bs) < Base(|bs|)
  {
    if bs != [] { GetLeBound(bs[1..]); }
  }

  lemma {:induction false} GetOfPut(n: nat, width: nat)
    requires n < Base(width)
    ensures GetLe(PutLe(n, width)) == n
  {
    if width > 0 {
      GetOfPut(n / 0x100, width - 1);
      assert PutLe(n, width)[1..] == PutLe(n / 0x100, width - 1);
    }
  }

  lemma {:induction false} PutOfGet(bs: Bytes)
    ensures PutLe(GetLe(bs), |bs|) == bs
  {
    if bs != [] {
      PutOfGet(bs[1..]);
      assert GetLe(bs) % 0x100 == bs[0] && GetLe(bs) / 0x100 == GetLe(bs[1..]);
      assert bs == [bs[0]] + bs[1..];
    }
  }

  function Power256(i: nat): (p: nat)
    ensures p > 0
  {
    if i == 0 then 1 else 0x100 * Power256(i - 1)
  }

  lemma {:induction false} DivideTwice(n: nat, d: nat)
    requires d > 0
    ensures (n / 0x100) / d == n / (0x100 * d)
  {
    var q, r := n / 0x100, n % 0x100;
    var x, y := q / d, q % d;
    assert n == 0x100 * (d * x + y) + r;
    assert n == (0x100 * d) * x + (0x100 * y + r);
    assert 0x100 * y + r < 0x100 * d;
    QuotientIs(n, 0x100 * d, x, 0x100 * y + r);
  }

  lemma {:induction false} QuotientIs(n: nat, d: nat, x: nat, r: nat)
    requires d > 0 && n == d * x + r && r < d
    ensures n / d == x
  {
    var e := n / d - x;
    assert d * e == r - n % d;
    FarMultiple(d, e);
  }

  lemma {:induction false} FarMultiple(d: int, e: int)
    requires d > 0
    ensures e >= 1 ==> d * e >= d
    ensures e <= -1 ==> d * e <= 0 - d
  {
    if e >= 1 { assert d * (e - 1) >= 0; }
    if e <= -1 { assert d * (e + 1) <= 0; }
  }

  /** The least significant byte is sent first. */
  lemma {:induction false} PutLeMeans(n: nat, width: nat, i: nat)
    requires i < width
    ensures PutLe(n, width)[i] == n / Power256(i) % 0x100
  {
    if i > 0 {
      PutLeMeans(n / 0x100, width - 1, i - 1);
      DivideTwice(n, Power256(i - 1));
    }
  }

  // ---------- Message types ----------

  datatype MessageType =
    | PlaceOrder | CancelOrder | CancelAllOrders | ClosePosition | SetTrailingStop | ActivityStop
    | CancelActivityStop | CreatePendingAutostop | UpdatePendingAutostop | CancelPendingAutostop
    | GetPendingAutostops | SubscribeChart | UnsubscribeChart | Subscribe | Unsubscribe | OrderPlaced
    | OrderCancelled | OrderError | Error | TrailingStopSet | ActivityStopActivated
    | PendingAutostopCreated | PendingAutostopUpdated | PendingAutostopCancelled
    | PendingAutostopActivated | PendingAutostops | Connected | ChartSubscribed | PositionModeChanged
    | GetPositions | GetOrders | GetTicker | GetCandles | GetAccountInfo | Ping | OrderUpdate
    | PositionUpdate | TradeUpdate | TickerUpdate | CandleUpdate | Candles | ActivityStopStatus
    | ActivityStopTriggered | Pong | Positions | Orders | AccountInfo | Disconnected

  function ToU8(t: MessageType): u8 {
    match t
    case PlaceOrder => 0
    case CancelOrder => 1
    case CancelAllOrders => 2
    case ClosePosition => 3
    case SetTrailingStop => 4
    case ActivityStop => 5
    case CancelActivityStop => 6
    case CreatePendingAutostop => 11
    case UpdatePendingAutostop => 12
    case CancelPendingAutostop => 13
    case GetPendingAutostops => 14
    case SubscribeChart => 7
    case UnsubscribeChart => 8
    case Subscribe => 9
    case Unsubscribe => 10
    case OrderPlaced => 20
    case OrderCancelled => 21
    case OrderError => 22
    case Error => 23
    case TrailingStopSet => 24
    case ActivityStopActivated => 25
    case PendingAutostopCreated => 29
    case PendingAutostopUpdated => 30
    case PendingAutostopCancelled => 31
    case PendingAutostopActivated => 32
    case PendingAutostops => 33
    case Connected => 26
    case ChartSubscribed => 27
    case PositionModeChanged => 28
    case GetPositions => 50
    case GetOrders => 51
    case GetTicker => 52
    case GetCandles => 53
    case GetAccountInfo => 54
    case Ping => 55
    case OrderUpdate => 70
    case PositionUpdate => 71
    case TradeUpdate => 72
    case TickerUpdate => 73
    case CandleUpdate => 74
    case Candles => 75
    case ActivityStopStatus => 76
    case ActivityStopTriggered => 77
    case Pong => 79
    case Positions => 80
    case Orders => 81
    case AccountInfo => 82
    case Disconnected => 83
  }

  /** Requests sent over TCP. */
  function FromRequestCode(value: u8): (r: Result<MessageType, ProtocolError>)
    ensures r.Ok? ==> ToU8(r.value) == value
    ensures r.Err? ==> r == Err(InvalidMessageType(value))
  {
    match value
    case 0 => Ok(PlaceOrder)
    case 1 => Ok(CancelOrder)
    case 2 => Ok(CancelAllOrders)
    case 3 => Ok(ClosePosition)
    case 4 => Ok(SetTrailingStop)
    case 5 => Ok(ActivityStop)
    case 6 => Ok(CancelActivityStop)
    case 7 => Ok(SubscribeChart)
    case 8 => Ok(UnsubscribeChart)
    case 9 => Ok(Subscribe)
    case 10 => Ok(Unsubscribe)
    case 11 => Ok(CreatePendingAutostop)
    case 12 => Ok(UpdatePendingAutostop)
    case 13 => Ok(CancelPendingAutostop)
    case 14 => Ok(GetPendingAutostops)
    case _ => Err(InvalidMessageType(value))
  }

  /** Replies sent over TCP. */
  function FromReplyCode(value: u8): (r: Result<MessageType, ProtocolError>)
    ensures r.Ok? ==> ToU8(r.value) == value
    ensures r.Err? ==> r == Err(InvalidMessageType(value))
  {
    match value
    case 20 => Ok(OrderPlaced)
    case 21 => Ok(OrderCancelled)
    case 22 => Ok(OrderError)
    case 23 => Ok(Error)
    case 24 => Ok(TrailingStopSet)
    case 25 => Ok(ActivityStopActivated)
    case 26 => Ok(Connected)
    case 27 => Ok(ChartSubscribed)
    case 28 => Ok(PositionModeChanged)
    case 29 => Ok(PendingAutostopCreated)
    case 30 => Ok(PendingAutostopUpdated)
    case 31 => Ok(PendingAutostopCancelled)
    case 32 => Ok(PendingAutostopActivated)
    case 33 => Ok(PendingAutostops)
    case _ => Err(InvalidMessageType(value))
  }

  /** Queries sent over UDP. */
  function FromQueryCode(value: u8): (r: Result<MessageType, ProtocolError>)
    ensures r.Ok? ==> ToU8(r.value) == value
    ensures r.Err? ==> r == Err(InvalidMessageType(value))
  {
    match value
    case 50 => Ok(GetPositions)
    case 51 => Ok(GetOrders)
    case 52 => Ok(GetTicker)
    case 53 => Ok(GetCandles)
    case 54 => Ok(GetAccountInfo)
    case 55 => Ok(Ping)
    case _ => Err(InvalidMessageType(value))
  }

  /** Order, position and market updates sent over UDP. */
  function FromMarketCode(value: u8): (r: Result<MessageType, ProtocolError>)
    ensures r.Ok? ==> ToU8(r.value) == value
    ensures r.Err? ==> r == Err(InvalidMessageType(value))
  {
    match value
    case 70 => Ok(OrderUpdate)
    case 71 => Ok(PositionUpdate)
    case 72 => Ok(TradeUpdate)
    case 73 => Ok(TickerUpdate)
    case 74 => Ok(CandleUpdate)
    case 75 => Ok(Candles)
    case _ => Err(InvalidMessageType(value))
  }

  /** Status updates and query results sent over UDP. */
  function FromStatusCode(value: u8): (r: Result<MessageType, ProtocolError>)
    ensures r.Ok? ==> ToU8(r.value) == value
    ensures r.Err? ==> r == Err(InvalidMessageType(value))
  {
    match value
    case 76 => Ok(ActivityStopStatus)
    case 77 => Ok(ActivityStopTriggered)
    case 79 => Ok(Pong)
    case 80 => Ok(Positions)
    case 81 => Ok(Orders)
    case 82 => Ok(AccountInfo)
    case 83 => Ok(Disconnected)
    case _ => Err(InvalidMessageType(value))
  }

  function FromU8(value: u8): (r: Result<MessageType, ProtocolError>)
    ensures r.Ok? ==> ToU8(r.value) == value
    ensures r.Err? ==> r == Err(InvalidMessageType(value))
  {
    if value < 20 then FromRequestCode(value)
    else if value < 50 then FromReplyCode(value)
    else if value < 70 then FromQueryCode(value)
    else if value < 76 then FromMarketCode(value)
    else FromStatusCode(value)
  }

  lemma {:induction false} FromToU8(t: MessageType)
    ensures FromU8(ToU8(t)) == Ok(t)
  {
  }

  /** Codes and types correspond one to one. */
  lemma {:induction false} CodesRoundTrip(t: MessageType, value: u8)
    ensures ToU8(t) == value <==> FromU8(value) == Ok(t)
  {
    FromToU8(t);
  }

  // ---------- The numbers on the wire ----------

  /** What clients send over TCP is numbered from 0. */
  lemma {:induction false} RequestCodes()
    ensures ToU8(PlaceOrder) == 0 && ToU8(CancelOrder) == 1 && ToU8(CancelAllOrders) == 2
            && ToU8(ClosePosition) == 3 && ToU8(SetTrailingStop) == 4 && ToU8(ActivityStop) == 5
            && ToU8(CancelActivityStop) == 6 && ToU8(SubscribeChart) == 7 && ToU8(UnsubscribeChart) == 8
            && ToU8(Subscribe) == 9 && ToU8(Unsubscribe) == 10 && ToU8(CreatePendingAutostop) == 11
            && ToU8(UpdatePendingAutostop) == 12 && ToU8(CancelPendingAutostop) == 13
            && ToU8(GetPendingAutostops) == 14
  {
  }

  /** What the server replies over TCP is numbered from 20, first to requests. */
  lemma {:induction false} ReplyCodes()
    ensures ToU8(OrderPlaced) == 20 && ToU8(OrderCancelled) == 21 && ToU8(OrderError) == 22
            && ToU8(Error) == 23 && ToU8(TrailingStopSet) == 24 && ToU8(ActivityStopActivated) == 25
            && ToU8(Connected) == 26 && ToU8(ChartSubscribed) == 27 && ToU8(PositionModeChanged) == 28
  {
  }

  /** Replies about pending autostops follow. */
  lemma {:induction false} AutostopReplyCodes()
    ensures ToU8(PendingAutostopCreated) == 29 && ToU8(PendingAutostopUpdated) == 30
            && ToU8(PendingAutostopCancelled) == 31 && ToU8(PendingAutostopActivated) == 32
            && ToU8(PendingAutostops) == 33
  {
  }

  /** Queries over UDP are numbered from 50. */
  lemma {:induction false} QueryCodes()
    ensures ToU8(GetPositions) == 50 && ToU8(GetOrders) == 51 && ToU8(GetTicker) == 52
            && ToU8(GetCandles) == 53 && ToU8(GetAccountInfo) == 54 && ToU8(Ping) == 55
  {
  }

  /** Updates over UDP are numbered from 70. */
  lemma {:induction false} UpdateCodes()
    ensures ToU8(OrderUpdate) == 70 && ToU8(PositionUpdate) == 71 && ToU8(TradeUpdate) == 72
            && ToU8(TickerUpdate) == 73 && ToU8(CandleUpdate) == 74 && ToU8(Candles) == 75
  {
  }

  /** Statuses over UDP follow; 78 is free. */
  lemma {:induction false} StatusCodes()
    ensures ToU8(ActivityStopStatus) == 76 && ToU8(ActivityStopTriggered) == 77 && ToU8(Pong) == 79
  {
  }

  /** Results of queries over UDP are numbered from 80. */
  lemma {:induction false} ResultCodes()
    ensures ToU8(Positions) == 80 && ToU8(Orders) == 81 && ToU8(AccountInfo) == 82 && ToU8(Disconnected) == 83
  {
  }

  // ---------- UDP packets ----------

  datatype UdpPacket = UdpPacket(sequence: nat, timestampUs: nat, msgType: MessageType, payload: Bytes)

  predicate Sendable(p: UdpPacket) {
    p.sequence < Base(4) && p.timestampUs < Base(8)
  }

  function UdpBytes(p: UdpPacket): Bytes {
    PutLe(p.sequence, 4) + PutLe(p.timestampUs, 8) + [ToU8(p.msgType)] + PutLe(|p.payload|, 2) + p.payload
  }

  /** The clock reading is an argument. Fails exactly above 1385 payload bytes. */
  method EncodeUdpPacket(sequence: nat, timestampUs: nat, msgType: MessageType, payload: Bytes)
    returns (r: Result<Bytes, ProtocolError>)
    ensures r == if |payload| <= 1385 then Ok(UdpBytes(UdpPacket(sequence, timestampUs, msgType, payload)))
                 else Err(PacketTooLarge(15 + |payload|))
  {
    var total := UDP_HEADER_SIZE + |payload|;
    if total > MAX_UDP_PACKET_SIZE {
      return Err(PacketTooLarge(total));
    }
    var buf: Bytes := [];
    buf := buf + PutLe(sequence, 4);
    buf := buf + PutLe(timestampUs, 8);
    buf := buf + [ToU8(msgType)];
    buf := buf + PutLe(|payload|, 2);
    buf := buf + payload;
    assert buf == UdpBytes(UdpPacket(sequence, timestampUs, msgType, payload));
    return Ok(buf);
  }

  function DecodeUdp(data: Bytes): Result<UdpPacket, ProtocolError> {
    if |data| < UDP_HEADER_SIZE then Err(PacketTooSmall(|data|))
    else
      var length := GetLe(data[13..15]);
      if |data| - 15 < length then Err(PacketTooSmall(|data|))
      else match FromU8(data[12])
        case Err(e) => Err(e)
        case Ok(t) => Ok(UdpPacket(GetLe(data[..4]), GetLe(data[4..12]), t, data[15..15 + length]))
  }

  /** Reads field by field, dropping what was read from the front of the buffer. */
  method DecodeUdpPacket(data: Bytes) returns (r: Result<UdpPacket, ProtocolError>)
    ensures r == DecodeUdp(data)
  {
    if |data| < UDP_HEADER_SIZE {
      return Err(PacketTooSmall(|data|));
    }
    var buf := data;
    var sequence := GetLe(buf[..4]);
    buf := buf[4..];
    assert buf[..8] == data[4..12];
    var timestampUs := GetLe(buf[..8]);
    buf := buf[8..];
    var code := buf[0];
    buf := buf[1..];
    assert buf[..2] == data[13..15];
    var length := GetLe(buf[..2]);
    buf := buf[2..];
    assert buf == data[15..];
    if |buf| < length {
      return Err(PacketTooSmall(|data|));
    }
    var msgType := FromU8(code);
    if msgType.Err? {
      return Err(msgType.error);
    }
    assert buf[..length] == data[15..15 + length];
    return Ok(UdpPacket(sequence, timestampUs, msgType.value, buf[..length]));
  }

  /** The layout: number, time, type, length and payload, at bytes 0, 4, 12, 13 and 15. */
  lemma {:induction false} UdpLayout(p: UdpPacket)
    requires |p.payload| < 0x10000
    ensures var bs := UdpBytes(p);
            && |bs| == 15 + |p.payload|
            && (forall i | 0 <= i < 4 :: bs[i] == p.sequence / Power256(i) % 0x100)
            && (forall i | 0 <= i < 8 :: bs[4 + i] == p.timestampUs / Power256(i) % 0x100)
            && bs[12] == ToU8(p.msgType)
            && (forall i | 0 <= i < 2 :: bs[13 + i] == |p.payload| / Power256(i) % 0x100)
            && bs[15..] == p.payload
  {
    var bs := UdpBytes(p);
    forall i | 0 <= i < 4 ensures bs[i] == p.sequence / Power256(i) % 0x100 { PutLeMeans(p.sequence, 4, i); }
    forall i | 0 <= i < 8 ensures bs[4 + i] == p.timestampUs / Power256(i) % 0x100 {
      PutLeMeans(p.timestampUs, 8, i);
    }
    forall i | 0 <= i < 2 ensures bs[13 + i] == |p.payload| / Power256(i) % 0x100 {
      PutLeMeans(|p.payload|, 2, i);
    }
  }

  /** Decoding an encoded packet followed by anything gives the packet back. */
  lemma {:induction false} UdpRoundTrip(p: UdpPacket, tail: Bytes)
    requires Sendable(p) && |p.payload| < 0x10000
    ensures DecodeUdp(UdpBytes(p) + tail) == Ok(p)
  {
    var data := UdpBytes(p) + tail;
    assert data[..4] == PutLe(p.sequence, 4);
    assert data[4..12] == PutLe(p.timestampUs, 8);
    assert data[12] == ToU8(p.msgType);
    assert data[13..15] == PutLe(|p.payload|, 2);
    assert Base(2) == 0x10000 by { assert Base(1) == 0x100; }
    GetOfPut(p.sequence, 4);
    GetOfPut(p.timestampUs, 8);
    GetOfPut(|p.payload|, 2);
    FromToU8(p.msgType);
    assert data[15..15 + |p.payload|] == p.payload;
  }

  /** Any accepted bytes are the encoding of what was decoded, up to the unread tail; the
      sender would have produced them exactly when the payload is at most 1385 bytes. */
  lemma {:induction false} UdpReencodes(data: Bytes)
    requires DecodeUdp(data).Ok?
    ensures var p := DecodeUdp(data).value;
            Sendable(p) && 15 + |p.payload| <= |data| && UdpBytes(p) == data[..15 + |p.payload|]
  {
    var p := DecodeUdp(data).value;
    var n := |p.payload|;
    assert Base(8) == Base(4) * Base(4) && Base(4) == 0x1_0000_0000 by {
      assert Base(1) == 0x100 && Base(2) == 0x10000 && Base(3) == 0x100_0000;
      assert Base(5) == 0x100 * Base(4) && Base(6) == 0x100 * Base(5) && Base(7) == 0x100 * Base(6);
    }
    GetLeBound(data[..4]);
    GetLeBound(data[4..12]);
    PutOfGet(data[..4]);
    PutOfGet(data[4..12]);
    PutOfGet(data[13..15]);
    assert data[..15 + n] == data[..4] + data[4..12] + [data[12]] + data[13..15] + data[15..15 + n];
  }

  // ---------- TCP frames ----------

  datatype TcpFrame = TcpFrame(msgType: MessageType, requestId: Bytes, payload: Bytes)

  /** What follows the length prefix. */
  function FrameBody(f: TcpFrame): Bytes {
    [ToU8(f.msgType)] + f.requestId + f.payload
  }

  /** The prefix is computed in 32 bits, by a subtraction that must not go below zero. */
  function LengthPrefix(total: nat): Option<nat> {
    if total % 0x1_0000_0000 < 4 then None else Some(total % 0x1_0000_0000 - 4)
  }

  method EncodeTcpFrame(msgType: MessageType, requestId: Bytes, payload: Bytes)
    returns (r: Result<Bytes, ProtocolError>)
    requires |requestId| == 16
    ensures LengthPrefix(21 + |payload|).None? ==> r == Err(Overflow)
    ensures LengthPrefix(21 + |payload|).Some? ==>
              r == Ok(PutLe(LengthPrefix(21 + |payload|).value, 4) + FrameBody(TcpFrame(msgType, requestId, payload)))
  {
    var total := TCP_HEADER_SIZE + |payload|;
    var wrapped := total % 0x1_0000_0000;
    if wrapped < 4 {
      return Err(Overflow);
    }
    var buf: Bytes := PutLe(wrapped - 4, 4);
    buf := buf + [ToU8(msgType)];
    buf := buf + requestId;
    buf := buf + payload;
    assert buf == PutLe(wrapped - 4, 4) + FrameBody(TcpFrame(msgType, requestId, payload));
    return Ok(buf);
  }

  function DecodeTcp(data: Bytes): Result<TcpFrame, ProtocolError> {
    if |data| < 17 then Err(PacketTooSmall(|data|))
    else match FromU8(data[0])
      case Err(e) => Err(e)
      case Ok(t) => Ok(TcpFrame(t, data[1..17], data[17..]))
  }

  method DecodeTcpFrame(data: Bytes) returns (r: Result<TcpFrame, ProtocolError>)
    ensures r == DecodeTcp(data)
  {
    if |data| < TCP_HEADER_SIZE - 4 {
      return Err(PacketTooSmall(|data|));
    }
    var buf := data;
    var code := buf[0];
    buf := buf[1..];
    var msgType := FromU8(code);
    if msgType.Err? {
      return Err(msgType.error);
    }
    var requestId := buf[..16];
    buf := buf[16..];
    assert requestId == data[1..17] && buf == data[17..];
    return Ok(TcpFrame(msgType.value, requestId, buf));
  }

  /** The layout of a frame after its prefix: type, request id, payload, at bytes 0, 1 and 17. */
  lemma {:induction false} FrameLayout(f: TcpFrame)
    requires |f.requestId| == 16
    ensures var bs := FrameBody(f);
            |bs| == 17 + |f.payload| && bs[0] == ToU8(f.msgType) && bs[1..17] == f.requestId && bs[17..] == f.payload
  {
  }

  /** The bytes after the prefix decode to the frame, and only they do. */
  lemma {:induction false} TcpRoundTrip(f: TcpFrame, data: Bytes)
    requires |f.requestId| == 16
    ensures DecodeTcp(data) == Ok(f) <==> data == FrameBody(f)
  {
    FromToU8(f.msgType);
    assert FrameBody(f)[1..17] == f.requestId && FrameBody(f)[17..] == f.payload;
    if DecodeTcp(data) == Ok(f) {
      assert data == [data[0]] + data[1..17] + data[17..];
    }
  }

  /** The prefix equals the number of bytes that follow it exactly for payloads under
      2^32 - 21 bytes. */
  lemma {:induction false} PrefixExactIff(f: TcpFrame)
    requires |f.requestId| == 16
    ensures LengthPrefix(21 + |f.payload|) == Some(|FrameBody(f)|) <==> |f.payload| < 0x1_0000_0000 - 21
  {
  }

  ghost predicate Framable(f: TcpFrame) {
    |f.requestId| == 16 && |f.payload| < 0x1_0000_0000 - 21
  }

  function FrameBytes(f: TcpFrame): Bytes {
    PutLe(|FrameBody(f)|, 4) + FrameBody(f)
  }

  function Stream(frames: seq<TcpFrame>): Bytes {
    if frames == [] then [] else FrameBytes(frames[0]) + Stream(frames[1..])
  }

  /** A reader of the stream: take a prefix, take that many bytes, decode, repeat. */
  function SplitStream(data: Bytes): Option<seq<TcpFrame>>
    decreases |data|
  {
    if data == [] then Some([])
    else if |data| < 4 then None
    else
      var n := GetLe(data[..4]);
      if |data| - 4 < n then None
      else match DecodeTcp(data[4..4 + n])
        case Err(_) => None
        case Ok(f) =>
          match SplitStream(data[4 + n..])
          case None => None
          case Some(rest) => Some([f] + rest)
  }

  lemma {:induction false} FrameBytesLayout(f: TcpFrame, rest: Bytes)
    requires Framable(f)
    ensures var data := FrameBytes(f) + rest; var n := |FrameBody(f)|;
            |data| >= 4 + n && GetLe(data[..4]) == n && data[4..4 + n] == FrameBody(f) && data[4 + n..] == rest
  {
    var data := FrameBytes(f) + rest;
    assert Base(4) == 0x1_0000_0000 by { assert Base(1) == 0x100 && Base(2) == 0x10000 && Base(3) == 0x100_0000; }
    GetOfPut(|FrameBody(f)|, 4);
    assert data[..4] == PutLe(|FrameBody(f)|, 4);
  }

  /** Concatenated frames split back into exactly those frames. */
  lemma {:induction false} StreamSplits(frames: seq<TcpFrame>)
    requires forall i | 0 <= i < |frames| :: Framable(frames[i])
    ensures SplitStream(Stream(frames)) == Some(frames)
  {
    if frames != [] {
      var f := frames[0];
      StreamSplits(frames[1..]);
      FrameBytesLayout(f, Stream(frames[1..]));
      TcpRoundTrip(f, FrameBody(f));
      assert frames == [f] + frames[1..];
    }
  }

  /** So two lists of frames with the same bytes are the same list. */
  lemma {:induction false} StreamInjective(a: seq<TcpFrame>, b: seq<TcpFrame>)
    requires (forall i | 0 <= i < |a| :: Framable(a[i])) && (forall i | 0 <= i < |b| :: Framable(b[i]))
    requires Stream(a) == Stream(b)
    ensures a == b
  {
    StreamSplits(a);
    StreamSplits(b);
  }
}
