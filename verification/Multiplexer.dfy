/** A multiplexer that carries many client connections over one backend connection in packets, and
    the demultiplexer at its other end. Bytes are characters below 256. */
module Multiplexer {

  const MAX_PACKET_LEN := 255
  const HEADER_LEN := 3

  datatype Msg = Msg(id: int, payload: string)

  // ----- framing -----

  predicate Sendable(m: Msg) {
    0 <= m.id < 0x10000 && 1 <= |m.payload| <= MAX_PACKET_LEN
  }

  function Packet(m: Msg): (r: string)
    requires Sendable(m)
    ensures |r| == HEADER_LEN + |m.payload|
  {
    [|m.payload| as char, (m.id % 256) as char, (m.id / 256 % 256) as char] + m.payload
  }

  predicate AllSendable(ms: seq<Msg>) {
    forall m :: m in ms ==> Sendable(m)
  }

  function Encode(ms: seq<Msg>): string
    requires AllSendable(ms)
  {
    if ms == [] then "" else Packet(ms[0]) + Encode(ms[1..])
  }

  /** A whole packet is at the front; the length byte alone does not count as one. */
  predicate Whole(buf: string) {
    |buf| > HEADER_LEN && |buf| >= buf[0] as int + HEADER_LEN
  }

  function First(buf: string): Msg
    requires Whole(buf)
  {
    Msg(buf[1] as int + 256 * buf[2] as int, buf[HEADER_LEN..HEADER_LEN + buf[0] as int])
  }

  function AfterFirst(buf: string): string
    requires Whole(buf)
  {
    buf[HEADER_LEN + buf[0] as int..]
  }

  /** The packets at the front of a buffer, and what remains of it after them. */
  function Parsed(buf: string): seq<Msg>
    decreases |buf|
  {
    if !Whole(buf) then [] else [First(buf)] + Parsed(AfterFirst(buf))
  }

  function Rest(buf: string): (r: string)
    ensures !Whole(r)
    decreases |buf|
  {
    if !Whole(buf) then buf else Rest(AfterFirst(buf))
  }

  /** Parsing does not depend on how the stream is cut. */
  lemma {:induction false} ParseInPieces(a: string, b: string)
    ensures Parsed(a + b) == Parsed(a) + Parsed(Rest(a) + b)
    ensures Rest(a + b) == Rest(Rest(a) + b)
    decreases |a|
  {
    if Whole(a) {
      assert First(a + b) == First(a);
      assert AfterFirst(a + b) == AfterFirst(a) + b;
      ParseInPieces(AfterFirst(a), b);
    }
  }

  /** Length, low byte of the id, high byte of the id, payload. */
  lemma PacketLayout(m: Msg)
    requires Sendable(m)
    ensures var p := Packet(m);
      && p[0] as int == |m.payload| && p[1] as int == m.id % 256 && p[2] as int * 256 + p[1] as int == m.id
      && p[HEADER_LEN..] == m.payload
  {
  }

  lemma ParseOne(m: Msg)
    requires Sendable(m)
    ensures Parsed(Packet(m)) == [m] && Rest(Packet(m)) == ""
  {
    var p := Packet(m);
    assert First(p) == m;
    assert AfterFirst(p) == "";
  }

  lemma {:induction false} ParseInverts(ms: seq<Msg>)
    requires AllSendable(ms)
    ensures Parsed(Encode(ms)) == ms && Rest(Encode(ms)) == ""
  {
    hide Packet;
    if ms != [] {
      ParseOne(ms[0]);
      ParseInverts(ms[1..]);
      ParseInPieces(Packet(ms[0]), Encode(ms[1..]));
      assert "" + Encode(ms[1..]) == Encode(ms[1..]);
    }
  }

  function Joined(chunks: seq<string>): string {
    if chunks == [] then "" else Joined(chunks[..|chunks| - 1]) + chunks[|chunks| - 1]
  }

  /** The messages a receiver has seen after a sequence of chunks, and its buffer. */
  function Received(chunks: seq<string>): (seq<Msg>, string) {
    if chunks == [] then ([], "") else
    var (ms, buf) := Received(chunks[..|chunks| - 1]);
    var more := buf + chunks[|chunks| - 1];
    (ms + Parsed(more), Rest(more))
  }

  lemma {:induction false} ReceivedIsParsed(chunks: seq<string>)
    ensures Received(chunks) == (Parsed(Joined(chunks)), Rest(Joined(chunks)))
  {
    if chunks != [] {
      ReceivedIsParsed(chunks[..|chunks| - 1]);
      ParseInPieces(Joined(chunks[..|chunks| - 1]), chunks[|chunks| - 1]);
    }
  }

  /** Whatever the chunks in which they arrive, encoded messages are received as they were sent. */
  lemma AnyChunking(ms: seq<Msg>, chunks: seq<string>)
    requires AllSendable(ms) && Joined(chunks) == Encode(ms)
    ensures Received(chunks) == (ms, "")
  {
    ReceivedIsParsed(chunks);
    ParseInverts(ms);
  }

  // ----- splitting -----

  function Split(id: int, data: string): (r: seq<Msg>)
    requires 0 <= id < 0x10000
    ensures AllSendable(r)
  {
    if |data| > MAX_PACKET_LEN then [Msg(id, data[..MAX_PACKET_LEN])] + Split(id, data[MAX_PACKET_LEN..])
    else if data != "" then [Msg(id, data)]
    else []
  }

  lemma EncodeConcat(a: seq<Msg>, b: seq<Msg>)
    requires AllSendable(a) && AllSendable(b)
    ensures AllSendable(a + b) && Encode(a + b) == Encode(a) + Encode(b)
  {
    if a == [] {
      assert a + b == b;
    } else {
      assert (a + b)[1..] == a[1..] + b;
      EncodeConcat(a[1..], b);
    }
  }

  lemma EncodeOne(m: Msg)
    requires Sendable(m)
    ensures Encode([m]) == Packet(m)
  {
    assert Encode([m][1..]) == "";
    assert Packet(m) + "" == Packet(m);
  }

  // ----- commands -----

  function Digit(d: int): char
    requires 0 <= d < 10
  {
    '0' + d as char
  }

  predicate IsDigit(c: char) {
    '0' <= c <= '9'
  }

  function Decimal(n: nat): (r: string)
    ensures |r| >= 1 && forall k :: 0 <= k < |r| ==> IsDigit(r[k])
  {
    if n < 10 then [Digit(n)] else Decimal(n / 10) + [Digit(n % 10)]
  }

  /** `atoi` from the first digit on, with `acc` read so far. */
  function Atoi(s: string, acc: nat): nat {
    if s != "" && IsDigit(s[0]) then Atoi(s[1..], 10 * acc + (s[0] as int - '0' as int)) else acc
  }

  lemma {:induction false} AtoiReads(n: nat, rest: string)
    ensures Atoi(Decimal(n) + rest, 0) == Atoi(rest, n)
  {
    if n < 10 {
      assert (Decimal(n) + rest)[1..] == rest;
    } else {
      var tail := [Digit(n % 10)] + rest;
      assert Decimal(n) + rest == Decimal(n / 10) + tail;
      AtoiReads(n / 10, tail);
      assert tail[1..] == rest;
    }
  }

  lemma DecimalShort(n: nat)
    requires n < 0x10000
    ensures |Decimal(n)| <= 5
  {
    assert n / 10 < 6554 && n / 10 / 10 < 656 && n / 10 / 10 / 10 < 66 && n / 10 / 10 / 10 / 10 < 7;
    assert |Decimal(n / 10 / 10 / 10 / 10)| == 1;
    assert |Decimal(n / 10 / 10 / 10)| <= 2;
    assert |Decimal(n / 10 / 10)| <= 3;
    assert |Decimal(n / 10)| <= 4;
  }

  /** Addresses as `toIpPort` prints them: short, without blanks and capital letters. */
  predicate Address(peer: string) {
    |peer| <= 64 && forall k :: 0 <= k < |peer| ==> peer[k] != ' ' && peer[k] != 'I'
  }

  function Command(id: nat, peer: string, up: bool): string {
    "CONN " + Decimal(id) + " FROM " + peer + if up then " IS UP\r\n" else " IS DOWN\r\n"
  }

  predicate OccursAt(s: string, sub: string, k: nat)
    requires k <= |s| - |sub|
  {
    s[k..k + |sub|] == sub
  }

  predicate Contains(s: string, sub: string) {
    exists k :: 0 <= k <= |s| - |sub| && OccursAt(s, sub, k)
  }

  datatype Kind = Data(id: int) | Up(id: int) | Down(id: int)

  function CommandId(cmd: string): nat {
    if |cmd| < 5 then 0 else Atoi(cmd[5..], 0)
  }

  function KindOf(m: Msg): Kind {
    if m.id != 0 then Data(m.id)
    else if Contains(m.payload, " IS UP") then Up(CommandId(m.payload)) else Down(CommandId(m.payload))
  }

  function Head(id: nat, peer: string): string {
    "CONN " + Decimal(id) + " FROM " + peer
  }

  lemma HeadHasNoI(id: nat, peer: string)
    requires Address(peer)
    ensures forall k :: 0 <= k < |Head(id, peer)| ==> Head(id, peer)[k] != 'I'
  {
  }

  lemma FindsUp(head: string)
    ensures Contains(head + " IS UP\r\n", " IS UP")
  {
    var s := head + " IS UP\r\n";
    assert OccursAt(s, " IS UP", |head|);
  }

  lemma FindsNoUp(head: string)
    requires forall k :: 0 <= k < |head| ==> head[k] != 'I'
    ensures !Contains(head + " IS DOWN\r\n", " IS UP")
  {
    var s := head + " IS DOWN\r\n";
    var sub := " IS UP";
    forall k | 0 <= k <= |s| - |sub| ensures !OccursAt(s, sub, k) {
      assert s[k..k + |sub|][1] == s[k + 1] && s[k..k + |sub|][4] == s[k + 4];
      assert sub[1] == 'I' && sub[4] == 'U';
      if k == |head| {
        assert s[k + 4] == 'D';
      } else {
        assert s[k + 1] != 'I';
      }
    }
  }

  /** The demultiplexer reads from a command what the multiplexer wrote into it. */
  lemma CommandRead(id: nat, peer: string, up: bool)
    requires Address(peer) && id < 0x10000
    ensures KindOf(Msg(0, Command(id, peer, up))) == if up then Up(id) else Down(id)
    ensures Sendable(Msg(0, Command(id, peer, up)))
  {
    hide Contains, Atoi, Decimal;
    DecimalShort(id);
    var cmd := Command(id, peer, up);
    var end := if up then " IS UP\r\n" else " IS DOWN\r\n";
    assert cmd == Head(id, peer) + end;
    var tail := " FROM " + peer + end;
    assert cmd[5..] == Decimal(id) + tail;
    AtoiReads(id, tail);
    AtoiStops(tail, id);
    HeadHasNoI(id, peer);
    FindsUp(Head(id, peer));
    FindsNoUp(Head(id, peer));
  }

  lemma AtoiStops(s: string, acc: nat)
    requires s != "" && !IsDigit(s[0])
    ensures Atoi(s, acc) == acc
  {
  }

  // ----- the demultiplexer -----

  /** `up` says that the onward connection is set; `pending` waits for it. */
  datatype Entry = Entry(up: bool, pending: string)

  /** The map of onward connections, the input buffer, what was sent to each onward connection, and
      (for the record) which connections have been announced and which ended. */
  datatype Demux = Demux(conns: map<int, Entry>, buf: string, got: map<int, string>, begun: set<int>, ended: set<int>)

  function Got(d: Demux, id: int): string {
    if id in d.got then d.got[id] else ""
  }

  function Pending(d: Demux, id: int): string {
    if id in d.conns then d.conns[id].pending else ""
  }

  /** The checks the demultiplexer makes of a message. */
  predicate Expected(d: Demux, m: Msg) {
    match KindOf(m)
    case Data(id) => id in d.conns && (d.conns[id].up ==> d.conns[id].pending == "")
    case Up(id) => id !in d.conns
    case Down(id) => id in d.conns
  }

  function Handled(d: Demux, m: Msg): Demux {
    match KindOf(m)
    case Data(id) =>
      if id !in d.conns then d
      else if d.conns[id].up then d.(got := d.got[id := Got(d, id) + m.payload])
      else d.(conns := d.conns[id := Entry(false, d.conns[id].pending + m.payload)])
    case Up(id) => d.(conns := d.conns[id := Entry(false, "")], begun := d.begun + {id})
    case Down(id) =>
      var e := d.(ended := d.ended + {id});
      if id in d.conns && !d.conns[id].up then e.(conns := d.conns - {id}) else e
  }

  function HandledAll(d: Demux, ms: seq<Msg>): Demux
    decreases |ms|
  {
    if ms == [] then d else HandledAll(Handled(d, ms[0]), ms[1..])
  }

  predicate AllExpected(d: Demux, ms: seq<Msg>)
    decreases |ms|
  {
    ms == [] || (Expected(d, ms[0]) && AllExpected(Handled(d, ms[0]), ms[1..]))
  }

  /** The onward connection comes up and takes what waits for it. */
  function ConnectedStep(d: Demux, id: int): Demux
    requires id in d.conns
  {
    d.(conns := d.conns[id := Entry(true, "")], got := d.got[id := Got(d, id) + d.conns[id].pending])
  }

  // ----- the whole path -----

  /** `wire` is between the two; `live` and `used` are the multiplexer's ids, `sent` what each
      client sent. */
  datatype State = State(demux: Demux, wire: string, live: set<int>, used: set<int>, sent: map<int, string>)

  const INIT := State(Demux(map[], "", map[], {}, {}), "", {}, {}, map[])

  datatype Step =
    | ClientUp(id: int, peer: string)
    | ClientData(id: int, data: string)
    | ClientDown(id: int, peer: string)
    | Arrive(n: nat)
    | OnwardUp(id: int)

  function Sent(s: State, id: int): string {
    if id in s.sent then s.sent[id] else ""
  }

  /** Every id is used for one connection. */
  predicate Enabled(s: State, a: Step) {
    match a
    case ClientUp(id, peer) => 1 <= id < 0x10000 && id !in s.used && Address(peer)
    case ClientData(id, _) => id in s.live && 1 <= id < 0x10000
    case ClientDown(id, peer) => id in s.live && 1 <= id < 0x10000 && Address(peer)
    case Arrive(n) => n <= |s.wire|
    case OnwardUp(id) => id in s.demux.conns && !s.demux.conns[id].up
  }

  function Transmitted(s: State, ms: seq<Msg>): State
    requires AllSendable(ms)
  {
    s.(wire := s.wire + Encode(ms))
  }

  function CommandMsg(id: nat, peer: string, up: bool): (m: Msg)
    requires Address(peer) && id < 0x10000
    ensures Sendable(m)
  {
    CommandRead(id, peer, up);
    Msg(0, Command(id, peer, up))
  }

  function ArriveStep(d: Demux, chunk: string): Demux {
    var more := d.buf + chunk;
    HandledAll(d, Parsed(more)).(buf := Rest(more))
  }

  function Apply(s: State, a: Step): State {
    if !Enabled(s, a) then s else
    match a
    case ClientUp(id, peer) => Transmitted(s, [CommandMsg(id, peer, true)]).(live := s.live + {id}, used := s.used + {id})
    case ClientData(id, data) => Transmitted(s, Split(id, data)).(sent := s.sent[id := Sent(s, id) + data])
    case ClientDown(id, peer) => Transmitted(s, [CommandMsg(id, peer, false)]).(live := s.live - {id})
    case Arrive(n) => s.(demux := ArriveStep(s.demux, s.wire[..n]), wire := s.wire[n..])
    case OnwardUp(id) => s.(demux := ConnectedStep(s.demux, id))
  }

  function Run(acts: seq<Step>): State {
    if acts == [] then INIT else Apply(Run(acts[..|acts| - 1]), acts[|acts| - 1])
  }

  /** The messages still under way, in the wire and in the input buffer. */
  function Queue(s: State): seq<Msg> {
    Parsed(s.demux.buf + s.wire)
  }

  function Payloads(ms: seq<Msg>, id: int): string {
    if ms == [] then "" else (if KindOf(ms[0]) == Data(id) then ms[0].payload else "") + Payloads(ms[1..], id)
  }

  datatype Stage = Unseen | Open | Over | Wrong

  /** One connection's life as its messages tell it. */
  function NextStage(st: Stage, k: Kind, id: int): Stage {
    if k.id != id then st else
    match k
    case Up(_) => if st.Unseen? then Open else Wrong
    case Data(_) => if st.Open? then Open else Wrong
    case Down(_) => if st.Open? then Over else Wrong
  }

  function StageAfter(st: Stage, ms: seq<Msg>, id: int): Stage
    decreases |ms|
  {
    if ms == [] then st else StageAfter(NextStage(st, KindOf(ms[0]), id), ms[1..], id)
  }

  function DemuxStage(d: Demux, id: int): Stage {
    if id !in d.begun then Unseen else if id !in d.ended then Open else Over
  }

  function MuxStage(s: State, id: int): Stage {
    if id !in s.used then Unseen else if id in s.live then Open else Over
  }

  /** The demultiplexer's bookkeeping for one id. It drops an entry only when its client ended
      before the onward connection was up. */
  ghost predicate EntryRight(d: Demux, id: int) {
    && (id in d.begun && id !in d.ended ==> id in d.conns)
    && (id in d.conns ==> id in d.begun)
    && (id in d.ended ==> id in d.begun)
    && (id in d.conns && id in d.ended ==> d.conns[id].up)
    && (id in d.conns && d.conns[id].up ==> d.conns[id].pending == "")
    && ((id in d.conns ==> !d.conns[id].up) ==> Got(d, id) == "")
  }

  predicate Dropped(d: Demux, id: int) {
    id in d.ended && id !in d.conns
  }

  /** What one id's client sent is at the onward connection, pending, or under way. */
  ghost predicate ConnRight(s: State, id: int) {
    && EntryRight(s.demux, id)
    && StageAfter(DemuxStage(s.demux, id), Queue(s), id) == MuxStage(s, id)
    && (!Dropped(s.demux, id) ==> Got(s.demux, id) + Pending(s.demux, id) + Payloads(Queue(s), id) == Sent(s, id))
  }

  ghost predicate Inv(s: State) {
    && Rest(s.demux.buf + s.wire) == ""
    && !Whole(s.demux.buf)
    && s.live <= s.used
    && (forall id {:trigger ConnRight(s, id)} :: ConnRight(s, id))
  }

  // ----- sending -----

  lemma QueueGrows(s: State, ms: seq<Msg>)
    requires Rest(s.demux.buf + s.wire) == "" && AllSendable(ms)
    ensures Queue(Transmitted(s, ms)) == Queue(s) + ms
    ensures Rest(s.demux.buf + Transmitted(s, ms).wire) == ""
  {
    var x := s.demux.buf + s.wire;
    assert s.demux.buf + (s.wire + Encode(ms)) == x + Encode(ms);
    ParseInPieces(x, Encode(ms));
    assert "" + Encode(ms) == Encode(ms);
    ParseInverts(ms);
  }

  lemma {:induction false} StageConcat(st: Stage, a: seq<Msg>, b: seq<Msg>, id: int)
    ensures StageAfter(st, a + b, id) == StageAfter(StageAfter(st, a, id), b, id)
    decreases |a|
  {
    if a == [] {
      assert a + b == b;
    } else {
      assert (a + b)[1..] == a[1..] + b;
      StageConcat(NextStage(st, KindOf(a[0]), id), a[1..], b, id);
    }
  }

  lemma {:induction false} PayloadsConcat(a: seq<Msg>, b: seq<Msg>, id: int)
    ensures Payloads(a + b, id) == Payloads(a, id) + Payloads(b, id)
  {
    if a == [] {
      assert a + b == b;
    } else {
      assert (a + b)[1..] == a[1..] + b;
      PayloadsConcat(a[1..], b, id);
    }
  }

  /** The pieces of a client's data keep its connection open and carry exactly the data. */
  lemma {:induction false} SplitCarries(id: int, data: string, other: int, st: Stage)
    requires 1 <= id < 0x10000
    ensures Payloads(Split(id, data), other) == if other == id then data else ""
    ensures other != id || st.Open? ==> StageAfter(st, Split(id, data), other) == st
    decreases |data|
  {
    if |data| > MAX_PACKET_LEN {
      var rest := data[MAX_PACKET_LEN..];
      SplitCarries(id, rest, other, st);
      assert Split(id, data)[1..] == Split(id, rest);
      assert data == data[..MAX_PACKET_LEN] + rest;
    } else if data != "" {
      assert Split(id, data)[1..] == [];
      assert data + "" == data;
    }
  }

  /** Sending keeps every connection right if its messages lead to the multiplexer's new view. */
  lemma SendKeepsConn(s: State, t: State, ms: seq<Msg>, id: int)
    requires Inv(s) && AllSendable(ms) && t.demux == s.demux && t.wire == Transmitted(s, ms).wire
    requires StageAfter(MuxStage(s, id), ms, id) == MuxStage(t, id)
    requires Sent(t, id) == Sent(s, id) + Payloads(ms, id)
    ensures ConnRight(t, id)
  {
    hide EntryRight, Parsed, Encode, DemuxStage, MuxStage, Rest, Payloads, StageAfter, Dropped, Got, Pending, Sent;
    assert ConnRight(s, id);
    QueueGrows(s, ms);
    StageConcat(DemuxStage(s.demux, id), Queue(s), ms, id);
    PayloadsConcat(Queue(s), ms, id);
    var held := Got(s.demux, id) + Pending(s.demux, id);
    assert held + (Payloads(Queue(s), id) + Payloads(ms, id)) == (held + Payloads(Queue(s), id)) + Payloads(ms, id);
  }

  lemma CommandEffect(id: nat, peer: string, up: bool, other: int, st: Stage)
    requires Address(peer) && id < 0x10000
    ensures var ms := [CommandMsg(id, peer, up)];
      && AllSendable(ms) && Payloads(ms, other) == ""
      && StageAfter(st, ms, other) == NextStage(st, if up then Up(id) else Down(id), other)
  {
    CommandRead(id, peer, up);
    var ms := [CommandMsg(id, peer, up)];
    assert ms[1..] == [];
  }

  lemma ClientUpKeepsInv(s: State, id: int, peer: string)
    requires Inv(s) && Enabled(s, ClientUp(id, peer))
    ensures Inv(Apply(s, ClientUp(id, peer)))
  {
    hide Parsed, Encode, Rest, CommandMsg, Payloads, StageAfter, NextStage;
    var t := Apply(s, ClientUp(id, peer));
    var ms := [CommandMsg(id, peer, true)];
    QueueGrows(s, ms);
    assert "" == "" + "";
    forall other ensures ConnRight(t, other) {
      CommandEffect(id, peer, true, other, MuxStage(s, other));
      UpStage(MuxStage(s, other), id, other);
      assert Sent(s, other) + "" == Sent(s, other);
      SendKeepsConn(s, t, ms, other);
    }
  }

  lemma UpStage(st: Stage, id: int, other: int)
    ensures NextStage(st, Up(id), other) == if id != other then st else if st.Unseen? then Open else Wrong
    ensures NextStage(st, Down(id), other) == if id != other then st else if st.Open? then Over else Wrong
  {
  }

  lemma ClientDownKeepsInv(s: State, id: int, peer: string)
    requires Inv(s) && Enabled(s, ClientDown(id, peer))
    ensures Inv(Apply(s, ClientDown(id, peer)))
  {
    hide Parsed, Encode, Rest, CommandMsg, Payloads, StageAfter, NextStage;
    var t := Apply(s, ClientDown(id, peer));
    var ms := [CommandMsg(id, peer, false)];
    QueueGrows(s, ms);
    forall other ensures ConnRight(t, other) {
      CommandEffect(id, peer, false, other, MuxStage(s, other));
      UpStage(MuxStage(s, other), id, other);
      assert Sent(s, other) + "" == Sent(s, other);
      SendKeepsConn(s, t, ms, other);
    }
  }

  lemma ClientDataKeepsInv(s: State, id: int, data: string)
    requires Inv(s) && Enabled(s, ClientData(id, data))
    ensures Inv(Apply(s, ClientData(id, data)))
  {
    hide Parsed, Encode, Rest, Payloads, StageAfter, NextStage;
    var t := Apply(s, ClientData(id, data));
    QueueGrows(s, Split(id, data));
    forall other ensures ConnRight(t, other) {
      SplitCarries(id, data, other, MuxStage(s, other));
      assert Sent(s, other) + "" == Sent(s, other);
      SendKeepsConn(s, t, Split(id, data), other);
    }
  }

  // ----- receiving -----

  lemma {:induction false} WrongStays(ms: seq<Msg>, id: int)
    ensures StageAfter(Wrong, ms, id) == Wrong
  {
    if ms != [] {
      WrongStays(ms[1..], id);
    }
  }

  function Held(d: Demux, id: int): string {
    Got(d, id) + Pending(d, id)
  }

  /** One message, seen from the connection `id`. */
  lemma HandleOne(d: Demux, m: Msg, id: int)
    requires EntryRight(d, id) && NextStage(DemuxStage(d, id), KindOf(m), id) != Wrong
    ensures KindOf(m).id == id ==> Expected(d, m)
    ensures var e := Handled(d, m);
      && EntryRight(e, id) && DemuxStage(e, id) == NextStage(DemuxStage(d, id), KindOf(m), id)
      && (!Dropped(e, id) ==> !Dropped(d, id) && Held(e, id) == Held(d, id) + if KindOf(m) == Data(id) then m.payload else "")
  {
    hide KindOf;
    assert Held(d, id) + "" == Held(d, id);
    if KindOf(m) == Data(id) && !d.conns[id].up {
      assert Got(d, id) + (Pending(d, id) + m.payload) == Held(d, id) + m.payload;
    }
  }

  /** A run of messages, seen from the connection `id`; `later` is still under way. */
  lemma {:induction false} HandleMany(d: Demux, ms: seq<Msg>, later: seq<Msg>, id: int)
    requires EntryRight(d, id) && StageAfter(DemuxStage(d, id), ms + later, id) != Wrong
    ensures var e := HandledAll(d, ms);
      && EntryRight(e, id) && StageAfter(DemuxStage(e, id), later, id) == StageAfter(DemuxStage(d, id), ms + later, id)
      && (!Dropped(e, id) ==> !Dropped(d, id) && Held(e, id) + Payloads(later, id) == Held(d, id) + Payloads(ms + later, id))
    decreases |ms|
  {
    hide EntryRight, Handled, DemuxStage, KindOf, NextStage, Dropped, Held;
    if ms == [] {
      assert ms + later == later;
    } else {
      var all := ms + later;
      assert all[0] == ms[0] && all[1..] == ms[1..] + later;
      WrongStays(all[1..], id);
      HandleOne(d, ms[0], id);
      HandleMany(Handled(d, ms[0]), ms[1..], later, id);
    }
  }

  ghost predicate AllRight(d: Demux, ms: seq<Msg>) {
    forall id {:trigger DemuxStage(d, id)} :: EntryRight(d, id) && StageAfter(DemuxStage(d, id), ms, id) != Wrong
  }

  /** No check of the demultiplexer fails on messages of the multiplexer. */
  lemma {:induction false} ChecksPass(d: Demux, ms: seq<Msg>)
    requires AllRight(d, ms)
    ensures AllExpected(d, ms)
    decreases |ms|
  {
    hide EntryRight, Handled, DemuxStage, KindOf, NextStage, Expected;
    if ms != [] {
      var e := Handled(d, ms[0]);
      forall id ensures EntryRight(e, id) && StageAfter(DemuxStage(e, id), ms[1..], id) != Wrong {
        assert StageAfter(DemuxStage(d, id), ms, id) != Wrong;
        WrongStays(ms[1..], id);
        HandleOne(d, ms[0], id);
      }
      var own := KindOf(ms[0]).id;
      assert StageAfter(DemuxStage(d, own), ms, own) != Wrong;
      WrongStays(ms[1..], own);
      HandleOne(d, ms[0], own);
      ChecksPass(e, ms[1..]);
    }
  }

  lemma {:induction false} StageCut(st: Stage, a: seq<Msg>, b: seq<Msg>, id: int)
    requires StageAfter(st, a + b, id) != Wrong
    ensures StageAfter(st, a, id) != Wrong
  {
    StageConcat(st, a, b, id);
    WrongStays(b, id);
  }

  lemma {:induction false} HandledKeepsBuf(d: Demux, ms: seq<Msg>)
    ensures HandledAll(d, ms).buf == d.buf
    decreases |ms|
  {
    if ms != [] {
      HandledKeepsBuf(Handled(d, ms[0]), ms[1..]);
    }
  }

  lemma ArriveQueue(s: State, n: nat)
    requires n <= |s.wire| && Rest(s.demux.buf + s.wire) == ""
    ensures var t := Apply(s, Arrive(n));
      && Queue(s) == Parsed(s.demux.buf + s.wire[..n]) + Queue(t)
      && Rest(t.demux.buf + t.wire) == "" && !Whole(t.demux.buf)
  {
    var more := s.demux.buf + s.wire[..n];
    assert s.demux.buf + s.wire == more + s.wire[n..];
    ParseInPieces(more, s.wire[n..]);
  }

  /** The demultiplexer's checks hold for every chunk that arrives. */
  lemma ArriveChecks(s: State, n: nat)
    requires Inv(s) && n <= |s.wire|
    ensures AllExpected(s.demux, Parsed(s.demux.buf + s.wire[..n]))
  {
    hide EntryRight, DemuxStage, MuxStage, Parsed, Rest;
    ArriveQueue(s, n);
    var ms := Parsed(s.demux.buf + s.wire[..n]);
    forall id ensures EntryRight(s.demux, id) && StageAfter(DemuxStage(s.demux, id), ms, id) != Wrong {
      assert ConnRight(s, id);
      MuxNotWrong(s, id);
      StageCut(DemuxStage(s.demux, id), ms, Queue(Apply(s, Arrive(n))), id);
    }
    ChecksPass(s.demux, ms);
  }

  lemma MuxNotWrong(s: State, id: int)
    ensures MuxStage(s, id) != Wrong
  {
  }

  lemma SameButBuf(d: Demux, e: Demux, id: int)
    requires e == d.(buf := e.buf) && EntryRight(d, id)
    ensures EntryRight(e, id) && DemuxStage(e, id) == DemuxStage(d, id) && Dropped(e, id) == Dropped(d, id) && Held(e, id) == Held(d, id)
  {
  }

  lemma ArriveKeepsInv(s: State, n: nat)
    requires Inv(s) && n <= |s.wire|
    ensures Inv(Apply(s, Arrive(n)))
  {
    hide EntryRight, DemuxStage, Parsed, Rest, HandledAll, Dropped;
    var t := Apply(s, Arrive(n));
    ArriveQueue(s, n);
    var ms := Parsed(s.demux.buf + s.wire[..n]);
    forall id ensures ConnRight(t, id) {
      assert ConnRight(s, id);
      MuxNotWrong(s, id);
      HandleMany(s.demux, ms, Queue(t), id);
      SameButBuf(HandledAll(s.demux, ms), t.demux, id);
      assert MuxStage(t, id) == MuxStage(s, id) && Sent(t, id) == Sent(s, id);
    }
  }

  lemma OnwardKeepsInv(s: State, id: int)
    requires Inv(s) && Enabled(s, OnwardUp(id))
    ensures Inv(Apply(s, OnwardUp(id)))
  {
    hide Parsed, Rest, Payloads, StageAfter;
    var t := Apply(s, OnwardUp(id));
    forall other ensures ConnRight(t, other) {
      assert ConnRight(s, other);
      assert Queue(t) == Queue(s);
      if other == id {
        assert Held(t.demux, id) == Held(s.demux, id);
      }
    }
  }

  lemma StepKeepsInv(s: State, a: Step)
    requires Inv(s)
    ensures Inv(Apply(s, a))
  {
    hide Inv, Apply;
    if Enabled(s, a) {
      match a
      case ClientUp(id, peer) => ClientUpKeepsInv(s, id, peer);
      case ClientData(id, data) => ClientDataKeepsInv(s, id, data);
      case ClientDown(id, peer) => ClientDownKeepsInv(s, id, peer);
      case Arrive(n) => ArriveKeepsInv(s, n);
      case OnwardUp(id) => OnwardKeepsInv(s, id);
    } else {
      NotEnabled(s, a);
    }
  }

  lemma NotEnabled(s: State, a: Step)
    requires !Enabled(s, a)
    ensures Apply(s, a) == s
  {
  }

  lemma InitInv()
    ensures Inv(INIT)
  {
    forall id ensures ConnRight(INIT, id) {
    }
  }

  lemma {:induction false} RunsKeepInv(acts: seq<Step>)
    ensures Inv(Run(acts))
  {
    if acts == [] {
      InitInv();
    } else {
      RunsKeepInv(acts[..|acts| - 1]);
      StepKeepsInv(Run(acts[..|acts| - 1]), acts[|acts| - 1]);
    }
  }

  /** For every interleaving of clients, every chunking and every moment at which onward
      connections come up: an onward connection has received a prefix of what its client sent; what
      is missing is pending or under way, unless the entry was dropped because the client ended
      before the onward connection was up, and then it received nothing. */
  lemma StreamsArrive(acts: seq<Step>, id: int)
    ensures var s := Run(acts);
      && Got(s.demux, id) <= Sent(s, id)
      && (if Dropped(s.demux, id) then Got(s.demux, id) == ""
          else Sent(s, id) == Got(s.demux, id) + Pending(s.demux, id) + Payloads(Queue(s), id))
      && (s.wire == "" && id in s.demux.conns && s.demux.conns[id].up ==> Got(s.demux, id) == Sent(s, id))
  {
    RunsKeepInv(acts);
    var s := Run(acts);
    assert ConnRight(s, id);
    if s.wire == "" {
      assert s.demux.buf + "" == s.demux.buf;
      assert Queue(s) == [];
    }
  }

  // ----- what clients did, and that it all arrives -----

  /** A connection's life from the clients' steps alone. */
  function LifeOf(acts: seq<Step>, id: int): Stage {
    if acts == [] then Unseen else
    var st, a := LifeOf(acts[..|acts| - 1], id), acts[|acts| - 1];
    if a.ClientUp? && a.id == id && 1 <= id < 0x10000 && Address(a.peer) && st.Unseen? then Open
    else if a.ClientDown? && a.id == id && Address(a.peer) && st.Open? then Over
    else st
  }

  /** Everything the client of the connection sent. */
  function SentBy(acts: seq<Step>, id: int): string {
    if acts == [] then "" else
    var front, a := acts[..|acts| - 1], acts[|acts| - 1];
    if a.ClientData? && a.id == id && LifeOf(front, id).Open? then SentBy(front, id) + a.data else SentBy(front, id)
  }

  lemma {:induction false} LifeIsRight(acts: seq<Step>, id: int)
    ensures MuxStage(Run(acts), id) == LifeOf(acts, id) && Sent(Run(acts), id) == SentBy(acts, id)
    ensures Run(acts).live <= Run(acts).used && (id in Run(acts).used ==> 1 <= id < 0x10000)
  {
    hide Apply;
    if acts != [] {
      LifeIsRight(acts[..|acts| - 1], id);
      LifeStep(Run(acts[..|acts| - 1]), acts[|acts| - 1], id);
    }
  }

  lemma LifeStep(s: State, a: Step, id: int)
    requires s.live <= s.used && (id in s.used ==> 1 <= id < 0x10000)
    ensures var t := Apply(s, a);
      && t.live <= t.used && (id in t.used ==> 1 <= id < 0x10000)
      && MuxStage(t, id) ==
           (if a.ClientUp? && a.id == id && 1 <= id < 0x10000 && Address(a.peer) && MuxStage(s, id).Unseen? then Open
            else if a.ClientDown? && a.id == id && Address(a.peer) && MuxStage(s, id).Open? then Over
            else MuxStage(s, id))
      && Sent(t, id) == if a.ClientData? && a.id == id && MuxStage(s, id).Open? then Sent(s, id) + a.data else Sent(s, id)
  {
    hide Encode, Split, CommandMsg, Parsed, Rest, HandledAll, Address;
  }

  lemma AllArrived(s: State)
    requires Inv(s)
    ensures var t := Apply(s, Arrive(|s.wire|));
      t.wire == "" && t.demux.buf == "" && Queue(t) == [] && t.live == s.live && t.used == s.used && t.sent == s.sent
  {
    ArriveKeepsInv(s, |s.wire|);
    var t := Apply(s, Arrive(|s.wire|));
    assert t.wire == "" && t.demux.buf + "" == t.demux.buf;
  }

  /** From every reachable state, once what is on the wire has arrived and the onward connection of a
      client that has not ended is up, that connection has received exactly what its client sent. */
  lemma EverythingArrives(acts: seq<Step>, id: int)
    requires LifeOf(acts, id).Open?
    ensures var t := Apply(Run(acts), Arrive(|Run(acts).wire|));
      && id in t.demux.conns
      && var u := Apply(t, OnwardUp(id));
         id in u.demux.conns && u.demux.conns[id].up && Got(u.demux, id) == SentBy(acts, id)
  {
    hide Parsed, Rest, HandledAll, Payloads, StageAfter;
    var s := Run(acts);
    var t := Apply(s, Arrive(|s.wire|));
    LifeIsRight(acts, id);
    RunsKeepInv(acts);
    AllArrived(s);
    ArriveKeepsInv(s, |s.wire|);
    assert ConnRight(t, id);
    NothingUnderWay(DemuxStage(t.demux, id), id);
    assert Sent(t, id) == Sent(s, id);
    var held := Got(t.demux, id) + Pending(t.demux, id);
    assert held + "" == held;
    ComesUp(t, id);
  }

  lemma NothingUnderWay(st: Stage, id: int)
    ensures StageAfter(st, [], id) == st && Payloads([], id) == ""
  {
  }

  /** Coming up, an onward connection receives what was pending, and nothing else changes. */
  lemma ComesUp(s: State, id: int)
    requires EntryRight(s.demux, id) && id in s.demux.conns
    ensures var u := Apply(s, OnwardUp(id));
      && id in u.demux.conns && u.demux.conns[id] == Entry(true, "")
      && Got(u.demux, id) == Got(s.demux, id) + Pending(s.demux, id)
      && (forall other :: other != id ==> Got(u.demux, other) == Got(s.demux, other) && Pending(u.demux, other) == Pending(s.demux, other))
  {
    assert Got(s.demux, id) + "" == Got(s.demux, id);
  }

  /** A packet without payload is taken only when a byte follows it. */
  lemma EmptyPacketWaits(low: char, high: char, rest: string)
    ensures var packet := [0 as char, low, high];
      && Parsed(packet) == [] && Rest(packet) == packet
      && (rest != "" ==> Parsed(packet + rest) == [Msg(low as int + 256 * high as int, "")] + Parsed(rest))
  {
    var packet := [0 as char, low, high];
    assert !Whole(packet);
    if rest != "" {
      EmptyFollowed(packet + rest, low, high, rest);
    }
  }

  lemma EmptyFollowed(buf: string, low: char, high: char, rest: string)
    requires buf == [0 as char, low, high] + rest && rest != ""
    ensures Whole(buf) && Parsed(buf) == [Msg(low as int + 256 * high as int, "")] + Parsed(rest)
  {
    hide Parsed;
    assert buf[0] == 0 as char && buf[1] == low && buf[2] == high;
    assert AfterFirst(buf) == rest;
    assert First(buf) == Msg(low as int + 256 * high as int, "");
    ParsedUnfolds(buf);
  }

  lemma ParsedUnfolds(buf: string)
    requires Whole(buf)
    ensures Parsed(buf) == [First(buf)] + Parsed(AfterFirst(buf))
  {
  }

  // ----- when bytes are lost -----

  /** The end of a client is handled while its onward connection is not up. */
  predicate EndsBeforeUp(d: Demux, m: Msg, id: int) {
    KindOf(m) == Down(id) && id in d.conns && !d.conns[id].up
  }

  /** Some message of the sequence meets that case. */
  predicate SomeEndsBeforeUp(d: Demux, ms: seq<Msg>, id: int)
    decreases |ms|
  {
    ms != [] && (EndsBeforeUp(d, ms[0], id) || SomeEndsBeforeUp(Handled(d, ms[0]), ms[1..], id))
  }

  /** Some arrival of the run brings that case about. */
  predicate EverEndsBeforeUp(acts: seq<Step>, id: int) {
    acts != [] &&
    (EverEndsBeforeUp(acts[..|acts| - 1], id) ||
     var s, a := Run(acts[..|acts| - 1]), acts[|acts| - 1];
     a.Arrive? && Enabled(s, a) && SomeEndsBeforeUp(s.demux, Parsed(s.demux.buf + s.wire[..a.n]), id))
  }

  lemma DroppedByMessageIff(d: Demux, m: Msg, id: int)
    requires EntryRight(d, id) && NextStage(DemuxStage(d, id), KindOf(m), id) != Wrong
    ensures Dropped(Handled(d, m), id) <==> Dropped(d, id) || EndsBeforeUp(d, m, id)
  {
    hide KindOf;
  }

  lemma {:induction false} DroppedByMessagesIff(d: Demux, ms: seq<Msg>, id: int)
    requires EntryRight(d, id) && StageAfter(DemuxStage(d, id), ms, id) != Wrong
    ensures Dropped(HandledAll(d, ms), id) <==> Dropped(d, id) || SomeEndsBeforeUp(d, ms, id)
    decreases |ms|
  {
    hide EntryRight, Handled, DemuxStage, KindOf, NextStage, Dropped, EndsBeforeUp;
    if ms != [] {
      WrongStays(ms[1..], id);
      HandleOne(d, ms[0], id);
      DroppedByMessageIff(d, ms[0], id);
      DroppedByMessagesIff(Handled(d, ms[0]), ms[1..], id);
    }
  }

  lemma DroppedByArrivalIff(s: State, n: nat, id: int)
    requires Inv(s) && n <= |s.wire|
    ensures Dropped(Apply(s, Arrive(n)).demux, id)
       <==> Dropped(s.demux, id) || SomeEndsBeforeUp(s.demux, Parsed(s.demux.buf + s.wire[..n]), id)
  {
    hide EntryRight, DemuxStage, MuxStage, Parsed, Rest, Dropped, HandledAll, SomeEndsBeforeUp;
    var ms := Parsed(s.demux.buf + s.wire[..n]);
    assert ConnRight(s, id);
    ArriveQueue(s, n);
    MuxNotWrong(s, id);
    StageCut(DemuxStage(s.demux, id), ms, Queue(Apply(s, Arrive(n))), id);
    HandleMany(s.demux, ms, [], id) by { assert ms + [] == ms; }
    DroppedByMessagesIff(s.demux, ms, id);
    SameButBuf(HandledAll(s.demux, ms), Apply(s, Arrive(n)).demux, id);
  }

  /** No other step drops anything. */
  lemma DroppedOnlyByArrival(s: State, a: Step, id: int)
    requires Inv(s) && !a.Arrive?
    ensures Dropped(Apply(s, a).demux, id) <==> Dropped(s.demux, id)
  {
    hide Parsed, Rest, Encode, Split, CommandMsg;
    assert ConnRight(s, id);
  }

  /** An entry is dropped exactly in the runs in which its client's end was handled too early. */
  lemma {:induction false} DroppedIffEndsBeforeUp(acts: seq<Step>, id: int)
    ensures Dropped(Run(acts).demux, id) <==> EverEndsBeforeUp(acts, id)
  {
    hide Inv, Dropped, SomeEndsBeforeUp, Parsed, Enabled, Apply;
    if acts == [] {
      NothingDropped(id);
    } else {
      var s, a := Run(acts[..|acts| - 1]), acts[|acts| - 1];
      DroppedIffEndsBeforeUp(acts[..|acts| - 1], id);
      RunsKeepInv(acts[..|acts| - 1]);
      if !Enabled(s, a) {
        NotEnabled(s, a);
      } else if a.Arrive? {
        ArriveEnabled(s, a);
        DroppedByArrivalIff(s, a.n, id);
      } else {
        DroppedOnlyByArrival(s, a, id);
      }
    }
  }

  lemma NothingDropped(id: int)
    ensures !Dropped(INIT.demux, id)
  {
  }

  lemma ArriveEnabled(s: State, a: Step)
    requires a.Arrive? && Enabled(s, a)
    ensures a.n <= |s.wire|
  {
  }

  lemma {:induction false} OverCarriesNothing(ms: seq<Msg>, id: int)
    requires StageAfter(Over, ms, id) != Wrong
    ensures Payloads(ms, id) == ""
  {
    hide KindOf;
    if ms != [] {
      WrongStays(ms[1..], id);
      OverCarriesNothing(ms[1..], id);
    }
  }

  /** In every run, what a client sent is all at the onward connection, pending or under way,
      exactly when its end was never handled before the onward connection was up, or it sent
      nothing. Otherwise all of it is lost. */
  lemma NothingLostIff(acts: seq<Step>, id: int)
    ensures var s := Run(acts);
      var kept := Got(s.demux, id) + Pending(s.demux, id) + Payloads(Queue(s), id);
      && (kept == Sent(s, id) <==> !EverEndsBeforeUp(acts, id) || Sent(s, id) == "")
      && (EverEndsBeforeUp(acts, id) ==> kept == "")
  {
    hide EverEndsBeforeUp, Payloads, StageAfter, Parsed;
    var s := Run(acts);
    RunsKeepInv(acts);
    DroppedIffEndsBeforeUp(acts, id);
    assert ConnRight(s, id);
    if Dropped(s.demux, id) {
      MuxNotWrong(s, id);
      OverCarriesNothing(Queue(s), id);
    }
  }

  /** A client that connects, sends one byte and ends before anything arrives loses the byte. */
  function EarlyEnd(): seq<Step> {
    [ClientUp(1, "a"), ClientData(1, "x"), ClientDown(1, "a")]
  }

  lemma EarlyEndLosesBytes()
    ensures var acts := EarlyEnd() + [Arrive(|Run(EarlyEnd()).wire|)];
      && EverEndsBeforeUp(acts, 1) && Sent(Run(acts), 1) == "x"
      && Got(Run(acts).demux, 1) + Pending(Run(acts).demux, 1) + Payloads(Queue(Run(acts)), 1) == ""
  {
    var acts := EarlyEnd() + [Arrive(|Run(EarlyEnd()).wire|)];
    var s := Run(EarlyEnd());
    EarlyEndQueue();
    assert acts[..3] == EarlyEnd() && acts[3] == Arrive(|s.wire|);
    assert Run(acts) == Apply(s, Arrive(|s.wire|));
    NothingLostIff(acts, 1);
  }

  lemma EarlyEndQueue()
    ensures var s := Run(EarlyEnd());
      && s.demux == INIT.demux && Sent(s, 1) == "x"
      && SomeEndsBeforeUp(s.demux, Parsed(s.demux.buf + s.wire[..|s.wire|]), 1)
  {
    hide Parsed, Encode, Rest, Split, CommandMsg, SomeEndsBeforeUp;
    var s1 := Apply(INIT, ClientUp(1, "a"));
    var s2 := Apply(s1, ClientData(1, "x"));
    var s := Apply(s2, ClientDown(1, "a"));
    assert Run(EarlyEnd()) == s by {
      assert EarlyEnd()[..2][..1] == [ClientUp(1, "a")] && [ClientUp(1, "a")][..0] == [];
    }
    var up, down := CommandMsg(1, "a", true), CommandMsg(1, "a", false);
    InitInv();
    ClientUpKeepsInv(INIT, 1, "a");
    ClientDataKeepsInv(s1, 1, "x");
    QueueGrows(INIT, [up]);
    QueueGrows(s1, Split(1, "x"));
    QueueGrows(s2, [down]);
    SplitShort();
    assert Queue(INIT) == [] by { EmptyQueue(); }
    assert s.wire[..|s.wire|] == s.wire;
    assert Queue(s) == [up, Msg(1, "x"), down];
    EarlyEndHandled(up, down);
  }

  lemma EmptyQueue()
    ensures Queue(INIT) == []
  {
  }

  lemma SplitShort()
    ensures Split(1, "x") == [Msg(1, "x")]
  {
  }

  lemma EarlyEndHandled(up: Msg, down: Msg)
    requires up == CommandMsg(1, "a", true) && down == CommandMsg(1, "a", false)
    ensures SomeEndsBeforeUp(INIT.demux, [up, Msg(1, "x"), down], 1)
  {
    hide CommandMsg, Contains, CommandId;
    CommandKinds();
    var d1 := Handled(INIT.demux, up);
    var d2 := Handled(d1, Msg(1, "x"));
    assert EndsBeforeUp(d2, down, 1);
    assert SomeEndsBeforeUp(d2, [down], 1);
    assert [Msg(1, "x"), down][1..] == [down];
    assert SomeEndsBeforeUp(d1, [Msg(1, "x"), down], 1);
    assert [up, Msg(1, "x"), down][1..] == [Msg(1, "x"), down];
  }

  lemma CommandKinds()
    ensures KindOf(CommandMsg(1, "a", true)) == Up(1) && KindOf(CommandMsg(1, "a", false)) == Down(1)
  {
    CommandRead(1, "a", true);
    CommandRead(1, "a", false);
  }

  /** No check of the demultiplexer ever fails, whatever arrives next. */
  lemma ChecksNeverFail(acts: seq<Step>, n: nat)
    requires n <= |Run(acts).wire|
    ensures var s := Run(acts); AllExpected(s.demux, Parsed(s.demux.buf + s.wire[..n]))
  {
    RunsKeepInv(acts);
    ArriveChecks(Run(acts), n);
  }

  /** After a client ends, its id could be announced again exactly when its entry was dropped: the
      entry of a connected one stays behind. */
  lemma ReusableIffDropped(d: Demux, m: Msg, id: int)
    requires KindOf(m) == Down(id) && id in d.conns
    ensures forall up :: KindOf(up) == Up(id) ==> (Expected(Handled(d, m), up) <==> !d.conns[id].up)
  {
    hide KindOf;
  }

  // ----- the classes -----

  /** The multiplexer's sending side. */
  class MultiplexServer {
    var backendConnected: bool
    /** What was sent over the backend connection. */
    var backend: string

    constructor ()
      ensures backendConnected && backend == ""
    {
      backendConnected, backend := true, "";
    }

    method SendBackendPacket(id: int, payload: string)
      requires Sendable(Msg(id, payload))
      modifies this`backend
      ensures backend == if backendConnected then old(backend) + Packet(Msg(id, payload)) else old(backend)
    {
      var header := [|payload| as char, (id % 256) as char, (id / 256 % 256) as char];
      var buf := header + payload;
      if backendConnected {
        backend := backend + buf;
      }
    }

    /** Sends a client's data in packets of at most 255 bytes. */
    method SendBackendBuffer(id: int, data: string)
      requires 0 <= id < 0x10000
      modifies this`backend
      ensures backend == if backendConnected then old(backend) + Encode(Split(id, data)) else old(backend)
    {
      hide Packet, Encode, Split;
      var buf := data;
      ghost var done: seq<Msg> := [];
      ghost var start := backend;
      EncodeNone(start);
      while |buf| > MAX_PACKET_LEN
        invariant AllSendable(done) && done + Split(id, buf) == Split(id, data)
        invariant backend == if backendConnected then start + Encode(done) else start
        decreases |buf|
      {
        var packet := buf[..MAX_PACKET_LEN];
        AppendPacket(start, done, Msg(id, packet));
        SplitStep(id, buf, done);
        done := done + [Msg(id, packet)];
        buf := buf[MAX_PACKET_LEN..];
        SendBackendPacket(id, packet);
      }
      SplitStep(id, buf, done);
      if |buf| > 0 {
        AppendPacket(start, done, Msg(id, buf));
        SendBackendPacket(id, buf);
      }
    }

    method SendBackendString(id: int, msg: string)
      requires Sendable(Msg(id, msg))
      modifies this`backend
      ensures backend == if backendConnected then old(backend) + Encode([Msg(id, msg)]) else old(backend)
    {
      EncodeOne(Msg(id, msg));
      SendBackendPacket(id, msg);
    }
  }

  lemma EncodeNone(sent: string)
    ensures sent + Encode([]) == sent
  {
  }

  lemma AppendPacket(sent: string, ms: seq<Msg>, m: Msg)
    requires AllSendable(ms) && Sendable(m)
    ensures AllSendable(ms + [m]) && sent + Encode(ms + [m]) == (sent + Encode(ms)) + Packet(m)
  {
    hide Encode, Packet;
    EncodeConcat(ms, [m]);
    EncodeOne(m);
    assert sent + (Encode(ms) + Packet(m)) == (sent + Encode(ms)) + Packet(m);
  }

  lemma SplitStep(id: int, buf: string, done: seq<Msg>)
    requires 0 <= id < 0x10000
    ensures |buf| > MAX_PACKET_LEN ==>
      done + Split(id, buf) == done + [Msg(id, buf[..MAX_PACKET_LEN])] + Split(id, buf[MAX_PACKET_LEN..])
    ensures 0 < |buf| <= MAX_PACKET_LEN ==> done + Split(id, buf) == done + [Msg(id, buf)]
    ensures buf == "" ==> done + Split(id, buf) == done
  {
  }

  class DemuxServer {
    var socksConns: map<int, Entry>
    var buf: string
    /** What was sent to each onward connection. */
    var forwarded: map<int, string>
    ghost var begun: set<int>
    ghost var ended: set<int>

    ghost function View(): Demux
      reads this
    {
      Demux(socksConns, buf, forwarded, begun, ended)
    }

    constructor ()
      ensures View() == INIT.demux
    {
      socksConns, buf, forwarded := map[], "", map[];
      begun, ended := {}, {};
    }

    method Forward(id: int, data: string)
      modifies this`forwarded
      ensures forwarded == old(forwarded)[id := Got(old(View()), id) + data]
    {
      forwarded := forwarded[id := (if id in forwarded then forwarded[id] else "") + data];
    }

    method OnServerMessage(chunk: string)
      requires AllExpected(View(), Parsed(buf + chunk))
      modifies this
      ensures View() == ArriveStep(old(View()), chunk)
    {
      hide Expected, Handled;
      HandledKeepsBuf(View(), Parsed(buf + chunk));
      buf := buf + chunk;
      ghost var start := old(View()).(buf := buf);
      BufIrrelevant(old(View()), buf, Parsed(buf));
      while Whole(buf)
        invariant AllExpected(View(), Parsed(buf))
        invariant Rest(buf) == Rest(start.buf)
        invariant HandledAll(View(), Parsed(buf)).(buf := "") == HandledAll(start, Parsed(start.buf)).(buf := "")
        decreases |buf|
      {
        var m := First(buf);
        HandledKeepsBuf(View(), [m]);
        ghost var d := View();
        HandleMessage(m);
        buf := AfterFirst(buf);
        BufIrrelevant(Handled(d, m), buf, Parsed(buf));
      }
    }

    method HandleMessage(m: Msg)
      requires Expected(View(), m)
      modifies this
      ensures View() == Handled(old(View()), m)
    {
      hide Contains;
      if m.id != 0 {
        assert m.id in socksConns;
        if socksConns[m.id].up {
          assert |socksConns[m.id].pending| == 0;
          Forward(m.id, m.payload);
        } else {
          socksConns := socksConns[m.id := Entry(false, socksConns[m.id].pending + m.payload)];
        }
      } else {
        DoCommand(m);
      }
    }

    method DoCommand(m: Msg)
      requires m.id == 0 && Expected(View(), m)
      modifies this
      ensures View() == Handled(old(View()), m)
    {
      hide Contains;
      var id := CommandId(m.payload);
      var isUp := Find(m.payload, " IS UP");
      if isUp {
        assert id !in socksConns;
        socksConns := socksConns[id := Entry(false, "")];
        begun := begun + {id};
      } else {
        assert id in socksConns;
        if !socksConns[id].up {
          socksConns := socksConns - {id};
        }
        ended := ended + {id};
      }
    }

    method OnSocksConnection(id: int)
      requires id in socksConns && !socksConns[id].up
      modifies this
      ensures View() == ConnectedStep(old(View()), id)
    {
      var pendingData := socksConns[id].pending;
      socksConns := socksConns[id := Entry(true, "")];
      Forward(id, pendingData);
    }
  }

  method Find(s: string, sub: string) returns (found: bool)
    requires sub != ""
    ensures found <==> Contains(s, sub)
  {
    var k := 0;
    while k <= |s| - |sub|
      invariant 0 <= k
      invariant forall j :: 0 <= j < k && j <= |s| - |sub| ==> !OccursAt(s, sub, j)
    {
      if OccursAt(s, sub, k) {
        return true;
      }
      k := k + 1;
    }
    found := false;
  }

  /** Handling messages neither reads nor changes the input buffer. */
  lemma {:induction false} BufIrrelevant(d: Demux, buf: string, ms: seq<Msg>)
    ensures HandledAll(d.(buf := buf), ms).(buf := "") == HandledAll(d, ms).(buf := "")
    ensures AllExpected(d.(buf := buf), ms) <==> AllExpected(d, ms)
    decreases |ms|
  {
    if ms != [] {
      assert Handled(d.(buf := buf), ms[0]) == Handled(d, ms[0]).(buf := buf);
      BufIrrelevant(Handled(d, ms[0]), buf, ms[1..]);
    }
  }
}
