/** The message-queue file transfer of SP_HW9/52: one server child sends a file in chunks over
    a bounded queue to one client, which counts what it receives.

    Both programs send and receive the first bytes of a `struct responseMsg`, so the message
    type travels in the first eight bytes of each message (LP64, little endian) and a message
    shorter than that leaves part of the client's `mtype` as it was. The model keeps the
    structs byte by byte, including the uninitialised bytes the client starts from. */
module FileTransfer {
  import opened Common

  const RESP_MSG_SIZE := 8192
  const MAX_MSG := 20
  const LONG := 8
  const RESP_MT_FAILURE := 1
  const RESP_MT_DATA := 2
  const RESP_MT_END := 3
  const SEVEN_ZEROS: Bytes := [0, 0, 0, 0, 0, 0, 0]

  /** The bytes of "Couldn't open" and its NUL. */
  const OPEN_FAILED: Bytes := [67, 111, 117, 108, 100, 110, 39, 116, 32, 111, 112, 101, 110, 0]

  /** The bytes of a small non-negative `long`. */
  function Encode(v: Byte): (bytes: Bytes)
    ensures |bytes| == LONG
  {
    [v] + SEVEN_ZEROS
  }

  function Unsigned(bytes: Bytes): nat {
    if bytes == [] then 0 else bytes[0] + 256 * Unsigned(bytes[1..])
  }

  /** The signed 64-bit value of eight bytes, least significant first. */
  function Decode(bytes: Bytes): int
    requires |bytes| == LONG
  {
    var u := Unsigned(bytes);
    if u < 0x8000_0000_0000_0000 then u else u - 0x1_0000_0000_0000_0000
  }

  lemma {:induction false} UnsignedBound(bytes: Bytes, bound: nat)
    requires |bytes| == 0 ==> bound == 1
    requires |bytes| > 0 ==> bound == 256 * PowOf256(|bytes| - 1)
    ensures Unsigned(bytes) < bound
    decreases |bytes|
  {
    if bytes != [] {
      UnsignedBound(bytes[1..], PowOf256(|bytes| - 1));
    }
  }

  function PowOf256(n: nat): nat {
    if n == 0 then 1 else 256 * PowOf256(n - 1)
  }

  lemma {:induction false} UnsignedZero(bytes: Bytes)
    ensures Unsigned(bytes) == 0 <==> forall i :: 0 <= i < |bytes| ==> bytes[i] == 0
  {
    if bytes != [] {
      UnsignedZero(bytes[1..]);
      assert forall i :: 0 < i < |bytes| ==> bytes[i] == bytes[1..][i - 1];
    }
  }

  /** Eight bytes hold the small value `v` exactly when they are its encoding. */
  lemma DecodeSmall(bytes: Bytes, v: Byte)
    requires |bytes| == LONG
    ensures Decode(bytes) == v <==> bytes == Encode(v)
  {
    assert PowOf256(7) == 0x100_0000_0000_0000;
    UnsignedBound(bytes, 256 * PowOf256(7));
    UnsignedZero(bytes[1..]);
    if Decode(bytes) == v {
      assert Unsigned(bytes[1..]) == 0;
      assert forall i :: 0 < i < LONG ==> bytes[i] == bytes[1..][i - 1];
    }
    if bytes == Encode(v) {
      assert bytes[1..] == SEVEN_ZEROS;
    }
  }

  // ----- the protocol

  datatype ServerPc =
    | SRead     // numRead = read(fd, resp.data, RESP_MSG_SIZE)
    | SSend     // mq_send of numRead bytes
    | SSendEnd  // mq_send of the END message
    | SSendFailure
    | SExit

  datatype ClientPc =
    | CFirst        // the first mq_receive
    | CTestFailure  // resp.mtype == RESP_MT_FAILURE
    | CTestData     // resp.mtype == RESP_MT_DATA
    | CReceive      // mq_receive and totBytes += msgLen
    | CCount        // numMsgs++
    | CReport       // left the loop: totBytes - 1 and numMsgs are printed
    | CFailed       // exit(EXIT_FAILURE)

  datatype State = State(
    spc: ServerPc, unread: Bytes, numRead: nat, sresp: Bytes, chunks: nat,
    queue: seq<Bytes>,
    cpc: ClientPc, cresp: Bytes, totBytes: int, numMsgs: int,
    got: seq<Bytes>)  // history: every message the client has received

  datatype Action = Server(n: nat) | Client

  /** `resp` in the server and `garbage` in the client are whatever the stack held. */
  predicate IsInit(s: State, input: Bytes, found: bool, garbage: Bytes) {
    && |s.sresp| == |garbage| == LONG + RESP_MSG_SIZE
    && s.unread == input && s.cresp == garbage
    && s.queue == [] && s.got == [] && s.chunks == 0 && s.numRead == 0 && s.cpc == CFirst
    && (if found then s.spc == SRead && s.sresp[..LONG] == Encode(RESP_MT_DATA)
        else s.spc == SSendFailure && s.sresp[..LONG + |OPEN_FAILED|] == Encode(RESP_MT_FAILURE) + OPEN_FAILED)
  }

  /** mq_receive into the client's struct: the message overwrites a prefix of it. */
  function Overwrite(resp: Bytes, message: Bytes): Bytes
    requires |message| <= |resp|
  {
    message + resp[|message|..]
  }

  predicate WellSized(s: State) {
    && |s.sresp| == |s.cresp| == LONG + RESP_MSG_SIZE
    && s.numRead <= RESP_MSG_SIZE
    && forall i :: 0 <= i < |s.queue| ==> |s.queue[i]| <= RESP_MSG_SIZE
  }

  predicate Enabled(s: State, a: Action) {
    && WellSized(s)
    && match a
       case Server(n) =>
         (match s.spc
          case SRead => if s.unread == [] then n == 0 else 1 <= n <= |s.unread| && n <= RESP_MSG_SIZE
          case SExit => false
          case _ => |s.queue| < MAX_MSG)
       case Client =>
         (match s.cpc
          case CFirst => s.queue != []
          case CReceive => s.queue != []
          case CReport => false
          case CFailed => false
          case _ => true)
  }

  function ServerStep(s: State, n: nat): State
    requires Enabled(s, Server(n))
  {
    match s.spc
    case SRead =>
      if n == 0 then s.(numRead := 0, sresp := Encode(RESP_MT_END) + s.sresp[LONG..], spc := SSendEnd)
      else s.(numRead := n, sresp := s.sresp[..LONG] + s.unread[..n] + s.sresp[LONG + n..],
              unread := s.unread[n..], spc := SSend)
    case SSend => s.(queue := s.queue + [s.sresp[..s.numRead]], chunks := s.chunks + 1, spc := SRead)
    case SSendEnd => s.(queue := s.queue + [s.sresp[..1]], spc := SExit)
    case SSendFailure => s.(queue := s.queue + [s.sresp[..|OPEN_FAILED|]], spc := SExit)
  }

  function ClientStep(s: State): State
    requires Enabled(s, Client)
  {
    match s.cpc
    case CFirst =>
      s.(cresp := Overwrite(s.cresp, s.queue[0]), got := s.got + [s.queue[0]], queue := s.queue[1..],
         totBytes := |s.queue[0]|, cpc := CTestFailure)
    case CTestFailure =>
      if Decode(s.cresp[..LONG]) == RESP_MT_FAILURE then s.(cpc := CFailed)
      else s.(numMsgs := 1, cpc := CTestData)
    case CTestData =>
      s.(cpc := if Decode(s.cresp[..LONG]) == RESP_MT_DATA then CReceive else CReport)
    case CReceive =>
      s.(cresp := Overwrite(s.cresp, s.queue[0]), got := s.got + [s.queue[0]], queue := s.queue[1..],
         totBytes := s.totBytes + |s.queue[0]|, cpc := CCount)
    case CCount => s.(numMsgs := s.numMsgs + 1, cpc := CTestData)
  }

  function Step(s: State, a: Action): State
    requires Enabled(s, a)
  {
    match a
    case Server(n) => ServerStep(s, n)
    case Client => ClientStep(s)
  }

  predicate IsRun(s: State, run: seq<Action>)
    decreases run
  {
    run == [] || (Enabled(s, run[0]) && IsRun(Step(s, run[0]), run[1..]))
  }

  function After(s: State, run: seq<Action>): State
    requires IsRun(s, run)
    decreases run
  {
    if run == [] then s else After(Step(s, run[0]), run[1..])
  }

  lemma {:induction false} RunConcat(s: State, run: seq<Action>, more: seq<Action>)
    requires IsRun(s, run) && IsRun(After(s, run), more)
    ensures IsRun(s, run + more) && After(s, run + more) == After(After(s, run), more)
    decreases run
  {
    if run == [] {
      assert run + more == more;
    } else {
      assert (run + more)[1..] == run[1..] + more;
      RunConcat(Step(s, run[0]), run[1..], more);
    }
  }

  // ----- what every run keeps

  function Total(messages: seq<Bytes>): nat {
    if messages == [] then 0 else |messages[0]| + Total(messages[1..])
  }

  lemma {:induction false} TotalOfConcat(a: seq<Bytes>, b: seq<Bytes>)
    ensures Total(a + b) == Total(a) + Total(b)
  {
    if a == [] {
      assert a + b == b;
    } else {
      assert (a + b)[1..] == a[1..] + b;
      TotalOfConcat(a[1..], b);
    }
  }

  predicate IsData(m: Bytes) {
    1 <= |m| <= RESP_MSG_SIZE && m[..Min(|m|, LONG)] == Encode(RESP_MT_DATA)[..Min(|m|, LONG)]
  }

  const END_MESSAGE: Bytes := [RESP_MT_END]

  /** All messages that ever entered the queue, in order. */
  function Sent(s: State): seq<Bytes> { s.got + s.queue }

  lemma DataType(m: Bytes)
    ensures IsData(m) ==> m[0] == RESP_MT_DATA
  {
    if IsData(m) {
      assert m[..Min(|m|, LONG)][0] == m[0];
    }
  }

  predicate Zeros(bytes: Bytes) { forall i :: 0 <= i < |bytes| ==> bytes[i] == 0 }

  /** The first message either fills the whole `mtype`, or the bytes it leaves are zero. */
  predicate Primed(first: Bytes, garbage: Bytes)
    requires |garbage| >= LONG
  {
    |first| >= LONG || Zeros(garbage[|first|..LONG])
  }

  predicate Stream(s: State, input: Bytes)
    requires WellSized(s)
  {
    && (s.spc == SSend || s.spc == SRead ==> s.sresp[..LONG] == Encode(RESP_MT_DATA))
    && (s.spc == SSendEnd ==> s.sresp[..LONG] == Encode(RESP_MT_END))
    && s.spc != SSendFailure
    && (s.spc == SSend ==> s.numRead > 0)
    && (s.spc == SSendEnd || s.spc == SExit ==> s.unread == [])
    && var sent := Sent(s);
    && |sent| == s.chunks + (if s.spc == SExit then 1 else 0)
    && (forall i :: 0 <= i < s.chunks ==> IsData(sent[i]))
    && (s.spc == SExit ==> sent[s.chunks] == END_MESSAGE)
    && Total(sent) + (if s.spc == SSend then s.numRead else 0) + |s.unread|
       == |input| + (if s.spc == SExit then 1 else 0)
  }

  /** What the client knows: its `mtype` is the type just received once it is primed. */
  predicate Reception(s: State, garbage: Bytes)
    requires WellSized(s) && (forall i :: 0 <= i < |s.got| ==> 1 <= |s.got[i]| <= RESP_MSG_SIZE)
  {
    && |garbage| == LONG + RESP_MSG_SIZE
    && (s.cpc == CFirst <==> s.got == [])
    && (s.got == [] ==> s.cresp == garbage)
    && (s.got != [] ==> s.cresp[0] == s.got[|s.got| - 1][0])
    && (s.got != [] && Primed(s.got[0], garbage) ==> Zeros(s.cresp[1..LONG]))
    && (s.got != [] && !Primed(s.got[0], garbage) ==>
          |s.got| == 1 && s.cresp[..LONG] == Overwrite(garbage, s.got[0])[..LONG] && s.cpc != CReceive)
    && (s.got != [] ==> s.totBytes == Total(s.got))
    && (s.cpc in {CTestData, CReceive, CReport} ==> s.numMsgs == |s.got|)
    && (s.cpc == CCount ==> s.numMsgs == |s.got| - 1)
    && (s.cpc == CTestFailure ==> |s.got| == 1)
    && (s.cpc == CReceive ==> s.got[|s.got| - 1][0] == RESP_MT_DATA)
    && (s.cpc == CReport ==> s.got[|s.got| - 1][0] == RESP_MT_END || !Primed(s.got[0], garbage))
    && s.cpc != CFailed
  }

  predicate Inv(s: State, input: Bytes, garbage: Bytes) {
    && WellSized(s) && |s.queue| <= MAX_MSG
    && Stream(s, input)
    && (forall i :: 0 <= i < |s.got| ==> 1 <= |s.got[i]| <= RESP_MSG_SIZE)
    && Reception(s, garbage)
  }

  lemma ServerReadKeepsInv(s: State, n: nat, input: Bytes, garbage: Bytes)
    requires Inv(s, input, garbage) && Enabled(s, Server(n)) && s.spc == SRead
    ensures Inv(ServerStep(s, n), input, garbage)
  {
    var t := ServerStep(s, n);
    assert t.sresp[..LONG] == if n == 0 then Encode(RESP_MT_END) else s.sresp[..LONG];
    assert Sent(t) == Sent(s);
  }

  lemma ServerSendKeepsInv(s: State, n: nat, input: Bytes, garbage: Bytes)
    requires Inv(s, input, garbage) && Enabled(s, Server(n)) && s.spc != SRead
    ensures Inv(ServerStep(s, n), input, garbage)
  {
    var t := ServerStep(s, n);
    var m := t.queue[|s.queue|];
    assert Sent(t) == Sent(s) + [m];
    TotalOfConcat(Sent(s), [m]);
    assert Total([m]) == |m|;
    if s.spc == SSend {
      assert m[..Min(|m|, LONG)] == s.sresp[..LONG][..Min(|m|, LONG)];
      assert IsData(m);
    } else {
      assert m[0] == s.sresp[..LONG][0];
      assert m == END_MESSAGE;
    }
  }

  lemma DataBytes(m: Bytes, i: nat)
    requires IsData(m) && 1 <= i < |m| && i < LONG
    ensures m[i] == 0
  {
    var k := Min(|m|, LONG);
    assert m[..k][i] == m[i];
    assert Encode(RESP_MT_DATA)[..k][i] == Encode(RESP_MT_DATA)[i] == SEVEN_ZEROS[i - 1];
  }

  lemma OverwrittenByte(resp: Bytes, m: Bytes, i: nat)
    requires 1 <= i < LONG && |m| <= |resp| && i < |resp| && (IsData(m) || m == END_MESSAGE)
    ensures Overwrite(resp, m)[i] == if i < |m| then 0 else resp[i]
  {
    if i < |m| {
      assert |END_MESSAGE| == 1;
      DataBytes(m, i);
    } else {
      assert resp[|m|..][i - |m|] == resp[i];
    }
  }

  /** One message overwrites the type by its own, and keeps the other bytes zero. */
  lemma ReceiveKeepsZeros(resp: Bytes, m: Bytes)
    requires |resp| == LONG + RESP_MSG_SIZE && (IsData(m) || m == END_MESSAGE)
    ensures var r := Overwrite(resp, m);
            && |r| == |resp| && r[0] == m[0]
            && (Zeros(r[1..LONG]) <==> |m| >= LONG || Zeros(resp[|m|..LONG]))
            && (Zeros(resp[1..LONG]) ==> Zeros(r[1..LONG]))
  {
    var r := Overwrite(resp, m);
    forall i | 1 <= i < LONG
      ensures r[i] == if i < |m| then 0 else resp[i]
      ensures r[1..LONG][i - 1] == r[i]
      ensures resp[1..LONG][i - 1] == resp[i]
      ensures |m| <= i ==> resp[|m|..LONG][i - |m|] == resp[i]
    {
      OverwrittenByte(resp, m, i);
    }
    if Zeros(r[1..LONG]) && |m| < LONG {
      forall j | 0 <= j < LONG - |m| ensures resp[|m|..LONG][j] == 0 {
        assert r[1..LONG][j + |m| - 1] == 0;
      }
    }
  }

  lemma ReceptionKept(s: State, input: Bytes, garbage: Bytes)
    requires Inv(s, input, garbage) && Enabled(s, Client)
    requires s.cpc == CFirst || s.cpc == CReceive
    ensures var t := ClientStep(s);
            && WellSized(t) && Sent(t) == Sent(s)
            && (forall i :: 0 <= i < |t.got| ==> 1 <= |t.got[i]| <= RESP_MSG_SIZE)
            && Reception(t, garbage)
  {
    var t := ClientStep(s);
    var m := s.queue[0];
    assert Sent(t) == Sent(s);
    assert m == Sent(s)[|s.got|];
    assert IsData(m) || m == END_MESSAGE;
    ReceiveKeepsZeros(s.cresp, m);
    TotalOfConcat(s.got, [m]);
    assert Total([m]) == |m|;
  }

  lemma ClientKeepsInv(s: State, input: Bytes, garbage: Bytes)
    requires Inv(s, input, garbage) && Enabled(s, Client)
    ensures Inv(ClientStep(s), input, garbage)
  {
    if s.cpc == CFirst || s.cpc == CReceive {
      ReceptionKept(s, input, garbage);
      assert s.queue[0] == Sent(s)[|s.got|];
    } else if s.cpc != CCount {
      TypeTested(s, input, garbage);
    }
  }

  /** The client's tests see the type of the last message, if it is primed; if not, the first
      message was data and the test for data fails. */
  lemma TypeTested(s: State, input: Bytes, garbage: Bytes)
    requires Inv(s, input, garbage) && s.got != []
    ensures var v := Decode(s.cresp[..LONG]); var last := s.got[|s.got| - 1];
            && v != RESP_MT_FAILURE
            && (v == RESP_MT_DATA <==> last[0] == RESP_MT_DATA && Primed(s.got[0], garbage))
            && (last[0] == RESP_MT_DATA || last[0] == RESP_MT_END)
  {
    var last := s.got[|s.got| - 1];
    assert last == Sent(s)[|s.got| - 1];
    assert s.got[0] == Sent(s)[0];
    assert IsData(last) ==> last[0] == last[..Min(|last|, LONG)][0];
    DecodeSmall(s.cresp[..LONG], RESP_MT_FAILURE);
    DecodeSmall(s.cresp[..LONG], RESP_MT_DATA);
    assert s.cresp[..LONG][1..] == s.cresp[1..LONG];
    if Primed(s.got[0], garbage) {
      assert s.cresp[1..LONG] == SEVEN_ZEROS;
      assert s.cresp[..LONG] == Encode(s.cresp[0]);
    } else {
      ReceiveKeepsZeros(garbage, s.got[0]);
      assert Overwrite(garbage, s.got[0])[..LONG][1..] == Overwrite(garbage, s.got[0])[1..LONG];
      assert !Zeros(s.cresp[1..LONG]);
      assert Encode(RESP_MT_DATA)[1..] == SEVEN_ZEROS;
      assert Encode(RESP_MT_FAILURE)[1..] == SEVEN_ZEROS;
    }
  }

  lemma StepKeepsInv(s: State, a: Action, input: Bytes, garbage: Bytes)
    requires Inv(s, input, garbage) && Enabled(s, a)
    ensures Inv(Step(s, a), input, garbage)
  {
    match a
    case Server(n) =>
      if s.spc == SRead {
        ServerReadKeepsInv(s, n, input, garbage);
      } else {
        ServerSendKeepsInv(s, n, input, garbage);
      }
    case Client => ClientKeepsInv(s, input, garbage);
  }

  lemma {:induction false} RunKeepsInv(s: State, run: seq<Action>, input: Bytes, garbage: Bytes)
    requires Inv(s, input, garbage) && IsRun(s, run)
    ensures Inv(After(s, run), input, garbage)
    decreases run
  {
    if run != [] {
      StepKeepsInv(s, run[0], input, garbage);
      RunKeepsInv(Step(s, run[0]), run[1..], input, garbage);
    }
  }

  lemma InitKeepsInv(s: State, input: Bytes, garbage: Bytes)
    requires IsInit(s, input, true, garbage)
    ensures Inv(s, input, garbage)
  {
  }

  /** Conservation, in every interleaving and for any pattern of short reads: what the client
      received, what is queued, what the server is about to send and what it has not read make
      up the file, plus the one byte of END once it is sent. */
  lemma EveryRunConserves(s: State, run: seq<Action>, input: Bytes, garbage: Bytes)
    requires IsInit(s, input, true, garbage) && IsRun(s, run)
    ensures var t := After(s, run);
            && |t.queue| <= 20
            && Total(t.got) + Total(t.queue) + (if t.spc == SSend then t.numRead else 0) + |t.unread|
               == |input| + (if t.spc == SExit then 1 else 0)
            && (t.got != [] ==> t.totBytes == Total(t.got))
  {
    InitKeepsInv(s, input, garbage);
    RunKeepsInv(s, run, input, garbage);
    var t := After(s, run);
    TotalOfConcat(t.got, t.queue);
  }

  /** Once the first message has covered `mtype`, it always holds the type just received. */
  lemma TypeIsLastReceived(s: State, run: seq<Action>, input: Bytes, garbage: Bytes)
    requires IsInit(s, input, true, garbage) && IsRun(s, run)
    requires var got := After(s, run).got; got != [] && |got[0]| >= LONG
    ensures var t := After(s, run); var last := t.got[|t.got| - 1];
            && WellSized(t) && last != []
            && Decode(t.cresp[..LONG]) == last[0]
            && (last[0] == RESP_MT_DATA || last == END_MESSAGE)
  {
    InitKeepsInv(s, input, garbage);
    RunKeepsInv(s, run, input, garbage);
    var t := After(s, run);
    var last := t.got[|t.got| - 1];
    assert last == Sent(t)[|t.got| - 1];
    DataType(last);
    assert t.cresp[1..LONG] == SEVEN_ZEROS;
    assert t.cresp[..LONG] == Encode(last[0]);
    DecodeSmall(t.cresp[..LONG], last[0]);
  }

  // ----- what the messages carry

  /** Each message is the type and a block of `bytes`, cut off at the length of the block. */
  predicate Carries(messages: seq<Bytes>, bytes: Bytes) {
    if messages == [] then bytes == []
    else
      var n := |messages[0]|;
      && n <= |bytes| && messages[0] == (Encode(RESP_MT_DATA) + bytes[..n])[..n]
      && Carries(messages[1..], bytes[n..])
  }

  lemma {:induction false} CarriesOneMore(messages: seq<Bytes>, bytes: Bytes, m: Bytes, block: Bytes)
    requires Carries(messages, bytes) && |m| == |block| && m == (Encode(RESP_MT_DATA) + block)[..|m|]
    ensures Carries(messages + [m], bytes + block)
  {
    if messages == [] {
      assert [m][1..] == [] && bytes + block == block;
      assert block[..|m|] == block;
    } else {
      var n := |messages[0]|;
      CarriesOneMore(messages[1..], bytes[n..], m, block);
      assert (messages + [m])[1..] == messages[1..] + [m];
      assert (bytes + block)[n..] == bytes[n..] + block && (bytes + block)[..n] == bytes[..n];
    }
  }

  /** The bytes of the file that went into messages. */
  function SentBytes(s: State, input: Bytes): Bytes
    requires |s.unread| + (if s.spc == SSend then s.numRead else 0) <= |input|
  {
    input[..|input| - |s.unread| - (if s.spc == SSend then s.numRead else 0)]
  }

  predicate Contents(s: State, input: Bytes) {
    && |s.sresp| == LONG + RESP_MSG_SIZE && s.numRead <= RESP_MSG_SIZE && s.chunks <= |Sent(s)|
    && |s.unread| + (if s.spc == SSend then s.numRead else 0) <= |input|
    && s.unread == input[|input| - |s.unread|..]
    && (s.spc == SSend ==> SentBytes(s, input) + s.sresp[LONG..LONG + s.numRead] + s.unread == input)
    && Carries(Sent(s)[..s.chunks], SentBytes(s, input))
  }

  lemma ReadKeepsContents(s: State, n: nat, input: Bytes, garbage: Bytes)
    requires Inv(s, input, garbage) && Contents(s, input) && Enabled(s, Server(n)) && s.spc == SRead
    ensures Contents(ServerStep(s, n), input)
  {
    var t := ServerStep(s, n);
    assert Sent(t) == Sent(s);
    if n > 0 {
      assert t.sresp[LONG..LONG + n] == s.unread[..n];
      assert SentBytes(t, input) == SentBytes(s, input);
      assert input[..|input| - |s.unread|] + s.unread[..n] + s.unread[n..] == input;
    }
  }

  lemma SendKeepsContents(s: State, n: nat, input: Bytes, garbage: Bytes)
    requires Inv(s, input, garbage) && Contents(s, input) && Enabled(s, Server(n)) && s.spc == SSend
    ensures Contents(ServerStep(s, n), input)
  {
    var t := ServerStep(s, n);
    var m, block := s.sresp[..s.numRead], s.sresp[LONG..LONG + s.numRead];
    assert s.sresp[..LONG + s.numRead] == Encode(RESP_MT_DATA) + block;
    assert m == (Encode(RESP_MT_DATA) + block)[..|m|];
    CarriesOneMore(Sent(s)[..s.chunks], SentBytes(s, input), m, block);
    assert Sent(t) == Sent(s) + [m] && Sent(s)[..s.chunks] == Sent(s);
    assert Sent(t)[..t.chunks] == Sent(s)[..s.chunks] + [m];
    assert SentBytes(t, input) == SentBytes(s, input) + block;
  }

  lemma EndKeepsContents(s: State, n: nat, input: Bytes, garbage: Bytes)
    requires Inv(s, input, garbage) && Contents(s, input) && Enabled(s, Server(n)) && s.spc == SSendEnd
    ensures Contents(ServerStep(s, n), input)
  {
    assert Sent(ServerStep(s, n))[..s.chunks] == Sent(s)[..s.chunks];
  }

  lemma ClientKeepsSent(s: State)
    requires Enabled(s, Client)
    ensures var t := ClientStep(s);
      && Sent(t) == Sent(s) && t.sresp == s.sresp && t.numRead == s.numRead && t.chunks == s.chunks
      && t.unread == s.unread && t.spc == s.spc
  {
    assert Sent(ClientStep(s)) == Sent(s);
  }

  lemma ClientKeepsContents(s: State, input: Bytes)
    requires Contents(s, input) && Enabled(s, Client)
    ensures Contents(ClientStep(s), input)
  {
    ClientKeepsSent(s);
  }

  lemma StepKeepsContents(s: State, a: Action, input: Bytes, garbage: Bytes)
    requires Inv(s, input, garbage) && Contents(s, input) && Enabled(s, a)
    ensures Contents(Step(s, a), input)
  {
    match a
    case Server(n) =>
      if s.spc == SRead {
        ReadKeepsContents(s, n, input, garbage);
      } else if s.spc == SSend {
        SendKeepsContents(s, n, input, garbage);
      } else {
        EndKeepsContents(s, n, input, garbage);
      }
    case Client => ClientKeepsContents(s, input);
  }

  lemma {:induction false} RunKeepsContents(s: State, run: seq<Action>, input: Bytes, garbage: Bytes)
    requires Inv(s, input, garbage) && Contents(s, input) && IsRun(s, run)
    ensures Contents(After(s, run), input) && Inv(After(s, run), input, garbage)
    decreases run
  {
    if run != [] {
      StepKeepsContents(s, run[0], input, garbage);
      StepKeepsInv(s, run[0], input, garbage);
      RunKeepsContents(Step(s, run[0]), run[1..], input, garbage);
    }
  }

  /** Byte `k` of data message `i` is that of the type for k < 8, and behind that the byte of the
      file eight places before. */
  lemma {:induction false} CarriedByte(messages: seq<Bytes>, bytes: Bytes, i: nat, k: nat)
    requires Carries(messages, bytes) && i < |messages| && k < |messages[i]|
    ensures k >= LONG ==> Total(messages[..i]) + k - LONG < |bytes|
    ensures messages[i][k] == if k < LONG then Encode(RESP_MT_DATA)[k] else bytes[Total(messages[..i]) + k - LONG]
  {
    if i > 0 {
      var n := |messages[0]|;
      CarriedByte(messages[1..], bytes[n..], i - 1, k);
      assert messages[..i][1..] == messages[1..][..i - 1];
    }
  }

  /** What the client gets of the file, in every run: message `i`, while it is a data message, is
      the type followed by its block without the last eight bytes. */
  lemma MessagesLoseEightBytes(s: State, run: seq<Action>, input: Bytes, garbage: Bytes, i: nat, k: nat)
    requires IsInit(s, input, true, garbage) && IsRun(s, run)
    requires i < |After(s, run).got| && i < After(s, run).chunks && k < |After(s, run).got[i]|
    ensures var got := After(s, run).got;
      var start := Total(got[..i]);
      && start + |got[i]| <= |input|
      && got[i][k] == if k < LONG then Encode(RESP_MT_DATA)[k] else input[start + k - LONG]
  {
    InitKeepsInv(s, input, garbage);
    assert input[|input| - |input|..] == input;
    RunKeepsContents(s, run, input, garbage);
    var t := After(s, run);
    var sent := Sent(t)[..t.chunks];
    CarriedByte(sent, SentBytes(t, input), i, k);
    assert sent[..i] == t.got[..i] && sent[i] == t.got[i];
    BlocksFit(sent, SentBytes(t, input), i);
  }

  lemma {:induction false} BlocksFit(messages: seq<Bytes>, bytes: Bytes, i: nat)
    requires Carries(messages, bytes) && i < |messages|
    ensures Total(messages[..i]) + |messages[i]| <= |bytes|
  {
    if i > 0 {
      BlocksFit(messages[1..], bytes[|messages[0]|..], i - 1);
      assert messages[..i][1..] == messages[1..][..i - 1];
    }
  }

  // ----- what the client reports

  lemma {:induction false} TotalAtLeast(messages: seq<Bytes>)
    requires forall i :: 0 <= i < |messages| ==> |messages[i]| >= 1
    ensures |messages| <= Total(messages)
  {
    if messages != [] {
      TotalAtLeast(messages[1..]);
    }
  }

  lemma ReportIsExact(s: State, input: Bytes, garbage: Bytes)
    requires Inv(s, input, garbage) && s.cpc == CReport
    requires input == [] || Primed(s.got[0], garbage)
    ensures s.spc == SExit && s.queue == []
    ensures s.totBytes - 1 == |input| && s.numMsgs == s.chunks + 1
  {
    var k := |s.got| - 1;
    assert s.got[k] == Sent(s)[k];
    assert s.got[0] == Sent(s)[0];
    if input == [] {
      forall i | 0 <= i < |Sent(s)| ensures |Sent(s)[i]| >= 1 {}
      TotalAtLeast(Sent(s));
      assert s.chunks == 0;
    }
    DataType(s.got[k]);
    assert k == s.chunks;
    assert s.queue == [];
    assert Sent(s) == s.got;
  }

  lemma ReportIsShort(s: State, input: Bytes, garbage: Bytes)
    requires Inv(s, input, garbage) && s.cpc == CReport
    requires input != [] && !Primed(s.got[0], garbage)
    ensures s.totBytes - 1 < |input| && s.numMsgs < s.chunks + 1
  {
    var rest := s.queue;
    TotalOfConcat(s.got, rest);
    assert s.got == [s.got[0]];
    assert s.got[0] == Sent(s)[0];
    assert s.chunks == 0 ==> Sent(s) == s.got;
  }

  /** When the client reports, its byte count is the file length and its message count is the
      number of chunks plus END exactly when the file is empty, or the first message covers
      `mtype`, or the bytes it leaves uncovered happened to be zero. */
  lemma ReportRightIff(s: State, run: seq<Action>, input: Bytes, garbage: Bytes)
    requires IsInit(s, input, true, garbage) && IsRun(s, run)
    requires After(s, run).cpc == CReport
    ensures var t := After(s, run);
            && t.got != []
            && (t.totBytes - 1 == |input| <==> input == [] || Primed(t.got[0], garbage))
            && (t.numMsgs == t.chunks + 1 <==> input == [] || Primed(t.got[0], garbage))
            && (input == [] || Primed(t.got[0], garbage) ==> t.spc == SExit && t.queue == [])
  {
    InitKeepsInv(s, input, garbage);
    RunKeepsInv(s, run, input, garbage);
    var t := After(s, run);
    if input == [] || Primed(t.got[0], garbage) {
      ReportIsExact(t, input, garbage);
    } else {
      ReportIsShort(t, input, garbage);
    }
  }

  lemma FiveSteps(s: State, s1: State, s2: State, s3: State, s4: State, n: nat)
    requires Enabled(s, Server(n)) && s1 == Step(s, Server(n))
    requires Enabled(s1, Server(0)) && s2 == Step(s1, Server(0))
    requires Enabled(s2, Client) && s3 == Step(s2, Client)
    requires Enabled(s3, Client) && s4 == Step(s3, Client)
    requires Enabled(s4, Client)
    ensures IsRun(s, [Server(n), Server(0), Client, Client, Client])
    ensures After(s, [Server(n), Server(0), Client, Client, Client]) == Step(s4, Client)
  {
    assert [Server(n), Server(0), Client, Client, Client][1..] == [Server(0), Client, Client, Client];
    assert [Server(0), Client, Client, Client][1..] == [Client, Client, Client];
    assert [Client, Client, Client][1..] == [Client, Client];
    assert [Client, Client][1..] == [Client];
    assert After(s4, [Client]) == Step(s4, Client);
    assert After(s3, [Client, Client]) == Step(s4, Client);
    assert After(s2, [Client, Client, Client]) == Step(s4, Client);
  }

  /** A client whose first message left `mtype` dirty takes two more steps, to a short report. */
  lemma DirtyTypeStops(s: State, input: Bytes, garbage: Bytes)
    requires Inv(s, input, garbage) && s.cpc == CTestFailure && !Primed(s.got[0], garbage)
    ensures Enabled(s, Client) && Enabled(Step(s, Client), Client)
    ensures var t := Step(Step(s, Client), Client); t.cpc == CReport && t.totBytes == |s.got[0]|
  {
    TypeTested(s, input, garbage);
    assert s.got[1..] == [] && Total(s.got) == |s.got[0]| + Total(s.got[1..]);
  }

  lemma ThreeByteFile(s: State, garbage: Bytes) returns (s1: State, s2: State, s3: State)
    requires IsInit(s, [65, 66, 67], true, garbage)
    ensures Enabled(s, Server(3)) && s1 == Step(s, Server(3))
    ensures Enabled(s1, Server(0)) && s2 == Step(s1, Server(0))
    ensures Enabled(s2, Client) && s3 == Step(s2, Client)
    ensures Inv(s3, [65, 66, 67], garbage) && s3.cpc == CTestFailure && |s3.got[0]| == 3
  {
    var input: Bytes := [65, 66, 67];
    InitKeepsInv(s, input, garbage);
    s1 := Step(s, Server(3));
    StepKeepsInv(s, Server(3), input, garbage);
    s2 := Step(s1, Server(0));
    StepKeepsInv(s1, Server(0), input, garbage);
    s3 := Step(s2, Client);
    StepKeepsInv(s2, Client, input, garbage);
  }

  /** A three-byte file is miscounted when the client's stack is not clean: it reports 2 bytes. */
  lemma SmallFileMiscounted(s: State, garbage: Bytes)
    requires IsInit(s, [65, 66, 67], true, garbage) && garbage[7] != 0
    ensures exists run :: IsRun(s, run) && After(s, run).cpc == CReport && After(s, run).totBytes - 1 == 2
  {
    var s1, s2, s3 := ThreeByteFile(s, garbage);
    assert garbage[3..LONG][4] != 0;
    DirtyTypeStops(s3, [65, 66, 67], garbage);
    FiveSteps(s, s1, s2, s3, Step(s3, Client), 3);
  }

  // ----- progress and termination

  lemma NoDeadlock(s: State, input: Bytes, garbage: Bytes)
    requires Inv(s, input, garbage) && s.cpc != CReport
    ensures Enabled(s, Client) || Enabled(s, Server(if s.unread == [] then 0 else 1))
  {
    if s.spc == SExit && s.queue == [] && s.got != [] {
      assert Sent(s) == s.got;
      assert s.got[|s.got| - 1] == END_MESSAGE;
    }
  }

  function ServerWork(pc: ServerPc): nat {
    match pc
    case SRead => 5
    case SSend => 9
    case SSendEnd => 4
    case SSendFailure => 4
    case SExit => 0
  }

  function ClientWork(pc: ClientPc): nat {
    match pc
    case CTestFailure => 2
    case CCount => 2
    case CTestData => 1
    case _ => 0
  }

  function Work(s: State): nat {
    5 * |s.unread| + 3 * |s.queue| + ServerWork(s.spc) + ClientWork(s.cpc)
  }

  lemma StepUsesWork(s: State, a: Action)
    requires Enabled(s, a)
    ensures Work(Step(s, a)) < Work(s)
  {
  }

  lemma {:induction false} RunUsesWork(s: State, run: seq<Action>)
    requires IsRun(s, run)
    ensures |run| + Work(After(s, run)) <= Work(s)
    decreases run
  {
    if run != [] {
      StepUsesWork(s, run[0]);
      RunUsesWork(Step(s, run[0]), run[1..]);
    }
  }

  /** Every run is finite, and the client never waits for ever: a run that cannot be extended
      ends with its report. */
  lemma ClientAlwaysReports(s: State, run: seq<Action>, input: Bytes, garbage: Bytes)
    requires IsInit(s, input, true, garbage) && IsRun(s, run)
    ensures |run| <= 5 * |input| + 5
    ensures (forall a :: !Enabled(After(s, run), a)) ==> After(s, run).cpc == CReport
  {
    RunUsesWork(s, run);
    InitKeepsInv(s, input, garbage);
    RunKeepsInv(s, run, input, garbage);
    var t := After(s, run);
    if t.cpc != CReport {
      NoDeadlock(t, input, garbage);
    }
  }

  // ----- a file that cannot be opened

  /** The type and the bytes of "Couldn": the message ends where the whole text would, but the type
      comes first. */
  const FAILURE_MESSAGE: Bytes := Encode(RESP_MT_FAILURE) + [67, 111, 117, 108, 100, 110]

  predicate Refused(s: State) {
    && WellSized(s)
    && (s.spc == SSendFailure ==> s.sresp[..LONG + |OPEN_FAILED|] == Encode(RESP_MT_FAILURE) + OPEN_FAILED)
    && (s.spc == SSendFailure ==> s.queue == [] && s.got == [])
    && (s.spc == SSendFailure || s.spc == SExit)
    && (s.cpc == CFirst || s.cpc == CTestFailure || s.cpc == CFailed)
    && (s.cpc == CFirst ==> s.got == [])
    && (s.cpc == CFirst && s.spc == SExit ==> s.queue == [FAILURE_MESSAGE])
    && (s.cpc == CTestFailure || s.cpc == CFailed ==> s.cresp[..|FAILURE_MESSAGE|] == FAILURE_MESSAGE)
    && (s.cpc == CTestFailure || s.cpc == CFailed ==> s.spc == SExit)
  }

  lemma {:induction false} RefusedKept(s: State, run: seq<Action>)
    requires Refused(s) && IsRun(s, run)
    ensures Refused(After(s, run))
    decreases run
  {
    if run != [] {
      var t := Step(s, run[0]);
      if run[0].Server? {
        assert t.queue[0] == s.sresp[..LONG + |OPEN_FAILED|][..|OPEN_FAILED|] == FAILURE_MESSAGE;
      } else if s.cpc == CFirst {
        assert t.cresp[..|FAILURE_MESSAGE|] == FAILURE_MESSAGE;
      } else {
        assert s.cresp[..LONG] == s.cresp[..|FAILURE_MESSAGE|][..LONG];
        DecodeSmall(s.cresp[..LONG], RESP_MT_FAILURE);
      }
      RefusedKept(t, run[1..]);
    }
  }

  /** The client always learns that the open failed, whatever its stack held; of the text it gets
      "Couldn", with what its stack held behind. */
  lemma OpenFailureReported(s: State, run: seq<Action>, garbage: Bytes)
    requires IsInit(s, [], false, garbage) && IsRun(s, run)
    ensures After(s, run).cpc != CReport
    ensures (forall a :: !Enabled(After(s, run), a)) ==> After(s, run).cpc == CFailed
    ensures var t := After(s, run);
      t.cpc == CFailed ==> |t.cresp| > LONG + 6 && t.cresp[LONG..LONG + 6] == [67, 111, 117, 108, 100, 110]
  {
    RefusedKept(s, run);
    var t := After(s, run);
    if t.cpc == CFailed {
      assert t.cresp[LONG..LONG + 6] == t.cresp[..|FAILURE_MESSAGE|][LONG..];
    } else {
      assert Enabled(t, Client) || Enabled(t, Server(0));
    }
  }

  // ----- the two programs over shared fields

  class Session {
    var spc: ServerPc
    var unread: Bytes
    var numRead: nat
    var sresp: Bytes
    var chunks: nat
    var queue: seq<Bytes>
    var cpc: ClientPc
    var cresp: Bytes
    var totBytes: int
    var numMsgs: int
    ghost var got: seq<Bytes>

    ghost function View(): State
      reads this
    {
      State(spc, unread, numRead, sresp, chunks, queue, cpc, cresp, totBytes, numMsgs, got)
    }

    /** One step of `serveRequest`. */
    method ServerTurn() returns (ghost n: nat)
      requires WellSized(View()) && spc != SExit && (spc == SRead || |queue| < MAX_MSG)
      modifies this
      ensures Enabled(old(View()), Server(n)) && View() == Step(old(View()), Server(n))
    {
      n := 0;
      match spc
      case SRead =>
        var count: nat := 0;
        if unread != [] {
          count :| 1 <= count <= |unread| && count <= RESP_MSG_SIZE;
        }
        numRead, n := count, count;
        if count > 0 {
          sresp := sresp[..LONG] + unread[..count] + sresp[LONG + count..];
          unread, spc := unread[count..], SSend;
        } else {
          sresp, spc := Encode(RESP_MT_END) + sresp[LONG..], SSendEnd;
        }
      case SSend => queue, chunks, spc := queue + [sresp[..numRead]], chunks + 1, SRead;
      case SSendEnd => queue, spc := queue + [sresp[..1]], SExit;
      case SSendFailure => queue, spc := queue + [sresp[..|OPEN_FAILED|]], SExit;
    }

    method Receive() returns (msgLen: nat)
      requires WellSized(View()) && queue != []
      modifies `queue, `cresp, `got
      ensures msgLen == |old(queue[0])|
      ensures queue == old(queue[1..]) && got == old(got + [queue[0]])
      ensures cresp == Overwrite(old(cresp), old(queue[0]))
    {
      var message := queue[0];
      msgLen := |message|;
      cresp, queue := message + cresp[msgLen..], queue[1..];
      got := got + [message];
    }

    /** One step of the client's `main` after it has sent its request. */
    method ClientTurn()
      requires WellSized(View()) && cpc != CReport && cpc != CFailed
      requires cpc == CFirst || cpc == CReceive ==> queue != []
      modifies this
      ensures Enabled(old(View()), Client) && View() == Step(old(View()), Client)
    {
      match cpc
      case CFirst =>
        totBytes := Receive();
        cpc := CTestFailure;
      case CTestFailure =>
        if Decode(cresp[..LONG]) == RESP_MT_FAILURE {
          cpc := CFailed;
        } else {
          numMsgs, cpc := 1, CTestData;
        }
      case CTestData =>
        cpc := if Decode(cresp[..LONG]) == RESP_MT_DATA then CReceive else CReport;
      case CReceive =>
        var msgLen := Receive();
        totBytes, cpc := totBytes + msgLen, CCount;
      case CCount =>
        numMsgs, cpc := numMsgs + 1, CTestData;
    }

    /** Whoever is scheduled moves; until the client reports, one of the two always can. */
    method Turn(ghost input: Bytes, ghost garbage: Bytes) returns (ghost a: Action)
      requires Inv(View(), input, garbage) && cpc != CReport
      modifies this
      ensures Enabled(old(View()), a) && View() == Step(old(View()), a)
      ensures Inv(View(), input, garbage)
      ensures Work(View()) < old(Work(View()))
    {
      ghost var before := View();
      a := Client;
      NoDeadlock(before, input, garbage);
      if {
        case spc == SRead || (spc != SExit && |queue| < MAX_MSG) =>
          ghost var n := ServerTurn();
          a := Server(n);
        case cpc == CTestFailure || cpc == CTestData || cpc == CCount || queue != [] =>
          ClientTurn();
      }
      StepKeepsInv(before, a, input, garbage);
      StepUsesWork(before, a);
    }

    /** Both programs, interleaved in any way, until the client reports. */
    method Run(ghost garbage: Bytes) returns (ghost run: seq<Action>)
      requires IsInit(View(), unread, true, garbage)
      modifies this
      ensures IsRun(old(View()), run) && View() == After(old(View()), run)
      ensures cpc == CReport && got != []
      ensures totBytes - 1 == |old(unread)| <==> old(unread) == [] || Primed(got[0], garbage)
      ensures numMsgs == chunks + 1 <==> old(unread) == [] || Primed(got[0], garbage)
    {
      ghost var input, start := unread, View();
      InitKeepsInv(View(), input, garbage);
      run := [];
      while cpc != CReport
        invariant Inv(View(), input, garbage)
        invariant IsRun(start, run) && After(start, run) == View()
        decreases Work(View())
      {
        ghost var a := Turn(input, garbage);
        RunConcat(start, run, [a]);
        run := run + [a];
      }
      if input == [] || Primed(got[0], garbage) {
        ReportIsExact(View(), input, garbage);
      } else {
        ReportIsShort(View(), input, garbage);
      }
    }
  }
}
