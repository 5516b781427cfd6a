/** The sequenced relay protocol: the host numbers frames per recipient, the durable room forwards only the next
    number, and the browser acts only on the next number. */
module Relay {
  import opened Common

  type Connection = nat
  type Participant = nat
  type Payload = nat

  const MAX_FRAME_BYTES := 262_144
  const MAX_CONNECTIONS := 10
  const COMMANDS_PER_MINUTE := 120
  const APPLIANCE_FRAMES_PER_MINUTE := 1_200

  /** A message numbered by the host for one recipient. */
  datatype Frame = Frame(recipient: Connection, seqNo: nat, payload: Payload)

  function CountOf(counts: map<Connection, nat>, c: Connection): nat {
    if c in counts then counts[c] else 0
  }

  function LogOf(logs: map<Connection, seq<Payload>>, c: Connection): seq<Payload> {
    if c in logs then logs[c] else []
  }

  // ----- The host -----

  /** Host process: one counter per recipient connection, kept for the life of the process. */
  class ApplianceTransport {
    var sequences: map<Connection, nat>
    var socketOpen: bool

    constructor ()
      ensures sequences == map[] && !socketOpen
    {
      sequences, socketOpen := map[], false;
    }

    /** `#send`: the number is used up whether or not a socket is there to carry the frame. */
    method Send(recipient: Connection, payload: Payload) returns (wire: Option<Frame>)
      modifies this`sequences
      ensures sequences == old(sequences)[recipient := CountOf(old(sequences), recipient) + 1]
      ensures wire == if socketOpen then Some(Frame(recipient, CountOf(old(sequences), recipient), payload)) else None
    {
      var sequence := if recipient in sequences then sequences[recipient] else 0;
      sequences := sequences[recipient := sequence + 1];
      wire := if socketOpen then Some(Frame(recipient, sequence, payload)) else None;
    }
  }

  // ----- The durable room -----

  datatype Role = Appliance | PendingPlayer | ApprovedPlayer

  /** What is serialized on each socket. */
  datatype Attachment = Attachment(
    connectionId: Connection,
    role: Role,
    participantId: Option<Participant>,
    lastSeq: int,
    targetSequences: map<Connection, nat>,
    rateMinute: int,
    rateCount: int)

  datatype Delivery =
    | FromHost(frame: Frame)
    | FromPlayer(sender: Connection, seqNo: nat, payload: Payload)
    | GapNotice

  datatype Socket = Socket(open: bool, attachment: Attachment, sent: seq<Delivery>)

  /** A routed frame as it arrives: `recipient` is given by the appliance only. */
  datatype Routed = Routed(
    recipient: Option<Connection>,
    claimsSender: bool,
    connectionId: Connection,
    isCommand: bool,
    commandParticipant: Option<Participant>,
    seqNo: nat,
    payload: Payload)

  datatype Incoming = Incoming(bytes: nat, parsed: Option<Routed>)

  function FirstOpen(sockets: seq<Socket>, c: Connection): (i: nat)
    ensures i <= |sockets|
    ensures i < |sockets| ==> sockets[i].open && sockets[i].attachment.connectionId == c
  {
    if sockets == [] then 0
    else if sockets[0].open && sockets[0].attachment.connectionId == c then 0
    else 1 + FirstOpen(sockets[1..], c)
  }

  function FirstOpenAppliance(sockets: seq<Socket>): (i: nat)
    ensures i <= |sockets|
    ensures i < |sockets| ==> sockets[i].open && sockets[i].attachment.role == Appliance
  {
    if sockets == [] then 0
    else if sockets[0].open && sockets[0].attachment.role == Appliance then 0
    else 1 + FirstOpenAppliance(sockets[1..])
  }

  function Append(sockets: seq<Socket>, i: nat, d: Delivery): seq<Socket> {
    if i < |sockets| then sockets[i := sockets[i].(sent := sockets[i].sent + [d])] else sockets
  }

  predicate Authorized(a: Attachment, f: Routed) {
    && !f.claimsSender
    && (if a.role == Appliance then f.recipient == Some(f.connectionId) else f.connectionId == a.connectionId)
    && !(a.role == ApprovedPlayer && f.isCommand && f.commandParticipant != a.participantId)
  }

  predicate CountsAgainstRate(a: Attachment, f: Routed) {
    a.role == Appliance || f.isCommand
  }

  function RateCount(a: Attachment, f: Routed, minute: int): int {
    if CountsAgainstRate(a, f) then if a.rateMinute == minute then a.rateCount + 1 else 1
    else if a.rateMinute == minute then a.rateCount else 0
  }

  function RateLimit(a: Attachment): int {
    if a.role == Appliance then APPLIANCE_FRAMES_PER_MINUTE else COMMANDS_PER_MINUTE
  }

  function SequenceKey(a: Attachment, f: Routed): Connection {
    if f.recipient.Some? then f.recipient.value else a.connectionId
  }

  function LastSequence(a: Attachment, f: Routed): int {
    if a.role == Appliance then
      if SequenceKey(a, f) in a.targetSequences then a.targetSequences[SequenceKey(a, f)] else -1
    else a.lastSeq
  }

  /** Why a socket is closed on arrival of a message. */
  predicate Closes(a: Attachment, m: Incoming, minute: int) {
    || m.bytes > MAX_FRAME_BYTES
    || m.parsed.None?
    || !Authorized(a, m.parsed.value)
    || (CountsAgainstRate(a, m.parsed.value) && RateCount(a, m.parsed.value, minute) > RateLimit(a))
  }

  /** The message is the next of its stream and is passed on. */
  predicate PassesOn(a: Attachment, m: Incoming, minute: int) {
    !Closes(a, m, minute) && m.parsed.value.seqNo == LastSequence(a, m.parsed.value) + 1
  }

  function Advanced(a: Attachment, f: Routed, minute: int): Attachment {
    if a.role == Appliance then
      a.(targetSequences := a.targetSequences[SequenceKey(a, f) := f.seqNo], rateMinute := minute,
        rateCount := RateCount(a, f, minute))
    else
      a.(lastSeq := f.seqNo, rateMinute := minute, rateCount := RateCount(a, f, minute))
  }

  /** The sockets after a message has arrived on socket `i`. */
  function AfterMessage(sockets: seq<Socket>, i: nat, m: Incoming, minute: int): (r: seq<Socket>)
    requires i < |sockets|
    ensures |r| == |sockets|
  {
    var a := sockets[i].attachment;
    if Closes(a, m, minute) then sockets[i := sockets[i].(open := false)]
    else
      var f := m.parsed.value;
      if f.seqNo <= LastSequence(a, f) then sockets
      else if f.seqNo != LastSequence(a, f) + 1 then Append(sockets, i, GapNotice)
      else
        var updated := sockets[i := sockets[i].(attachment := Advanced(a, f, minute))];
        if a.role == Appliance
          then Append(updated, FirstOpen(updated, f.connectionId), FromHost(Frame(f.connectionId, f.seqNo, f.payload)))
        else Append(updated, FirstOpenAppliance(updated), FromPlayer(f.connectionId, f.seqNo, f.payload))
  }

  datatype Claims = Claims(connectionId: Connection, role: Role, participantId: Option<Participant>)

  /** The first open socket of the same connection and role: the one whose numbering is carried on. */
  function Replaced(sockets: seq<Socket>, claims: Claims): (i: nat)
    ensures i <= |sockets|
    ensures i < |sockets| ==> sockets[i].attachment.role == claims.role
  {
    if sockets == [] then 0
    else
      if sockets[0].open && sockets[0].attachment.connectionId == claims.connectionId
      && sockets[0].attachment.role == claims.role then 0
    else 1 + Replaced(sockets[1..], claims)
  }

  function CloseConnection(sockets: seq<Socket>, c: Connection): (r: seq<Socket>)
    ensures |r| == |sockets|
    ensures forall i :: 0 <= i < |r| ==> r[i] == if sockets[i].attachment.connectionId == c
            then sockets[i].(open := false) else sockets[i]
  {
    seq(|sockets|, i requires 0 <= i < |sockets| =>
      if sockets[i].attachment.connectionId == c then sockets[i].(open := false) else sockets[i])
  }

  function OpenElsewhere(sockets: seq<Socket>, c: Connection): nat {
    if sockets == [] then 0
    else (if sockets[0].open && sockets[0].attachment.connectionId != c then 1 else 0) + OpenElsewhere(sockets[1..], c)
  }

  function FreshAttachment(sockets: seq<Socket>, claims: Claims, minute: int): Attachment {
    var i := Replaced(sockets, claims);
    if i < |sockets| then
      var previous := sockets[i].attachment;
      Attachment(claims.connectionId, claims.role, claims.participantId, previous.lastSeq,
        if claims.role == Appliance then previous.targetSequences else map[], previous.rateMinute, previous.rateCount)
    else Attachment(claims.connectionId, claims.role, claims.participantId, -1, map[], minute, 0)
  }

  /** The sockets after an authorised connection request: earlier sockets of the connection are closed
      even when the request is then refused because the room is full. */
  function AfterConnect(sockets: seq<Socket>, claims: Claims, minute: int): seq<Socket> {
    var closed := CloseConnection(sockets, claims.connectionId);
    if OpenElsewhere(sockets, claims.connectionId) >= MAX_CONNECTIONS then closed
    else closed + [Socket(true, FreshAttachment(sockets, claims, minute), [])]
  }

  class DurableRoom {
    var sockets: seq<Socket>

    constructor ()
      ensures sockets == []
    {
      sockets := [];
    }

    method WebSocketMessage(i: nat, m: Incoming, minute: int)
      requires i < |sockets|
      modifies this
      ensures sockets == AfterMessage(old(sockets), i, m, minute)
    {
      var attachment := sockets[i].attachment;
      if m.bytes > MAX_FRAME_BYTES || m.parsed.None? || !Authorized(attachment, m.parsed.value) {
        sockets := sockets[i := sockets[i].(open := false)];
        return;
      }
      var f := m.parsed.value;
      var count := RateCount(attachment, f, minute);
      if CountsAgainstRate(attachment, f) && count > RateLimit(attachment) {
        sockets := sockets[i := sockets[i].(open := false)];
        return;
      }
      var last := LastSequence(attachment, f);
      if f.seqNo <= last { return; }
      if f.seqNo != last + 1 {
        sockets := Append(sockets, i, GapNotice);
        return;
      }
      if attachment.role == Appliance {
        sockets := sockets[i := sockets[i].(attachment := attachment.(
          targetSequences := attachment.targetSequences[SequenceKey(attachment, f) := f.seqNo], rateMinute := minute,
            rateCount := count))];
        sockets := Append(sockets, FirstOpen(sockets, f.connectionId),
          FromHost(Frame(f.connectionId, f.seqNo, f.payload)));
      } else {
        sockets := sockets[i := sockets[i].(attachment := attachment.(lastSeq := f.seqNo, rateMinute := minute,
          rateCount := count))];
        sockets := Append(sockets, FirstOpenAppliance(sockets), FromPlayer(f.connectionId, f.seqNo, f.payload));
      }
    }

    method Connect(claims: Claims, minute: int)
      modifies this
      ensures sockets == AfterConnect(old(sockets), claims, minute)
    {
      hide FreshAttachment, OpenElsewhere;
      var existing := sockets;
      var attachment := FreshAttachment(existing, claims, minute);
      for i := 0 to |existing|
        invariant |sockets| == |existing|
        invariant forall k :: 0 <= k < i ==> sockets[k] == CloseConnection(existing, claims.connectionId)[k]
        invariant forall k :: i <= k < |existing| ==> sockets[k] == existing[k]
      {
        if existing[i].attachment.connectionId == claims.connectionId {
          sockets := sockets[i := existing[i].(open := false)];
        }
      }
      assert sockets == CloseConnection(existing, claims.connectionId);
      if OpenElsewhere(existing, claims.connectionId) >= MAX_CONNECTIONS { return; }
      sockets := sockets + [Socket(true, attachment, [])];
    }
  }

  // ----- The browser -----

  /** What `#receive` does with the numbers that arrive on one socket. */
  datatype Inbox = Inbox(lastIncoming: int, acted: seq<Frame>)

  function AfterFrame(s: Inbox, f: Frame): Inbox {
    if s.lastIncoming >= 0 && f.seqNo != s.lastIncoming + 1 then s
    else if f.seqNo <= s.lastIncoming then s
    else Inbox(f.seqNo, s.acted + [f])
  }

  function AfterFrames(s: Inbox, fs: seq<Frame>): Inbox {
    if fs == [] then s else AfterFrame(AfterFrames(s, fs[..|fs| - 1]), fs[|fs| - 1])
  }

  class PlayerClient {
    var currentSocket: nat
    var lastIncomingSequence: int
    ghost var acted: seq<Frame>

    constructor ()
      ensures currentSocket == 0 && Contents() == Inbox(-1, [])
    {
      currentSocket, lastIncomingSequence, acted := 0, -1, [];
    }

    ghost function Contents(): Inbox
      reads this
    {
      Inbox(lastIncomingSequence, acted)
    }

    /** `#connect`: a new socket starts a new numbering. */
    method Connect()
      modifies this
      ensures currentSocket == old(currentSocket) + 1 && Contents() == Inbox(-1, [])
    {
      currentSocket, lastIncomingSequence, acted := currentSocket + 1, -1, [];
    }

    /** `act` tells whether the message goes on to the handlers. */
    method Receive(f: Frame, sourceSocket: nat) returns (act: bool)
      modifies this
      ensures currentSocket == old(currentSocket)
      ensures sourceSocket != currentSocket ==> !act && Contents() == old(Contents())
      ensures sourceSocket == currentSocket ==> Contents() == AfterFrame(old(Contents()), f)
      ensures sourceSocket == currentSocket ==> acted == if act then old(acted) + [f] else old(acted)
    {
      if sourceSocket != currentSocket { return false; }
      if lastIncomingSequence >= 0 && f.seqNo != lastIncomingSequence + 1 { return false; }
      if f.seqNo <= lastIncomingSequence { return false; }
      lastIncomingSequence := f.seqNo;
      acted := acted + [f];
      return true;
    }
  }

  // ----- The whole system, under loss, stale sockets, replacement and reconnects -----

  /** `log` and `accepted` record history: what the host numbered, and what the room let through. */
  datatype System = System(
    sequences: map<Connection, nat>,
    log: map<Connection, seq<Payload>>,
    inFlight: set<Frame>,
    sockets: seq<Socket>,
    accepted: map<Connection, seq<Frame>>)

  function AcceptedFor(s: System, c: Connection): seq<Frame> {
    if c in s.accepted then s.accepted[c] else []
  }

  function Initial(): System {
    System(map[], map[], {}, [], map[])
  }

  datatype Action =
    | HostSend(recipient: Connection, payload: Payload, online: bool)
    | Lose(frame: Frame)
    | HostFrameArrives(i: nat, frame: Frame, bytes: nat, minute: int)
    | PlayerFrameArrives(i: nat, message: Incoming, minute: int)
    | ConnectionRequest(claims: Claims, minute: int)
    | SocketCloses(i: nat)

  function OnWire(f: Frame, bytes: nat): Incoming {
    Incoming(bytes, Some(Routed(Some(f.recipient), false, f.recipient, false, None, f.seqNo, f.payload)))
  }

  /** A frame in flight may arrive on any appliance socket, open or retired, at most once, or be lost. */
  function After(s: System, a: Action): System {
    match a
    case HostSend(c, payload, online) =>
      var n := CountOf(s.sequences, c);
      s.(sequences := s.sequences[c := n + 1],
         log := s.log[c := LogOf(s.log, c) + [payload]],
         inFlight := if online then s.inFlight + {Frame(c, n, payload)} else s.inFlight)
    case Lose(f) =>
      s.(inFlight := s.inFlight - {f})
    case HostFrameArrives(i, f, bytes, minute) =>
      if f in s.inFlight && i < |s.sockets| && s.sockets[i].attachment.role == Appliance then
        s.(inFlight := s.inFlight - {f},
           sockets := AfterMessage(s.sockets, i, OnWire(f, bytes), minute),
           accepted := if PassesOn(s.sockets[i].attachment, OnWire(f, bytes), minute)
                       then s.accepted[f.recipient := AcceptedFor(s, f.recipient) + [f]] else s.accepted)
      else s
    case PlayerFrameArrives(i, m, minute) =>
      if i < |s.sockets| && s.sockets[i].attachment.role != Appliance then
        s.(sockets := AfterMessage(s.sockets, i, m, minute))
      else s
    case ConnectionRequest(claims, minute) =>
      s.(sockets := AfterConnect(s.sockets, claims, minute))
    case SocketCloses(i) =>
      if i < |s.sockets| then s.(sockets := s.sockets[i := s.sockets[i].(open := false)]) else s
  }

  function Run(actions: seq<Action>): System {
    if actions == [] then Initial() else After(Run(actions[..|actions| - 1]), actions[|actions| - 1])
  }

  /** The frame is one that the host numbered. */
  ghost predicate Genuine(s: System, f: Frame) {
    f.seqNo < |LogOf(s.log, f.recipient)| && LogOf(s.log, f.recipient)[f.seqNo] == f.payload
  }

  ghost predicate CountersMatchLog(s: System) {
    forall c :: c in s.sequences || c in s.log ==> CountOf(s.sequences, c) == |LogOf(s.log, c)|
  }

  /** No frame still in flight was let through before. */
  ghost predicate FlightIsNew(s: System) {
    forall f :: f in s.inFlight ==> Genuine(s, f) && |AcceptedFor(s, f.recipient)| <= f.seqNo
  }

  /** No attachment, current or retired, is ahead of what was let through. */
  ghost predicate BehindAccepted(s: System, a: Attachment) {
    forall c :: c in a.targetSequences ==> a.targetSequences[c] < |AcceptedFor(s, c)|
  }

  ghost predicate AttachmentsBehind(s: System) {
    forall i :: 0 <= i < |s.sockets| ==> BehindAccepted(s, s.sockets[i].attachment)
  }

  /** Host frames put on a socket belong to its connection, were let through, and keep their order. */
  ghost predicate SentInOrder(s: System, k: Socket) {
    && (forall j :: 0 <= j < |k.sent| && k.sent[j].FromHost? ==>
          var f := k.sent[j].frame;
          f.recipient == k.attachment.connectionId && Genuine(s, f) && f.seqNo < |AcceptedFor(s, f.recipient)|)
    && (forall j, n :: 0 <= j < n < |k.sent| && k.sent[j].FromHost? && k.sent[n].FromHost? ==>
          k.sent[j].frame.seqNo < k.sent[n].frame.seqNo)
  }

  ghost predicate AllSentInOrder(s: System) {
    forall i :: 0 <= i < |s.sockets| ==> SentInOrder(s, s.sockets[i])
  }

  /** What was let through for a connection is numbered 0, 1, 2, ... and is what the host numbered so. */
  ghost predicate AcceptedIsPrefix(s: System) {
    forall c, j :: c in s.accepted && 0 <= j < |s.accepted[c]| ==>
      s.accepted[c][j].recipient == c && s.accepted[c][j].seqNo == j && Genuine(s, s.accepted[c][j])
  }

  ghost predicate Inv(s: System) {
    CountersMatchLog(s) && FlightIsNew(s) && AttachmentsBehind(s) && AllSentInOrder(s) && AcceptedIsPrefix(s)
  }

  lemma InitialInv()
    ensures Inv(Initial())
  {}

  // ----- Each action keeps the invariant -----

  lemma GenuineStays(s: System, f: Frame, c: Connection, payload: Payload)
    requires Genuine(s, f)
    ensures Genuine(s.(log := s.log[c := LogOf(s.log, c) + [payload]]), f)
  {}

  lemma SendKeepsInv(s: System, c: Connection, payload: Payload, online: bool)
    requires Inv(s)
    ensures Inv(After(s, HostSend(c, payload, online)))
  {
    hide Inv, SentInOrder, After, AllSentInOrder, FlightIsNew, AcceptedIsPrefix, AttachmentsBehind, CountersMatchLog;
    var t := After(s, HostSend(c, payload, online));
    assert CountersMatchLog(t) && AcceptedIsPrefix(t) by { SendKeepsCounters(s, c, payload, online); }
    assert FlightIsNew(t) by { SendKeepsFlight(s, c, payload, online); }
    assert AttachmentsBehind(t) && AllSentInOrder(t) by { SendKeepsSockets(s, c, payload, online); }
    InvByParts(t);
  }

  lemma InvByParts(s: System)
    requires CountersMatchLog(s) && FlightIsNew(s) && AttachmentsBehind(s) && AllSentInOrder(s) && AcceptedIsPrefix(s)
    ensures Inv(s)
  {
    hide AllSentInOrder, FlightIsNew, AcceptedIsPrefix, AttachmentsBehind, CountersMatchLog;
  }

  lemma SendKeepsCounters(s: System, c: Connection, payload: Payload, online: bool)
    requires Inv(s)
    ensures var t := After(s, HostSend(c, payload, online)); CountersMatchLog(t) && AcceptedIsPrefix(t)
  {
    hide FlightIsNew, AttachmentsBehind, AllSentInOrder, AfterMessage, AfterConnect;
    CounterIsLogLength(s, c);
    var t := After(s, HostSend(c, payload, online));
    forall d, j | d in t.accepted && 0 <= j < |t.accepted[d]|
      ensures t.accepted[d][j].recipient == d && t.accepted[d][j].seqNo == j && Genuine(t, t.accepted[d][j])
    {
      GenuineStays(s, s.accepted[d][j], c, payload);
    }
  }

  lemma CounterIsLogLength(s: System, c: Connection)
    requires CountersMatchLog(s)
    ensures CountOf(s.sequences, c) == |LogOf(s.log, c)|
  {}

  lemma AcceptedBelowLog(s: System, c: Connection)
    requires AcceptedIsPrefix(s)
    ensures |AcceptedFor(s, c)| <= |LogOf(s.log, c)|
  {
    var frames := AcceptedFor(s, c);
    if |frames| > 0 {
      var j := |frames| - 1;
      assert s.accepted[c][j].seqNo == j;
    }
  }

  lemma SendKeepsFlight(s: System, c: Connection, payload: Payload, online: bool)
    requires Inv(s)
    ensures FlightIsNew(After(s, HostSend(c, payload, online)))
  {
    hide AttachmentsBehind, AllSentInOrder, CountersMatchLog, AcceptedIsPrefix, CountOf, AfterMessage, AfterConnect;
    var t := After(s, HostSend(c, payload, online));
    CounterIsLogLength(s, c);
    AcceptedBelowLog(s, c);
    forall f | f in t.inFlight ensures Genuine(t, f) && |AcceptedFor(t, f.recipient)| <= f.seqNo {
      if f in s.inFlight {
        GenuineStays(s, f, c, payload);
      }
    }
  }

  lemma SendKeepsSockets(s: System, c: Connection, payload: Payload, online: bool)
    requires Inv(s)
    ensures var t := After(s, HostSend(c, payload, online)); AttachmentsBehind(t) && AllSentInOrder(t)
  {
    hide FlightIsNew, CountersMatchLog, AcceptedIsPrefix, AfterMessage, AfterConnect;
    var t := After(s, HostSend(c, payload, online));
    forall i | 0 <= i < |t.sockets| ensures SentInOrder(t, t.sockets[i]) && BehindAccepted(t, t.sockets[i].attachment) {
      assert SentInOrder(s, s.sockets[i]) && BehindAccepted(s, s.sockets[i].attachment);
    }
  }

  lemma LoseKeepsInv(s: System, f: Frame)
    requires Inv(s)
    ensures Inv(After(s, Lose(f)))
  {
    hide AllSentInOrder, AttachmentsBehind, AfterMessage, AfterConnect;
    SocketsCarryOver(s, After(s, Lose(f)));
  }

  /** What sockets promise depends only on the log and on what was let through. */
  lemma SocketsCarryOver(s: System, t: System)
    requires AttachmentsBehind(s) && AllSentInOrder(s)
    requires t.log == s.log && t.accepted == s.accepted && t.sockets == s.sockets
    ensures AttachmentsBehind(t) && AllSentInOrder(t)
  {
    forall i | 0 <= i < |t.sockets| ensures SentInOrder(t, t.sockets[i]) && BehindAccepted(t, t.sockets[i].attachment) {
      assert SentInOrder(s, s.sockets[i]) && BehindAccepted(s, s.sockets[i].attachment);
    }
  }

  /** Replacing the list of sockets keeps the invariant when each new socket keeps its promises. */
  lemma NewSocketsKeepInv(s: System, sockets: seq<Socket>)
    requires Inv(s)
    requires forall k :: k in sockets ==> SentInOrder(s, k) && BehindAccepted(s, k.attachment)
    ensures Inv(s.(sockets := sockets))
  {
    hide SentInOrder, BehindAccepted;
    var t := s.(sockets := sockets);
    forall i | 0 <= i < |sockets| ensures SentInOrder(t, sockets[i]) && BehindAccepted(t, sockets[i].attachment) {
      PromisesCarryOver(s, t, sockets[i]);
    }
  }

  lemma PromisesCarryOver(s: System, t: System, k: Socket)
    requires t.log == s.log && t.accepted == s.accepted
    requires SentInOrder(s, k) && BehindAccepted(s, k.attachment)
    ensures SentInOrder(t, k) && BehindAccepted(t, k.attachment)
  {}

  lemma NotPassedOn(s: System, k: Socket, d: Delivery)
    requires SentInOrder(s, k) && !d.FromHost?
    ensures SentInOrder(s, k.(sent := k.sent + [d]))
  {}

  /** A message that is not a passed-on host frame adds no host frame anywhere. */
  lemma OtherMessageKeepsInv(s: System, i: nat, m: Incoming, minute: int)
    requires Inv(s) && i < |s.sockets|
    requires PassesOn(s.sockets[i].attachment, m, minute) ==> s.sockets[i].attachment.role != Appliance
    ensures Inv(s.(sockets := AfterMessage(s.sockets, i, m, minute)))
  {
    hide SentInOrder, Inv, RateCount, RateLimit, Authorized;
    var a := s.sockets[i].attachment;
    var r := AfterMessage(s.sockets, i, m, minute);
    SocketPromises(s, i);
    forall k | k in r ensures SentInOrder(s, k) && BehindAccepted(s, k.attachment) {
      var n :| 0 <= n < |r| && r[n] == k;
      SocketPromises(s, n);
      OtherMessageOnSocket(s, i, m, minute, n);
    }
    NewSocketsKeepInv(s, r);
  }

  lemma SocketPromises(s: System, i: nat)
    requires Inv(s) && i < |s.sockets|
    ensures SentInOrder(s, s.sockets[i]) && BehindAccepted(s, s.sockets[i].attachment)
  {
    hide SentInOrder, BehindAccepted, CountersMatchLog, FlightIsNew;
  }

  lemma OtherMessageOnSocket(s: System, i: nat, m: Incoming, minute: int, n: nat)
    requires i < |s.sockets| && n < |s.sockets|
    requires PassesOn(s.sockets[i].attachment, m, minute) ==> s.sockets[i].attachment.role != Appliance
    requires SentInOrder(s, s.sockets[n]) && BehindAccepted(s, s.sockets[n].attachment)
    ensures var k := AfterMessage(s.sockets, i, m, minute)[n]; SentInOrder(s, k) && BehindAccepted(s, k.attachment)
  {
    hide RateCount, RateLimit, Authorized, LastSequence, FirstOpen, FirstOpenAppliance, SentInOrder, BehindAccepted;
    var k := s.sockets[n];
    NotPassedOn(s, k, GapNotice);
    SameSentKeepsOrder(s, k, k.(open := false));
    if m.parsed.Some? {
      var f := m.parsed.value;
      NotPassedOn(s, k, FromPlayer(f.connectionId, f.seqNo, f.payload));
      if s.sockets[i].attachment.role != Appliance {
        var k' := k.(attachment := Advanced(k.attachment, f, minute));
        if n == i {
          SameSentKeepsOrder(s, k, k');
          NotPassedOn(s, k', FromPlayer(f.connectionId, f.seqNo, f.payload));
        }
      }
    }
  }

  lemma SameSentKeepsOrder(s: System, k: Socket, r: Socket)
    requires SentInOrder(s, k) && BehindAccepted(s, k.attachment)
    requires r.sent == k.sent && r.attachment.connectionId == k.attachment.connectionId
    requires r.attachment.targetSequences == k.attachment.targetSequences
    ensures SentInOrder(s, r) && BehindAccepted(s, r.attachment)
  {}

  /** A host frame is let through only when its number is the count of those let through before. */
  lemma PassedOnIsNext(s: System, i: nat, f: Frame, bytes: nat, minute: int)
    requires Inv(s) && i < |s.sockets| && f in s.inFlight
    requires s.sockets[i].attachment.role == Appliance && PassesOn(s.sockets[i].attachment, OnWire(f, bytes), minute)
    ensures f.seqNo == |AcceptedFor(s, f.recipient)|
  {
    hide CountersMatchLog, AllSentInOrder, AcceptedIsPrefix, Closes, AcceptedFor;
    assert BehindAccepted(s, s.sockets[i].attachment);
  }

  lemma ForwardKeepsInv(s: System, i: nat, f: Frame, bytes: nat, minute: int)
    requires Inv(s) && i < |s.sockets| && f in s.inFlight
    requires s.sockets[i].attachment.role == Appliance && PassesOn(s.sockets[i].attachment, OnWire(f, bytes), minute)
    ensures Inv(After(s, HostFrameArrives(i, f, bytes, minute)))
  {
    hide Inv, SentInOrder, BehindAccepted, Closes, FirstOpen, AfterMessage, PassesOn, FlightIsNew, AcceptedIsPrefix,
         AfterConnect;
    PassedOnIsNext(s, i, f, bytes, minute);
    var t := After(s, HostFrameArrives(i, f, bytes, minute));
    ForwardKeepsCounts(s, t, f);
    forall n | 0 <= n < |t.sockets| ensures SentInOrder(t, t.sockets[n]) && BehindAccepted(t, t.sockets[n].attachment) {
      SocketPromises(s, n);
      FlightIsGenuine(s, f);
      ForwardOnSocket(s, t, i, f, bytes, minute, n);
    }
    InvByParts(t);
  }

  lemma FlightIsGenuine(s: System, f: Frame)
    requires Inv(s) && f in s.inFlight
    ensures Genuine(s, f) && |AcceptedFor(s, f.recipient)| <= f.seqNo
  {}

  lemma ForwardKeepsCounts(s: System, t: System, f: Frame)
    requires Inv(s) && f in s.inFlight && f.seqNo == |AcceptedFor(s, f.recipient)|
    requires t.sequences == s.sequences && t.log == s.log && t.inFlight == s.inFlight - {f}
    requires t.accepted == s.accepted[f.recipient := AcceptedFor(s, f.recipient) + [f]]
    ensures CountersMatchLog(t) && FlightIsNew(t) && AcceptedIsPrefix(t)
  {
    hide AllSentInOrder, AttachmentsBehind;
    forall c, j | c in t.accepted && 0 <= j < |t.accepted[c]|
      ensures t.accepted[c][j].recipient == c && t.accepted[c][j].seqNo == j && Genuine(t, t.accepted[c][j])
    {
      if c != f.recipient || j < |AcceptedFor(s, c)| {
        assert t.accepted[c][j] == s.accepted[c][j];
      }
      assert Genuine(s, f);
    }
    forall g | g in t.inFlight ensures Genuine(t, g) && |AcceptedFor(t, g.recipient)| <= g.seqNo {
      assert Genuine(s, g) && Genuine(s, f);
    }
  }

  lemma ForwardOnSocket(s: System, t: System, i: nat, f: Frame, bytes: nat, minute: int, n: nat)
    requires i < |s.sockets| && n < |s.sockets|
    requires s.sockets[i].attachment.role == Appliance && PassesOn(s.sockets[i].attachment, OnWire(f, bytes), minute)
    requires SentInOrder(s, s.sockets[n]) && BehindAccepted(s, s.sockets[n].attachment)
    requires f.seqNo == |AcceptedFor(s, f.recipient)| && Genuine(s, f)
    requires t.log == s.log && t.accepted == s.accepted[f.recipient := AcceptedFor(s, f.recipient) + [f]]
    requires t.sockets == AfterMessage(s.sockets, i, OnWire(f, bytes), minute)
    ensures SentInOrder(t, t.sockets[n]) && BehindAccepted(t, t.sockets[n].attachment)
  {
    hide Closes, SentInOrder, BehindAccepted, FirstOpen, RateCount, AcceptedFor;
    var k := s.sockets[n];
    var advanced := if n == i then k.(attachment := Advanced(k.attachment, OnWire(f, bytes).parsed.value, minute))
      else k;
    AdvancedKeepsPromises(s, t, k, advanced, f, n == i, bytes, minute);
    var updated := s.sockets[i := s.sockets[i].(attachment :=
      Advanced(s.sockets[i].attachment, OnWire(f, bytes).parsed.value, minute))];
    if n == FirstOpen(updated, f.recipient) {
      ForwardedKeepsOrder(s, t, advanced, f);
    }
  }

  lemma AdvancedKeepsPromises(s: System, t: System, k: Socket, advanced: Socket, f: Frame, own: bool, bytes: nat,
      minute: int)
    requires SentInOrder(s, k) && BehindAccepted(s, k.attachment)
    requires f.seqNo == |AcceptedFor(s, f.recipient)|
    requires own ==> k.attachment.role == Appliance
    requires advanced == if own then k.(attachment := Advanced(k.attachment, OnWire(f, bytes).parsed.value, minute))
             else k
    requires t.log == s.log && t.accepted == s.accepted[f.recipient := AcceptedFor(s, f.recipient) + [f]]
    ensures SentInOrder(s, advanced) && SentInOrder(t, advanced) && BehindAccepted(t, advanced.attachment)
  {
    hide RateCount;
  }

  lemma ForwardedKeepsOrder(s: System, t: System, k: Socket, f: Frame)
    requires SentInOrder(s, k) && k.attachment.connectionId == f.recipient
    requires f.seqNo == |AcceptedFor(s, f.recipient)| && Genuine(s, f)
    requires t.log == s.log && t.accepted == s.accepted[f.recipient := AcceptedFor(s, f.recipient) + [f]]
    ensures SentInOrder(t, k.(sent := k.sent + [FromHost(f)]))
  {}

  lemma ConnectKeepsInv(s: System, claims: Claims, minute: int)
    requires Inv(s)
    ensures Inv(After(s, ConnectionRequest(claims, minute)))
  {
    hide Inv, SentInOrder, BehindAccepted, OpenElsewhere, FreshAttachment, CloseConnection;
    var r := AfterConnect(s.sockets, claims, minute);
    var closed := CloseConnection(s.sockets, claims.connectionId);
    forall k | k in r ensures SentInOrder(s, k) && BehindAccepted(s, k.attachment) {
      if k in closed {
        var n :| 0 <= n < |closed| && closed[n] == k;
        SocketPromises(s, n);
        SameSentKeepsOrder(s, s.sockets[n], k);
      } else {
        FreshKeepsPromises(s, claims, minute);
      }
    }
    NewSocketsKeepInv(s, r);
  }

  lemma FreshKeepsPromises(s: System, claims: Claims, minute: int)
    requires Inv(s)
    ensures var k := Socket(true, FreshAttachment(s.sockets, claims, minute), []);
            SentInOrder(s, k) && BehindAccepted(s, k.attachment)
  {
    hide Inv;
    var i := Replaced(s.sockets, claims);
    if i < |s.sockets| {
      SocketPromises(s, i);
    }
  }

  lemma CloseKeepsInv(s: System, i: nat)
    requires Inv(s)
    ensures Inv(After(s, SocketCloses(i)))
  {
    hide Inv, SentInOrder, BehindAccepted, AfterMessage, AfterConnect;
    if i < |s.sockets| {
      var r := s.sockets[i := s.sockets[i].(open := false)];
      forall k | k in r ensures SentInOrder(s, k) && BehindAccepted(s, k.attachment) {
        var n :| 0 <= n < |r| && r[n] == k;
        SocketPromises(s, n);
        SameSentKeepsOrder(s, s.sockets[n], k);
      }
      NewSocketsKeepInv(s, r);
    }
  }

  lemma StepKeepsInv(s: System, a: Action)
    requires Inv(s)
    ensures Inv(After(s, a))
  {
    hide Inv, PassesOn, AfterMessage, OnWire, AfterConnect;
    match a
    case HostSend(c, payload, online) => SendKeepsInv(s, c, payload, online);
    case Lose(f) => LoseKeepsInv(s, f);
    case HostFrameArrives(i, f, bytes, minute) =>
      if f in s.inFlight && i < |s.sockets| && s.sockets[i].attachment.role == Appliance {
        if PassesOn(s.sockets[i].attachment, OnWire(f, bytes), minute) {
          ForwardKeepsInv(s, i, f, bytes, minute);
        } else {
          LoseKeepsInv(s, f);
          OtherMessageKeepsInv(s.(inFlight := s.inFlight - {f}), i, OnWire(f, bytes), minute);
        }
      }
    case PlayerFrameArrives(i, m, minute) =>
      if i < |s.sockets| && s.sockets[i].attachment.role != Appliance {
        OtherMessageKeepsInv(s, i, m, minute);
      }
    case ConnectionRequest(claims, minute) => ConnectKeepsInv(s, claims, minute);
    case SocketCloses(i) => CloseKeepsInv(s, i);
  }

  lemma {:induction false} RunKeepsInv(actions: seq<Action>)
    ensures Inv(Run(actions))
  {
    hide Inv, After, Initial;
    if actions == [] {
      InitialInv();
    } else {
      RunKeepsInv(actions[..|actions| - 1]);
      StepKeepsInv(Run(actions[..|actions| - 1]), actions[|actions| - 1]);
    }
  }

  // ----- Safety of the stream -----

  /** In every run the frames let through for a connection are the first ones the host numbered for it, in order and
      once each; and each socket receives some of them, in that order. */
  lemma RelayForwardsPrefix(actions: seq<Action>, c: Connection)
    ensures var s := Run(actions);
            && |AcceptedFor(s, c)| <= |LogOf(s.log, c)|
            && (forall j :: 0 <= j < |AcceptedFor(s, c)| ==> AcceptedFor(s, c)[j] == Frame(c, j, LogOf(s.log, c)[j]))
            && (forall i, j :: 0 <= i < |s.sockets| && 0 <= j < |s.sockets[i].sent| && s.sockets[i].sent[j].FromHost?
                  ==> s.sockets[i].sent[j].frame in AcceptedFor(s, s.sockets[i].attachment.connectionId))
            && (forall i :: 0 <= i < |s.sockets| ==> SentInOrder(s, s.sockets[i]))
  {
    hide SentInOrder, BehindAccepted, LogOf;
    var s := Run(actions);
    RunKeepsInv(actions);
    AcceptedBelowLog(s, c);
    forall j | 0 <= j < |AcceptedFor(s, c)| ensures AcceptedFor(s, c)[j] == Frame(c, j, LogOf(s.log, c)[j]) {
      assert s.accepted[c][j].seqNo == j;
    }
    forall i, j | 0 <= i < |s.sockets| && 0 <= j < |s.sockets[i].sent| && s.sockets[i].sent[j].FromHost?
      ensures s.sockets[i].sent[j].frame in AcceptedFor(s, s.sockets[i].attachment.connectionId)
    {
      SocketPromises(s, i);
      SentWasAccepted(s, s.sockets[i], j);
    }
    forall i | 0 <= i < |s.sockets| ensures SentInOrder(s, s.sockets[i]) {
      SocketPromises(s, i);
    }
  }

  lemma SentWasAccepted(s: System, k: Socket, j: nat)
    requires AcceptedIsPrefix(s) && SentInOrder(s, k) && j < |k.sent| && k.sent[j].FromHost?
    ensures k.sent[j].frame in AcceptedFor(s, k.attachment.connectionId)
  {
    var f := k.sent[j].frame;
    var frames := AcceptedFor(s, f.recipient);
    assert s.accepted[f.recipient][f.seqNo].seqNo == f.seqNo;
    assert frames[f.seqNo] == f;
  }

  /** `acted` is a run of consecutive frames of the host's numbering for `c`. */
  ghost predicate IsBlock(s: System, c: Connection, acted: seq<Frame>) {
    acted != [] ==>
      && acted[0].seqNo + |acted| <= |LogOf(s.log, c)|
      && forall j :: 0 <= j < |acted| ==> acted[j] == Frame(c, acted[0].seqNo + j, LogOf(s.log, c)[acted[0].seqNo + j])
  }

  lemma {:induction false} ActedIsBlock(s: System, c: Connection, fs: seq<Frame>)
    requires forall f :: f in fs ==> f.recipient == c && Genuine(s, f)
    ensures var r := AfterFrames(Inbox(-1, []), fs);
            && IsBlock(s, c, r.acted)
            && r.lastIncoming == (if r.acted == [] then -1 else r.acted[|r.acted| - 1].seqNo)
  {
    if fs != [] {
      var n := |fs| - 1;
      assert fs[n] in fs && forall f :: f in fs[..n] ==> f in fs;
      ActedIsBlock(s, c, fs[..n]);
    }
  }

  /** Whatever reaches one browser socket of what the room put on it - lost, repeated or out of order - the messages
      acted on are a contiguous block of the host's numbering, none twice. */
  lemma ClientActsOnBlock(actions: seq<Action>, i: nat, fs: seq<Frame>)
    requires i < |Run(actions).sockets|
    requires forall f :: f in fs ==> FromHost(f) in Run(actions).sockets[i].sent
    ensures IsBlock(Run(actions), Run(actions).sockets[i].attachment.connectionId, AfterFrames(Inbox(-1, []), fs).acted)
  {
    hide Inv, IsBlock, AfterFrames, Genuine, BehindAccepted;
    var s := Run(actions);
    RunKeepsInv(actions);
    SocketPromises(s, i);
    var k := s.sockets[i];
    forall f | f in fs ensures f.recipient == k.attachment.connectionId && Genuine(s, f) {
      var j :| 0 <= j < |k.sent| && k.sent[j] == FromHost(f);
    }
    ActedIsBlock(s, k.attachment.connectionId, fs);
  }

  // ----- The price of safety -----

  /** The next frame of the stream has been numbered and is no longer on its way. */
  ghost predicate NextIsLost(s: System, c: Connection, n: nat) {
    && |AcceptedFor(s, c)| == n && n < |LogOf(s.log, c)|
    && Frame(c, n, LogOf(s.log, c)[n]) !in s.inFlight
  }

  lemma {:induction false} LostStaysLost(s: System, a: Action, c: Connection, n: nat)
    requires Inv(s) && NextIsLost(s, c, n)
    ensures NextIsLost(After(s, a), c, n)
  {
    hide PassesOn, AfterMessage, AfterConnect, CountersMatchLog, Genuine;
    match a
    case HostSend(d, payload, online) => CounterIsLogLength(s, d);
    case HostFrameArrives(i, f, bytes, minute) =>
      if f in s.inFlight && i < |s.sockets| && s.sockets[i].attachment.role == Appliance
        && PassesOn(s.sockets[i].attachment, OnWire(f, bytes), minute) {
        PassedOnIsNext(s, i, f, bytes, minute);
        FlightIsGenuine(s, f);
      }
    case Lose(f) =>
    case PlayerFrameArrives(i, m, minute) =>
    case ConnectionRequest(claims, minute) =>
    case SocketCloses(i) =>
  }

  /** Once the next frame for a connection is lost - numbered while the host has no socket, say - nothing is let
      through for that connection ever again, whatever is sent, lost, replaced or connected afterwards. */
  lemma {:induction false} LostFrameStopsStream(actions: seq<Action>, more: seq<Action>, c: Connection)
    requires NextIsLost(Run(actions), c, |AcceptedFor(Run(actions), c)|)
    ensures NextIsLost(Run(actions + more), c, |AcceptedFor(Run(actions), c)|)
    ensures |AcceptedFor(Run(actions + more), c)| == |AcceptedFor(Run(actions), c)|
    decreases |more|
  {
    hide NextIsLost, After, AcceptedFor;
    if more == [] {
      assert actions + more == actions;
    } else {
      var n := |more| - 1;
      LostFrameStopsStream(actions, more[..n], c);
      assert (actions + more)[..|actions + more| - 1] == actions + more[..n];
      RunKeepsInv(actions + more[..n]);
      LostStaysLost(Run(actions + more[..n]), more[n], c, |AcceptedFor(Run(actions), c)|);
    }
    LostKeepsCount(Run(actions + more), c, |AcceptedFor(Run(actions), c)|);
  }

  lemma LostKeepsCount(s: System, c: Connection, n: nat)
    ensures NextIsLost(s, c, n) ==> |AcceptedFor(s, c)| == n
  {}

  /** A socket that carries no numbering on, as after a reconnect of the host without an overlapping socket, passes
      on nothing for a connection for which something was let through before. */
  lemma FreshSocketPassesNothing(s: System, i: nat, f: Frame, bytes: nat, minute: int)
    requires Inv(s) && i < |s.sockets| && f in s.inFlight && s.sockets[i].attachment.role == Appliance
    requires f.recipient !in s.sockets[i].attachment.targetSequences && AcceptedFor(s, f.recipient) != []
    ensures !PassesOn(s.sockets[i].attachment, OnWire(f, bytes), minute)
  {
    FlightIsGenuine(s, f);
  }
}
