/** The USB/HCI bridge over queues: what each entry point does to the two packet queues, the
    packet in flight to the host, the partial ACL packet and the quirk counters, together
    with a log of everything accepted, handed over, retired and sent. */
module BridgeModel {
  import opened Hci
  import AclReassembly

  // A ring of 32 slots holds 31 packets.
  const QUEUE_ROOM := 31
  const TX_TIMEOUT_MS := 1000

  // ----------------------------------------------------------------------- quirks

  /** The four commands whose completion the bridge makes up itself. */
  datatype Quirk = PairingMode | RandomAddress | ScanParameters | ScanEnable

  function Opcode(q: Quirk): Word16 {
    match q
    case PairingMode => WRITE_SIMPLE_PAIRING_MODE
    case RandomAddress => LE_SET_RANDOM_ADDRESS
    case ScanParameters => LE_SET_SCAN_PARAMETERS
    case ScanEnable => LE_SET_SCAN_ENABLE
  }

  predicate CommandIs(data: seq<Byte>, opcode: Word16) {
    |data| >= 3 && Le16(data[0], data[1]) == opcode
  }

  predicate CompleteIs(data: seq<Byte>, opcode: Word16) {
    |data| >= 6 && data[0] == EVENT_COMMAND_COMPLETE && Le16(data[3], data[4]) == opcode
  }

  function QuirkOfOpcode(opcode: Word16): Option<Quirk> {
    if opcode == WRITE_SIMPLE_PAIRING_MODE then Some(PairingMode)
    else if opcode == LE_SET_RANDOM_ADDRESS then Some(RandomAddress)
    else if opcode == LE_SET_SCAN_PARAMETERS then Some(ScanParameters)
    else if opcode == LE_SET_SCAN_ENABLE then Some(ScanEnable)
    else None
  }

  function QuirkOfCommand(p: Packet): Option<Quirk> {
    if p.kind == Command && |p.data| >= 3 then QuirkOfOpcode(Le16(p.data[0], p.data[1])) else None
  }

  function QuirkOfComplete(p: Packet): Option<Quirk> {
    if p.kind == Event && |p.data| >= 6 && p.data[0] == EVENT_COMMAND_COMPLETE
    then QuirkOfOpcode(Le16(p.data[3], p.data[4]))
    else None
  }

  /** How many late completes are still to be swallowed: four uint8_t counters. */
  datatype Counters = Counters(pairingMode: Byte, randomAddress: Byte, scanParameters: Byte, scanEnable: Byte)
  {
    function Get(q: Quirk): Byte {
      match q
      case PairingMode => pairingMode
      case RandomAddress => randomAddress
      case ScanParameters => scanParameters
      case ScanEnable => scanEnable
    }

    function Put(q: Quirk, n: Byte): (c: Counters)
      ensures c.Get(q) == n && forall r :: r != q ==> c.Get(r) == Get(r)
    {
      match q
      case PairingMode => this.(pairingMode := n)
      case RandomAddress => this.(randomAddress := n)
      case ScanParameters => this.(scanParameters := n)
      case ScanEnable => this.(scanEnable := n)
    }
  }

  function Saturate(n: Byte): Byte {
    if n == 255 then n else n + 1
  }

  function CommandComplete(opcode: Word16): Packet {
    Packet(Event, [EVENT_COMMAND_COMPLETE, 0x04, 0x01, opcode % 0x100, opcode / 0x100, 0x00])
  }

  function FeaturesComplete(page: Byte): Packet {
    Packet(Event, [EVENT_COMMAND_COMPLETE, 0x0e, 0x01,
                   READ_LOCAL_EXTENDED_FEATURES % 0x100, READ_LOCAL_EXTENDED_FEATURES / 0x100, 0x00,
                   page, 0x00, 0, 0, 0, 0, 0, 0, 0, 0])
  }

  predicate AsksFeatures(data: seq<Byte>) {
    CommandIs(data, READ_LOCAL_EXTENDED_FEATURES)
  }

  function PageOf(data: seq<Byte>): Byte {
    if |data| >= 4 then data[3] else 0
  }

  /** A chatty vendor event. */
  predicate Noise(p: Packet) {
    p.kind == Event && |p.data| >= 2 && p.data[0] == EVENT_VENDOR_SPECIFIC && p.data[1] >= 64
  }

  // ------------------------------------------------------- controller to host side

  predicate Fits(queue: seq<Packet>, p: Packet) {
    |p.data| <= HCI_ACL_MAX_LEN && |queue| < QUEUE_ROOM
  }

  datatype DownLog = DownLog(accepted: seq<Packet>, retired: seq<Packet>, handed: seq<Packet>)

  datatype Down = Down(queue: seq<Packet>, inFlight: bool, startedMs: Word32, log: DownLog)

  const DOWN_START := Down([], false, 0, DownLog([], [], []))

  function DownPush(d: Down, p: Packet): Down {
    if Fits(d.queue, p)
    then d.(queue := d.queue + [p], log := d.log.(accepted := d.log.accepted + [p]))
    else d
  }

  function Retire(d: Down): Down {
    if d.queue == [] then d
    else d.(queue := d.queue[1..], log := d.log.(retired := d.log.retired + [d.queue[0]]))
  }

  /** More than a second (in wrapped 32-bit milliseconds) without a sent-callback. */
  function Expire(d: Down, now: Word32): Down {
    if d.inFlight && Wrap32(now - d.startedMs) > TX_TIMEOUT_MS
    then Retire(d).(inFlight := false)
    else d
  }

  /** Either of the two sent-callbacks, expected or not. */
  function Sent(d: Down): Down {
    (if d.inFlight then Retire(d) else d).(inFlight := false, startedMs := 0)
  }

  function Hand(d: Down, usbAccepts: bool, now: Word32): Down {
    if d.inFlight || d.queue == [] || !usbAccepts || d.queue[0].kind !in {Event, Acl} then d
    else d.(inFlight := true, startedMs := now, log := d.log.(handed := d.log.handed + [d.queue[0]]))
  }

  // ------------------------------------------------------- host to controller side

  datatype Attempt = Attempt(packet: Packet, ok: bool)

  datatype UpLog = UpLog(accepted: seq<Packet>, sent: seq<Packet>, attempts: seq<Attempt>)

  datatype Up = Up(queue: seq<Packet>, partial: AclReassembly.Partial, log: UpLog)

  const UP_START := Up([], AclReassembly.NONE, UpLog([], [], []))

  function UpPush(u: Up, p: Packet): Up {
    if Fits(u.queue, p)
    then u.(queue := u.queue + [p], log := u.log.(accepted := u.log.accepted + [p]))
    else u
  }

  function PushAcls(u: Up, packets: seq<seq<Byte>>): Up
    decreases |packets|
  {
    if packets == [] then u else PushAcls(UpPush(u, Packet(Acl, packets[0])), packets[1..])
  }

  function AclFragment(u: Up, fragment: seq<Byte>): Up
    requires AclReassembly.Sound(u.partial)
  {
    var o := AclReassembly.Absorb(u.partial, fragment);
    PushAcls(u, o.packets).(partial := o.partial)
  }

  /** One try to send the head of the queue; success takes it off. */
  function Try(u: Up, ok: bool): Up
    requires u.queue != []
  {
    var tx := u.queue[0];
    var log := u.log.(attempts := u.log.attempts + [Attempt(tx, ok)]);
    if ok then u.(queue := u.queue[1..], log := log.(sent := log.sent + [tx])) else u.(log := log)
  }

  // ------------------------------------------------------------------- the bridge

  /** Since power-up, whatever was enabled and disabled in between: packets from the
      controller while enabled, those swallowed as late completes or noise, those put in
      the host's queue (made up or real), those that queue refused, and those sent. */
  datatype Life = Life(arrived: seq<Packet>, suppressed: seq<Packet>, noise: seq<Packet>,
                       queued: seq<Packet>, refused: seq<Packet>, sent: seq<Packet>)

  datatype Bridge = Bridge(enabled: bool, down: Down, up: Up, suppress: Counters, life: Life)

  const START := Bridge(false, DOWN_START, UP_START, Counters(0, 0, 0, 0), Life([], [], [], [], [], []))

  function PushDown(b: Bridge, p: Packet): Bridge {
    b.(down := DownPush(b.down, p),
       life := if Fits(b.down.queue, p) then b.life.(queued := b.life.queued + [p])
               else b.life.(refused := b.life.refused + [p]))
  }

  /** After a command went out: make up its completion, and owe the controller's own. */
  function AfterSend(b: Bridge, tx: Packet): Bridge {
    match QuirkOfCommand(tx)
    case None => b
    case Some(q) =>
      PushDown(b, CommandComplete(Opcode(q))).(suppress := b.suppress.Put(q, Saturate(b.suppress.Get(q))))
  }

  function SendHead(b: Bridge): Bridge
    requires b.up.queue != []
  {
    var tx := b.up.queue[0];
    AfterSend(b.(up := Try(b.up, true), life := b.life.(sent := b.life.sent + [tx])), tx)
  }

  /** A feature request found in the queue is answered here and never sent. */
  function AnswerHead(b: Bridge): Bridge
    requires b.up.queue != []
  {
    PushDown(b.(up := b.up.(queue := b.up.queue[1..])), FeaturesComplete(PageOf(b.up.queue[0].data)))
  }

  predicate HeadAsksFeatures(b: Bridge)
    requires b.up.queue != []
  {
    b.up.queue[0].kind == Command && AsksFeatures(b.up.queue[0].data)
  }

  /** Send until the queue is empty or a send fails; `sends` are the transport's answers. */
  function Drain(b: Bridge, sends: seq<bool>): Bridge
    decreases |b.up.queue|
  {
    if b.up.queue == [] then b
    else if HeadAsksFeatures(b) then Drain(AnswerHead(b), sends)
    else if sends == [] || !sends[0] then b.(up := Try(b.up, false))
    else Drain(SendHead(b), sends[1..])
  }

  function Task(b: Bridge, ready: bool, now: Word32, sends: seq<bool>, usbAccepts: bool, later: Word32): Bridge {
    if !b.enabled || !ready then b
    else
      var drained := Drain(b.(down := Expire(b.down, now)), sends);
      drained.(down := Hand(drained.down, usbAccepts, later))
  }

  function SetEnabled(b: Bridge, on: bool): Bridge {
    if on then b.(enabled := true) else b.(enabled := false, down := DOWN_START, up := UP_START)
  }

  function Lowered(c: Counters, q: Quirk): Counters
    requires c.Get(q) > 0
  {
    c.Put(q, c.Get(q) - 1)
  }

  function Suppressed(b: Bridge, p: Packet, q: Quirk): Bridge
    requires b.suppress.Get(q) > 0
  {
    b.(suppress := Lowered(b.suppress, q),
       life := b.life.(suppressed := b.life.suppressed + [p]))
  }

  predicate Owed(b: Bridge, p: Packet) {
    QuirkOfComplete(p).Some? && b.suppress.Get(QuirkOfComplete(p).value) > 0
  }

  function FromController(b: Bridge, p: Packet): Bridge {
    if !b.enabled || p.kind !in {Event, Acl} then b
    else
      var b1 := b.(life := b.life.(arrived := b.life.arrived + [p]));
      if Owed(b, p) then Suppressed(b1, p, QuirkOfComplete(p).value)
      else if Noise(p) then b1.(life := b1.life.(noise := b1.life.noise + [p]))
      else PushDown(b1, p)
  }

  /** The length of a command transfer is cut to 16 bits. */
  function Trunc16(data: seq<Byte>): seq<Byte> {
    data[..Wrap16(|data|)]
  }

  function HostCommand(b: Bridge, transfer: seq<Byte>): Bridge {
    var data := Trunc16(transfer);
    if !b.enabled then b
    else if AsksFeatures(data) then PushDown(b, FeaturesComplete(PageOf(data)))
    else b.(up := UpPush(b.up, Packet(Command, data)))
  }

  function HostAcl(b: Bridge, fragment: seq<Byte>): Bridge
    requires AclReassembly.Sound(b.up.partial)
  {
    if !b.enabled then b else b.(up := AclFragment(b.up, fragment))
  }

  function SentCallback(b: Bridge): Bridge {
    b.(down := Sent(b.down))
  }

  // -------------------------------------------------------------------------- runs

  datatype Op =
    | Enable(on: bool)
    | Receive(packet: Packet)
    | CommandTransfer(bytes: seq<Byte>)
    | AclTransfer(bytes: seq<Byte>)
    | SentEvent
    | RunTask(ready: bool, now: Word32, sends: seq<bool>, usbAccepts: bool, later: Word32)

  function Step(b: Bridge, op: Op): Bridge
    requires AclReassembly.Sound(b.up.partial)
  {
    match op
    case Enable(on) => SetEnabled(b, on)
    case Receive(p) => FromController(b, p)
    case CommandTransfer(bytes) => HostCommand(b, bytes)
    case AclTransfer(bytes) => HostAcl(b, bytes)
    case SentEvent => SentCallback(b)
    case RunTask(ready, now, sends, usbAccepts, later) => Task(b, ready, now, sends, usbAccepts, later)
  }
}
