/** The AVR serial port of platform/HAL_AVR/HardwareSerial.cpp as a
    sequential state machine: the receive ring filled by the RX interrupt
    and drained by `read`, the transmit ring filled by `write` and drained
    by the data-register-empty interrupt, the XON/XOFF flow control between
    them, the saturating error counters, and integer printing.

    The interrupt and the main loop are flattened into one sequence of
    operations, so the atomic head/tail helpers become plain reads and
    writes. Bytes that leave through the data register are recorded on the
    `wire`; the hardware flags the code polls (`DOR`, `FE`, `UDRE`) are
    parameters. The index masks `& (SIZE - 1)` on a power-of-two size are
    written as the remainder modulo the size. */
module Serial {
  import opened Base

  // ------------------------------------------------------------ config

  /** The template configuration: `RX_SIZE = 2^rxBits`, `TX_SIZE = 2^txBits`
      or 0 when there is no transmit buffer, and the optional features. */
  datatype Config = Config(rxBits: nat, txBits: Option<nat>, xonoff: bool, droppedRx: bool,
                           rxOverruns: bool, framingErrors: bool, maxRxQueued: bool)

  /** Receive positions are at most 16 bits wide (`ring_buffer_pos_t`) and
      transmit positions 8 bits (`uint8_t`); a transmit ring has at least
      two slots, otherwise `write` could never find room. */
  predicate ValidConfig(c: Config)
  {
    c.rxBits <= 16 && (c.txBits.Some? ==> 1 <= c.txBits.value <= 8)
  }

  function RxSize(c: Config): nat { Pow2(c.rxBits) }

  function TxSize(c: Config): nat { if c.txBits.Some? then Pow2(c.txBits.value) else 0 }

  // -------------------------------------------------------------- ring

  /** `ring_buffer_r` / `ring_buffer_t`: head, tail and the storage. */
  datatype Ring = Ring(head: nat, tail: nat, buffer: seq<u8>)

  predicate ValidRing(r: Ring, n: nat)
  {
    n >= 1 && |r.buffer| == n && r.head < n && r.tail < n
  }

  /** A value below twice the size wraps at most once. */
  lemma ModWrap(x: int, n: int)
    requires n >= 1 && 0 <= x < 2 * n
    ensures x % n == (if x < n then x else x - n)
  {
    if x < n {
      DivUnique(x, n, 0, x);
    } else {
      DivUnique(x, n, 1, x - n);
    }
  }

  /** The index after `i` in a ring of `n` slots. */
  function Next(i: nat, n: nat): (j: nat)
    requires i < n
    ensures j < n
  {
    if i + 1 < n then i + 1 else 0
  }

  /** The slot `k` places after `t`. */
  function Slot(t: nat, k: nat, n: nat): (s: nat)
    requires t < n && k < n
    ensures s < n
  {
    if t + k < n then t + k else t + k - n
  }

  /** The number of queued bytes: how far the head is ahead of the tail. */
  function Count(r: Ring, n: nat): (c: nat)
    requires ValidRing(r, n)
    ensures c < n && r.head == Slot(r.tail, c, n)
  {
    if r.head >= r.tail then r.head - r.tail else n + r.head - r.tail
  }

  /** The index arithmetic is the source's masked arithmetic: `Next` is
      `(i + 1) & (SIZE - 1)`, `Slot` is `(t + k) & (SIZE - 1)` and `Count`
      is `(SIZE + head - tail) & (SIZE - 1)`, each a remainder modulo the
      power-of-two size. */
  lemma IndexIsMasked(r: Ring, n: nat, i: nat, k: nat)
    requires ValidRing(r, n) && i < n && k < n
    ensures Next(i, n) == (i + 1) % n
    ensures Slot(r.tail, k, n) == (r.tail + k) % n
    ensures Count(r, n) == (n + r.head - r.tail) % n && Count(r, n) == (r.head - r.tail) % n
  {
    ModWrap(i + 1, n);
    ModWrap(r.tail + k, n);
    ModWrap(n + r.head - r.tail, n);
    if r.head >= r.tail {
      DivUnique(r.head - r.tail, n, 0, r.head - r.tail);
    } else {
      DivUnique(r.head - r.tail, n, -1, n + r.head - r.tail);
    }
  }

  /** The queued bytes, oldest first. */
  function Contents(r: Ring, n: nat): (q: seq<u8>)
    requires ValidRing(r, n)
    ensures |q| == Count(r, n) && |q| < n
  {
    seq(Count(r, n), k requires 0 <= k < Count(r, n) => r.buffer[Slot(r.tail, k, n)])
  }

  /** The slot after the head is the tail: one more byte would make the
      ring look empty. */
  predicate Full(r: Ring, n: nat)
    requires ValidRing(r, n)
  {
    Next(r.head, n) == r.tail
  }

  /** A ring is full exactly when it holds `SIZE - 1` bytes, so it never
      holds more. */
  lemma FullIffCapacity(r: Ring, n: nat)
    requires ValidRing(r, n)
    ensures Full(r, n) <==> Count(r, n) == n - 1
    ensures |Contents(r, n)| <= n - 1
  {
  }

  /** Store a byte at the head and advance it. */
  function Push(r: Ring, n: nat, b: u8): (r': Ring)
    requires ValidRing(r, n)
    ensures ValidRing(r', n)
  {
    r.(buffer := r.buffer[r.head := b], head := Next(r.head, n))
  }

  /** Advance the tail past the oldest byte. */
  function Pop(r: Ring, n: nat): (r': Ring)
    requires ValidRing(r, n)
    ensures ValidRing(r', n)
  {
    r.(tail := Next(r.tail, n))
  }

  /** Pushing onto a ring that is not full appends to its contents. */
  lemma PushContents(r: Ring, n: nat, b: u8)
    requires ValidRing(r, n) && !Full(r, n)
    ensures Contents(Push(r, n, b), n) == Contents(r, n) + [b]
  {
    var r' := Push(r, n, b);
    var c := Count(r, n);
    assert Count(r', n) == c + 1;
    forall k | 0 <= k < c + 1
      ensures Contents(r', n)[k] == (Contents(r, n) + [b])[k]
    {
      if k < c {
        assert Slot(r.tail, k, n) != r.head;
      }
    }
  }

  /** Popping a ring that is not empty removes the oldest byte. */
  lemma PopContents(r: Ring, n: nat)
    requires ValidRing(r, n) && r.head != r.tail
    ensures Count(r, n) >= 1
    ensures Contents(Pop(r, n), n) == Contents(r, n)[1..]
  {
    var r' := Pop(r, n);
    assert Count(r', n) == Count(r, n) - 1;
    forall k | 0 <= k < Count(r', n)
      ensures Contents(r', n)[k] == Contents(r, n)[k + 1]
    {
      assert Slot(r'.tail, k, n) == Slot(r.tail, k + 1, n);
    }
  }

  lemma EmptyContents(r: Ring, n: nat)
    requires ValidRing(r, n)
    ensures Contents(r, n) == [] <==> r.head == r.tail
  {
  }

  // --------------------------------------------------------- the port

  /** `xon_xoff_state`: the flow-control character last sent or about to
      be sent (`XOFF_CHAR` when `xoff`, else `XON_CHAR`) and the
      `XON_XOFF_CHAR_SENT` bit. */
  datatype Flow = Flow(xoff: bool, sent: bool)

  /** An XON is waiting for the transmit interrupt. */
  predicate XonPending(f: Flow)
  {
    !f.xoff && !f.sent
  }

  /** A byte put into the data register `UDR`. */
  datatype Wire = DataByte(b: u8) | XonChar | XoffChar

  /** The state of one port: both rings, flow control, the three error
      counters, the largest receive fill seen, the `UDRIE` interrupt
      enable, `_written`, and everything sent so far. */
  datatype Port = Port(rx: Ring, tx: Ring, flow: Flow, dropped: u8, overruns: u8, framing: u8,
                       maxQueued: nat, udrie: bool, written: bool, wire: seq<Wire>)

  predicate ValidPort(c: Config, p: Port)
  {
    ValidRing(p.rx, RxSize(c)) && (TxSize(c) > 0 ==> ValidRing(p.tx, TxSize(c)))
  }

  /** The static initial state: empty rings, XON sent, counters at 0. */
  function Initial(c: Config): (p: Port)
    requires ValidConfig(c)
    ensures ValidPort(c, p) && Contents(p.rx, RxSize(c)) == []
    ensures TxSize(c) > 0 ==> Contents(p.tx, TxSize(c)) == []
  {
    Port(Ring(0, 0, seq(RxSize(c), _ => 0)), Ring(0, 0, seq(Max(TxSize(c), 1), _ => 0)),
         Flow(false, true), 0, 0, 0, 0, false, false, [])
  }

  /** `if (!++x) --x` on a byte counter: add one, but stay at 255. */
  function SatInc(x: u8): (y: u8)
    ensures x < 255 ==> y == x + 1
    ensures x == 255 ==> y == 255
  {
    var y := Wrap8(x + 1);
    if y == 0 then Wrap8(y - 1) else y
  }

  // ------------------------------------------------------------ receive

  /** One byte taken from `UDR` while the code waits to send XOFF: stored
      when there is room, counted as dropped otherwise. */
  function ReceiveOne(c: Config, rx: Ring, dropped: u8, b: u8): (r: (Ring, u8))
    requires ValidConfig(c) && ValidRing(rx, RxSize(c))
    ensures ValidRing(r.0, RxSize(c)) && r.1 >= dropped
  {
    if !Full(rx, RxSize(c)) then (Push(rx, RxSize(c), b), dropped)
    else (rx, if c.droppedRx then SatInc(dropped) else dropped)
  }

  function ReceiveAll(c: Config, rx: Ring, dropped: u8, bs: seq<u8>): (r: (Ring, u8))
    requires ValidConfig(c) && ValidRing(rx, RxSize(c))
    ensures ValidRing(r.0, RxSize(c))
    ensures r.0.tail == rx.tail && r.1 >= dropped
    decreases |bs|
  {
    if |bs| == 0 then (rx, dropped)
    else
      var (rx1, d1) := ReceiveOne(c, rx, dropped, bs[0]);
      ReceiveAll(c, rx1, d1, bs[1..])
  }

  /** The receive queue as a bounded FIFO: a byte is appended while fewer
      than `cap` are queued and discarded otherwise. */
  function Enqueue(q: seq<u8>, cap: nat, bs: seq<u8>): (r: seq<u8>)
    ensures |r| <= |q| + |bs|
    ensures r[..Min(|q|, |r|)] == q[..Min(|q|, |r|)]
    decreases |bs|
  {
    if |bs| == 0 then q
    else Enqueue(if |q| < cap then q + [bs[0]] else q, cap, bs[1..])
  }

  lemma {:induction false} ReceiveAllQueue(c: Config, rx: Ring, dropped: u8, bs: seq<u8>)
    requires ValidConfig(c) && ValidRing(rx, RxSize(c))
    ensures Contents(ReceiveAll(c, rx, dropped, bs).0, RxSize(c)) == Enqueue(Contents(rx, RxSize(c)), RxSize(c) - 1, bs)
    decreases |bs|
  {
    var n := RxSize(c);
    if |bs| > 0 {
      FullIffCapacity(rx, n);
      if !Full(rx, n) {
        PushContents(rx, n, bs[0]);
      }
      var (rx1, d1) := ReceiveOne(c, rx, dropped, bs[0]);
      ReceiveAllQueue(c, rx1, d1, bs[1..]);
    }
  }

  /** `store_rxd_char`, the receive interrupt, for the byte `b` with the
      overrun flag `dor` and the framing-error flag `fe`. When the fill
      reaches an eighth of the ring after an XON, XOFF is sent at once; the
      bytes `during` arrive while the code waits for the data register. */
  function StoreRxdChar(c: Config, p: Port, b: u8, dor: bool, fe: bool, during: seq<u8>): (r: Port)
    requires ValidConfig(c) && ValidPort(c, p)
    ensures ValidPort(c, r)
    ensures r.tx == p.tx && r.udrie == p.udrie && r.written == p.written
    ensures r.rx.tail == p.rx.tail
    ensures r.overruns == (if c.rxOverruns && dor then SatInc(p.overruns) else p.overruns)
    ensures r.framing == (if c.framingErrors && fe then SatInc(p.framing) else p.framing)
    ensures c.maxRxQueued ==> r.maxQueued >= p.maxQueued && r.maxQueued >= Count(StoreOne(c, p.rx, b), RxSize(c))
    ensures !c.maxRxQueued ==> r.maxQueued == p.maxQueued
    ensures SendsXoff(c, p, b) ==> r.flow == Flow(true, true) && r.wire == p.wire + [XoffChar]
    ensures !SendsXoff(c, p, b) ==> r.flow == p.flow && r.wire == p.wire && r.rx == StoreOne(c, p.rx, b)
  {
    var q := Stored(c, p, b, dor, fe);
    if SendsXoff(c, p, b) then
      var rest := ReceiveAll(c, q.rx, q.dropped, during);
      q.(rx := rest.0, dropped := rest.1, flow := Flow(true, true), wire := p.wire + [XoffChar])
    else q
  }

  /** The first half of `store_rxd_char`: the error counters, the byte
      stored or dropped, and the largest fill. */
  function Stored(c: Config, p: Port, b: u8, dor: bool, fe: bool): (r: Port)
    requires ValidConfig(c) && ValidPort(c, p)
    ensures ValidPort(c, r) && r.rx == StoreOne(c, p.rx, b)
    ensures r.dropped == ReceiveOne(c, p.rx, if c.droppedRx && dor then SatInc(p.dropped) else p.dropped, b).1
    ensures r == p.(rx := r.rx, dropped := r.dropped, overruns := r.overruns, framing := r.framing, maxQueued := r.maxQueued)
    ensures r.overruns == (if c.rxOverruns && dor then SatInc(p.overruns) else p.overruns)
    ensures r.framing == (if c.framingErrors && fe then SatInc(p.framing) else p.framing)
    ensures c.maxRxQueued ==> r.maxQueued >= p.maxQueued && r.maxQueued >= Count(r.rx, RxSize(c))
    ensures !c.maxRxQueued ==> r.maxQueued == p.maxQueued
  {
    var n := RxSize(c);
    var d1 := if c.droppedRx && dor then SatInc(p.dropped) else p.dropped;
    var rx1 := StoreOne(c, p.rx, b);
    p.(rx := rx1, dropped := ReceiveOne(c, p.rx, d1, b).1,
       overruns := if c.rxOverruns && dor then SatInc(p.overruns) else p.overruns,
       framing := if c.framingErrors && fe then SatInc(p.framing) else p.framing,
       maxQueued := if c.maxRxQueued then Max(p.maxQueued, Count(rx1, n)) else p.maxQueued)
  }

  /** The receive ring after storing `b` (or dropping it). */
  function StoreOne(c: Config, rx: Ring, b: u8): (r: Ring)
    requires ValidConfig(c) && ValidRing(rx, RxSize(c))
    ensures ValidRing(r, RxSize(c))
  {
    ReceiveOne(c, rx, 0, b).0
  }

  /** XOFF goes out when flow control is on, the last character was an
      XON, and storing `b` leaves at least an eighth of the ring filled. */
  predicate SendsXoff(c: Config, p: Port, b: u8)
    requires ValidConfig(c) && ValidPort(c, p)
  {
    c.xonoff && !p.flow.xoff && Count(StoreOne(c, p.rx, b), RxSize(c)) >= RxSize(c) / 8
  }

  /** The receive interrupt refines the bounded FIFO of capacity
      `SIZE - 1`: the byte is appended unless the ring is full, followed by
      the bytes taken while waiting to send XOFF. */
  lemma StoreRxdCharQueue(c: Config, p: Port, b: u8, dor: bool, fe: bool, during: seq<u8>)
    requires ValidConfig(c) && ValidPort(c, p)
    ensures var n := RxSize(c);
            var q := Contents(p.rx, n);
            Contents(StoreRxdChar(c, p, b, dor, fe, during).rx, n)
              == Enqueue(q, n - 1, if SendsXoff(c, p, b) then [b] + during else [b])
  {
    var n := RxSize(c);
    var st := Stored(c, p, b, dor, fe);
    StoreOneQueue(c, p.rx, b);
    if SendsXoff(c, p, b) {
      ReceiveAllQueue(c, st.rx, st.dropped, during);
      EnqueueCons(Contents(p.rx, n), n - 1, b, during);
    }
  }

  /** Storing one byte appends it unless the ring is full. */
  lemma StoreOneQueue(c: Config, rx: Ring, b: u8)
    requires ValidConfig(c) && ValidRing(rx, RxSize(c))
    ensures Contents(StoreOne(c, rx, b), RxSize(c)) == Enqueue(Contents(rx, RxSize(c)), RxSize(c) - 1, [b])
  {
    var n := RxSize(c);
    FullIffCapacity(rx, n);
    if !Full(rx, n) {
      PushContents(rx, n, b);
    }
    assert [b][1..] == [];
  }

  /** A byte that finds the ring full is counted as dropped, up to the
      counter's limit of 255. */
  lemma StoreRxdCharCountsDrop(c: Config, p: Port, b: u8, dor: bool, fe: bool, during: seq<u8>)
    requires ValidConfig(c) && ValidPort(c, p)
    requires Full(p.rx, RxSize(c)) && c.droppedRx && p.dropped < 255
    ensures StoreRxdChar(c, p, b, dor, fe, during).dropped > p.dropped
  {
    var st := Stored(c, p, b, dor, fe);
    assert st.dropped > p.dropped;
  }

  lemma EnqueueCons(q: seq<u8>, cap: nat, b: u8, bs: seq<u8>)
    ensures Enqueue(q, cap, [b] + bs) == Enqueue(Enqueue(q, cap, [b]), cap, bs)
  {
    assert ([b] + bs)[1..] == bs;
  }

  // --------------------------------------------------------------- read

  /** `peek`: the oldest byte, or -1 when the ring is empty. */
  function Peek(c: Config, p: Port): (v: int)
    requires ValidConfig(c) && ValidPort(c, p)
    ensures Contents(p.rx, RxSize(c)) == [] ==> v == -1
    ensures Contents(p.rx, RxSize(c)) != [] ==> v == Contents(p.rx, RxSize(c))[0]
  {
    if p.rx.head == p.rx.tail then -1 else p.rx.buffer[p.rx.tail]
  }

  /** Ask for XON after XOFF: with a transmit buffer the request is left
      to the transmit interrupt, which is enabled; without one XON is sent
      at once. */
  function RequestXon(c: Config, p: Port): (r: Port)
    // XON becomes the state, and both rings and the counters are untouched
    ensures !r.flow.xoff && r.rx == p.rx && r.tx == p.tx
    ensures r.dropped == p.dropped && r.overruns == p.overruns && r.framing == p.framing
    // with a transmit buffer the XON waits for the enabled interrupt; without one it is on the wire
    ensures TxSize(c) > 0 ==> XonPending(r.flow) && r.udrie && r.wire == p.wire
    ensures TxSize(c) == 0 ==> r.flow.sent && r.wire == p.wire + [XonChar]
  {
    if TxSize(c) > 0 then p.(flow := Flow(false, false), udrie := true)
    else p.(flow := Flow(false, true), wire := p.wire + [XonChar])
  }

  /** `read`: the oldest byte and the port with it removed, or -1 and the
      port unchanged when nothing is queued. After XOFF, a read that leaves
      less than a tenth of the ring filled asks for XON. */
  function Read(c: Config, p: Port): (r: (int, Port))
    requires ValidConfig(c) && ValidPort(c, p)
    ensures ValidPort(c, r.1)
    ensures Contents(p.rx, RxSize(c)) == [] ==> r == (-1, p)
    ensures Contents(p.rx, RxSize(c)) != [] ==>
              r.0 == Contents(p.rx, RxSize(c))[0] &&
              Contents(r.1.rx, RxSize(c)) == Contents(p.rx, RxSize(c))[1..]
    ensures Contents(p.rx, RxSize(c)) != [] ==>
              r.1 == (if c.xonoff && p.flow.xoff && |Contents(p.rx, RxSize(c))| - 1 < RxSize(c) / 10
                      then RequestXon(c, p.(rx := Pop(p.rx, RxSize(c))))
                      else p.(rx := Pop(p.rx, RxSize(c))))
  {
    var n := RxSize(c);
    EmptyContents(p.rx, n);
    if p.rx.head == p.rx.tail then (-1 as int, p)
    else
      PopContents(p.rx, n);
      var v := p.rx.buffer[p.rx.tail];
      var q := p.(rx := Pop(p.rx, n));
      if c.xonoff && p.flow.xoff && Count(q.rx, n) < n / 10 then (v, RequestXon(c, q))
      else (v, q)
  }

  /** `flush`: drop every queued byte; after XOFF, ask for XON. */
  function Flush(c: Config, p: Port): (r: Port)
    requires ValidConfig(c) && ValidPort(c, p)
    ensures ValidPort(c, r)
    ensures Contents(r.rx, RxSize(c)) == [] && Available(c, r) == 0
    ensures c.xonoff && p.flow.xoff ==> !r.flow.xoff
    ensures !(c.xonoff && p.flow.xoff) ==> r == p.(rx := p.rx.(tail := p.rx.head))
  {
    var q := p.(rx := p.rx.(tail := p.rx.head));
    if c.xonoff && p.flow.xoff then RequestXon(c, q) else q
  }

  /** `available`: the number of queued bytes. */
  function Available(c: Config, p: Port): (a: nat)
    requires ValidConfig(c) && ValidPort(c, p)
    ensures a == |Contents(p.rx, RxSize(c))| && a < RxSize(c)
  {
    Count(p.rx, RxSize(c))
  }

  // ----------------------------------------------------------- transmit

  /** The data bytes on the wire, without the flow-control characters. */
  function Sent(w: seq<Wire>): (r: seq<u8>)
    ensures |r| <= |w|
  {
    if |w| == 0 then []
    else Sent(w[..|w| - 1]) + (if w[|w| - 1].DataByte? then [w[|w| - 1].b] else [])
  }

  lemma SentAppend(w: seq<Wire>, x: Wire)
    ensures Sent(w + [x]) == Sent(w) + (if x.DataByte? then [x.b] else [])
  {
    assert (w + [x])[..|w|] == w;
  }

  /** Every byte handed to `write`, in order: those already sent followed
      by those still queued. */
  function Stream(c: Config, p: Port): seq<u8>
    requires ValidConfig(c) && ValidPort(c, p)
  {
    Sent(p.wire) + (if TxSize(c) > 0 then Contents(p.tx, TxSize(c)) else [])
  }

  /** The transmit interrupt stays enabled while there is something to
      send: queued bytes or a pending XON, which only flow control asks
      for. */
  predicate TxArmed(c: Config, p: Port)
    requires ValidConfig(c) && ValidPort(c, p)
  {
    TxSize(c) > 0 ==> ((p.tx.head != p.tx.tail || XonPending(p.flow)) ==> p.udrie) &&
                      (XonPending(p.flow) ==> c.xonoff)
  }

  /** `_tx_udr_empty_irq`: a pending XON goes first; otherwise the oldest
      queued byte is sent. The interrupt is disabled once the queue is
      empty. */
  function TxUdrEmptyIrq(c: Config, p: Port): (r: Port)
    requires ValidConfig(c) && ValidPort(c, p)
    ensures ValidPort(c, r)
    ensures TxSize(c) == 0 ==> r == p
    ensures TxSize(c) > 0 && c.xonoff && XonPending(p.flow) ==>
              r.wire == p.wire + [XonChar] && r.flow == Flow(false, true) && r.tx == p.tx
    ensures TxSize(c) > 0 && !(c.xonoff && XonPending(p.flow)) && p.tx.head != p.tx.tail ==>
              r.wire == p.wire + [DataByte(Contents(p.tx, TxSize(c))[0])] &&
              Contents(r.tx, TxSize(c)) == Contents(p.tx, TxSize(c))[1..]
    ensures TxSize(c) > 0 && r.tx.head == r.tx.tail && !XonPending(r.flow) ==> !r.udrie
    ensures r.rx == p.rx && r.dropped == p.dropped
  {
    if TxSize(c) == 0 then p
    else
      var n := TxSize(c);
      var t := p.tx.tail;
      var h := p.tx.head;
      if c.xonoff && XonPending(p.flow) then
        p.(wire := p.wire + [XonChar], flow := Flow(false, true), udrie := if h == t then false else p.udrie)
      else if h == t then p.(udrie := false)
      else
        PopContents(p.tx, n);
        var tx' := Pop(p.tx, n);
        p.(wire := p.wire + [DataByte(p.tx.buffer[t])], tx := tx', udrie := if h == tx'.tail then false else p.udrie)
  }

  /** The transmit interrupt keeps the order of the byte stream and keeps
      itself armed while there is something left to send. */
  lemma TxIrqKeepsStream(c: Config, p: Port)
    requires ValidConfig(c) && ValidPort(c, p) && TxArmed(c, p)
    ensures Stream(c, TxUdrEmptyIrq(c, p)) == Stream(c, p)
    ensures TxArmed(c, TxUdrEmptyIrq(c, p))
  {
    if TxSize(c) > 0 {
      if c.xonoff && XonPending(p.flow) {
        SentAppend(p.wire, XonChar);
      } else if p.tx.head != p.tx.tail {
        TxIrqSendsOldest(c, p);
      }
    }
  }

  /** Sending the oldest queued byte moves it from the queue to the wire. */
  lemma TxIrqSendsOldest(c: Config, p: Port)
    requires ValidConfig(c) && ValidPort(c, p) && TxSize(c) > 0
    requires !(c.xonoff && XonPending(p.flow)) && p.tx.head != p.tx.tail
    ensures Stream(c, TxUdrEmptyIrq(c, p)) == Stream(c, p)
  {
    var n := TxSize(c);
    var r := TxUdrEmptyIrq(c, p);
    SendOldest(p.wire, p.tx, n);
    assert r.wire == p.wire + [DataByte(p.tx.buffer[p.tx.tail])] && r.tx == Pop(p.tx, n);
  }

  lemma SendOldest(w: seq<Wire>, tx: Ring, n: nat)
    requires ValidRing(tx, n) && tx.head != tx.tail
    ensures Sent(w + [DataByte(tx.buffer[tx.tail])]) + Contents(Pop(tx, n), n) == Sent(w) + Contents(tx, n)
  {
    var q := Contents(tx, n);
    PopContents(tx, n);
    assert q[0] == tx.buffer[tx.tail];
    SentAppend(w, DataByte(q[0]));
    assert q == [q[0]] + q[1..];
  }

  /** How many interrupts `write` may still have to wait for on a full
      ring: a pending XON, then the byte that makes room. */
  function RoomMeasure(c: Config, p: Port): nat
    requires ValidConfig(c) && ValidPort(c, p) && TxSize(c) > 0
  {
    if !Full(p.tx, TxSize(c)) then 0 else if c.xonoff && XonPending(p.flow) then 2 else 1
  }

  /** The wait loop of `write`: while the slot after the head is the tail,
      the transmit interrupt runs (polled when interrupts are off, by the
      hardware otherwise). */
  function MakeRoom(c: Config, p: Port): (r: Port)
    requires ValidConfig(c) && ValidPort(c, p) && TxSize(c) > 0
    ensures ValidPort(c, r) && !Full(r.tx, TxSize(c))
    ensures TxArmed(c, p) ==> Stream(c, r) == Stream(c, p) && TxArmed(c, r)
    ensures r.rx == p.rx && r.dropped == p.dropped && r.written == p.written
    decreases RoomMeasure(c, p)
  {
    var n := TxSize(c);
    if !Full(p.tx, n) then p
    else
      var q := TxUdrEmptyIrq(c, p);
      assert TxArmed(c, p) ==> Stream(c, q) == Stream(c, p) && TxArmed(c, q) by {
        if TxArmed(c, p) {
          TxIrqKeepsStream(c, p);
        }
      }
      assert RoomMeasure(c, q) < RoomMeasure(c, p) by {
        FullIffCapacity(p.tx, n);
        assert p.tx.head != p.tx.tail;
        if !(c.xonoff && XonPending(p.flow)) {
          PopContents(p.tx, n);
          FullIffCapacity(q.tx, n);
        }
      }
      MakeRoom(c, q)
  }

  /** `write(c)`: without a transmit buffer, or when the interrupt is off
      and the data register is empty (`udre`), the byte goes straight out;
      otherwise it is queued at the head, after waiting for room, and the
      interrupt is enabled. */
  function Write(c: Config, p: Port, b: u8, udre: bool): (r: Port)
    requires ValidConfig(c) && ValidPort(c, p)
    ensures ValidPort(c, r) && r.written
    ensures r.rx == p.rx && r.dropped == p.dropped
    ensures TxSize(c) == 0 ==> r.wire == p.wire + [DataByte(b)]
    ensures TxSize(c) > 0 && TxArmed(c, p) ==> Stream(c, r) == Stream(c, p) + [b] && TxArmed(c, r)
  {
    if TxSize(c) == 0 then p.(written := true, wire := p.wire + [DataByte(b)])
    else
      var n := TxSize(c);
      if !p.udrie && udre then
        SentAppend(p.wire, DataByte(b));
        p.(written := true, wire := p.wire + [DataByte(b)])
      else
        var q := MakeRoom(c, p.(written := true));
        assert Stream(c, p.(written := true)) == Stream(c, p);
        assert TxArmed(c, p) ==> TxArmed(c, p.(written := true));
        QueueByte(c, q, b);
        q.(tx := Push(q.tx, n, b), udrie := true)
  }

  /** Queueing a byte on a ring with room appends it to the stream and
      arms the interrupt. */
  lemma QueueByte(c: Config, q: Port, b: u8)
    requires ValidConfig(c) && ValidPort(c, q) && TxSize(c) > 0 && !Full(q.tx, TxSize(c))
    ensures ValidPort(c, q.(tx := Push(q.tx, TxSize(c), b), udrie := true))
    ensures Stream(c, q.(tx := Push(q.tx, TxSize(c), b), udrie := true)) == Stream(c, q) + [b]
    ensures TxArmed(c, q.(tx := Push(q.tx, TxSize(c), b), udrie := true)) <== (XonPending(q.flow) ==> c.xonoff)
  {
    PushContents(q.tx, TxSize(c), b);
  }

  /** The receive operations leave the transmit side armed. */
  lemma ReceiveKeepsTxArmed(c: Config, p: Port, b: u8, dor: bool, fe: bool, during: seq<u8>)
    requires ValidConfig(c) && ValidPort(c, p) && TxArmed(c, p)
    ensures TxArmed(c, StoreRxdChar(c, p, b, dor, fe, during))
    ensures TxArmed(c, Read(c, p).1)
    ensures TxArmed(c, Flush(c, p))
  {
  }

  // ----------------------------------------------------------- printing

  /** The digits of `n` in base `base`, most significant first; 0 has the
      single digit 0. */
  function Digits(n: nat, base: nat): (ds: seq<nat>)
    requires base >= 2
    ensures |ds| >= 1 && (|ds| > 1 ==> ds[0] != 0)
    ensures forall k :: 0 <= k < |ds| ==> ds[k] < base
  {
    if n < base then [n]
    else
      DivLess(n, base);
      Digits(n / base, base) + [n % base]
  }

  /** The number a digit string stands for. */
  function Value(ds: seq<nat>, base: nat): nat
  {
    if |ds| == 0 then 0 else Value(ds[..|ds| - 1], base) * base + ds[|ds| - 1]
  }

  /** The digits read back as the number. */
  lemma {:induction false} DigitsValue(n: nat, base: nat)
    requires base >= 2
    ensures Value(Digits(n, base), base) == n
    decreases n
  {
    if n >= base {
      DivLess(n, base);
      DigitsValue(n / base, base);
      DigitsValueStep(n, base);
    } else {
      assert [n][..0] == [];
    }
  }

  lemma DigitsValueStep(n: nat, base: nat)
    requires base >= 2 && n >= base
    requires Value(Digits(n / base, base), base) == n / base
    ensures Value(Digits(n, base), base) == n
  {
    var q, r := n / base, n % base;
    var dq := Digits(q, base);
    assert Digits(n, base) == dq + [r];
    ValueSnoc(dq, r, base);
    DivMod(n, base, q, r, Value(dq, base));
  }

  lemma DivLess(n: nat, base: nat)
    requires base >= 2 && n >= 1
    ensures 0 <= n / base < n && 0 <= n % base < base
  {
  }

  lemma DivMod(n: nat, base: nat, q: nat, r: nat, v: nat)
    requires base >= 2 && q == n / base && r == n % base && v == q
    ensures v * base + r == n
  {
  }

  lemma ValueSnoc(ds: seq<nat>, d: nat, base: nat)
    ensures Value(ds + [d], base) == Value(ds, base) * base + d
  {
    assert (ds + [d])[..|ds|] == ds;
  }

  /** The byte printed for one digit: `'0' + d` below ten, `'A' - 10 + d`
      from ten on, as a `char`. */
  function DigitChar(d: nat): u8
  {
    Wrap8(d + (if d < 10 then '0' as int else 'A' as int - 10))
  }

  /** `printNumber(n, base)`: the digits as characters, most significant
      first, `"0"` for zero. */
  function PrintNumber(n: u32, base: u8): (s: seq<u8>)
    requires base >= 2
    ensures |s| == |Digits(n, base)|
    ensures forall k :: 0 <= k < |s| ==> s[k] == DigitChar(Digits(n, base)[k])
  {
    seq(|Digits(n, base)|, k requires 0 <= k < |Digits(n, base)| => DigitChar(Digits(n, base)[k]))
  }

  /** The two loops of `printNumber`: digits into `buf` least significant
      first, then `buf` printed backwards. The 32 bytes of `buf` are
      always enough. */
  method PrintNumberLoops(n: u32, base: u8) returns (s: seq<u8>)
    requires base >= 2
    ensures s == PrintNumber(n, base)
    ensures |s| <= 32
  {
    if n == 0 {
      return [DigitChar(0)];
    }
    var buf: seq<nat> := [];
    var m: nat := n;
    while m > 0
      invariant DigitsLeft(n, base, m, buf)
      decreases m
    {
      ghost var q, r := DigitLoopStep(n, base, m, buf);
      buf := buf + [m % base];
      m := m / base;
    }
    s := [];
    var i := |buf|;
    while i > 0
      invariant 0 <= i <= |buf| && |s| == |buf| - i
      invariant forall k :: 0 <= k < |s| ==> s[k] == DigitChar(buf[|buf| - 1 - k])
      decreases i
    {
      i := i - 1;
      s := s + [DigitChar(buf[i])];
    }
    DigitsFit(n, base);
    assert |Reversed(buf)| == |buf|;
  }

  /** `buf` reversed. */
  function Reversed(s: seq<nat>): (r: seq<nat>)
    ensures |r| == |s|
    ensures forall k :: 0 <= k < |s| ==> r[k] == s[|s| - 1 - k]
  {
    if |s| == 0 then [] else [s[|s| - 1]] + Reversed(s[..|s| - 1])
  }

  /** The state of the digit loop: the digits of `n` are those of what is
      left, `m`, followed by `buf` reversed. */
  predicate DigitsLeft(n: nat, base: nat, m: nat, buf: seq<nat>)
    requires base >= 2
  {
    (m > 0 ==> Digits(n, base) == Digits(m, base) + Reversed(buf)) &&
    (m == 0 ==> Digits(n, base) == Reversed(buf))
  }

  /** One turn of the digit loop keeps its state and makes progress. */
  lemma DigitLoopStep(n: u32, base: nat, m: nat, buf: seq<nat>) returns (q: nat, r: nat)
    requires base >= 2 && m > 0 && DigitsLeft(n, base, m, buf)
    ensures q == m / base && r == m % base
    ensures q < m && DigitsLeft(n, base, q, buf + [r])
  {
    DivLess(m, base);
    q, r := m / base, m % base;
    DigitsStep(m, base, buf);
  }

  /** One digit more: the digits of `m` are those of `m / base` followed
      by `m % base`. */
  lemma DigitsStep(m: nat, base: nat, buf: seq<nat>)
    requires base >= 2 && m > 0
    ensures m / base > 0 ==> Digits(m, base) + Reversed(buf) == Digits(m / base, base) + Reversed(buf + [m % base])
    ensures m / base == 0 ==> Digits(m, base) + Reversed(buf) == Reversed(buf + [m % base])
  {
    assert Reversed(buf + [m % base]) == [m % base] + Reversed(buf) by {
      assert (buf + [m % base])[..|buf|] == buf;
    }
    if m < base {
      assert m / base == 0 && m % base == m;
    } else {
      assert m / base > 0;
    }
  }

  /** A number below `2^k` has at most `k` digits in any base. */
  lemma {:induction false} DigitsLength(n: nat, base: nat, k: nat)
    requires base >= 2 && k >= 1 && n < Pow2(k)
    ensures |Digits(n, base)| <= k
    decreases k
  {
    if n >= base {
      var q := n / base;
      assert 2 * q <= n by {
        DivMod(n, base, q, n % base, q);
        MulLeq(2, base, q);
      }
      DigitsLength(q, base, k - 1);
    }
  }

  lemma MulLeq(a: nat, b: nat, c: nat)
    requires a <= b
    ensures a * c <= b * c
  {
  }

  /** The 32 bytes of `buf` hold every `unsigned long`. */
  lemma DigitsFit(n: u32, base: nat)
    requires base >= 2
    ensures |Digits(n, base)| <= 32
  {
    Pow2Is32();
    DigitsLength(n, base, 32);
  }

  lemma Pow2Is32()
    ensures Pow2(32) == 0x1_0000_0000
  {
    assert Pow2(8) == 0x100;
    assert Pow2(16) == 0x1_0000;
    assert Pow2(24) == 0x100_0000;
  }

  /** The digit a printed character stands for (inverse of `DigitChar`
      on alphanumeric digits). */
  function CharDigit(ch: u8): int
  {
    if ch < 'A' as int then ch - '0' as int else ch - ('A' as int - 10)
  }

  /** Reading the digits back from the printed characters. */
  function ParseNumber(s: seq<u8>, base: nat): int
  {
    if |s| == 0 then 0 else ParseNumber(s[..|s| - 1], base) * base + CharDigit(s[|s| - 1])
  }

  /** With a base of at most 36 the output is made of `0`–`9` and `A`–`Z`
      and reads back as the number printed. */
  lemma PrintNumberRoundTrip(n: u32, base: u8)
    requires 2 <= base <= 36
    ensures ParseNumber(PrintNumber(n, base), base) == n
  {
    var ds := Digits(n, base);
    DigitsValue(n, base);
    ParseDigits(ds, PrintNumber(n, base), base);
  }

  lemma {:induction false} ParseDigits(ds: seq<nat>, s: seq<u8>, base: nat)
    requires |s| == |ds| && forall k :: 0 <= k < |ds| ==> ds[k] < 36 && s[k] == DigitChar(ds[k])
    ensures ParseNumber(s, base) == Value(ds, base)
    decreases |s|
  {
    if |s| > 0 {
      var i := |s| - 1;
      ParseDigits(ds[..i], s[..i], base);
      CharDigitInverse(ds[i]);
      SameStep(ParseNumber(s[..i], base), Value(ds[..i], base), base, CharDigit(s[i]), ds[i]);
    }
  }

  /** `CharDigit` undoes `DigitChar` on the 36 alphanumeric digits. */
  lemma CharDigitInverse(d: nat)
    requires d < 36
    ensures CharDigit(DigitChar(d)) == d
  {
    var off := if d < 10 then '0' as int else 'A' as int - 10;
    DivUnique(d + off, 0x100, 0, d + off);
  }

  lemma SameStep(a: int, b: int, base: int, x: int, y: int)
    requires a == b && x == y
    ensures a * base + x == b * base + y
  {
  }

  /** `print(long n, base)`: base 0 writes the low byte; base 10 prints a
      `-` and the magnitude for a negative `n`; other bases print the
      two's-complement `unsigned long` in a base truncated to `uint8_t`. */
  function PrintLong(n: i32, base: int): (s: seq<u8>)
    requires base == 0 || base == 10 || Wrap8(base) >= 2
    ensures base == 0 ==> s == [Wrap8(n)]
    ensures base == 10 && n < 0 ==> s == ['-' as int] + PrintNumber(-(n as int), 10)
    ensures base == 10 && n >= 0 ==> s == PrintNumber(n, 10)
    ensures base != 0 && base != 10 ==> s == PrintNumber(Wrap32(n), Wrap8(base))
  {
    if base == 0 then [Wrap8(n)]
    else if base == 10 then
      if n < 0 then ['-' as int] + PrintNumber(-(n as int), 10) else PrintNumber(n, 10)
    else PrintNumber(Wrap32(n), Wrap8(base))
  }

  /** Reading back a signed decimal. */
  function ParseSigned(s: seq<u8>): int
  {
    if |s| > 0 && s[0] == '-' as int then -ParseNumber(s[1..], 10) else ParseNumber(s, 10)
  }

  /** Decimal output of every `long`, `LONG_MIN` included, reads back as
      the number. */
  lemma PrintLongRoundTrip(n: i32)
    ensures ParseSigned(PrintLong(n, 10)) == n
  {
    if n < 0 {
      PrintNumberRoundTrip(-(n as int), 10);
      assert (['-' as int] + PrintNumber(-(n as int), 10))[1..] == PrintNumber(-(n as int), 10);
    } else {
      PrintNumberRoundTrip(n, 10);
      var s := PrintNumber(n, 10);
      assert s[0] != '-' as int;
    }
  }

  /** `print(unsigned long n, base)`: base 0 writes the low byte, any other
      base prints the digits. */
  function PrintULong(n: u32, base: int): (s: seq<u8>)
    requires base == 0 || Wrap8(base) >= 2
    ensures base == 0 ==> s == [Wrap8(n)]
    ensures base != 0 ==> s == PrintNumber(n, Wrap8(base))
  {
    if base == 0 then [Wrap8(n)] else PrintNumber(n, Wrap8(base))
  }
}
