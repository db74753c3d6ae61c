/** The MFRC522 spool reader of feature/mfrc522, driven over a UART: the
    request frame, the reply it answers with, the exchange that compares
    the echoed command, the ID and block transfers that move a spool's
    data record sector by sector, the per-extruder `spin` that decides
    when a spool is read or written, and the length printout.

    The reader's answers are given as the sequence of replies it sends;
    when the firmware would wait for a reply that never comes (its
    `while (!available())` loops), the model returns `None`. The header
    that defines the command codes, the header byte, the key type and the
    sector range (mfrc522.h) is not part of this model: those values are
    the fields of `Consts`. */
module Rfid {
  import opened Base

  // --------------------------------------------------------- constants

  /** `MFRC522_HEADER`, `COMMAND_READ_ID`, `COMMAND_READ_BLOCK`,
      `COMMAND_WRITE_BLOCK`, `MIFARE_KEYA`, `BLOCK_START` and
      `BLOCK_TOTAL`. */
  datatype Consts = Consts(header: u8, readId: u8, readBlock: u8, writeBlock: u8, keyA: u8,
                           blockStart: u8, blockTotal: u8)

  /** The transfers visit the sectors `blockStart, blockStart + 4, ...`
      below `blockTotal`; the `uint8_t` sector counter does not wrap and
      the `int8_t` packet offset `16 k` stays positive. */
  predicate ValidLayout(c: Consts)
  {
    c.blockStart < c.blockTotal <= 252 && SectorCount(c) <= 8
  }

  /** The number of sectors a transfer visits. */
  function SectorCount(c: Consts): (n: nat)
    ensures c.blockStart < c.blockTotal ==> n >= 1
    ensures forall k :: 0 <= k < n ==> c.blockStart + 4 * k < c.blockTotal
    ensures c.blockStart + 4 * n >= c.blockTotal
  {
    if c.blockStart >= c.blockTotal then 0
    else (c.blockTotal - c.blockStart + 3) / 4
  }

  /** The sectors a transfer visits, in order. */
  function Sectors(c: Consts): (ss: seq<u8>)
    requires ValidLayout(c)
    ensures |ss| == SectorCount(c)
    ensures forall k :: 0 <= k < |ss| ==> ss[k] == c.blockStart + 4 * k
  {
    seq(SectorCount(c), k requires 0 <= k < SectorCount(c) => (c.blockStart + 4 * k) as u8)
  }

  /** `MFRC522Data`, the receive buffer every exchange fills. */
  const DataSize: nat := 20

  // ------------------------------------------------------------- frames

  /** The request `communicate(len, command, sendData)` writes: header,
      length, command, then the first `len - 2` bytes of the data when
      there are data. */
  function Frame(c: Consts, len: u8, command: u8, data: Option<seq<u8>>): (f: seq<u8>)
    requires data.Some? ==> |data.value| >= len - 2
    ensures |f| >= 3 && f[..3] == [c.header, len, command]
    ensures data.None? ==> |f| == 3
    ensures data.Some? ==> |f| == 3 + Max(len - 2, 0) && f[3..] == data.value[..Max(len - 2, 0)]
  {
    var body := if data.Some? then data.value[..Max(len - 2, 0)] else [];
    [c.header, len, command] + body
  }

  /** What the reader answers: header, length, command result and the
      `len - 2` data bytes that follow. */
  datatype Reply = Reply(header: u8, len: u8, result: u8, payload: seq<u8>)

  predicate WellFormed(r: Reply)
  {
    |r.payload| == Max(r.len - 2, 0)
  }

  function Encode(r: Reply): (b: seq<u8>)
    ensures |b| == 3 + |r.payload|
  {
    [r.header, r.len, r.result] + r.payload
  }

  /** The receive half of `communicate`: three bytes, then as many data
      bytes as the length byte announces; `None` when the stream ends first
      (the firmware waits for ever). */
  function Receive(bytes: seq<u8>): (r: Option<(Reply, seq<u8>)>)
    ensures r.Some? ==> WellFormed(r.value.0) && bytes == Encode(r.value.0) + r.value.1
  {
    if |bytes| < 3 then None
    else
      var n := Max(bytes[1] as int - 2, 0);
      if |bytes| < 3 + n then None
      else
        assert bytes == bytes[..3 + n] + bytes[3 + n..];
        Some((Reply(bytes[0], bytes[1], bytes[2], bytes[3..3 + n]), bytes[3 + n..]))
  }

  /** Receiving an encoded reply gives it back, with the rest of the stream
      untouched. */
  lemma ReceiveEncode(r: Reply, rest: seq<u8>)
    requires WellFormed(r)
    ensures Receive(Encode(r) + rest) == Some((r, rest))
  {
    var b := Encode(r) + rest;
    assert b[..3] == [r.header, r.len, r.result];
    assert b[3..3 + |r.payload|] == r.payload;
    assert b[3 + |r.payload|..] == rest;
  }

  /** The data bytes of a reply land at the front of `MFRC522Data`; the
      bytes it does not reach keep their old values. */
  function Store(buf: seq<u8>, payload: seq<u8>): (b: seq<u8>)
    requires |buf| == DataSize
    ensures |b| == DataSize
  {
    seq(DataSize, i requires 0 <= i < DataSize => if i < |payload| then payload[i] else buf[i])
  }

  lemma StoreContents(buf: seq<u8>, payload: seq<u8>)
    requires |buf| == DataSize
    ensures forall i :: 0 <= i < DataSize ==>
              Store(buf, payload)[i] == if i < |payload| then payload[i] else buf[i]
  {
  }

  /** How many bytes `communicate` writes into `MFRC522Data` as written:
      one per data byte the length byte announces, at indices `0 ..
      count - 1`, with no bound by the buffer's size. */
  function StoredCountAsWritten(len: u8): (n: nat)
    ensures n == Max(len - 2, 0)
  {
    if len >= 2 then len - 2 else 0
  }

  /** A reply whose length byte exceeds 22 makes the loop write past the
      20-byte buffer; `Store` writes at most `DataSize` bytes whatever the
      length. */
  lemma LongReplyOverrunsBuffer(buf: seq<u8>, payload: seq<u8>)
    requires |buf| == DataSize
    ensures StoredCountAsWritten(23) - 1 >= DataSize
    ensures forall len: u8 :: StoredCountAsWritten(len) - 1 >= DataSize <==> len > DataSize + 2
    ensures |Store(buf, payload)| == DataSize
  {
  }

  // ---------------------------------------------------------- exchange

  /** One exchange: the frame sent, whether the reader echoed the command,
      and the receive buffer afterwards. */
  datatype Exchange = Exchange(sent: seq<u8>, ok: bool, buf: seq<u8>)

  /** `communicate(len, command, sendData)` answered by `reply`. */
  function Communicate(c: Consts, len: u8, command: u8, data: Option<seq<u8>>, reply: Reply, buf: seq<u8>)
    : (x: Exchange)
    requires data.Some? ==> |data.value| >= len - 2
    requires |buf| == DataSize
    ensures x.ok <==> reply.result == command
    ensures x.sent == Frame(c, len, command, data)
    ensures |x.buf| == DataSize
  {
    Exchange(Frame(c, len, command, data), command == reply.result, Store(buf, reply.payload))
  }

  /** `init()`: the ID request is sent, and the reader counts as present
      when anything came back. */
  function Init(c: Consts, available: bool): (r: (seq<u8>, bool))
    ensures r.0 == Frame(c, 0x02, c.readId, None) && r.1 == available
  {
    ([c.header, 0x02, c.readId], available)
  }

  /** `init` probes the reader with the very request `getID` sends. */
  lemma InitSendsIdRequest(c: Consts, available: bool, reply: Reply, buf: seq<u8>)
    requires |buf| == DataSize
    ensures Init(c, available).0 == GetId(c, reply, buf).0.sent
  {
  }

  /** `getID(e)`: an ID request; on success the first four buffer bytes are
      the tag's ID. */
  function GetId(c: Consts, reply: Reply, buf: seq<u8>): (r: (Exchange, Option<seq<u8>>))
    requires |buf| == DataSize
    ensures r.0.sent == [c.header, 0x02, c.readId]
    ensures r.1.Some? <==> reply.result == c.readId
    ensures r.1.Some? ==> |r.1.value| == 4 &&
                          forall i :: 0 <= i < 4 ==> r.1.value[i] == if i < |reply.payload| then reply.payload[i] else buf[i]
  {
    var x := Communicate(c, 0x02, c.readId, None, reply, buf);
    StoreContents(buf, reply.payload);
    (x, if x.ok then Some(x.buf[..4]) else None)
  }

  // ---------------------------------------------------- block transfers

  /** The eight header bytes of a block request: sector, key type and the
      default key `FF FF FF FF FF FF`. */
  function BlockHeader(c: Consts, sector: u8): (h: seq<u8>)
    ensures |h| == 8 && h[0] == sector && h[1] == c.keyA
    ensures forall i :: 2 <= i < 8 ==> h[i] == 0xFF
  {
    [sector, c.keyA, 0xFF, 0xFF, 0xFF, 0xFF, 0xFF, 0xFF]
  }

  /** The request `readBlock` sends for one sector: length `0x0A`, the read
      command, and all eight header bytes. */
  function ReadRequest(c: Consts, sector: u8): (f: seq<u8>)
    ensures |f| == 11 && f == [c.header, 0x0A, c.readBlock] + BlockHeader(c, sector)
  {
    Frame(c, 0x0A, c.readBlock, Some(BlockHeader(c, sector)))
  }

  /** The request `writeBlock` sends for one sector: length `0x1A`, the
      write command, the header bytes and the sixteen data bytes. */
  function WriteRequest(c: Consts, sector: u8, data: seq<u8>): (f: seq<u8>)
    requires |data| == 16
    ensures |f| == 27 && f == [c.header, 0x1A, c.writeBlock] + BlockHeader(c, sector) + data
  {
    var payload := BlockHeader(c, sector) + data;
    assert payload[..Max(0x1A - 2, 0)] == payload;
    Frame(c, 0x1A, c.writeBlock, Some(payload))
  }

  /** The outcome of a block transfer: success, the spool record, the
      receive buffer, the bytes sent and the replies left over. */
  datatype Transfer = Transfer(ok: bool, packet: seq<u8>, buf: seq<u8>, sent: seq<u8>, rest: seq<Reply>)

  /** The sixteen bytes of sector `k` in the spool record. */
  function Chunk(packet: seq<u8>, k: nat): seq<u8>
    requires 16 * k + 16 <= |packet|
  {
    packet[16 * k..16 * k + 16]
  }

  /** `packet` with sector `k`'s sixteen bytes replaced. */
  function PutChunk(packet: seq<u8>, k: nat, data: seq<u8>): (p: seq<u8>)
    requires 16 * k + 16 <= |packet| && |data| == 16
    ensures |p| == |packet|
  {
    seq(|packet|, j requires 0 <= j < |packet| =>
      if 16 * k <= j < 16 * k + 16 then data[j - 16 * k] else packet[j])
  }

  /** `PutChunk` replaces exactly sector `k`'s bytes. */
  lemma PutChunkContents(packet: seq<u8>, k: nat, data: seq<u8>)
    requires 16 * k + 16 <= |packet| && |data| == 16
    ensures Chunk(PutChunk(packet, k, data), k) == data
    ensures forall j :: 0 <= j < |packet| && !(16 * k <= j < 16 * k + 16) ==> PutChunk(packet, k, data)[j] == packet[j]
  {
    var p := PutChunk(packet, k, data);
    assert Chunk(p, k) == data by {
      forall i | 0 <= i < 16
        ensures Chunk(p, k)[i] == data[i]
      {
        assert Chunk(p, k)[i] == p[16 * k + i];
      }
    }
  }

  /** `readBlock(e)` from sector index `k` on: each sector is requested,
      and on an echoed command the first sixteen buffer bytes are copied to
      offset `16 k` of the record; the first failed exchange ends the
      transfer with `false`. */
  function ReadFrom(c: Consts, ss: seq<u8>, k: nat, packet: seq<u8>, replies: seq<Reply>, buf: seq<u8>): (r: Option<Transfer>)
    requires k <= |ss|
    requires |packet| >= 16 * |ss| && |buf| == DataSize
    decreases |ss| - k
    ensures r.Some? ==> |r.value.packet| == |packet| && |r.value.buf| == DataSize
  {
    if k == |ss| then Some(Transfer(true, packet, buf, [], replies))
    else if |replies| == 0 then None
    else
      var x := Communicate(c, 0x0A, c.readBlock, Some(BlockHeader(c, ss[k])), replies[0], buf);
      if !x.ok then Some(Transfer(false, packet, x.buf, x.sent, replies[1..]))
      else
        var p := PutChunk(packet, k, x.buf[..16]);
        var rest := ReadFrom(c, ss, k + 1, p, replies[1..], x.buf);
        if rest.None? then None
        else Some(rest.value.(sent := x.sent + rest.value.sent))
  }

  function ReadBlock(c: Consts, packet: seq<u8>, replies: seq<Reply>, buf: seq<u8>): (r: Option<Transfer>)
    requires ValidLayout(c) && |packet| >= 16 * SectorCount(c) && |buf| == DataSize
    ensures r.Some? ==> |r.value.packet| == |packet| && |r.value.buf| == DataSize
    // the record past the last sector is never touched
    ensures r.Some? ==> forall j :: 16 * SectorCount(c) <= j < |packet| ==> r.value.packet[j] == packet[j]
  {
    ReadFromKeepsSuffix(c, Sectors(c), 0, packet, replies, buf);
    ReadFrom(c, Sectors(c), 0, packet, replies, buf)
  }

  /** `writeBlock(e)` from sector index `k` on: each sector is sent with
      its sixteen record bytes; the first failed exchange ends the transfer
      with `false`. */
  function WriteFrom(c: Consts, ss: seq<u8>, k: nat, packet: seq<u8>, replies: seq<Reply>, buf: seq<u8>): (r: Option<Transfer>)
    requires k <= |ss|
    requires |packet| >= 16 * |ss| && |buf| == DataSize
    decreases |ss| - k
    ensures r.Some? ==> r.value.packet == packet && |r.value.buf| == DataSize
  {
    if k == |ss| then Some(Transfer(true, packet, buf, [], replies))
    else if |replies| == 0 then None
    else
      var x := Communicate(c, 0x1A, c.writeBlock, Some(BlockHeader(c, ss[k]) + Chunk(packet, k)), replies[0], buf);
      if !x.ok then Some(Transfer(false, packet, x.buf, x.sent, replies[1..]))
      else
        var rest := WriteFrom(c, ss, k + 1, packet, replies[1..], x.buf);
        if rest.None? then None
        else Some(rest.value.(sent := x.sent + rest.value.sent))
  }

  function WriteBlock(c: Consts, packet: seq<u8>, replies: seq<Reply>, buf: seq<u8>): (r: Option<Transfer>)
    requires ValidLayout(c) && |packet| >= 16 * SectorCount(c) && |buf| == DataSize
    ensures r.Some? ==> r.value.packet == packet && |r.value.buf| == DataSize
  {
    WriteFrom(c, Sectors(c), 0, packet, replies, buf)
  }

  /** The requests a read transfer sends for sectors `k .. m - 1`. */
  function ReadRequests(c: Consts, ss: seq<u8>, k: nat, m: nat): seq<u8>
    requires k <= m <= |ss|
    decreases m - k
  {
    if k == m then [] else ReadRequest(c, ss[k]) + ReadRequests(c, ss, k + 1, m)
  }

  /** The requests a write transfer sends for sectors `k .. m - 1`. */
  function WriteRequests(c: Consts, ss: seq<u8>, k: nat, m: nat, packet: seq<u8>): seq<u8>
    requires k <= m <= |ss| && |packet| >= 16 * |ss|
    decreases m - k
  {
    if k == m then [] else WriteRequest(c, ss[k], Chunk(packet, k)) + WriteRequests(c, ss, k + 1, m, packet)
  }

  /** Every reply in `replies[lo..hi]` echoes `command`. */
  predicate AllEcho(replies: seq<Reply>, command: u8, lo: nat, hi: nat)
    requires lo <= hi <= |replies|
  {
    forall j :: lo <= j < hi ==> replies[j].result == command
  }

  /** A reply that carries a full sector leaves it at the front of the
      buffer. */
  lemma StoreFullSector(buf: seq<u8>, payload: seq<u8>)
    requires |buf| == DataSize && |payload| >= 16
    ensures Store(buf, payload)[..16] == payload[..16]
  {
    var b := Store(buf, payload);
    StoreContents(buf, payload);
    forall i | 0 <= i < 16
      ensures b[..16][i] == payload[..16][i]
    {
    }
  }

  /** A read transfer from sector index `k` on never touches the record
      below offset `16 k`. */
  lemma {:induction false} ReadFromKeepsPrefix(c: Consts, ss: seq<u8>, k: nat, packet: seq<u8>, replies: seq<Reply>, buf: seq<u8>)
    requires k <= |ss|
    requires |packet| >= 16 * |ss| && |buf| == DataSize
    decreases |ss| - k
    ensures var r := ReadFrom(c, ss, k, packet, replies, buf);
            r.Some? ==> forall j :: 0 <= j < 16 * k ==> r.value.packet[j] == packet[j]
  {
    if k < |ss| && |replies| > 0 {
      var x := Communicate(c, 0x0A, c.readBlock, Some(BlockHeader(c, ss[k])), replies[0], buf);
      if x.ok {
        var p := PutChunk(packet, k, x.buf[..16]);
        PutChunkContents(packet, k, x.buf[..16]);
        ReadFromKeepsPrefix(c, ss, k + 1, p, replies[1..], x.buf);
      }
    }
  }

  /** When every sector's exchange is echoed, the read transfer succeeds,
      sends one read request per sector and uses one reply per sector. */
  lemma {:induction false} ReadFromSucceeds(c: Consts, ss: seq<u8>, k: nat, packet: seq<u8>, replies: seq<Reply>, buf: seq<u8>)
    requires k <= |ss|
    requires |packet| >= 16 * |ss| && |buf| == DataSize
    requires |replies| >= |ss| - k && AllEcho(replies, c.readBlock, 0, |ss| - k)
    decreases |ss| - k
    ensures var r := ReadFrom(c, ss, k, packet, replies, buf);
            r.Some? && r.value.ok && r.value.rest == replies[|ss| - k..] &&
            r.value.sent == ReadRequests(c, ss, k, |ss|)
  {
    var n := |ss|;
    if k < n {
      var x := Communicate(c, 0x0A, c.readBlock, Some(BlockHeader(c, ss[k])), replies[0], buf);
      var p := PutChunk(packet, k, x.buf[..16]);
      assert AllEcho(replies[1..], c.readBlock, 0, n - (k + 1)) by {
        forall j | 0 <= j < n - (k + 1)
          ensures replies[1..][j].result == c.readBlock
        {
          assert replies[1..][j] == replies[j + 1];
        }
      }
      ReadFromSucceeds(c, ss, k + 1, p, replies[1..], x.buf);
      assert replies[1..][n - (k + 1)..] == replies[n - k..];
      assert x.sent == ReadRequest(c, ss[k]);
      assert ReadRequests(c, ss, k, n) == x.sent + ReadRequests(c, ss, k + 1, n);
    }
  }

  /** A read transfer never touches the record past its last sector. */
  lemma {:induction false} ReadFromKeepsSuffix(c: Consts, ss: seq<u8>, k: nat, packet: seq<u8>, replies: seq<Reply>, buf: seq<u8>)
    requires k <= |ss|
    requires |packet| >= 16 * |ss| && |buf| == DataSize
    decreases |ss| - k
    ensures var r := ReadFrom(c, ss, k, packet, replies, buf);
            r.Some? ==> forall j :: 16 * |ss| <= j < |packet| ==> r.value.packet[j] == packet[j]
  {
    if k < |ss| && |replies| > 0 {
      var x := Communicate(c, 0x0A, c.readBlock, Some(BlockHeader(c, ss[k])), replies[0], buf);
      if x.ok {
        var p := PutChunk(packet, k, x.buf[..16]);
        PutChunkContents(packet, k, x.buf[..16]);
        ReadFromKeepsSuffix(c, ss, k + 1, p, replies[1..], x.buf);
      }
    }
  }

  /** An echoed exchange with a full sector of data leaves that data as
      sector `k` of the record, whatever the rest of the transfer does. */
  lemma ReadFromStoresFirst(c: Consts, ss: seq<u8>, k: nat, packet: seq<u8>, replies: seq<Reply>, buf: seq<u8>)
    requires k < |ss|
    requires |packet| >= 16 * |ss| && |buf| == DataSize
    requires |replies| > 0 && replies[0].result == c.readBlock && |replies[0].payload| >= 16
    ensures var r := ReadFrom(c, ss, k, packet, replies, buf);
            r.Some? ==> Chunk(r.value.packet, k) == replies[0].payload[..16]
  {
    var x := Communicate(c, 0x0A, c.readBlock, Some(BlockHeader(c, ss[k])), replies[0], buf);
    StoreFullSector(buf, replies[0].payload);
    var p := PutChunk(packet, k, x.buf[..16]);
    PutChunkContents(packet, k, x.buf[..16]);
    ReadFromKeepsPrefix(c, ss, k + 1, p, replies[1..], x.buf);
    var r := ReadFrom(c, ss, k + 1, p, replies[1..], x.buf);
    if r.Some? {
      assert Chunk(r.value.packet, k) == Chunk(p, k) by {
        assert forall i :: 16 * k <= i < 16 * k + 16 ==> r.value.packet[i] == p[i];
      }
    }
  }

  /** When every sector's exchange is echoed with a full sector of data,
      the read transfer leaves sector `j`'s reply data at offset `16 j` of
      the record. */
  lemma {:induction false} ReadFromStores(c: Consts, ss: seq<u8>, k: nat, packet: seq<u8>, replies: seq<Reply>, buf: seq<u8>)
    requires k <= |ss|
    requires |packet| >= 16 * |ss| && |buf| == DataSize
    requires |replies| >= |ss| - k && AllEcho(replies, c.readBlock, 0, |ss| - k)
    requires forall j :: 0 <= j < |ss| - k ==> |replies[j].payload| >= 16
    decreases |ss| - k
    ensures var r := ReadFrom(c, ss, k, packet, replies, buf);
            r.Some? && forall j :: k <= j < |ss| ==> Chunk(r.value.packet, j) == replies[j - k].payload[..16]
  {
    var n := |ss|;
    if k < n {
      var x := Communicate(c, 0x0A, c.readBlock, Some(BlockHeader(c, ss[k])), replies[0], buf);
      var p := PutChunk(packet, k, x.buf[..16]);
      assert AllEcho(replies[1..], c.readBlock, 0, n - (k + 1)) by {
        forall j | 0 <= j < n - (k + 1)
          ensures replies[1..][j].result == c.readBlock
        {
          assert replies[1..][j] == replies[j + 1];
        }
      }
      assert forall j :: 0 <= j < n - (k + 1) ==> replies[1..][j] == replies[j + 1];
      ReadFromStores(c, ss, k + 1, p, replies[1..], x.buf);
      ReadFromStoresFirst(c, ss, k, packet, replies, buf);
      var r := ReadFrom(c, ss, k, packet, replies, buf).value;
      var rest := ReadFrom(c, ss, k + 1, p, replies[1..], x.buf).value;
      assert r.packet == rest.packet;
      forall j | k + 1 <= j < n
        ensures Chunk(r.packet, j) == replies[j - k].payload[..16]
      {
        assert replies[1..][j - (k + 1)] == replies[j - k];
        assert Chunk(rest.packet, j) == replies[1..][j - (k + 1)].payload[..16];
      }
    }
  }

  /** When the exchange for sector `f` is the first not echoed, the read
      transfer fails after sending the requests for sectors up to `f`,
      using one reply each, and the record from offset `16 f` on is
      untouched. */
  lemma {:induction false} ReadFromStops(c: Consts, ss: seq<u8>, k: nat, f: nat, packet: seq<u8>, replies: seq<Reply>, buf: seq<u8>)
    requires k <= f < |ss|
    requires |packet| >= 16 * |ss| && |buf| == DataSize
    requires |replies| > f - k && AllEcho(replies, c.readBlock, 0, f - k) && replies[f - k].result != c.readBlock
    decreases f - k
    ensures var r := ReadFrom(c, ss, k, packet, replies, buf);
            r.Some? && !r.value.ok && r.value.rest == replies[f - k + 1..] &&
            r.value.sent == ReadRequests(c, ss, k, f + 1) &&
            (forall j :: 16 * f <= j < |packet| ==> r.value.packet[j] == packet[j])
  {
    if k < f {
      var x := Communicate(c, 0x0A, c.readBlock, Some(BlockHeader(c, ss[k])), replies[0], buf);
      var p := PutChunk(packet, k, x.buf[..16]);
      PutChunkContents(packet, k, x.buf[..16]);
      assert AllEcho(replies[1..], c.readBlock, 0, f - (k + 1)) by {
        forall j | 0 <= j < f - (k + 1)
          ensures replies[1..][j].result == c.readBlock
        {
          assert replies[1..][j] == replies[j + 1];
        }
      }
      ReadFromStops(c, ss, k + 1, f, p, replies[1..], x.buf);
      assert replies[1..][f - (k + 1) + 1..] == replies[f - k + 1..];
      assert x.sent == ReadRequest(c, ss[k]);
      assert ReadRequests(c, ss, k, f + 1) == x.sent + ReadRequests(c, ss, k + 1, f + 1);
      var rest := ReadFrom(c, ss, k + 1, p, replies[1..], x.buf).value;
      assert 16 * k + 16 <= 16 * f;
      forall j | 16 * f <= j < |packet|
        ensures rest.packet[j] == packet[j]
      {
        assert p[j] == packet[j];
      }
    } else {
      var x := Communicate(c, 0x0A, c.readBlock, Some(BlockHeader(c, ss[k])), replies[0], buf);
      assert x.sent == ReadRequest(c, ss[k]);
      assert ReadRequests(c, ss, k, f + 1) == x.sent + [];
    }
  }

  /** When every sector's exchange is echoed, the write transfer succeeds,
      sends one write request per sector carrying that sector's sixteen
      record bytes, and uses one reply per sector. */
  lemma {:induction false} WriteFromSucceeds(c: Consts, ss: seq<u8>, k: nat, packet: seq<u8>, replies: seq<Reply>, buf: seq<u8>)
    requires k <= |ss|
    requires |packet| >= 16 * |ss| && |buf| == DataSize
    requires |replies| >= |ss| - k && AllEcho(replies, c.writeBlock, 0, |ss| - k)
    decreases |ss| - k
    ensures var r := WriteFrom(c, ss, k, packet, replies, buf);
            r.Some? && r.value.ok && r.value.rest == replies[|ss| - k..] &&
            r.value.sent == WriteRequests(c, ss, k, |ss|, packet)
  {
    var n := |ss|;
    if k < n {
      var x := Communicate(c, 0x1A, c.writeBlock, Some(BlockHeader(c, ss[k]) + Chunk(packet, k)), replies[0], buf);
      assert AllEcho(replies[1..], c.writeBlock, 0, n - (k + 1)) by {
        forall j | 0 <= j < n - (k + 1)
          ensures replies[1..][j].result == c.writeBlock
        {
          assert replies[1..][j] == replies[j + 1];
        }
      }
      WriteFromSucceeds(c, ss, k + 1, packet, replies[1..], x.buf);
      assert replies[1..][n - (k + 1)..] == replies[n - k..];
      assert x.sent == WriteRequest(c, ss[k], Chunk(packet, k));
      assert WriteRequests(c, ss, k, n, packet) == x.sent + WriteRequests(c, ss, k + 1, n, packet);
    }
  }

  /** When the exchange for sector `f` is the first not echoed, the write
      transfer fails after sending the requests for sectors up to `f`. */
  lemma {:induction false} WriteFromStops(c: Consts, ss: seq<u8>, k: nat, f: nat, packet: seq<u8>, replies: seq<Reply>, buf: seq<u8>)
    requires k <= f < |ss|
    requires |packet| >= 16 * |ss| && |buf| == DataSize
    requires |replies| > f - k && AllEcho(replies, c.writeBlock, 0, f - k) && replies[f - k].result != c.writeBlock
    decreases f - k
    ensures var r := WriteFrom(c, ss, k, packet, replies, buf);
            r.Some? && !r.value.ok && r.value.rest == replies[f - k + 1..] &&
            r.value.sent == WriteRequests(c, ss, k, f + 1, packet)
  {
    if k < f {
      var x := Communicate(c, 0x1A, c.writeBlock, Some(BlockHeader(c, ss[k]) + Chunk(packet, k)), replies[0], buf);
      assert AllEcho(replies[1..], c.writeBlock, 0, f - (k + 1)) by {
        forall j | 0 <= j < f - (k + 1)
          ensures replies[1..][j].result == c.writeBlock
        {
          assert replies[1..][j] == replies[j + 1];
        }
      }
      WriteFromStops(c, ss, k + 1, f, packet, replies[1..], x.buf);
      assert replies[1..][f - (k + 1) + 1..] == replies[f - k + 1..];
      assert x.sent == WriteRequest(c, ss[k], Chunk(packet, k));
      assert WriteRequests(c, ss, k, f + 1, packet) == x.sent + WriteRequests(c, ss, k + 1, f + 1, packet);
    } else {
      var x := Communicate(c, 0x1A, c.writeBlock, Some(BlockHeader(c, ss[k]) + Chunk(packet, k)), replies[0], buf);
      assert x.sent == WriteRequest(c, ss[k], Chunk(packet, k));
      assert WriteRequests(c, ss, k, f + 1, packet) == x.sent + [];
    }
  }
}
