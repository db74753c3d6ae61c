/** The per-extruder side of the MFRC522 reader (feature/mfrc522): the
    `spin` pass that reads a freshly loaded spool's record, writes a
    changed one back when the same tag is still in place, and the length
    the spool information printout shows. */
module Spool {
  import opened Base
  import opened Rfid

  // -------------------------------------------------------------- slots

  /** One extruder's reader state: `Spool_must_read[e]`,
      `Spool_must_write[e]`, `Spool_ID[e]`, the last ID read from the tag
      (`RfidDataID[e]`) and the spool record (`RfidData[e].RfidPacket`). */
  datatype Slot = Slot(mustRead: bool, mustWrite: bool, spoolId: seq<u8>, tagId: seq<u8>, packet: seq<u8>)

  /** The record holds every sector a transfer visits. */
  predicate Fits(c: Consts, s: Slot)
  {
    |s.packet| >= 16 * SectorCount(c)
  }

  /** A slot after a pass, with the receive buffer, the bytes sent and the
      replies left over. */
  datatype Spun = Spun(slot: Slot, buf: seq<u8>, sent: seq<u8>, rest: seq<Reply>)

  /** The ID the tag answers with, if the ID exchange is echoed. */
  function TagId(c: Consts, replies: seq<Reply>, buf: seq<u8>): (id: Option<seq<u8>>)
    requires |buf| == DataSize
    ensures id.Some? <==> |replies| > 0 && replies[0].result == c.readId
    ensures id.Some? ==> |id.value| == 4
  {
    if |replies| == 0 then None else GetId(c, replies[0], buf).1
  }

  /** The buffer after the ID exchange. */
  function AfterId(c: Consts, replies: seq<Reply>, buf: seq<u8>): (b: seq<u8>)
    requires |replies| > 0 && |buf| == DataSize
    ensures |b| == DataSize
  {
    GetId(c, replies[0], buf).0.buf
  }

  /** The read half of `spin` for one extruder: when the spool must be
      read, the ID is requested; once it is echoed the ID is recorded as
      the spool's and the record is read, and only a read that completes
      clears the flag. A read cut short still leaves the sectors it did
      read in the record. */
  function SpinRead(c: Consts, s: Slot, replies: seq<Reply>, buf: seq<u8>): (r: Option<Spun>)
    requires ValidLayout(c) && Fits(c, s) && |buf| == DataSize
    ensures !s.mustRead ==> r == Some(Spun(s, buf, [], replies))
    ensures r.Some? ==> |r.value.buf| == DataSize && |r.value.slot.packet| == |s.packet|
    ensures r.Some? ==> r.value.slot.mustWrite == s.mustWrite
    ensures r.Some? && r.value.slot.mustRead ==> s.mustRead
    ensures s.mustRead && TagId(c, replies, buf).None? && |replies| > 0 ==> r == Some(Spun(s, AfterId(c, replies, buf), [c.header, 0x02, c.readId], replies[1..]))
    ensures r.Some? && s.mustRead && TagId(c, replies, buf).Some? ==>
              r.value.slot.spoolId == TagId(c, replies, buf).value && r.value.slot.tagId == r.value.slot.spoolId
    ensures r.Some? && s.mustRead ==>
              (!r.value.slot.mustRead <==>
                 TagId(c, replies, buf).Some? &&
                 ReadBlock(c, s.packet, replies[1..], AfterId(c, replies, buf)).Some? &&
                 ReadBlock(c, s.packet, replies[1..], AfterId(c, replies, buf)).value.ok)
  {
    if !s.mustRead then Some(Spun(s, buf, [], replies))
    else if |replies| == 0 then None
    else
      var (x, id) := GetId(c, replies[0], buf);
      if id.None? then Some(Spun(s, x.buf, x.sent, replies[1..]))
      else
        var t := ReadBlock(c, s.packet, replies[1..], x.buf);
        if t.None? then None
        else
          var s' := s.(mustRead := !t.value.ok, spoolId := id.value, tagId := id.value, packet := t.value.packet);
          Some(Spun(s', t.value.buf, x.sent + t.value.sent, t.value.rest))
  }

  /** The write half of `spin` for one extruder: when the spool must be
      written, the ID is requested; only when the tag answers with the ID
      the spool was read from is the record written, and only a write that
      completes clears the flag. */
  function SpinWrite(c: Consts, s: Slot, replies: seq<Reply>, buf: seq<u8>): (r: Option<Spun>)
    requires ValidLayout(c) && Fits(c, s) && |buf| == DataSize
    ensures !s.mustWrite ==> r == Some(Spun(s, buf, [], replies))
    ensures r.Some? ==> |r.value.buf| == DataSize
    ensures r.Some? ==> r.value.slot == s.(mustWrite := r.value.slot.mustWrite, tagId := r.value.slot.tagId)
    ensures r.Some? && r.value.slot.mustWrite ==> s.mustWrite
    ensures r.Some? && s.mustWrite ==> |r.value.sent| >= 3 && r.value.sent[..3] == [c.header, 0x02, c.readId]
    ensures r.Some? && |r.value.sent| > 3 ==>
              TagId(c, replies, buf).Some? && TagId(c, replies, buf).value == s.spoolId
    ensures r.Some? && s.mustWrite ==>
              (!r.value.slot.mustWrite <==>
                 TagId(c, replies, buf) == Some(s.spoolId) &&
                 WriteBlock(c, s.packet, replies[1..], AfterId(c, replies, buf)).Some? &&
                 WriteBlock(c, s.packet, replies[1..], AfterId(c, replies, buf)).value.ok)
  {
    if !s.mustWrite then Some(Spun(s, buf, [], replies))
    else if |replies| == 0 then None
    else
      var (x, id) := GetId(c, replies[0], buf);
      if id.None? then Some(Spun(s, x.buf, x.sent, replies[1..]))
      else if s.spoolId != id.value then Some(Spun(s.(tagId := id.value), x.buf, x.sent, replies[1..]))
      else
        var t := WriteBlock(c, s.packet, replies[1..], x.buf);
        if t.None? then None
        else
          var s' := s.(mustWrite := !t.value.ok, tagId := id.value);
          Some(Spun(s', t.value.buf, x.sent + t.value.sent, t.value.rest))
  }

  /** `spin` for one extruder: the read half, then the write half on what
      is left of the reply stream. */
  function Spin(c: Consts, s: Slot, replies: seq<Reply>, buf: seq<u8>): (r: Option<Spun>)
    requires ValidLayout(c) && Fits(c, s) && |buf| == DataSize
    ensures r.Some? ==> |r.value.buf| == DataSize && Fits(c, r.value.slot)
    ensures r.Some? ==> (r.value.slot.mustRead ==> s.mustRead) && (r.value.slot.mustWrite ==> s.mustWrite)
    ensures !s.mustRead && !s.mustWrite ==> r == Some(Spun(s, buf, [], replies))
  {
    var a := SpinRead(c, s, replies, buf);
    if a.None? then None
    else
      var b := SpinWrite(c, a.value.slot, a.value.rest, a.value.buf);
      if b.None? then None
      else
        assert a.value.sent == [] && b.value.sent == [] ==> a.value.sent + b.value.sent == [];
        Some(b.value.(sent := a.value.sent + b.value.sent))
  }

  /** `spin()`: every extruder's slot in turn, sharing the reply stream
      and the receive buffer. */
  function SpinAll(c: Consts, slots: seq<Slot>, replies: seq<Reply>, buf: seq<u8>)
    : (r: Option<(seq<Slot>, seq<u8>, seq<u8>, seq<Reply>)>)
    requires ValidLayout(c) && |buf| == DataSize
    requires forall e :: 0 <= e < |slots| ==> Fits(c, slots[e])
    decreases |slots|
    ensures r.Some? ==> |r.value.0| == |slots| && |r.value.1| == DataSize
    ensures r.Some? ==> forall e :: 0 <= e < |slots| ==>
              (r.value.0[e].mustRead ==> slots[e].mustRead) && (r.value.0[e].mustWrite ==> slots[e].mustWrite)
  {
    if |slots| == 0 then Some(([], buf, [], replies))
    else
      var a := Spin(c, slots[0], replies, buf);
      if a.None? then None
      else
        var b := SpinAll(c, slots[1..], a.value.rest, a.value.buf);
        if b.None? then None
        else
          var (ss, buf', sent, rest) := b.value;
          assert forall e :: 1 <= e < |slots| ==> ([a.value.slot] + ss)[e] == ss[e - 1];
          Some(([a.value.slot] + ss, buf', a.value.sent + sent, rest))
  }

  /** No extruder with a pending read or write: `spin()` sends nothing and
      changes nothing. */
  lemma {:induction false} SpinAllIdle(c: Consts, slots: seq<Slot>, replies: seq<Reply>, buf: seq<u8>)
    requires ValidLayout(c) && |buf| == DataSize
    requires forall e :: 0 <= e < |slots| ==> Fits(c, slots[e])
    requires forall e :: 0 <= e < |slots| ==> !slots[e].mustRead && !slots[e].mustWrite
    decreases |slots|
    ensures SpinAll(c, slots, replies, buf) == Some((slots, buf, [], replies))
  {
    if |slots| > 0 {
      SpinAllIdle(c, slots[1..], replies, buf);
      assert [slots[0]] + slots[1..] == slots;
    }
  }

  /** A spool whose tag answers every exchange: the read half records the
      tag's ID, clears the flag, sends the ID request and one read request
      per sector, and leaves each sector's reply data in the record. */
  lemma SpinReadSucceeds(c: Consts, s: Slot, replies: seq<Reply>, buf: seq<u8>)
    requires ValidLayout(c) && Fits(c, s) && |buf| == DataSize && s.mustRead
    requires |replies| > SectorCount(c) && replies[0].result == c.readId
    requires forall j :: 1 <= j <= SectorCount(c) ==> replies[j].result == c.readBlock && |replies[j].payload| >= 16
    ensures var r := SpinRead(c, s, replies, buf);
            r.Some? && !r.value.slot.mustRead &&
            r.value.slot.spoolId == TagId(c, replies, buf).value &&
            r.value.sent == [c.header, 0x02, c.readId] + ReadRequests(c, Sectors(c), 0, SectorCount(c)) &&
            r.value.rest == replies[SectorCount(c) + 1..] &&
            forall j :: 0 <= j < SectorCount(c) ==> Chunk(r.value.slot.packet, j) == replies[j + 1].payload[..16]
  {
    var ss := Sectors(c);
    var b := AfterId(c, replies, buf);
    var tail := replies[1..];
    assert forall j :: 0 <= j < |ss| ==> tail[j] == replies[j + 1];
    assert AllEcho(tail, c.readBlock, 0, |ss|);
    ReadFromSucceeds(c, ss, 0, s.packet, tail, b);
    ReadFromStores(c, ss, 0, s.packet, tail, b);
    assert tail[|ss|..] == replies[|ss| + 1..];
  }

  // -------------------------------------------------------------- length

  /** The spool length (in millimetres) as the information printout
      shows it: kilometres, metres, centimetres and millimetres. */
  datatype Length = Length(km: nat, m: nat, cm: nat, mm: nat)

  /** `print_info`'s split of the spool length `len`; the parts are in
      range and add up to `len` again. */
  function SpoolLength(len: nat): (r: Length)
    ensures r.m < 1000 && r.cm < 100 && r.mm < 10
    ensures r.km * 1000000 + r.m * 1000 + r.cm * 10 + r.mm == len
  {
    var r := Length(len / 1000 / 1000, (len / 1000) % 1000, (len / 10) % 100, len % 10);
    SpoolLengthSum(len);
    r
  }

  /** The millimetre, centimetre, metre and kilometre digits of a length
      put back together give the length. */
  lemma SpoolLengthSum(len: nat)
    ensures (len / 1000 / 1000) * 1000000 + ((len / 1000) % 1000) * 1000 + ((len / 10) % 100) * 10 + len % 10 == len
  {
    var q1, r1 := len / 10, len % 10;
    var q2, r2 := q1 / 100, q1 % 100;
    var q3, r3 := q2 / 1000, q2 % 1000;
    assert len == 10 * q1 + r1;
    assert q1 == 100 * q2 + r2;
    assert q2 == len / 1000 by {
      DivUnique(len, 1000, q2, 10 * r2 + r1);
    }
    assert q2 == 1000 * q3 + r3;
    assert q3 == len / 1000 / 1000;
  }
}
