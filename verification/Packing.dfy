/** The layouts of logged events: how a memory access is packed into one or two 64-bit
    words, and what can be read back. */
module Packing {
  // ---------------------------------------------------------------- constants

  const TSAN_HDR_ZERO_MASK: bv64 := 0x0FFF_FFFF_FFFF_FFFF
  const TSAN_LOC_ZERO_MASK: bv64 := 0x0000_0000_FFFF_FFFF
  const TSAN_RDTSC: bv64 := 0x1000_0000_0000_0000
  const TSAN_WRITE8: bv64 := 0xF000_0000_0000_0000

  /** The conversion of a value to a signed `char` and back to 64 bits: bit 7 is copied
      into all the bits above it. */
  function SignedChar(val: bv64): bv64 {
    if val & 0x80 == 0 then val & 0xFF else (val & 0xFF) | 0xFFFF_FFFF_FFFF_FF00
  }

  // ---------------------------------------------------------------- encoders

  /** One instrumented write: program counter, address, value. */
  datatype Access = Access(pc: bv64, addr: bv64, val: bv64)

  /** The layout of log_full, log_src_loc, log_full_naive and the buffer-manager path. */
  function EncodeFull(a: Access): bv64 {
    var loc := (a.pc << 44) >> 4;
    var val := SignedChar(a.val) << 32;
    TSAN_WRITE8 | loc | val | (TSAN_LOC_ZERO_MASK & a.addr)
  }

  /** The layout of the LOCID and RDTSC bodies: the value above the location. */
  function EncodeLocId(a: Access): bv64 {
    var val := SignedChar(a.val) << 52;
    var loc := (a.pc << 44) >> 12;
    TSAN_WRITE8 | val | loc | (TSAN_LOC_ZERO_MASK & a.addr)
  }

  /** The two words of log_full_128. */
  function EncodeWide(a: Access): (bv64, bv64) {
    var loc := (a.pc << 44) >> 4;
    (TSAN_WRITE8 | loc | (a.val & 0xFFFF_FFFF), a.addr)
  }

  function EncodeTimestamp(tsc: bv64): bv64 {
    TSAN_RDTSC | (TSAN_HDR_ZERO_MASK & tsc)
  }

  // ---------------------------------------------------------------- decoders

  function Header(w: bv64): bv64 { w >> 60 }

  /** The fields of a 64-bit event as its documented layout places them: 4 bits of
      header, 20 of location, 8 of value, 32 of address. */
  datatype Event = Event(header: bv64, loc: bv64, val: bv64, addr: bv64)

  function DecodeFull(w: bv64): Event {
    Event(Header(w), (w >> 40) & 0xFFFFF, (w >> 32) & 0xFF, w & 0xFFFF_FFFF)
  }

  function DecodeLocId(w: bv64): Event {
    Event(Header(w), (w >> 32) & 0xFFFFF, (w >> 52) & 0xFF, w & 0xFFFF_FFFF)
  }

  function DecodeWide(w0: bv64, w1: bv64): Event {
    Event(Header(w0), (w0 >> 40) & 0xFFFFF, w0 & 0xFFFF_FFFF, w1)
  }

  /** What the access would decode to if every field were kept. */
  function Fields(a: Access): Event {
    Event(0xF, a.pc & 0xFFFFF, a.val & 0xFF, a.addr & 0xFFFF_FFFF)
  }

  /** What the full layout keeps of it. */
  function Visible(a: Access): Event {
    Fields(a).(loc := if a.val & 0x80 == 0 then a.pc & 0xFFFFF else 0xFFFFF)
  }

  function WideFields(a: Access): Event {
    Event(0xF, a.pc & 0xFFFFF, a.val & 0xFFFF_FFFF, a.addr)
  }

  // ---------------------------------------------------------------- field by field

  lemma FullHeader(a: Access)
    ensures DecodeFull(EncodeFull(a)).header == 0xF
  {
  }

  lemma FullLoc(a: Access)
    ensures DecodeFull(EncodeFull(a)).loc == Visible(a).loc
  {
  }

  lemma FullVal(a: Access)
    ensures DecodeFull(EncodeFull(a)).val == a.val & 0xFF
  {
  }

  lemma FullAddr(a: Access)
    ensures DecodeFull(EncodeFull(a)).addr == a.addr & 0xFFFF_FFFF
  {
  }

  lemma LocIdHeader(a: Access)
    ensures DecodeLocId(EncodeLocId(a)).header == 0xF
  {
  }

  lemma LocIdLoc(a: Access)
    ensures DecodeLocId(EncodeLocId(a)).loc == a.pc & 0xFFFFF
  {
  }

  lemma LocIdVal(a: Access)
    ensures DecodeLocId(EncodeLocId(a)).val == a.val & 0xFF
  {
  }

  lemma LocIdAddr(a: Access)
    ensures DecodeLocId(EncodeLocId(a)).addr == a.addr & 0xFFFF_FFFF
  {
  }

  lemma WideHeader(a: Access)
    ensures DecodeWide(EncodeWide(a).0, EncodeWide(a).1).header == 0xF
  {
  }

  lemma WideLoc(a: Access)
    ensures DecodeWide(EncodeWide(a).0, EncodeWide(a).1).loc == a.pc & 0xFFFFF
  {
  }

  lemma WideVal(a: Access)
    ensures DecodeWide(EncodeWide(a).0, EncodeWide(a).1).val == a.val & 0xFFFF_FFFF
  {
  }

  lemma SignBit(v: bv64)
    ensures v & 0x80 == 0 <==> v & 0xFF < 128
  {
  }

  // ---------------------------------------------------------------- round trips

  /** Header, value byte and address always come back; the location comes back, or is
      overwritten by ones when the value byte is negative as a signed char. */
  lemma FullDecodes(a: Access)
    ensures DecodeFull(EncodeFull(a)) == Visible(a)
  {
    FullHeader(a);
    FullLoc(a);
    FullVal(a);
    FullAddr(a);
  }

  /** The full layout decodes exactly if and only if the value byte is below 128 or the
      location is all ones. */
  lemma FullExactIff(a: Access)
    ensures DecodeFull(EncodeFull(a)) == Fields(a) <==> a.val & 0xFF < 128 || a.pc & 0xFFFFF == 0xFFFFF
  {
    FullDecodes(a);
    VisibleIff(a);
  }

  lemma VisibleIff(a: Access)
    ensures Visible(a) == Fields(a) <==> a.val & 0xFF < 128 || a.pc & 0xFFFFF == 0xFFFFF
  {
    SignBit(a.val);
  }

  /** An access whose location is lost: location 1, value byte 128. */
  lemma FullLosesLocation()
    ensures var a := Access(1, 0, 0x80);
            DecodeFull(EncodeFull(a)).loc == 0xFFFFF && Fields(a).loc == 1
  {
    FullLoc(Access(1, 0, 0x80));
  }

  /** With the value above the location, every access decodes exactly. */
  lemma LocIdExact(a: Access)
    ensures DecodeLocId(EncodeLocId(a)) == Fields(a)
  {
    LocIdHeader(a);
    LocIdLoc(a);
    LocIdVal(a);
    LocIdAddr(a);
  }

  /** Two words keep 32 bits of the value and the whole address. */
  lemma WideExact(a: Access)
    ensures DecodeWide(EncodeWide(a).0, EncodeWide(a).1) == WideFields(a)
  {
    WideHeader(a);
    WideLoc(a);
    WideVal(a);
  }

  /** A timestamp is told from a memory access by its header, and keeps the low 60 bits
      of the counter. */
  lemma TimestampTold(tsc: bv64)
    ensures Header(EncodeTimestamp(tsc)) == 1
    ensures EncodeTimestamp(tsc) & TSAN_HDR_ZERO_MASK == tsc & TSAN_HDR_ZERO_MASK
  {
  }

  // ---------------------------------------------------------------- the documented layout

  /** An access with a value byte below 128 is packed as documented. */
  lemma FullIsDocumented(a: Access)
    requires a.val & 0x80 == 0
    ensures EncodeFull(a) == (0xF << 60) | ((a.pc & 0xFFFFF) << 40) | ((a.val & 0xFF) << 32) | (a.addr & 0xFFFF_FFFF)
  {
  }

  /** With the sign bit of the value set, all bits of the location are. */
  lemma FullIsOverwritten(a: Access)
    requires a.val & 0x80 != 0
    ensures EncodeFull(a) == (0xF << 60) | (0xFFFFF << 40) | ((a.val & 0xFF) << 32) | (a.addr & 0xFFFF_FFFF)
  {
  }

  /** The other layout has the value in bits 52 to 59 and the location in bits 32 to 51. */
  lemma LocIdIsPlaced(a: Access)
    ensures EncodeLocId(a) == (0xF << 60) | ((a.val & 0xFF) << 52) | ((a.pc & 0xFFFFF) << 32) | (a.addr & 0xFFFF_FFFF)
  {
  }

  lemma WideIsPlaced(a: Access)
    ensures EncodeWide(a).0 == (0xF << 60) | ((a.pc & 0xFFFFF) << 40) | (a.val & 0xFFFF_FFFF)
    ensures EncodeWide(a).1 == a.addr
  {
  }

  lemma TimestampIsPlaced(tsc: bv64)
    ensures EncodeTimestamp(tsc) == (1 << 60) | (tsc & 0x0FFF_FFFF_FFFF_FFFF)
  {
  }

  // ---------------------------------------------------------------- whole buffers

  function EncodeAll(xs: seq<Access>): seq<bv64> {
    seq(|xs|, i requires 0 <= i < |xs| => EncodeFull(xs[i]))
  }

  function DecodeAll(ws: seq<bv64>): seq<Event> {
    seq(|ws|, i requires 0 <= i < |ws| => DecodeFull(ws[i]))
  }

  lemma DecodeAllEncoded(xs: seq<Access>)
    ensures DecodeAll(EncodeAll(xs)) == seq(|xs|, i requires 0 <= i < |xs| => Visible(xs[i]))
  {
    forall i | 0 <= i < |xs| ensures DecodeFull(EncodeFull(xs[i])) == Visible(xs[i]) {
      FullDecodes(xs[i]);
    }
  }
}
