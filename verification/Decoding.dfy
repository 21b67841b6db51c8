/** From the labels of a run to the decoded accesses. */
module Decoding {
  import opened Protocol
  import opened Safety
  import opened Trace
  import opened Packing

  /** End to end: if the events a thread issued on a non-NULL pointer are the encodings
      of `xs`, then what the buffers and workers hold of it decodes to `xs`, in order,
      up to the one event still in hand. */
  lemma RecordsDecode(c: Config, ls: seq<Label>, t: ThreadId, xs: seq<Access>)
    requires c.Valid() && Legal(c, ls) && DropFree(c, ls) && t < |After(c, ls).threads|
    requires KeptWords(c, ls, t) == EncodeAll(xs)
    ensures var s := After(c, ls);
            DecodeAll(JoinRecorded(s, t, s.sh.epoch + 1) + Pending(s.threads[t].pc))
            == seq(|xs|, i requires 0 <= i < |xs| => Visible(xs[i]))
  {
    TracePreserved(c, ls, t);
    DecodeAllEncoded(xs);
  }
}
