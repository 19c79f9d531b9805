/** The log header block (struct logheader in kernel/log.c): word 0 is the
    number of logged blocks, words 1..n are their home block numbers. */
module LogHeader {
  import opened Blocks

  const MAXOPBLOCKS: nat := 10
  const LOGSIZE: nat := 30

  /** What read_head makes of a header block; words past the end of the block, which
      only a count above LOGSIZE would reach, are taken as 0. */
  function Decode(b: Block): (lh: seq<nat>) {
    seq(Word(b, 0), i => if 0 <= i < NWORDS - 1 then Word(b, 1 + i) else 0)
  }

  function EncodeEntries(b: Block, lh: seq<nat>): (r: Block)
    requires |lh| <= LOGSIZE && forall i :: 0 <= i < |lh| ==> lh[i] < UINT
  {
    if lh == [] then b
    else SetWord(EncodeEntries(b, lh[..|lh| - 1]), |lh|, lh[|lh| - 1])
  }

  /** The header block write_head leaves: entries past n keep their old words. */
  function Encode(b: Block, lh: seq<nat>): (r: Block)
    requires |lh| <= LOGSIZE && forall i :: 0 <= i < |lh| ==> lh[i] < UINT
  {
    EncodeEntries(SetWord(b, 0, |lh|), lh)
  }

  lemma {:induction false} EntriesWords(b: Block, lh: seq<nat>)
    requires |lh| <= LOGSIZE && forall i :: 0 <= i < |lh| ==> lh[i] < UINT
    ensures Word(EncodeEntries(b, lh), 0) == Word(b, 0)
    ensures forall i :: 0 <= i < |lh| ==> Word(EncodeEntries(b, lh), 1 + i) == lh[i]
  {
    if lh != [] {
      EntriesWords(b, lh[..|lh| - 1]);
    }
  }

  /** Reading back a written header gives the written block list. */
  lemma DecodeEncode(b: Block, lh: seq<nat>)
    requires |lh| <= LOGSIZE && forall i :: 0 <= i < |lh| ==> lh[i] < UINT
    ensures Decode(Encode(b, lh)) == lh
  {
    EntriesWords(SetWord(b, 0, |lh|), lh);
  }
}
