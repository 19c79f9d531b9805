/** Pipes (kernel/pipe.c).  Each method is what one process does between acquiring the
    pipe's lock and releasing it or going to sleep, so any interleaving of readers and
    writers is a sequence of calls. */
module Pipe {
  import opened Blocks

  const PIPESIZE: nat := 512

  datatype Outcome = Done | Asleep | Failed

  lemma ModUnique(x: nat, q: nat, r: nat)
    requires r < UINT && x == q * UINT + r
    ensures x % UINT == r
  {
  }

  /** Counters that differ by at most PIPESIZE can be compared modulo 2^32. */
  lemma CountersApart(r: nat, w: nat)
    requires r <= w <= r + PIPESIZE
    ensures w % UINT == r % UINT <==> w == r
    ensures w % UINT == (r % UINT + PIPESIZE) % UINT <==> w == r + PIPESIZE
  {
    var d := w - r;
    var a := r % UINT;
    assert r == r / UINT * UINT + a;
    if a + d < UINT {
      ModUnique(w, r / UINT, a + d);
    } else {
      ModUnique(w, r / UINT + 1, a + d - UINT);
    }
    if a + PIPESIZE >= UINT {
      ModUnique(a + PIPESIZE, 1, a + PIPESIZE - UINT);
    }
  }

  /** A 32-bit counter picks the same place in the ring as the count itself. */
  lemma RingPlace(k: nat)
    ensures k % UINT % PIPESIZE == k % PIPESIZE
    ensures (k % UINT + 1) % UINT == (k + 1) % UINT
  {
    var q, a := k / UINT, k % UINT;
    assert k == q * UINT + a;
    assert k % PIPESIZE == (q * 0x80_0000 * PIPESIZE + a) % PIPESIZE;
    if a + 1 < UINT {
      ModUnique(k + 1, q, a + 1);
    } else {
      ModUnique(k + 1, q + 1, 0);
    }
  }

  /** The ring holds the bytes written and not yet read. */
  ghost predicate Ring(data: seq<Byte>, written: seq<Byte>, got: nat) {
    && |data| == PIPESIZE && got <= |written| <= got + PIPESIZE
    && forall k :: got <= k < |written| ==> data[k % PIPESIZE] == written[k]
  }

  lemma RingPut(data: seq<Byte>, written: seq<Byte>, got: nat, b: Byte)
    requires Ring(data, written, got) && |written| < got + PIPESIZE
    ensures Ring(data[|written| % PIPESIZE := b], written + [b], got)
  {
    var w := |written|;
    forall k | got <= k < w ensures k % PIPESIZE != w % PIPESIZE {
      assert w - k == (w / PIPESIZE - k / PIPESIZE) * PIPESIZE + (w % PIPESIZE - k % PIPESIZE);
    }
  }

  // ---- Runs

  /** What a call does to the stream: bytes written, or bytes returned to a reader. */
  datatype Event = Wrote(b: seq<Byte>) | Got(b: seq<Byte>)

  /** The steps the calls below take, from `written` bytes of which `got` were read. */
  ghost predicate Step(written: seq<Byte>, got: nat, e: Event, written': seq<Byte>, got': nat) {
    && got' <= |written'| <= got' + PIPESIZE
    && match e
       case Wrote(b) => written' == written + b && got' == got
       case Got(b) => written' == written && got <= got' && b == written[got..got']
  }

  function Writes(es: seq<Event>): (s: seq<Byte>) {
    if es == [] then [] else Writes(es[..|es| - 1]) + match es[|es| - 1] case Wrote(b) => b case Got(_) => []
  }

  function Reads(es: seq<Event>): (s: seq<Byte>) {
    if es == [] then [] else Reads(es[..|es| - 1]) + match es[|es| - 1] case Wrote(_) => [] case Got(b) => b
  }

  ghost predicate IsRun(es: seq<Event>, ws: seq<seq<Byte>>, gs: seq<nat>) {
    && |ws| == |gs| == |es| + 1 && ws[0] == [] && gs[0] == 0
    && forall i :: 0 <= i < |es| ==> Step(ws[i], gs[i], es[i], ws[i + 1], gs[i + 1])
  }

  lemma RunStep(es: seq<Event>, i: nat, w: seq<Byte>, g: nat, w': seq<Byte>, g': nat)
    requires i < |es| && Step(w, g, es[i], w', g') && g <= |w| && Writes(es[..i]) == w && Reads(es[..i]) == w[..g]
    ensures Writes(es[..i + 1]) == w' && Reads(es[..i + 1]) == w'[..g']
  {
    assert es[..i + 1][..i] == es[..i];
  }

  /** First in, first out: in every run all bytes returned to readers, in order, are a prefix
      of all bytes written, and at most PIPESIZE are in flight. */
  lemma RunFifo(es: seq<Event>, ws: seq<seq<Byte>>, gs: seq<nat>)
    requires IsRun(es, ws, gs)
    ensures Reads(es) <= Writes(es) && |Writes(es)| <= |Reads(es)| + PIPESIZE
  {
    for i := 0 to |es|
      invariant gs[i] <= |ws[i]| <= gs[i] + PIPESIZE && Writes(es[..i]) == ws[i] && Reads(es[..i]) == ws[i][..gs[i]]
    {
      RunStep(es, i, ws[i], gs[i], ws[i + 1], gs[i + 1]);
    }
    assert es[..|es|] == es;
  }

  class PipeDev {
    const data: array<Byte>
    var nread: nat
    var nwrite: nat
    var readopen: bool
    var writeopen: bool
    ghost var written: seq<Byte>       // all bytes ever written
    ghost var got: nat                 // how many of them have been read
    ghost var writers: set<nat>        // processes asleep on nwrite
    ghost var readers: set<nat>        // processes asleep on nread

    constructor ()
      ensures Valid() && readopen && writeopen && written == [] && got == 0 && writers == {} && readers == {}
      ensures fresh(data)
    {
      data := new Byte[PIPESIZE](_ => 0);
      nread, nwrite, readopen, writeopen := 0, 0, true, true;
      written, got, writers, readers := [], 0, {}, {};
    }

    /** Bytes read are a prefix of the bytes written, at most PIPESIZE are in flight, and a
        sleeping writer means a full pipe that can still be read. */
    ghost predicate Valid()
      reads this, data
    {
      && data.Length == PIPESIZE && Ring(data[..], written, got)
      && nwrite == |written| % UINT && nread == got % UINT
      && (writers != {} ==> |written| == got + PIPESIZE && readopen)
    }

    /** A reader sleeps although there are bytes to read. */
    ghost predicate Stranded()
      reads this
    {
      readers != {} && got < |written|
    }

    /** pipewrite from byte i0 on, by process `who`: to its end, to its sleep, or to its failure. */
    method Write(addr: seq<Byte>, i0: nat, killed: bool, ghost who: nat) returns (out: Outcome, i: nat)
      requires Valid() && i0 <= |addr|
      modifies this, data
      ensures Valid() && i0 <= i <= |addr| && written == old(written) + addr[i0..i] && got == old(got)
      ensures readopen == old(readopen) && writeopen == old(writeopen)
      ensures out == Done <==> i == |addr|
      ensures out == Done <==> |addr| - i0 <= PIPESIZE - (|old(written)| - got)
      ensures out != Done ==> |written| == got + PIPESIZE && (out == Failed <==> !readopen || killed)
      ensures writers == old(writers) + if out == Asleep then {who} else {}
      ensures readers == if out == Failed then old(readers) else {}
      ensures !old(Stranded()) ==>
        (Stranded() <==>
          old(readers) != {} && |addr| - i0 > PIPESIZE - (|old(written)| - got) && (!readopen || killed))
      ensures Step(old(written), old(got), Wrote(addr[i0..i]), written, got)
    {
      i := i0;
      while i < |addr|
        invariant Valid() && i0 <= i <= |addr| && written == old(written) + addr[i0..i] && got == old(got)
        invariant readopen == old(readopen) && writeopen == old(writeopen) && writers == old(writers) &&
          readers == old(readers)
      {
        CountersApart(got, |written|);
        if nwrite == (nread + PIPESIZE) % UINT {
          if !readopen || killed {
            return Failed, i;
          }
          readers := {};
          writers := writers + {who};
          return Asleep, i;
        }
        Put(addr[i]);
        i := i + 1;
      }
      readers := {};
      out := Done;
    }

    method Put(b: Byte)
      requires Valid() && |written| < got + PIPESIZE
      modifies data, this`nwrite, this`written
      ensures Valid() && written == old(written) + [b]
    {
      RingPut(data[..], written, got, b);
      RingPlace(|written|);
      data[nwrite % PIPESIZE] := b;
      nwrite := (nwrite + 1) % UINT;
      written := written + [b];
    }

    /** piperead by process `who`: nothing is returned only at the end of the stream. */
    method Read(n: nat, killed: bool, ghost who: nat) returns (out: Outcome, dst: seq<Byte>)
      requires Valid()
      modifies this, data
      ensures Valid() && written == old(written) && readopen == old(readopen) && writeopen == old(writeopen)
      ensures out != Done <==> old(got) == |written| && writeopen
      ensures out != Done ==> (out == Failed <==> killed) && got == old(got) && writers == old(writers)
      ensures readers == old(readers) + if out == Asleep then {who} else {}
      ensures out == Done ==> old(got) <= got <= |written| && dst == written[old(got)..got]
      ensures out == Done ==> |dst| == (if |written| - old(got) < n then |written| - old(got) else n) && writers == {}
      ensures out == Done && n > 0 && dst == [] ==> !writeopen && got == |written|
      ensures !old(Stranded()) ==> !Stranded()
      ensures out == Done ==> Step(old(written), old(got), Got(dst), written, got)
    {
      CountersApart(got, |written|);
      dst := [];
      if nread == nwrite && writeopen {
        if killed {
          return Failed, [];
        }
        readers := readers + {who};
        return Asleep, [];
      }
      writers := {};
      var i := 0;
      while i < n
        invariant Valid() && i <= n && i == |dst| && got == old(got) + i && dst == written[old(got)..got]
        invariant written == old(written) && readopen == old(readopen) && writeopen == old(writeopen)
        invariant writers == {} && readers == old(readers)
      {
        CountersApart(got, |written|);
        if nread == nwrite {
          break;
        }
        RingPlace(got);
        dst := dst + [data[nread % PIPESIZE]];
        nread := (nread + 1) % UINT;
        got := got + 1;
        i := i + 1;
      }
      out := Done;
    }

    /** kill of a process asleep in the pipe makes it runnable. */
    ghost method Kill(who: nat)
      requires Valid()
      modifies this`writers, this`readers
      ensures Valid() && writers == old(writers) - {who} && readers == old(readers) - {who}
    {
      writers, readers := writers - {who}, readers - {who};
    }

    /** pipeclose */
    method Close(writable: bool) returns (freed: bool)
      requires Valid()
      modifies this`readopen, this`writeopen, this`writers, this`readers
      ensures Valid() && freed == (!readopen && !writeopen)
      ensures writeopen == (old(writeopen) && !writable) && readopen == (old(readopen) && writable)
      ensures writable ==> readers == {} && writers == old(writers)
      ensures !writable ==> writers == {} && readers == old(readers)
    {
      if writable {
        writeopen := false;
        readers := {};
      } else {
        readopen := false;
        writers := {};
      }
      freed := !readopen && !writeopen;
    }
  }

  /** The run that strands a reader: it sleeps on the empty pipe, then a killed writer fills the
      pipe and returns from the full one without a wakeup.  Both ends are still open. */
  method StrandedRun(addr: seq<Byte>, reader: nat, writer: nat) returns (p: PipeDev)
    requires |addr| > PIPESIZE
    ensures fresh(p) && p.Valid() && p.Stranded() && p.readers == {reader} && p.readopen && p.writeopen
    ensures p.got == 0 && p.written == addr[..PIPESIZE]
  {
    p := new PipeDev();
    var out, dst := p.Read(1, false, reader);
    assert out == Asleep && p.readers == {reader};
    var i;
    out, i := p.Write(addr, 0, true, writer);
    assert out == Failed && p.written == addr[0..i];
  }
}
