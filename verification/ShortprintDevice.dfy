// The shortprint driver's own variables and routines, with the write loop in the form
// of shortp_write (ldd/shortprint/shortprint.c). The work function runs here where the
// writer waits and any number of times between its evaluation of the space and its copy;
// ShortprintEngine has all interleavings.
module ShortprintDevice {
  import opened Common
  import opened ShortprintRing

  datatype WriteResult = Wrote(count: nat) | Fault

  lemma SliceGrows<T>(a: seq<T>, data: seq<T>, k: nat, n: nat)
    requires k + n <= |data|
    ensures a + data[..k] + data[k..k + n] == a + data[..k + n]
  {
    assert data[..k + n] == data[..k] + data[k..k + n];
  }

  function PatienceAt(patience: seq<nat>, round: nat): nat {
    if round < |patience| then patience[round] else 0
  }

  class Printer {
    const page: nat
    const outBuffer: array<byte>
    var outHead: nat
    var outTail: nat
    var outputActive: bool
    var timerPending: bool
    var workQueued: bool
    ghost var accepted: seq<byte>
    ghost var emitted: seq<byte>

    // Output never lacks its timer here, because the timer does not fire within a call;
    // TimerFollowsOutput says what it is like when it may.
    ghost predicate Valid()
      reads this, outBuffer
    {
      && 2 < page == outBuffer.Length
      && emitted <= accepted && |accepted| < |emitted| + page
      && outHead == |accepted| % page && outTail == |emitted| % page
      && Window(outBuffer[..], accepted, |emitted|)
      && (outputActive ==> timerPending)
      && (!outputActive ==> accepted == emitted)
    }

    constructor (pageSize: nat)
      requires pageSize > 2
      ensures Valid() && page == pageSize && accepted == emitted == [] && fresh(outBuffer)
    {
      page := pageSize;
      outBuffer := new byte[pageSize];
      outHead, outTail := 0, 0;
      outputActive, timerPending, workQueued := false, false, false;
      accepted, emitted := [], [];
    }

    // Bytes accepted and not yet strobed out.
    ghost function Stored(): int
      reads this
    {
      |accepted| - |emitted|
    }

    method OutSpace() returns (space: int)
      requires Valid()
      ensures space == SpaceAt(page, outHead, outTail, outTail)
      ensures space == Min(page - 1 - Stored(), page - outHead)
    {
      SpaceIsExact(page, |emitted|, |accepted|);
      if outHead >= outTail {
        space := page - outHead;
        if outTail == 0 {
          space := space - 1;
        }
      } else {
        space := (outTail - outHead) - 1;
      }
    }

    // shortp_do_write: strobe out the byte at the tail.
    method DoWrite() returns (strobed: byte)
      requires Valid() && accepted != emitted
      modifies this`outTail, this`timerPending, this`emitted
      ensures Valid() && timerPending
      ensures old(accepted) == old(emitted) + [strobed] + accepted[|emitted|..]
      ensures emitted == old(emitted) + [strobed]
    {
      Lap(page, |emitted|, |accepted|);
      IncrIsModular(page, |emitted|, 1);
      assert outBuffer[..][|emitted| % page] == accepted[|emitted|];
      timerPending := true;
      strobed := outBuffer[outTail];
      outTail := if outTail + 1 >= page then outTail + 1 - page else outTail + 1;
      emitted := emitted + [strobed];
    }

    method StartOutput()
      modifies this`outputActive, this`timerPending, this`workQueued
      ensures outputActive
      ensures old(outputActive) ==> timerPending == old(timerPending) && workQueued == old(workQueued)
      ensures !old(outputActive) ==> timerPending && workQueued
    {
      if outputActive {
        return;
      }
      outputActive := true;
      timerPending := true;
      workQueued := true;
    }

    method WakeDue() returns (wake: bool)
      requires Valid()
      ensures wake <==> 0 < Stored() < page - page / 2
    {
      FreeFigureIs(page, |emitted|, |accepted|);
      wake := (page + outTail - outHead) % page > page / 2;
    }

    // The locked section of shortp_do_work; `wake` says whether the writers are woken.
    method DoWork() returns (wake: bool)
      requires Valid()
      modifies this`outTail, this`timerPending, this`emitted, this`outputActive
      ensures Valid()
      ensures old(accepted == emitted) ==> !outputActive && !timerPending && emitted == old(emitted)
      ensures old(accepted != emitted) ==> outputActive == old(outputActive) && timerPending
      ensures old(accepted != emitted) ==> |emitted| == old(|emitted|) + 1 && old(emitted) <= emitted
      ensures wake <==> 0 < Stored() < page - page / 2
    {
      Lap(page, |emitted|, |accepted|);
      if outHead == outTail {
        outputActive := false;
        timerPending := false;
      } else {
        var _ := DoWrite();
      }
      wake := WakeDue();
    }

    // copy_from_user at the head, then the head moves past the chunk.
    method CopyIn(chunk: seq<byte>)
      requires page == outBuffer.Length && outHead < page
      requires outHead + |chunk| <= page
      modifies outBuffer
      ensures outBuffer[..] == Overlay(old(outBuffer[..]), outHead, chunk)
    {
      var b, at := outBuffer, outHead;
      forall i | 0 <= i < |chunk| {
        b[at + i] := chunk[i];
      }
    }

    // What a copy that faults leaves behind the head is no part of the stream.
    method Scribble(bytes: seq<byte>)
      requires Valid() && |accepted| + |bytes| < |emitted| + page && outHead + |bytes| <= page
      modifies outBuffer
      ensures Valid()
    {
      ghost var was := outBuffer[..];
      CopyIn(bytes);
      StoreKeepsWindow(was, accepted, |emitted|, |bytes|, outBuffer[..]);
    }

    method Append(chunk: seq<byte>)
      requires Valid() && chunk != []
      requires |accepted| + |chunk| < |emitted| + page && outHead + |chunk| <= page
      modifies this`outHead, this`accepted, this`outputActive, this`timerPending, this`workQueued, outBuffer
      ensures Valid() && outputActive
      ensures accepted == old(accepted) + chunk
    {
      ghost var was := outBuffer[..];
      CopyIn(chunk);
      StoreKeepsWindow(was, accepted, |emitted|, |chunk|, outBuffer[..]);
      WindowGrows(outBuffer[..], accepted, |emitted|, chunk);
      IncrIsModular(page, |accepted|, |chunk|);
      outHead := if outHead + |chunk| >= page then outHead + |chunk| - page else outHead + |chunk|;
      accepted := accepted + chunk;
      StartOutput();
    }

    method SleepUntilWoken(patience: nat)
      requires Valid() && Stored() == page - 1
      modifies this`outTail, this`timerPending, this`emitted, this`outputActive
      ensures Valid() && old(emitted) <= emitted
      ensures Stored() == page - 1 - Min(patience, page / 2)
    {
      var woken, runs := false, 0;
      while !woken && runs < patience
        invariant Valid() && old(emitted) <= emitted
        invariant runs <= patience && Stored() == page - 1 - runs
        invariant runs <= page / 2 && (woken <==> runs == page / 2)
        decreases patience - runs
      {
        woken := DoWork();
        runs := runs + 1;
      }
    }

    // One wait in shortp_write: the work function runs until it wakes the writer, with
    // half a page in use, or a signal ends the wait after `patience` runs. Either way the
    // space is evaluated again.
    method AwaitSpace(patience: nat) returns (space: int)
      requires Valid()
      modifies this`outTail, this`timerPending, this`emitted, this`outputActive
      ensures Valid() && old(emitted) <= emitted
      ensures space == Min(page - 1 - Stored(), page - outHead)
      ensures old(Stored()) < page - 1 ==> emitted == old(emitted)
      ensures old(Stored()) == page - 1 ==> Stored() == page - 1 - Min(patience, page / 2)
    {
      space := OutSpace();
      if space <= 0 {
        SleepUntilWoken(patience);
        space := OutSpace();
      }
    }

    // The work function, any number of times.
    method Background()
      requires Valid()
      modifies this`outTail, this`timerPending, this`emitted, this`outputActive
      ensures Valid() && old(emitted) <= emitted
    {
      var runs: nat := *;
      while runs > 0
        invariant Valid() && old(emitted) <= emitted
      {
        var _ := DoWork();
        runs := runs - 1;
      }
    }

    // One turn of shortp_write's loop: wait for space, store what fits, make output active.
    // `fault` is the first byte of the data that cannot be read, if there is one.
    method WriteChunk(data: seq<byte>, written: nat, fault: Option<nat>, patience: nat) returns (n: nat, ok: bool)
      requires Valid() && written < |data|
      modifies this, outBuffer
      ensures Valid() && old(emitted) <= emitted && written + n <= |data|
      ensures accepted == if ok then old(accepted) + data[written..written + n] else old(accepted)
      ensures !ok <==> fault.Some? && written <= fault.value < written + n
      ensures old(Stored()) < page - 1 || patience > 0 ==> n > 0
      ensures old(Stored()) < page - 1 ==>
                n >= Min(|data| - written, Min(page - 1 - old(Stored()), page - old(outHead)))
      ensures n == 0 ==> Stored() == page - 1 && outputActive == old(outputActive)
      ensures ok && n > 0 ==> outputActive
    {
      var space := AwaitSpace(patience);
      if space <= 0 {
        return 0, true;
      }
      if space + written > |data| {
        space := |data| - written;
      }
      n := space;
      Background();
      ok := !(fault.Some? && written <= fault.value < written + n);
      if ok {
        Append(data[written..written + n]);
      } else {
        assert |seq(n, _ => 0 as byte)| == n;
        var left: seq<byte> :| |left| == n;
        Scribble(left);
      }
    }

    // shortp_write. `patience[i]` is how long the i-th chunk may be waited for. A fault
    // reports nothing of what was taken before it. Less than everything is reported only
    // when a wait for a full ring was interrupted.
    method Write(data: seq<byte>, fault: Option<nat>, patience: seq<nat>) returns (r: WriteResult, ghost taken: nat)
      requires Valid()
      modifies this, outBuffer
      ensures Valid() && old(emitted) <= emitted
      ensures taken <= |data| && accepted == old(accepted) + data[..taken]
      ensures r.Wrote? ==> r.count == taken && (fault.Some? ==> taken <= fault.value || |data| <= fault.value)
      ensures r.Wrote? && taken < |data| ==> Stored() == page - 1
      ensures r.Fault? ==> fault.Some? && taken <= fault.value < |data|
      ensures r.Wrote? && taken > 0 ==> outputActive
      ensures |patience| >= |data| && (forall i :: 0 <= i < |data| ==> patience[i] > 0) ==>
                r == if fault.Some? && fault.value < |data| then Fault else Wrote(|data|)
    {
      var written := 0;
      var round := 0;
      taken := 0;
      while written < |data|
        invariant Valid() && old(emitted) <= emitted
        invariant round <= written == taken <= |data| && accepted == old(accepted) + data[..written]
        invariant written > 0 ==> outputActive
        invariant fault.Some? ==> written <= fault.value
        decreases |data| - written
      {
        var n, ok := WriteChunk(data, written, fault, PatienceAt(patience, round));
        if !ok {
          return Fault, taken;
        }
        if n == 0 {
          return Wrote(written), taken;
        }
        SliceGrows(old(accepted), data, written, n);
        written := written + n;
        taken := written;
        round := round + 1;
      }
      r := Wrote(written);
    }

    // shortp_interrupt: an interrupt that nobody waits for is none of this device.
    method Interrupt() returns (handled: bool)
      modifies this`workQueued
      ensures handled <==> outputActive
      ensures workQueued <==> old(workQueued) || outputActive
    {
      if !outputActive {
        return false;
      }
      workQueued := true;
      handled := true;
    }

    // shortp_timeout, for a printer that is still busy or has lost its interrupt.
    method Timeout(busy: bool)
      modifies this`workQueued, this`timerPending
      ensures timerPending <==> old(timerPending) || (outputActive && busy)
      ensures workQueued <==> old(workQueued) || (outputActive && !busy)
    {
      if !outputActive {
        return;
      }
      if busy {
        timerPending := true;
        return;
      }
      var _ := Interrupt();
    }
  }
}
