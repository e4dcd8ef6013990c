/** The file playback source: one bounded block per call, cyclic when it loops. */
module WavSource {
  import opened Records

  const FAILURE_LIMIT: nat := 100
  const UINT64_MAX: nat := 0xFFFF_FFFF_FFFF_FFFF

  /** The decoded file: interleaved samples, `frames` frames of `channels` samples. */
  datatype Wav = Wav(samples: seq<real>, channels: nat, frames: nat)

  ghost predicate ValidWav(w: Wav) {
    w.channels > 0 && |w.samples| == w.channels * w.frames
  }

  /** Mono files feed a stereo lane. */
  function LaneChannels(w: Wav): nat { if w.channels == 1 then 2 else w.channels }

  function FileFrame(w: Wav, index: nat): (f: seq<real>)
    requires ValidWav(w) && index < w.frames
    ensures |f| == w.channels
  {
    RecordAt(w.samples, w.channels, index, w.frames)
  }

  /** One frame as the lane receives it. */
  function LaneFrame(w: Wav, index: nat): (f: seq<real>)
    requires ValidWav(w) && index < w.frames
    ensures |f| == LaneChannels(w)
  {
    var f := FileFrame(w, index);
    if w.channels == 1 then [f[0], f[0]] else f
  }

  /** The frame a position runs to when it is counted around and around the file: index mod total. */
  function Around(index: nat, total: nat): (frame: nat)
    requires total > 0
    ensures frame < total
  {
    if index < total then index else Around(index - total, total)
  }

  lemma {:induction false} AroundIsTheRemainder(index: nat, total: nat, wraps: nat, frame: nat)
    requires frame < total && index == wraps * total + frame
    ensures Around(index, total) == frame
    decreases wraps
  {
    if wraps > 0 {
      assert wraps * total == (wraps - 1) * total + total;
      AroundIsTheRemainder(index - total, total, wraps - 1, frame);
    }
  }

  /** `count` frames of the file read around and around from `start`. */
  function CyclicFrames(w: Wav, start: nat, count: nat): (r: seq<seq<real>>)
    requires ValidWav(w) && w.frames > 0
    ensures |r| == count && Sized(r, LaneChannels(w))
  {
    var r := seq(count, k requires 0 <= k < count => LaneFrame(w, Around(start + k, w.frames)));
    assert forall k :: 0 <= k < count ==> r[k] == LaneFrame(w, Around(start + k, w.frames));
    r
  }

  function Cyclic(w: Wav, start: nat, count: nat): seq<real>
    requires ValidWav(w) && w.frames > 0
  {
    Joined(CyclicFrames(w, start, count))
  }

  /** Position after `count` frames; a position at the very end stands for the wrapped start. */
  function PositionAfter(start: nat, count: nat, total: nat): (next: nat)
    requires total > 0
    ensures count > 0 ==> 1 <= next <= total
  {
    if count == 0 then start else Around(start + count - 1, total) + 1
  }

  function Silence(count: nat): (s: seq<real>)
    ensures |s| == count && forall i :: 0 <= i < count ==> s[i] == 0.0
  {
    seq(count, _ => 0.0)
  }

  /** How many frames a non-looping source still has for a block. */
  function Available(w: Wav, start: nat, block: nat): nat
    requires start <= w.frames
  {
    if start + block <= w.frames then block else w.frames - start
  }

  /** The frames advanced between two positions, as the progress counter computes them. */
  function ProgressDelta(start: nat, next: nat, total: nat, wraps: nat): nat {
    if total == 0 || start > total || next > total then 0
    else if wraps == 0 then (if next < start then 0 else next - start)
    else if wraps - 1 > UINT64_MAX / total then UINT64_MAX
    else
      var cycles := (wraps - 1) * total;
      if total - start > UINT64_MAX - cycles then UINT64_MAX
      else if next > UINT64_MAX - (cycles + total - start) then UINT64_MAX
      else cycles + total - start + next
  }

  lemma Multiples(a: nat, b: nat, total: nat)
    requires a >= b
    ensures a * total >= b * total
  {
  }

  lemma QuotientBound(a: nat, total: nat, limit: nat)
    requires total > 0 && a * total <= limit
    ensures a <= limit / total
  {
    assert limit < (limit / total + 1) * total;
    if a > limit / total {
      Multiples(a, limit / total + 1, total);
    }
  }

  /** Whatever the wraps, the counter is the number of frames actually emitted. */
  lemma ProgressIsFramesEmitted(start: nat, next: nat, total: nat, wraps: nat, emitted: nat)
    requires total > 0 && start <= total && next <= total
    requires wraps * total + next == start + emitted && emitted <= UINT64_MAX
    ensures ProgressDelta(start, next, total, wraps) == emitted
  {
    if wraps > 0 {
      assert (wraps - 1) * total + total == wraps * total;
      QuotientBound(wraps - 1, total, UINT64_MAX);
    }
  }

  /** More frames than 64 bits can count are reported as the largest count. */
  lemma ProgressSaturates(start: nat, next: nat, total: nat, wraps: nat, emitted: nat)
    requires 0 < total <= UINT64_MAX && start <= total && next <= total
    requires wraps * total + next == start + emitted && emitted > UINT64_MAX
    ensures ProgressDelta(start, next, total, wraps) == UINT64_MAX
  {
    if wraps > 0 {
      assert (wraps - 1) * total + total == wraps * total;
    }
  }

  /** Positions outside the file, or going back without a wrap, count nothing. */
  lemma ImpossibleProgressIsNothing(start: nat, next: nat, total: nat, wraps: nat)
    requires total == 0 || start > total || next > total || (wraps == 0 && next < start)
    ensures ProgressDelta(start, next, total, wraps) == 0
  {
  }

  lemma CyclicOneMore(w: Wav, start: nat, count: nat)
    requires ValidWav(w) && w.frames > 0
    ensures Cyclic(w, start, count + 1) == Cyclic(w, start, count) + LaneFrame(w, Around(start + count, w.frames))
    ensures |Cyclic(w, start, count)| == LaneChannels(w) * count
  {
    var before := CyclicFrames(w, start, count);
    var last := LaneFrame(w, Around(start + count, w.frames));
    JoinedLength(before, LaneChannels(w));
    assert CyclicFrames(w, start, count + 1) == before + [last];
    assert (before + [last])[..count] == before;
  }

  /** Frame k of a rendered run is source frame (start + k) mod total. */
  lemma CyclicFrameAt(w: Wav, start: nat, count: nat, k: nat)
    requires ValidWav(w) && w.frames > 0 && k < count
    ensures |Cyclic(w, start, count)| == LaneChannels(w) * count
    ensures RecordAt(Cyclic(w, start, count), LaneChannels(w), k, count) == LaneFrame(w, Around(start + k, w.frames))
  {
    JoinedRecordAt(CyclicFrames(w, start, count), LaneChannels(w), k);
  }

  lemma Split(size: nat, part: nat, whole: nat)
    requires part <= whole
    ensures size * part + size * (whole - part) == size * whole
  {
  }

  /** The position reached after some wraps is the next frame to read, unless it sits at the end. */
  lemma PositionIsAround(start: nat, count: nat, total: nat, wraps: nat, next: nat)
    requires total > 0 && next <= total && wraps * total + next == start + count
    ensures next < total ==> Around(start + count, total) == next
    ensures next == total ==> Around(start + count, total) == 0
    ensures count > 0 && next >= 1 ==> PositionAfter(start, count, total) == next
  {
    if next < total {
      AroundIsTheRemainder(start + count, total, wraps, next);
    } else {
      assert wraps * total + total == (wraps + 1) * total;
      AroundIsTheRemainder(start + count, total, wraps + 1, 0);
    }
    if count > 0 && next >= 1 {
      AroundIsTheRemainder(start + count - 1, total, wraps, next - 1);
    }
  }

  class WavFileSource {
    const wav: Wav
    const loop: bool
    const blockFrames: nat
    const inputBlock: array<real>
    var nextFrame: nat
    var renderedBlocks: nat
    var failedBlocks: nat
    var framesRendered: nat
    var consecutiveFailures: nat
    var active: bool
    var eof: bool

    ghost predicate Valid()
      reads this
    {
      && ValidWav(wav)
      && nextFrame <= wav.frames
      && blockFrames < 0x1_0000_0000
      && inputBlock.Length >= LaneChannels(wav) * blockFrames
      && framesRendered <= UINT64_MAX
    }

    constructor (wav: Wav, loop: bool, blockFrames: nat, inputBlock: array<real>)
      requires ValidWav(wav) && blockFrames < 0x1_0000_0000
      requires inputBlock.Length >= LaneChannels(wav) * blockFrames
      ensures Valid() && active && !eof && nextFrame == 0 && framesRendered == 0
      ensures this.wav == wav && this.loop == loop && this.blockFrames == blockFrames
      ensures this.inputBlock == inputBlock && consecutiveFailures == 0
    {
      this.wav, this.loop, this.blockFrames, this.inputBlock := wav, loop, blockFrames, inputBlock;
      nextFrame, renderedBlocks, failedBlocks, framesRendered := 0, 0, 0, 0;
      consecutiveFailures, active, eof := 0, true, false;
    }

    /** Copies the file frame at the current position to the block, widening mono to stereo. */
    method CopyFrame(offset: nat)
      requires Valid() && nextFrame < wav.frames
      requires offset + LaneChannels(wav) <= inputBlock.Length
      modifies inputBlock
      ensures inputBlock[..offset] == old(inputBlock[..offset])
      ensures inputBlock[offset..offset + LaneChannels(wav)] == LaneFrame(wav, nextFrame)
    {
      Offsets(wav.channels, nextFrame, wav.frames);
      var base := wav.channels * nextFrame;
      if wav.channels == 1 {
        var sample := wav.samples[base];
        inputBlock[offset] := sample;
        inputBlock[offset + 1] := sample;
      } else {
        for channel := 0 to wav.channels
          invariant inputBlock[..offset] == old(inputBlock[..offset])
          invariant inputBlock[offset..offset + channel] == wav.samples[base..base + channel]
        {
          inputBlock[offset + channel] := wav.samples[base + channel];
        }
      }
    }

    /** Silence from `offset` to the end of the block. */
    method FillSilence(offset: nat, remaining: nat)
      requires offset + remaining <= inputBlock.Length
      modifies inputBlock
      ensures inputBlock[..offset + remaining] == old(inputBlock[..offset]) + Silence(remaining)
    {
      for index := 0 to remaining
        invariant inputBlock[..offset] == old(inputBlock[..offset])
        invariant inputBlock[offset..offset + index] == Silence(index)
      {
        inputBlock[offset + index] := 0.0;
      }
      assert inputBlock[..offset + remaining] == inputBlock[..offset] + inputBlock[offset..offset + remaining];
    }

    /** What the block holds after a render from `start`. */
    ghost function BlockFrom(start: nat): seq<real>
      requires ValidWav(wav) && wav.frames > 0 && start <= wav.frames
    {
      if loop then Cyclic(wav, start, blockFrames)
      else
        var copied := Available(wav, start, blockFrames);
        Cyclic(wav, start, copied) + Silence(LaneChannels(wav) * (blockFrames - copied))
    }

    /** How far a render from `start` advances. */
    ghost function Advance(start: nat): nat
      requires start <= wav.frames
    {
      if loop then blockFrames else Available(wav, start, blockFrames)
    }

    /** The first `frame` frames of the block are the cyclic stream from `start`. */
    ghost predicate Filled(start: nat, frame: nat)
      requires ValidWav(wav) && wav.frames > 0
      reads inputBlock
    {
      && LaneChannels(wav) * frame <= inputBlock.Length
      && inputBlock[..LaneChannels(wav) * frame] == Cyclic(wav, start, frame)
    }

    method EmitFrame(ghost start: nat, frame: nat)
      requires Valid() && wav.frames > 0 && frame < blockFrames
      requires Filled(start, frame) && nextFrame < wav.frames && nextFrame == Around(start + frame, wav.frames)
      modifies inputBlock
      ensures Filled(start, frame + 1)
    {
      Offsets(LaneChannels(wav), frame, blockFrames);
      var offset := LaneChannels(wav) * frame;
      CopyFrame(offset);
      CyclicOneMore(wav, start, frame);
      assert inputBlock[..offset + LaneChannels(wav)]
          == inputBlock[..offset] + inputBlock[offset..offset + LaneChannels(wav)];
    }

    method EmitSilence(ghost start: nat, frame: nat)
      requires Valid() && wav.frames > 0 && !loop && frame <= blockFrames && start <= wav.frames
      requires Filled(start, frame) && frame == Available(wav, start, blockFrames)
      modifies inputBlock
      ensures inputBlock[..LaneChannels(wav) * blockFrames] == BlockFrom(start)
    {
      Split(LaneChannels(wav), frame, blockFrames);
      FillSilence(LaneChannels(wav) * frame, LaneChannels(wav) * (blockFrames - frame));
    }

    lemma FilledIsTheBlock(start: nat)
      requires ValidWav(wav) && wav.frames > 0 && start <= wav.frames && Filled(start, blockFrames)
      requires loop || start + blockFrames <= wav.frames
      ensures inputBlock[..LaneChannels(wav) * blockFrames] == BlockFrom(start)
    {
      assert LaneChannels(wav) * 0 == 0;
    }

    /** Fills the block from the current position; returns the number of wraps. */
    method FillBlock() returns (wraps: nat)
      requires Valid() && wav.frames > 0
      modifies inputBlock, this`nextFrame, this`eof
      ensures Valid()
      ensures inputBlock[..LaneChannels(wav) * blockFrames] == BlockFrom(old(nextFrame))
      ensures wraps * wav.frames + nextFrame == old(nextFrame) + Advance(old(nextFrame))
      ensures loop ==> nextFrame == PositionAfter(old(nextFrame), blockFrames, wav.frames)
      ensures !loop ==> wraps == 0
      ensures eof == (old(eof) || (!loop && old(nextFrame) + blockFrames > wav.frames))
    {
      var total := wav.frames;
      ghost var start := nextFrame;
      wraps := 0;
      var frame := 0;
      assert LaneChannels(wav) * 0 == 0;
      while frame < blockFrames
        invariant Valid() && frame <= blockFrames
        invariant wraps * total + nextFrame == start + frame
        invariant !loop || frame == 0 ==> wraps == 0
        invariant frame > 0 ==> nextFrame >= 1
        invariant Filled(start, frame)
        invariant eof == old(eof)
      {
        PositionIsAround(start, frame, total, wraps, nextFrame);
        if nextFrame >= total {
          if !loop {
            eof := true;
            EmitSilence(start, frame);
            return;
          }
          assert (wraps + 1) * total == wraps * total + total;
          nextFrame := 0;
          wraps := wraps + 1;
        } else if frame > 0 && nextFrame == 0 {
          assert false;
          break;
        }
        EmitFrame(start, frame);
        nextFrame := nextFrame + 1;
        frame := frame + 1;
      }
      PositionIsAround(start, blockFrames, total, wraps, nextFrame);
      FilledIsTheBlock(start);
    }

    /**
     * Renders one block and hands it over. `delivered` is the engine's answer; a source that is
     * refused a hundred times in a row is switched off.
     */
    method Render(delivered: bool) returns (ok: bool)
      requires Valid()
      modifies inputBlock, this
      ensures Valid()
      ensures !(old(active) && blockFrames > 0 && wav.frames > 0)
              ==> !ok && unchanged(this) && inputBlock[..] == old(inputBlock[..])
      ensures old(active) && blockFrames > 0 && wav.frames > 0 ==> ok == delivered
      ensures old(active) && blockFrames > 0 && wav.frames > 0
              ==> && inputBlock[..LaneChannels(wav) * blockFrames] == BlockFrom(old(nextFrame))
                  && (if loop then nextFrame == PositionAfter(old(nextFrame), blockFrames, wav.frames)
                      else nextFrame == old(nextFrame) + Available(wav, old(nextFrame), blockFrames))
                  && framesRendered == Saturated(old(framesRendered), Advance(old(nextFrame)))
                  && renderedBlocks == old(renderedBlocks) + (if delivered then 1 else 0)
                  && failedBlocks == old(failedBlocks) + (if delivered then 0 else 1)
                  && consecutiveFailures == (if delivered then 0 else old(consecutiveFailures) + 1)
                  && (active <==> consecutiveFailures < FAILURE_LIMIT)
                  && (eof <==> old(eof) || !active || (!loop && old(nextFrame) + blockFrames > wav.frames))
    {
      if !active || blockFrames == 0 {
        return false;
      }
      if wav.frames == 0 {
        return false;
      }
      var start := nextFrame;
      var wraps := FillBlock();
      ProgressIsFramesEmitted(start, nextFrame, wav.frames, wraps, Advance(start));
      var progressed := ProgressDelta(start, nextFrame, wav.frames, wraps);
      if progressed > UINT64_MAX - framesRendered {
        framesRendered := UINT64_MAX;
      } else {
        framesRendered := framesRendered + progressed;
      }
      if delivered {
        renderedBlocks := renderedBlocks + 1;
        consecutiveFailures := 0;
      } else {
        failedBlocks := failedBlocks + 1;
        consecutiveFailures := consecutiveFailures + 1;
        if consecutiveFailures >= FAILURE_LIMIT {
          active := false;
          eof := true;
        }
      }
      return delivered;
    }
  }

  function Saturated(count: nat, more: nat): nat {
    if count + more > UINT64_MAX then UINT64_MAX else count + more
  }

  /** Positions count around the file the same way before and after a run of frames. */
  lemma {:induction false} AroundForgetsCycles(index: nat, total: nat)
    requires total > 0
    ensures Around(index + total, total) == Around(index, total)
  {
  }

  lemma {:induction false} AroundOfSum(index: nat, offset: nat, total: nat)
    requires total > 0
    ensures Around(Around(index, total) + offset, total) == Around(index + offset, total)
    decreases index
  {
    if index >= total {
      AroundOfSum(index - total, offset, total);
      AroundForgetsCycles(index - total + offset, total);
    }
  }

  lemma PositionCountsOn(start: nat, count: nat, k: nat, total: nat)
    requires total > 0
    ensures Around(PositionAfter(start, count, total) + k, total) == Around(start + count + k, total)
  {
    if count > 0 {
      AroundOfSum(start + count - 1, k + 1, total);
    }
  }

  lemma PositionsCompose(start: nat, first: nat, second: nat, total: nat)
    requires total > 0
    ensures PositionAfter(PositionAfter(start, first, total), second, total)
            == PositionAfter(start, first + second, total)
  {
    if first > 0 && second > 0 {
      PositionCountsOn(start, first, second - 1, total);
    }
  }

  /** Two runs rendered one after the other are one run. */
  lemma {:induction false} RunsJoin(w: Wav, start: nat, first: nat, second: nat)
    requires ValidWav(w) && w.frames > 0
    ensures Cyclic(w, start, first) + Cyclic(w, PositionAfter(start, first, w.frames), second)
            == Cyclic(w, start, first + second)
    decreases second
  {
    var next := PositionAfter(start, first, w.frames);
    if second == 0 {
      assert Cyclic(w, next, 0) == [];
    } else {
      RunsJoin(w, start, first, second - 1);
      CyclicOneMore(w, next, second - 1);
      CyclicOneMore(w, start, first + second - 1);
      PositionCountsOn(start, first, second - 1, w.frames);
    }
  }

  /** The blocks a looping source emits, one after the other. */
  function Blocks(w: Wav, start: nat, block: nat, count: nat): seq<real>
    requires ValidWav(w) && w.frames > 0
    decreases count
  {
    if count == 0 then []
    else Cyclic(w, start, block) + Blocks(w, PositionAfter(start, block, w.frames), block, count - 1)
  }

  /** Any number of looped blocks is the cyclic source stream, without a seam. */
  lemma {:induction false} LoopedBlocksAreTheCyclicStream(w: Wav, start: nat, block: nat, count: nat)
    requires ValidWav(w) && w.frames > 0
    ensures Blocks(w, start, block, count) == Cyclic(w, start, block * count)
    decreases count
  {
    if count == 0 {
      assert block * 0 == 0;
      assert Cyclic(w, start, 0) == [];
    } else {
      var next := PositionAfter(start, block, w.frames);
      LoopedBlocksAreTheCyclicStream(w, next, block, count - 1);
      assert block * count == block + block * (count - 1);
      RunsJoin(w, start, block, block * (count - 1));
    }
  }
}
