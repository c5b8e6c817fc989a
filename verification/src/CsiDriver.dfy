/** The sensor interrupt and the sensor messages as they change the queues and the two address registers. */
module CsiDriver {
  import opened CsiBuffers

  lemma Push<T>(before: seq<T>, x: T, rest: seq<T>)
    ensures before + ([x] + rest) == (before + [x]) + rest
  {
  }

  lemma GetsNonzero(frames: seq<nat>, i: nat)
    requires Frames(frames) && i < BUFFERS
    ensures forall k :: 0 <= k < BUFFERS ==> Gets(frames, i, BUFFERS)[k] != 0
  {
    GetsAll(frames, i);
    hide Gets;
  }

  lemma GetsStep(frames: seq<nat>, i: nat, n: nat)
    requires |frames| == BUFFERS && i < BUFFERS && n > 0
    ensures Gets(frames, i, n) == [frames[i]] + Gets(frames, NextIndex(i), n - 1)
    ensures IndexAfter(i, n) == IndexAfter(NextIndex(i), n - 1)
  {
  }

  class Sensor {
    const frames: seq<nat>       // csi_frame_addr
    var free: seq<nat>           // cmos_frame_q
    var a: nat                   // P_CSI_TG_FBSADDR
    var b: nat                   // P_CSI_TG_FBSADDR_B
    var flag: bool               // csi_fifo_flag
    var todo: seq<Item>          // vid_enc_task_q
    var held: seq<nat>           // y_frame of the encoder task
    var index: nat               // g_csi_index
    var on: bool                 // R_TGR_IRQ_EN

    function Now(): State
      reads this
    {
      State(free, a, b, flag, todo, held, index, on)
    }

    ghost predicate Valid()
      reads this
    {
      Frames(frames) && index < BUFFERS
    }

    constructor (frames: seq<nat>)
      requires Frames(frames)
      ensures Valid() && this.frames == frames
      ensures Now() == State([], DUMMY, DUMMY, false, [], [], 0, false)
    {
      this.frames, free, a, b, flag, todo, held, index, on := frames, [], DUMMY, DUMMY, false, [], [], 0, false;
    }

    /** OSQAccept on the free queue. */
    method AcceptFree() returns (frame: nat)
      modifies this`free
      ensures Now() == old(Now()).(free := if old(free) == [] then [] else old(free)[1..])
      ensures frame == if old(free) == [] then 0 else old(free)[0]
    {
      frame := 0;
      if free != [] {
        frame, free := free[0], free[1..];
      }
    }

    /** vid_enc_csi_fifo_end. */
    method FifoEndCall(toA: bool, last: bool)
      modifies this`free, this`a, this`b, this`todo
      ensures Now() == FifoEnd(old(Now()), toA, last)
    {
      var next := AcceptFree();
      if next == 0 {
        next := DUMMY;
      }
      var ready;
      if toA {
        ready := a;
        a := next;
      } else {
        ready := b;
        b := next;
      }
      if ready != DUMMY {
        if |todo| < TODO_MAX {
          todo := todo + [Band(if last then ready + LAST else ready)];
        } else if |free| < FREE_MAX {
          free := free + [ready];
        }
      }
    }

    /** user_defined_video_codec_isr_csi. */
    method Interrupt(frameEnd: bool, fifoEnd: bool)
      requires Valid()
      modifies this`free, this`a, this`b, this`todo, this`flag
      ensures Valid() && Now() == Next(frames, old(Now()), Irq(frameEnd, fifoEnd))
      ensures AtMostOnce(frames, old(Now())) ==>
        AtMostOnce(frames, Now()) && Places(Now()) == Places(old(Now()))
    {
      ghost var was := Now();
      if AtMostOnce(frames, was) {
        CirculationKeeps(frames, was, Irq(frameEnd, fifoEnd));
      }
      hide Places, AtMostOnce;
      if on && (frameEnd || fifoEnd) {
        flag := !flag;
        if frameEnd {
          FifoEndCall(flag, true);
        } else {
          FifoEndCall(flag, false);
        }
      }
    }

    /** The encoder's OSQPend: one word from its queue. */
    method TakeBand()
      requires Valid() && todo != [] && held == []
      modifies this`todo, this`held
      ensures Now() == Next(frames, old(Now()), Pend)
      ensures todo == old(todo)[1..]
      ensures held == if old(todo)[0].Band? then [old(todo)[0].word % 0x8000_0000] else []
    {
      var w := todo[0];
      todo := todo[1..];
      if w.Band? {
        held := [w.word % LAST];
      }
    }

    /** Every path of the encoder ends by giving the band back. */
    method GiveBack()
      requires Valid() && held != []
      modifies this`free, this`held
      ensures Now() == Next(frames, old(Now()), Return)
    {
      if |free| < FREE_MAX {
        free := free + [held[0]];
      }
      held := held[1..];
    }

    /** avi_encode_get_csi_frame. */
    method GetFrame() returns (addr: nat)
      requires Valid()
      modifies this`index
      ensures Valid() && addr == frames[old(index)] && index == NextIndex(old(index))
    {
      addr := frames[index];
      index := index + 1;
      if index >= BUFFERS {
        index := 0;
      }
    }

    /** MSG_AVI_START_SENSOR, with the interrupt still disabled: whatever the index, the free queue and the
        registers get every buffer once. */
    method StartSensor()
      requires Valid() && !on
      modifies this`free, this`a, this`b, this`index, this`on
      ensures Valid() && Now() == Next(frames, old(Now()), Start)
      ensures ExactlyOnce(frames, Now()) <==> Bands(todo) == [] && |held| <= 1 && held == []
    {
      ghost var was := Now();
      if |held| <= 1 {
        StartExact(frames, was);
      }
      hide ExactlyOnce, Places, Bands, Gets;
      var first, second := LoadRegisters();
      a, b, on := first, second, true;
      assert Now() == Started(frames, was);
    }

    /** Five buffers into the free queue, two out again for the registers. */
    method LoadRegisters() returns (first: nat, second: nat)
      requires Valid()
      modifies this`free, this`index
      ensures Valid() && index == old(index)
      ensures var all := Gets(frames, index, BUFFERS);
        first == all[0] && second == all[1] && free == all[2..]
    {
      GetsNonzero(frames, index);
      LoadFree();
      hide Gets, Frames;
      first := AcceptFree();
      second := AcceptFree();
    }

    /** The free queue is emptied and gets five buffers. */
    method LoadFree()
      requires Valid()
      modifies this`free, this`index
      ensures Valid() && index == old(index) && free == Gets(frames, index, BUFFERS)
    {
      ghost var all := Gets(frames, index, BUFFERS);
      free := [];
      GetsAll(frames, index);
      assert [] + all == all;
      for i := 0 to BUFFERS
        invariant Valid() && |free| == i
        invariant free + Gets(frames, index, BUFFERS - i) == all
        invariant IndexAfter(index, BUFFERS - i) == old(index)
      {
        hide Gets, IndexAfter;
        GetsStep(frames, index, BUFFERS - i);
        Push(free, frames[index], Gets(frames, NextIndex(index), BUFFERS - i - 1));
        var addr := GetFrame();
        if |free| < FREE_MAX {
          free := free + [addr];
        }
      }
      assert Gets(frames, index, 0) == [];
    }

    /** MSG_AVI_STOP_SENSOR: interrupts still come between its writes, as many as the parameters say. Afterwards
        none of the buffers is in the free queue, no buffer has been doubled, and a register holds the dummy
        unless an interrupt came behind its write. */
    method StopSensor(before: nat, between: nat, after: nat)
      requires Valid() && AtMostOnce(frames, Now())
      modifies this`free, this`a, this`b, this`todo, this`flag, this`on
      ensures Valid() && AtMostOnce(frames, Now()) && free == [] && !on
      ensures after == 0 ==> b == 0x4000_0000 && (between == 0 ==> a == 0x4000_0000)
    {
      hide Next, AtMostOnce, Places, Frames;
      Interrupts(before);
      WriteA();
      Interrupts(between);
      WriteB();
      Interrupts(after);
      Disable();
      FlushQueue();
    }

    method WriteA()
      requires Valid() && AtMostOnce(frames, Now())
      modifies this`a
      ensures Valid() && Now() == Next(frames, old(Now()), StopA) && AtMostOnce(frames, Now())
      ensures a == DUMMY
    {
      hide AtMostOnce, Places, Isr, Started, Frames;
      DropKeeps(frames, Now(), StopA);
      a := DUMMY;
    }

    method WriteB()
      requires Valid() && AtMostOnce(frames, Now())
      modifies this`b
      ensures Valid() && Now() == Next(frames, old(Now()), StopB) && AtMostOnce(frames, Now())
      ensures b == DUMMY && a == old(a)
    {
      hide AtMostOnce, Places, Isr, Started, Frames;
      DropKeeps(frames, Now(), StopB);
      b := DUMMY;
    }

    method Disable()
      requires Valid() && AtMostOnce(frames, Now())
      modifies this`on
      ensures Valid() && Now() == Next(frames, old(Now()), Mask) && AtMostOnce(frames, Now()) && !on
      ensures a == old(a) && b == old(b)
    {
      hide AtMostOnce, Places, Isr, Started, Frames;
      DropKeeps(frames, Now(), Mask);
      on := false;
    }

    method FlushQueue()
      requires Valid() && AtMostOnce(frames, Now())
      modifies this`free
      ensures Valid() && Now() == Next(frames, old(Now()), FlushFree) && AtMostOnce(frames, Now())
      ensures free == [] && a == old(a) && b == old(b) && on == old(on)
    {
      hide AtMostOnce, Places, Isr, Started, Frames;
      DropKeeps(frames, Now(), FlushFree);
      free := [];
    }

    /** n interrupts. */
    method Interrupts(n: nat)
      requires Valid() && AtMostOnce(frames, Now())
      modifies this`free, this`a, this`b, this`todo, this`flag
      ensures Valid() && AtMostOnce(frames, Now()) && Places(Now()) == Places(old(Now()))
      ensures n == 0 ==> Now() == old(Now())
    {
      hide AtMostOnce, Places, Next;
      for i := 0 to n
        invariant Valid() && AtMostOnce(frames, Now()) && Places(Now()) == Places(old(Now()))
        invariant i == 0 ==> Now() == old(Now())
      {
        var frameEnd, fifoEnd := *, *;
        Interrupt(frameEnd, fifoEnd);
      }
    }
  }
}
