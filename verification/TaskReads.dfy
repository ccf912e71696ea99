/** Probe reads of a `task_struct`, in either byte order. */
module TaskReads {
  import opened Prelude
  import Kernel

  type Byte = x: nat | x < 256
  type Word = x: nat | x < 0x1_0000_0000

  /** Kernel memory: an address that is not there faults. */
  type Memory = map<nat, Byte>

  /** The value of `bytes`, most significant last when little-endian. */
  function Number(bytes: seq<Byte>, bigEndian: bool): nat {
    if bytes == [] then 0
    else if bigEndian then Number(bytes[..|bytes| - 1], true) * 256 + bytes[|bytes| - 1]
    else Number(bytes[1..], false) * 256 + bytes[0]
  }

  predicate Mapped(mem: Memory, at: nat, n: nat) {
    forall i :: at <= i < at + n ==> i in mem
  }

  function Bytes(mem: Memory, at: nat, n: nat): (r: seq<Byte>)
    requires Mapped(mem, at, n)
    ensures |r| == n && forall i :: 0 <= i < n ==> r[i] == mem[at + i]
  {
    seq(n, i requires 0 <= i < n && Mapped(mem, at, n) => mem[at + i])
  }

  /** `bpf_probe_read_kernel` of an n-byte integer: a fault anywhere fails the whole read. */
  function ProbeRead(mem: Memory, at: nat, n: nat, bigEndian: bool): Option<nat> {
    if Mapped(mem, at, n) then Some(Number(Bytes(mem, at, n), bigEndian)) else None
  }

  const NULL: nat := 0

  function ReadU32(mem: Memory, task: nat, offset: nat, bigEndian: bool): nat {
    if task == NULL then 0 else ProbeRead(mem, task + offset, 4, bigEndian).GetOr(0)
  }

  /** Both ids from one 8-byte load at `pid`. */
  function PidAndTgid(mem: Memory, task: nat, pidOffset: nat, bigEndian: bool): (nat, nat) {
    if task == NULL then (0, 0)
    else
      var word := ProbeRead(mem, task + pidOffset, 8, bigEndian).GetOr(0);
      if bigEndian then (word / 0x1_0000_0000, word % 0x1_0000_0000)
      else (word % 0x1_0000_0000, word / 0x1_0000_0000)
  }

  /** `signal->live`, through the pointer in the task; `None` when anything on the way is null or faults. */
  function LiveCount(mem: Memory, task: nat, signalOffset: nat, liveOffset: nat, pointerSize: nat, bigEndian: bool)
    : Option<nat>
  {
    if task == NULL then None
    else match ProbeRead(mem, task + signalOffset, pointerSize, bigEndian)
         case None => None
         case Some(signal) => if signal == NULL then None else ProbeRead(mem, signal + liveOffset, 4, bigEndian)
  }

  /** Four and eight bytes on literals: the first is the least significant, or the most when big-endian. */
  lemma FourBytes(b0: Byte, b1: Byte, b2: Byte, b3: Byte)
    ensures Number([b0, b1, b2, b3], false) == b0 + 0x100 * b1 + 0x1_0000 * b2 + 0x100_0000 * b3
    ensures Number([b0, b1, b2, b3], true) == b3 + 0x100 * b2 + 0x1_0000 * b1 + 0x100_0000 * b0
  {
    assert [b0, b1, b2, b3][1..] == [b1, b2, b3] && [b1, b2, b3][1..] == [b2, b3] && [b2, b3][1..] == [b3];
    assert Number([b3], false) == b3 && Number([b2, b3], false) == b3 * 256 + b2;
    assert Number([b1, b2, b3], false) == (b3 * 256 + b2) * 256 + b1;
    assert [b0, b1, b2, b3][..3] == [b0, b1, b2] && [b0, b1, b2][..2] == [b0, b1] && [b0, b1][..1] == [b0];
    assert Number([b0], true) == b0 && Number([b0, b1], true) == b0 * 256 + b1;
    assert Number([b0, b1, b2], true) == (b0 * 256 + b1) * 256 + b2;
  }

  /** A null task and a fault both read as zero. */
  lemma UnreadableIsZero(mem: Memory, task: nat, offset: nat, bigEndian: bool)
    requires task == NULL || !Mapped(mem, task + offset, 4)
    ensures ReadU32(mem, task, offset, bigEndian) == 0 && PidAndTgid(mem, task, offset, bigEndian) == (0, 0)
  {
  }

  lemma {:induction false} NumberBound(bytes: seq<Byte>, bigEndian: bool)
    ensures Number(bytes, bigEndian) < Power256(|bytes|)
  {
    if bytes != [] {
      NumberBound(if bigEndian then bytes[..|bytes| - 1] else bytes[1..], bigEndian);
    }
  }

  function Power256(n: nat): nat {
    if n == 0 then 1 else Power256(n - 1) * 256
  }

  /** Gluing two runs of bytes: the later run is the low half big-endian and the high half little-endian. */
  lemma {:induction false} NumberConcat(a: seq<Byte>, b: seq<Byte>, bigEndian: bool)
    ensures Number(a + b, bigEndian)
         == if bigEndian then Number(a, true) * Power256(|b|) + Number(b, true)
            else Number(b, false) * Power256(|a|) + Number(a, false)
    decreases |a| + |b|
  {
    if bigEndian {
      if b == [] {
        assert a + b == a;
      } else {
        assert (a + b)[..|a + b| - 1] == a + b[..|b| - 1];
        NumberConcat(a, b[..|b| - 1], true);
        Regroup(Number(a, true), Power256(|b| - 1));
      }
    } else if a == [] {
      assert a + b == b;
    } else {
      assert (a + b)[1..] == a[1..] + b;
      NumberConcat(a[1..], b, false);
      Regroup(Number(b, false), Power256(|a| - 1));
    }
  }

  lemma Regroup(x: nat, p: nat)
    ensures (x * p) * 256 == x * (p * 256)
  {
  }

  lemma {:induction false} EightFromFours(mem: Memory, at: nat, bigEndian: bool)
    requires Mapped(mem, at, 8)
    ensures Mapped(mem, at, 4) && Mapped(mem, at + 4, 4)
    ensures
      var first, second := Number(Bytes(mem, at, 4), bigEndian), Number(Bytes(mem, at + 4, 4), bigEndian);
      && first < 0x1_0000_0000 && second < 0x1_0000_0000
      && Number(Bytes(mem, at, 8), bigEndian)
         == if bigEndian then first * 0x1_0000_0000 + second else second * 0x1_0000_0000 + first
  {
    assert Bytes(mem, at, 8) == Bytes(mem, at, 4) + Bytes(mem, at + 4, 4);
    NumberConcat(Bytes(mem, at, 4), Bytes(mem, at + 4, 4), bigEndian);
    NumberBound(Bytes(mem, at, 4), bigEndian);
    NumberBound(Bytes(mem, at + 4, 4), bigEndian);
    assert Power256(4) == 0x1_0000_0000 by { assert Power256(2) == 65536; }
  }

  lemma Halves(high: nat, low: nat)
    requires low < 0x1_0000_0000
    ensures (high * 0x1_0000_0000 + low) / 0x1_0000_0000 == high
    ensures (high * 0x1_0000_0000 + low) % 0x1_0000_0000 == low
  {
  }

  lemma {:induction false} LoadSplits(mem: Memory, at: nat, bigEndian: bool)
    requires Mapped(mem, at, 8)
    ensures Mapped(mem, at, 4) && Mapped(mem, at + 4, 4)
    ensures
      var word := Number(Bytes(mem, at, 8), bigEndian);
      var first, second := Number(Bytes(mem, at, 4), bigEndian), Number(Bytes(mem, at + 4, 4), bigEndian);
      (first, second) == if bigEndian then (word / 0x1_0000_0000, word % 0x1_0000_0000)
                         else (word % 0x1_0000_0000, word / 0x1_0000_0000)
  {
    EightFromFours(mem, at, bigEndian);
    var first, second := Number(Bytes(mem, at, 4), bigEndian), Number(Bytes(mem, at + 4, 4), bigEndian);
    Halves(first, second);
    Halves(second, first);
  }

  /**
   The single load gives the same pair as two reads exactly when it does not
   fault, or both words read as zero anyway.
  */
  lemma OneLoadIsTwoReads(mem: Memory, task: nat, pid: nat, tgid: nat, bigEndian: bool)
    requires tgid == pid + 4
    ensures PidAndTgid(mem, task, pid, bigEndian)
            == (ReadU32(mem, task, pid, bigEndian), ReadU32(mem, task, tgid, bigEndian))
       <==> (task == NULL || Mapped(mem, task + pid, 8)
             || (ReadU32(mem, task, pid, bigEndian) == 0 && ReadU32(mem, task, tgid, bigEndian) == 0))
  {
    if Mapped(mem, task + pid, 8) {
      LoadSplits(mem, task + pid, bigEndian);
    }
  }

  // ---- whether the group is dead ----

  lemma {:induction false} ZeroIsAllZeros(bytes: seq<Byte>, bigEndian: bool)
    ensures Number(bytes, bigEndian) == 0 <==> forall i :: 0 <= i < |bytes| ==> bytes[i] == 0
  {
    if bytes != [] {
      var last := |bytes| - 1;
      ZeroIsAllZeros(if bigEndian then bytes[..last] else bytes[1..], bigEndian);
      if bigEndian {
        assert forall i :: 0 <= i < last ==> bytes[..last][i] == bytes[i];
      } else {
        assert forall i :: 0 < i < |bytes| ==> bytes[i] == bytes[1..][i - 1];
      }
    }
  }

  /** Four zero bytes can be read at `at`. */
  predicate HoldsZero(mem: Memory, at: nat) {
    Mapped(mem, at, 4) && forall i :: at <= i < at + 4 ==> mem[i] == 0
  }

  lemma ReadsZero(mem: Memory, at: nat, bigEndian: bool)
    ensures ProbeRead(mem, at, 4, bigEndian) == Some(0) <==> HoldsZero(mem, at)
  {
    if Mapped(mem, at, 4) {
      var bytes := Bytes(mem, at, 4);
      ZeroIsAllZeros(bytes, bigEndian);
      forall i | at <= i < at + 4 ensures mem[i] == bytes[i - at] {}
      if HoldsZero(mem, at) {
        forall i | 0 <= i < 4 ensures bytes[i] == 0 {}
      }
    }
  }

  /**
   A group counts as dead exactly when the whole chain can be read and ends in a
   zero count: a null task, a fault at either hop or a null `signal` never kills.
  */
  lemma {:induction false} DeadIsReadZero(mem: Memory, task: nat, signalOffset: nat, liveOffset: nat,
                                          pointerSize: nat, bigEndian: bool)
    ensures Kernel.GroupIsDead(LiveCount(mem, task, signalOffset, liveOffset, pointerSize, bigEndian))
       <==> task != NULL && Mapped(mem, task + signalOffset, pointerSize)
            && var signal := Number(Bytes(mem, task + signalOffset, pointerSize), bigEndian);
               signal != NULL && HoldsZero(mem, signal + liveOffset)
  {
    if task != NULL && Mapped(mem, task + signalOffset, pointerSize) {
      ReadsZero(mem, Number(Bytes(mem, task + signalOffset, pointerSize), bigEndian) + liveOffset, bigEndian);
    }
  }

  // ---- the offset of the run state ----

  /** Where the run state is read: the new 32-bit field, or the meaningful half of the old native long. */
  function StateOffset(newField: Option<nat>, oldField: Option<nat>, bigEndian: bool, pointerBytes: nat): Option<nat> {
    match newField
    case Some(offset) => Some(offset)
    case None =>
      match oldField
      case None => None
      case Some(offset) => Some(offset + if bigEndian && pointerBytes == 8 then 4 else 0)
  }

  /** Where the new field exists it is read itself, whatever the old one, the width or the byte order. */
  lemma NewStateIsRead(mem: Memory, task: nat, field: nat, oldField: Option<nat>, bigEndian: bool, pointerBytes: nat)
    requires task != NULL && Mapped(mem, task + field, 4)
    ensures
      var offset := StateOffset(Some(field), oldField, bigEndian, pointerBytes);
      offset == Some(field)
      && ReadU32(mem, task, offset.value, bigEndian) == ProbeRead(mem, task + field, 4, bigEndian).value
  {
  }

  /** With neither field there is nowhere to read it. */
  lemma NoStateNoOffset(bigEndian: bool, pointerBytes: nat)
    ensures StateOffset(None, None, bigEndian, pointerBytes) == None
  {
  }

  /** On a 4- or 8-byte long, in either byte order, that read is the low 32 bits of the whole field. */
  lemma StateIsLowWord(mem: Memory, task: nat, field: nat, bigEndian: bool, pointerBytes: nat)
    requires task != NULL && (pointerBytes == 4 || pointerBytes == 8)
    requires Mapped(mem, task + field, pointerBytes)
    ensures
      var offset := StateOffset(None, Some(field), bigEndian, pointerBytes);
      offset.Some? && ReadU32(mem, task, offset.value, bigEndian)
      == ProbeRead(mem, task + field, pointerBytes, bigEndian).value % 0x1_0000_0000
  {
    if pointerBytes == 8 {
      LoadSplits(mem, task + field, bigEndian);
    } else {
      NumberBound(Bytes(mem, task + field, 4), bigEndian);
      assert Power256(4) == 0x1_0000_0000 by { assert Power256(2) == 65536; }
    }
  }
}
