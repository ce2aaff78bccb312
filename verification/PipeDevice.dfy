/**
 The scull pipe device: the fields of `struct scull_pipe` and what each file
 operation does to them while it holds the device semaphore.
 Sleeping and waking are in PipeProtocol.
 */
module PipeDevice {
  import opened Common
  import PR = PipeRing

  datatype ReadResult = Eof | WouldSleep | Fault | Data(bytes: seq<byte>)
  datatype WriteResult = NoSpace | BadAddress | Wrote(count: nat)
  datatype Mode = Mode(read: bool, write: bool)
  datatype PollMask = PollMask(readable: bool, writable: bool, hangup: bool)

  class ScullPipe {
    var start: array?<byte>
    var buffersize: nat
    var rp: nat
    var wp: nat
    var nreaders: int
    var nwriters: int

    constructor ()
      ensures Valid() && start == null && nreaders == nwriters == 0
    {
      start := null;
      buffersize, rp, wp, nreaders, nwriters := 0, 0, 0, 0, 0;
    }

    ghost predicate Valid()
      reads this, start
    {
      start != null ==> start.Length == buffersize && Ring().Valid()
    }

    ghost function Ring(): PR.Ring
      requires start != null
      reads this, start
    {
      PR.Ring(start[..], rp, wp)
    }

    ghost function Contents(): seq<byte>
      requires start != null && Valid()
      reads this, start
    {
      Ring().Contents()
    }

    method GetSpaceFree() returns (n: int)
      requires Valid() && start != null
      ensures n == buffersize - 1 - |Contents()|
      ensures n == PR.SpaceFree(rp, wp, buffersize)
    {
      if rp == wp {
        n := buffersize - 1;
      } else {
        n := (rp - wp + buffersize) % buffersize - 1;
      }
      PR.SpaceLaw(Ring());
    }

    /** How much of `count` bytes one read takes: as much as is queued before the end of the buffer. */
    method ReadRoom(count: nat) returns (n: nat)
      requires Valid() && start != null && rp != wp
      ensures n <= count && n <= |Contents()| && rp + n <= buffersize
      ensures n == count || n == |Contents()| || rp + n == buffersize
      ensures count > 0 ==> n > 0
      ensures n == Ring().ReadCount(count)
    {
      PR.ReadTakesPrefix(Ring(), count);
      n := if wp > rp then Min(count, wp - rp) else Min(count, buffersize - rp);
    }

    /** One pass through `scull_p_read` under the semaphore; `fault` is the outcome of `copy_to_user`. */
    method TryRead(count: nat, fault: bool) returns (r: ReadResult)
      requires Valid() && start != null
      modifies this`rp
      ensures Valid()
      ensures r.Eof? <==> old(Contents()) == [] && nwriters == 0
      ensures r.WouldSleep? <==> old(Contents()) == [] && nwriters != 0
      ensures r.Fault? <==> old(Contents()) != [] && fault
      ensures r.Data? ==>
        && r.bytes + Contents() == old(Contents())
        && |r.bytes| == old(Ring()).ReadCount(count)
        && (count > 0 ==> r.bytes != [])
        && Ring() == old(Ring()).AdvanceRead(|r.bytes|).WrapRead()
      ensures !r.Data? ==> Ring() == old(Ring())
    {
      PR.SpaceLaw(Ring());
      if rp == wp {
        r := if nwriters == 0 then Eof else WouldSleep;
        return;
      }
      var n := ReadRoom(count);
      if fault {
        return Fault;
      }
      PR.ReadSection(Ring(), count);
      var bytes := Take(n, count);
      r := Data(bytes);
    }

    /** `copy_to_user` of `n` bytes from `dev->rp`, then the pointer. */
    method Take(n: nat, ghost count: nat) returns (bytes: seq<byte>)
      requires Valid() && start != null && rp != wp && n == Ring().ReadCount(count) && rp + n <= buffersize
      modifies this`rp
      ensures Valid() && |bytes| == n && bytes + Contents() == old(Contents())
      ensures Ring() == old(Ring()).AdvanceRead(n).WrapRead()
    {
      ghost var was := Ring();
      PR.ReadSection(was, count);
      bytes := start[rp..rp + n];
      assert bytes == was.buf[was.rp..was.rp + n];
      AdvanceRp(n);
      assert Contents() == was.AdvanceRead(n).WrapRead().Contents();
    }

    /** `dev->rp += count` and the wrap. */
    method AdvanceRp(n: nat)
      requires start != null && start.Length == buffersize && rp + n <= buffersize
      modifies this`rp
      ensures Ring() == old(Ring()).AdvanceRead(n).WrapRead()
    {
      rp := rp + n;
      if rp == buffersize {
        rp := 0;
      }
    }

    /** How much of `count` bytes one write accepts: as much as is free before the end of the buffer. */
    method WriteRoom(count: nat, free: nat) returns (n: nat)
      requires Valid() && start != null && free == PR.SpaceFree(rp, wp, buffersize) > 0
      ensures n <= count && |Contents()| + n <= buffersize - 1 && wp + n <= buffersize
      ensures n == count || |Contents()| + n == buffersize - 1 || wp + n == buffersize
      ensures count > 0 ==> n > 0
      ensures n == Ring().WriteCount(count)
    {
      PR.SpaceLaw(Ring());
      n := Min(count, free);
      if wp >= rp {
        var bytesToEnd := buffersize - wp;
        if bytesToEnd > 0 {
          n := Min(n, bytesToEnd);
        }
      } else {
        n := Min(n, rp - wp - 1);
      }
    }

    /** `copy_from_user` to `dev->wp`. */
    method CopyIn(data: seq<byte>)
      requires start != null && start.Length == buffersize && wp + |data| <= buffersize
      modifies start
      ensures start[..] == Splice(old(start[..]), wp, data)
    {
      forall i | 0 <= i < |data| {
        start[wp + i] := data[i];
      }
    }

    /** `dev->wp += count`, after the copy, and the wrap. */
    method AdvanceWp(data: seq<byte>)
      requires start != null && start.Length == buffersize && wp + |data| <= buffersize
      modifies this`wp, start
      ensures start != null && start.Length == buffersize
      ensures Ring() == old(Ring()).AdvanceWrite(data).WrapWrite()
    {
      CopyIn(data);
      wp := wp + |data|;
      if wp == buffersize {
        wp := 0;
      }
    }

    /** One pass through `scull_p_write` under the semaphore; `copied` is how far `copy_from_user` gets. */
    method TryWrite(data: seq<byte>, copied: nat) returns (r: WriteResult)
      requires Valid() && start != null
      modifies this`wp, start
      ensures Valid()
      ensures r.NoSpace? <==> |old(Contents())| == buffersize - 1
      ensures r.BadAddress? <==> |old(Contents())| < buffersize - 1 && copied < old(Ring()).WriteCount(|data|)
      ensures r.Wrote? ==>
        && r.count == old(Ring()).WriteCount(|data|) <= |data| && old(wp) + r.count <= buffersize
        && (r.count == |data| || |Contents()| == buffersize - 1 || old(wp) + r.count == buffersize)
        && Contents() == old(Contents()) + data[..r.count]
        && (data != [] ==> r.count > 0)
        && Ring() == old(Ring()).AdvanceWrite(data[..r.count]).WrapWrite()
      ensures !r.Wrote? ==> Contents() == old(Contents()) && wp == old(wp)
    {
      var free := GetSpaceFree();
      if free == 0 {
        return NoSpace;
      }
      ghost var was := Ring();
      PR.SpaceLaw(was);
      var n := WriteRoom(|data|, free);
      PR.WriteSection(was, data);
      if copied < n {
        PR.BrokenCopyIsInvisible(was, data[..copied]);
        CopyIn(data[..copied]);
        return BadAddress;
      }
      AdvanceWp(data[..n]);
      r := Wrote(n);
    }

    /** `bufferSize` is `scull_p_buffer`, `kmallocOk` the outcome of `kmalloc`. */
    method Open(mode: Mode, bufferSize: nat, kmallocOk: bool) returns (ok: bool)
      requires Valid() && 0 < bufferSize
      modifies this
      ensures Valid()
      ensures ok <==> old(start) != null || kmallocOk
      ensures !ok ==> unchanged(this)
      ensures ok ==>
        && start != null
        && nreaders == old(nreaders) + (if mode.read then 1 else 0)
        && nwriters == old(nwriters) + (if mode.write then 1 else 0)
        && (old(start) != null ==> start == old(start) && Ring() == old(Ring()))
        && (old(start) == null ==> fresh(start) && start.Length == bufferSize && Contents() == [])
    {
      if start == null {
        if !kmallocOk {
          return false;
        }
        start := new byte[bufferSize](_ => 0);
        buffersize := bufferSize;
        rp, wp := 0, 0;
      }
      if mode.write {
        nwriters := nwriters + 1;
      }
      if mode.read {
        nreaders := nreaders + 1;
      }
      ok := true;
    }

    /** `wakeReaders` tells whether the last writer left and `inq` is woken. */
    method Release(mode: Mode) returns (wakeReaders: bool)
      requires Valid()
      modifies this
      ensures Valid()
      ensures nreaders == old(nreaders) - (if mode.read then 1 else 0)
      ensures nwriters == old(nwriters) - (if mode.write then 1 else 0)
      ensures wakeReaders <==> mode.write && nwriters == 0
      ensures nreaders == nwriters == 0 ==> start == null
      ensures !(nreaders == nwriters == 0) ==> start == old(start) && (start != null ==> Ring() == old(Ring()))
    {
      wakeReaders := false;
      if mode.write {
        nwriters := nwriters - 1;
        wakeReaders := nwriters == 0;
      }
      if mode.read {
        nreaders := nreaders - 1;
      }
      if nreaders == 0 && nwriters == 0 {
        start := null;
      }
    }

    method Poll() returns (mask: PollMask)
      requires Valid() && start != null
      ensures mask.writable <==> |Contents()| < buffersize - 1
      ensures mask.hangup <==> Contents() == [] && nwriters == 0
      ensures mask.readable <==> Contents() != [] || nwriters == 0
    {
      PR.SpaceLaw(Ring());
      var readable := rp != wp;
      var free := GetSpaceFree();
      var hangup := rp == wp && nwriters == 0;
      mask := PollMask(readable || hangup, free != 0, hangup);
    }
  }
}
