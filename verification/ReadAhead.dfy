// The volatile read-ahead window of android/emulator/gdox_qemu_disc.c.

module ReadAhead {
  import opened Bytes

  const SECTOR_BYTES: nat := 2048
  const WINDOW_BYTES: nat := 262144

  // An immutable disc with a fixed set of unreadable sectors.
  datatype Disc = Disc(data: seq<byte>, unreadable: set<nat>)

  function Min(a: nat, b: nat): nat {
    if a < b then a else b
  }

  ghost predicate Damaged(disc: Disc, begin: nat, end: nat) {
    exists sector :: sector in disc.unreadable
      && sector * SECTOR_BYTES < end && begin < (sector + 1) * SECTOR_BYTES
  }

  // What reading `count` bytes at `offset` straight from the disc gives: the
  // bytes that exist there, or a failure when one of their sectors is damaged.
  ghost function Direct(disc: Disc, offset: nat, count: nat): (r: Option<seq<byte>>) {
    if count == 0 || offset >= |disc.data| then Some([])
    else
      var end := Min(offset + count, |disc.data|);
      if Damaged(disc, offset, end) then None else Some(disc.data[offset..end])
  }

  // The read contract of the disc the block driver was given.
  method ReadAt(disc: Disc, offset: nat, output: array<byte>, count: nat) returns (ok: bool, filled: nat)
    requires count <= output.Length
    modifies output
    ensures ok <==> Direct(disc, offset, count).Some?
    ensures ok ==> filled <= count && output[..filled] == Direct(disc, offset, count).value
  {
    if count == 0 || offset >= |disc.data| {
      return true, 0;
    }
    var end := if offset + count < |disc.data| then offset + count else |disc.data|;
    if exists sector | sector in disc.unreadable
         :: sector * SECTOR_BYTES < end && offset < (sector + 1) * SECTOR_BYTES {
      return false, 0;
    }
    filled := end - offset;
    forall i | 0 <= i < filled {
      output[i] := disc.data[offset + i];
    }
    return true, filled;
  }

  // Containment without computing an end that could overflow.
  function RangeContains(containerOffset: nat, containerBytes: nat, offset: nat, bytes: nat): (r: bool)
    ensures r <==> containerOffset <= offset && offset + bytes <= containerOffset + containerBytes
  {
    if offset < containerOffset then false
    else
      var within := offset - containerOffset;
      within <= containerBytes && bytes <= containerBytes - within
  }

  class BlockState {
    const disc: Disc
    const window: array?<byte>
    var windowOffset: nat
    var windowBytes: nat
    var windowValid: bool
    var fills: nat
    var hits: nat
    var directReads: nat
    var requests: nat
    var bytes: nat
    var buckets: seq<nat>
    var sequential: nat
    var discontinuous: nat
    var previousEnd: nat
    var hasPreviousEnd: bool

    // A valid window holds the bytes of an undamaged range of the disc.
    ghost predicate Valid()
      reads this, window
    {
      && (window != null ==> window.Length == WINDOW_BYTES)
      && (windowValid ==>
            && window != null
            && windowBytes <= WINDOW_BYTES
            && windowOffset + windowBytes <= |disc.data|
            && !Damaged(disc, windowOffset, windowOffset + windowBytes)
            && window[..windowBytes] == disc.data[windowOffset..windowOffset + windowBytes])
    }

    constructor (disc: Disc, window: array?<byte>)
      requires window != null ==> window.Length == WINDOW_BYTES
      ensures Valid() && this.disc == disc && this.window == window && !windowValid
      ensures CountersValid(0) && requests == fills == hits == directReads == 0
    {
      this.disc := disc;
      this.window := window;
      windowOffset, windowBytes, windowValid := 0, 0, false;
      fills, hits, directReads, requests, bytes := 0, 0, 0, 0, 0;
      buckets := seq(7, _ => 0);
      sequential, discontinuous, previousEnd, hasPreviousEnd := 0, 0, 0, false;
      new;
      assert SumOf(seq(7, _ => 0)) == 0 by { SumOfZeros(7); }
    }

    method ReadDirect(offset: nat, output: array<byte>) returns (ok: bool, readBytes: nat)
      requires Valid() && output != window
      modifies this`directReads, output
      ensures Valid() && directReads == old(directReads) + 1
      ensures ok <==> Direct(disc, offset, output.Length).Some?
      ensures ok ==> readBytes <= output.Length && output[..readBytes] == Direct(disc, offset, output.Length).value
    {
      directReads := directReads + 1;
      ok, readBytes := ReadAt(disc, offset, output, output.Length);
    }

    method CopyFromWindow(offset: nat, output: array<byte>)
      requires Valid() && output != window && windowValid
      requires windowOffset <= offset && offset + output.Length <= windowOffset + windowBytes
      modifies output
      ensures Valid()
      ensures Direct(disc, offset, output.Length) == Some(output[..])
    {
      var within := offset - windowOffset;
      ghost var held := window[..windowBytes];
      WindowGivesDirect(disc, windowOffset, windowBytes, held, offset, output.Length);
      forall i | 0 <= i < output.Length {
        output[i] := window[within + i];
      }
      assert output[..] == held[within..within + output.Length];
    }

    // Refills the window from `offset`; a window that cannot be read in full
    // is left invalid.
    method FillWindow(offset: nat, fillBytes: nat) returns (filled: bool)
      requires Valid() && window != null
      requires offset < |disc.data| && fillBytes == Min(0x40000, |disc.data| - offset)
      modifies this`windowOffset, this`windowBytes, this`windowValid, this`fills, window
      ensures Valid()
      ensures filled == windowValid
      ensures fills == old(fills) + (if filled then 1 else 0)
      ensures filled ==> windowOffset == offset && windowBytes == fillBytes
      ensures filled <==> !Damaged(disc, offset, offset + fillBytes)
    {
      windowValid := false;
      var ok, count := ReadAt(disc, offset, window, fillBytes);
      if !ok || count != fillBytes {
        return false;
      }
      windowOffset := offset;
      windowBytes := fillBytes;
      windowValid := true;
      fills := fills + 1;
      return true;
    }

    // However the request is served, the caller cannot tell it from a direct
    // read, and exactly one of the three counters moves.
    method ReadWithAhead(offset: nat, output: array<byte>) returns (ok: bool, readBytes: nat)
      requires Valid() && output != window
      modifies this`windowOffset, this`windowBytes, this`windowValid,
               this`fills, this`hits, this`directReads, window, output
      ensures Valid()
      ensures ok <==> Direct(disc, offset, output.Length).Some?
      ensures ok ==> readBytes <= output.Length && output[..readBytes] == Direct(disc, offset, output.Length).value
      ensures fills >= old(fills) && hits >= old(hits) && directReads >= old(directReads)
      ensures fills + hits + directReads == old(fills + hits + directReads) + 1
      ensures hits > old(hits) <==>
                && old(windowValid) && offset < |disc.data|
                && old(windowOffset) <= offset
                && offset + output.Length <= old(windowOffset + windowBytes)
                && output.Length <= 0x40000
      ensures fills > old(fills) ==>
                && windowValid && windowOffset == offset
                && windowBytes == Min(0x40000, |disc.data| - offset)
    {
      var length := |disc.data|;
      if offset >= length || window == null || output.Length > WINDOW_BYTES {
        ok, readBytes := ReadDirect(offset, output);
        return;
      }
      if windowValid && RangeContains(windowOffset, windowBytes, offset, output.Length) {
        CopyFromWindow(offset, output);
        hits := hits + 1;
        assert output[..output.Length] == output[..];
        return true, output.Length;
      }
      var remaining := length - offset;
      var fillBytes := if remaining < WINDOW_BYTES then remaining else WINDOW_BYTES;
      if !RangeContains(offset, fillBytes, offset, output.Length) {
        ok, readBytes := ReadDirect(offset, output);
        return;
      }
      var filled := FillWindow(offset, fillBytes);
      if !filled {
        // A damaged sector further on must not fail the requested one.
        ok, readBytes := ReadDirect(offset, output);
        return;
      }
      CopyFromWindow(offset, output);
      assert output[..output.Length] == output[..];
      return true, output.Length;
    }

    // Every counted request is in one size bucket, and every one but the first
    // is either sequential or discontinuous; `unserved` requests were counted
    // but found no memory for a bounce buffer.
    ghost predicate CountersValid(unserved: nat)
      reads this
    {
      && |buckets| == 7
      && SumOf(buckets) == requests
      && (hasPreviousEnd <==> requests > 0)
      && sequential + discontinuous == (if requests == 0 then 0 else requests - 1)
      && requests == fills + hits + directReads + unserved
    }

    // The statistics of one request, kept before it is served.
    method CountRequest(offset: nat, count: nat, ghost unserved: nat)
      requires count > 0 && CountersValid(unserved)
      modifies this`requests, this`bytes, this`buckets, this`sequential, this`discontinuous,
               this`previousEnd, this`hasPreviousEnd
      ensures CountersValid(unserved + 1)
      ensures requests == old(requests) + 1 && bytes == old(bytes) + count
      ensures buckets == old(buckets)[BucketOf(count) := old(buckets[BucketOf(count)]) + 1]
      ensures sequential == old(sequential)
              + (if old(hasPreviousEnd) && old(previousEnd) == offset then 1 else 0)
      ensures previousEnd == offset + count
    {
      requests := requests + 1;
      bytes := bytes + count;
      var bucket := BucketOf(count);
      SumOfBump(buckets, bucket);
      buckets := buckets[bucket := buckets[bucket] + 1];
      if hasPreviousEnd {
        if offset == previousEnd {
          sequential := sequential + 1;
        } else {
          discontinuous := discontinuous + 1;
        }
      }
      previousEnd := offset + count;
      hasPreviousEnd := true;
    }

    // One block request. `output` is null when no bounce buffer can be
    // allocated. It succeeds exactly when the whole range exists and a direct
    // read of it succeeds, and then holds the bytes of that direct read.
    method Read(offset: int, count: int, output: array?<byte>, ghost unserved: nat)
      returns (ok: bool, ghost stillUnserved: nat)
      requires Valid() && CountersValid(unserved)
      requires output != null ==> output != window && output.Length == count
      modifies this, window, output
      ensures Valid() && CountersValid(stillUnserved)
      ensures stillUnserved == unserved + (if 0 <= offset && 0 < count && output == null then 1 else 0)
      ensures ok <==> && 0 <= offset && 0 <= count
                      && (count == 0 ||
                          (output != null && offset + count <= |disc.data| && Direct(disc, offset, count).Some?))
      ensures ok && count > 0 ==> output != null && Direct(disc, offset, count) == Some(output[..])
      ensures requests == old(requests) + (if 0 <= offset && 0 < count then 1 else 0)
      ensures bytes == old(bytes) + (if 0 <= offset && 0 < count then count else 0)
    {
      if offset < 0 || count < 0 {
        return false, unserved;
      }
      if count == 0 {
        return true, unserved;
      }
      CountRequest(offset, count, unserved);
      if output == null {
        return false, unserved + 1;
      }
      stillUnserved := unserved;
      var readOk, readBytes := ReadWithAhead(offset, output);
      if readOk {
        DirectLength(disc, offset, count);
        assert readBytes == |Direct(disc, offset, count).value|;
      }
      if !readOk || readBytes != count {
        return false, unserved;
      }
      assert output[..readBytes] == output[..];
      return true, unserved;
    }
  }

  // The seven size classes: up to 1, 2, 4, 8, 16, 32 sectors, and larger.
  function BucketOf(count: nat): (bucket: nat)
    ensures bucket < 7
    ensures bucket > 0 ==> count > 2048 * Power2(bucket - 1)
    ensures bucket < 6 ==> count <= 2048 * Power2(bucket)
  {
    if count <= SECTOR_BYTES then 0
    else if count <= 2 * SECTOR_BYTES then 1
    else if count <= 4 * SECTOR_BYTES then 2
    else if count <= 8 * SECTOR_BYTES then 3
    else if count <= 16 * SECTOR_BYTES then 4
    else if count <= 32 * SECTOR_BYTES then 5
    else 6
  }

  function Power2(n: nat): nat {
    if n == 0 then 1 else 2 * Power2(n - 1)
  }

  function SumOf(counts: seq<nat>): nat {
    if counts == [] then 0 else counts[0] + SumOf(counts[1..])
  }

  lemma {:induction false} SumOfZeros(n: nat)
    ensures SumOf(seq(n, _ => 0)) == 0
  {
    if n > 0 {
      assert seq(n, _ => 0)[1..] == seq(n - 1, _ => 0);
      SumOfZeros(n - 1);
    }
  }

  lemma {:induction false} SumOfBump(counts: seq<nat>, i: nat)
    requires i < |counts|
    ensures SumOf(counts[i := counts[i] + 1]) == SumOf(counts) + 1
  {
    if i > 0 {
      assert counts[i := counts[i] + 1][1..] == counts[1..][i - 1 := counts[1..][i - 1] + 1];
      SumOfBump(counts[1..], i - 1);
    } else {
      assert counts[0 := counts[0] + 1][1..] == counts[1..];
    }
  }

  // A request inside an undamaged window is one a direct read serves in full,
  // with the same bytes.
  lemma WindowGivesDirect(disc: Disc, windowOffset: nat, windowBytes: nat, window: seq<byte>, offset: nat, count: nat)
    requires windowOffset + windowBytes <= |disc.data| && |window| == windowBytes
    requires !Damaged(disc, windowOffset, windowOffset + windowBytes)
    requires window == disc.data[windowOffset..windowOffset + windowBytes]
    requires windowOffset <= offset && offset + count <= windowOffset + windowBytes
    ensures Direct(disc, offset, count) == Some(window[offset - windowOffset..offset - windowOffset + count])
  {
    if count != 0 {
      forall sector | sector in disc.unreadable
        ensures !(sector * SECTOR_BYTES < offset + count && offset < (sector + 1) * SECTOR_BYTES)
      {
        assert !(sector * SECTOR_BYTES < windowOffset + windowBytes && windowOffset < (sector + 1) * SECTOR_BYTES);
      }
      assert !Damaged(disc, offset, offset + count);
      assert disc.data[offset..offset + count]
          == window[offset - windowOffset..offset - windowOffset + count];
    }
  }

  lemma DirectLength(disc: Disc, offset: nat, count: nat)
    requires Direct(disc, offset, count).Some?
    ensures |Direct(disc, offset, count).value| == count <==> count == 0 || offset + count <= |disc.data|
  {
  }
}
