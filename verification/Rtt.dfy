/** The RTT ring buffers shared with the debug host. */
module Rtt {
  const RTT_UP_BUFFER_SIZE := 256
  const RTT_DOWN_BUFFER_SIZE := 16

  // ----- ring arithmetic

  /** The index after i. */
  function Step(i: nat, size: nat): (r: nat)
    requires size > 0
    ensures r < size
  {
    if i + 1 >= size then 0 else i + 1
  }

  /** The bytes from index r up to, not including, index w. */
  function Unread(p: seq<char>, r: nat, w: nat): (u: seq<char>)
    requires r < |p| && w < |p|
    ensures |u| == Lag(|p|, r, w) <= |p| - 1
  {
    if r <= w then p[r..w] else p[r..] + p[..w]
  }

  /** What `rtt_peek` computes from the two indices. */
  function Lag(size: nat, r: nat, w: nat): (k: nat)
    requires r < size && w < size
  {
    if w >= r then w - r else size - r + w
  }

  /** One slot always stays free: equal indices mean empty, and a full ring has the write index just behind
      the read index. */
  lemma EmptyAndFull(p: seq<char>, r: nat, w: nat)
    requires r < |p| && w < |p|
    ensures Unread(p, r, w) == [] <==> r == w
    ensures |Unread(p, r, w)| == |p| - 1 <==> Step(w, |p|) == r
  {
  }

  /** A byte stored at the write index is invisible until the index moves past it, and then it is last. */
  lemma StoreThenPublish(p: seq<char>, r: nat, w: nat, c: char)
    requires r < |p| && w < |p| && Step(w, |p|) != r
    ensures Unread(p[w := c], r, w) == Unread(p, r, w)
    ensures Unread(p[w := c], r, Step(w, |p|)) == Unread(p, r, w) + [c]
  {
    var q := p[w := c];
    if r <= w {
      if w + 1 < |p| { assert q[r..w+1] == p[r..w] + [c]; } else { assert q[r..] + q[..0] == p[r..w] + [c]; }
    } else {
      assert q[r..] == p[r..] && q[..w+1] == p[..w] + [c];
    }
  }

  /** Reading takes the first unread byte. */
  lemma TakeFirst(p: seq<char>, r: nat, w: nat)
    requires r < |p| && w < |p| && r != w
    ensures Unread(p, r, w) == [p[r]] + Unread(p, Step(r, |p|), w)
  {
    if r < w {
      assert p[r..w] == [p[r]] + p[r+1..w];
    } else if r + 1 < |p| {
      assert p[r..] == [p[r]] + p[r+1..];
      Associate([p[r]], p[r+1..], p[..w]);
    } else {
      assert p[r..] == [p[r]] && p[0..w] == p[..w];
    }
  }

  lemma Associate(a: seq<char>, b: seq<char>, c: seq<char>)
    ensures (a + b) + c == a + (b + c)
  {
  }

  /** It leaves the stream as it was, one byte further on. */
  lemma TakeNext(p: seq<char>, r: nat, w: nat, got: seq<char>)
    requires r < |p| && w < |p| && r != w
    ensures got + Unread(p, r, w) == (got + [p[r]]) + Unread(p, Step(r, |p|), w)
    ensures Lag(|p|, Step(r, |p|), w) == Lag(|p|, r, w) - 1
  {
    TakeFirst(p, r, w);
    hide Unread;
    Associate(got, [p[r]], Unread(p, Step(r, |p|), w));
  }

  // ----- to the host

  /** The up channel. `written` and `consumed` are the whole histories of the two sides. */
  class UpChannel {
    const p: array<char>
    var wIdx: nat
    var rIdx: nat                   // moved by the host only
    ghost var written: seq<char>
    ghost var consumed: seq<char>

    ghost predicate Valid()
      reads this, p
      ensures Valid() ==> consumed <= written && |written| - |consumed| <= p.Length - 1
      ensures Valid() ==> (wIdx == rIdx <==> consumed == written)
    {
      && p.Length >= 2 && wIdx < p.Length && rIdx < p.Length
      && consumed + Unread(p[..], rIdx, wIdx) == written
    }

    /** The up half of `rtt_init`. */
    constructor ()
      ensures Valid() && fresh(p) && p.Length == RTT_UP_BUFFER_SIZE
      ensures written == [] && consumed == []
    {
      p := new char[RTT_UP_BUFFER_SIZE];
      wIdx, rIdx := 0, 0;
      written, consumed := [], [];
    }

    /** The host takes one unread byte; it may move nothing but its own index. */
    method HostTakesOne()
      requires Valid() && rIdx != wIdx
      modifies this`rIdx, this`consumed
      ensures Valid() && consumed == old(consumed) + [p[old(rIdx)]] && rIdx == Step(old(rIdx), p.Length)
    {
      hide Unread;
      TakeNext(p[..], rIdx, wIdx, consumed);
      consumed := consumed + [p[rIdx]];
      rIdx := Step(rIdx, p.Length);
    }

    /** The host takes up to k unread bytes. */
    method HostReads(k: nat)
      requires Valid()
      modifies this`rIdx, this`consumed
      ensures Valid() && old(consumed) <= consumed
    {
      var left := k;
      while left > 0 && rIdx != wIdx
        invariant Valid() && old(consumed) <= consumed
      {
        HostTakesOne();
        left := left - 1;
      }
    }

    /** Anything the host may do between two steps of the kernel. */
    method Interfere()
      requires Valid()
      modifies this`rIdx, this`consumed
      ensures Valid() && old(consumed) <= consumed
      ensures old(rIdx) != Step(wIdx, p.Length) ==> rIdx != Step(wIdx, p.Length)
    {
      var k: nat := *;
      EmptyAndFull(p[..], rIdx, wIdx);
      HostReads(k);
      EmptyAndFull(p[..], rIdx, wIdx);
    }

    /** The busy loop on a full buffer, with a host that reads again after finitely many polls. */
    method AwaitSpace()
      requires Valid()
      modifies this`rIdx, this`consumed
      ensures Valid() && old(consumed) <= consumed
      ensures rIdx != Step(wIdx, p.Length)
    {
      var polls: nat := *;
      while rIdx == Step(wIdx, p.Length)
        invariant Valid() && old(consumed) <= consumed
        decreases rIdx == Step(wIdx, p.Length), polls
      {
        if polls == 0 {
          HostTakesOne();
          break;
        }
        Interfere();
        polls := polls - 1;
      }
    }

    /** `rtt_write`: whatever the host does in between, exactly the given bytes are appended to what has
        been written, and what the host has consumed is a prefix of it. */
    method Write(src: array?<char>, len: nat) returns (count: nat)
      requires Valid() && src != p && (src != null ==> len <= src.Length)
      modifies this, p
      ensures Valid() && old(consumed) <= consumed <= written
      ensures src == null ==> count == 0 && written == old(written)
      ensures src != null ==> count == len && written == old(written) + src[..len]
    {
      if src == null {
        return 0;
      }
      var writeIndex := wIdx;
      count := 0;
      while count < len
        invariant count <= len && Valid() && writeIndex == wIdx
        invariant old(consumed) <= consumed
        invariant written == old(written) + src[..count]
      {
        PutByte(src[count]);
        writeIndex := wIdx;
        Interfere();
        assert src[..count+1] == src[..count] + [src[count]];
        count := count + 1;
      }
    }

    /** One round of the loop of `rtt_write`: wait for room, store the byte, then publish it. */
    method PutByte(c: char)
      requires Valid()
      modifies this, p
      ensures Valid() && old(consumed) <= consumed && written == old(written) + [c]
    {
      var conflict := if wIdx + 1 >= p.Length then 0 else wIdx + 1;
      AwaitSpace();
      Interfere();
      Store(c);
      Interfere();
      Publish(conflict, c);
    }

    /** Storing a byte at the write index, where the host does not look yet. */
    method Store(c: char)
      requires Valid() && Step(wIdx, p.Length) != rIdx
      modifies p
      ensures Valid() && p[..] == old(p[..])[wIdx := c]
    {
      StoreThenPublish(p[..], rIdx, wIdx, c);
      p[wIdx] := c;
    }

    /** Moving the write index past the byte stored there. */
    method Publish(next: nat, ghost c: char)
      requires Valid() && next == Step(wIdx, p.Length) != rIdx && p[wIdx] == c
      modifies this`wIdx, this`written
      ensures Valid() && wIdx == next && written == old(written) + [c]
    {
      assert p[..] == p[..][wIdx := c];
      StoreThenPublish(p[..], rIdx, wIdx, c);
      wIdx := next;
      written := written + [c];
    }
  }

  // ----- from the host

  /** What one stored byte adds to the part already read, and that the part beyond is untouched. */
  lemma SameElsewhere(before: seq<char>, after: seq<char>, i: nat, n: nat)
    requires i < n <= |before| && |after| == |before| && after == before[i := after[i]]
    ensures after[..i+1] == before[..i] + [after[i]] && after[n..] == before[n..]
  {
  }

  /** The down channel. `sent` is the host's whole stream, `received` what the kernel took from it. */
  class DownChannel {
    const p: array<char>
    var wIdx: nat                   // moved by the host only
    var rIdx: nat
    ghost var sent: seq<char>
    ghost var received: seq<char>

    ghost predicate Valid()
      reads this, p
      ensures Valid() ==> received <= sent
    {
      && p.Length >= 2 && wIdx < p.Length && rIdx < p.Length
      && received + Unread(p[..], rIdx, wIdx) == sent
    }

    /** How many bytes are waiting. */
    ghost function Available(): (k: nat)
      requires Valid()
      reads this, p
      ensures k == |sent| - |received| <= p.Length - 1
    {
      Lag(p.Length, rIdx, wIdx)
    }

    /** The down half of `rtt_init`. */
    constructor ()
      ensures Valid() && fresh(p) && p.Length == RTT_DOWN_BUFFER_SIZE
      ensures sent == [] && received == []
    {
      p := new char[RTT_DOWN_BUFFER_SIZE];
      wIdx, rIdx := 0, 0;
      sent, received := [], [];
    }

    /** The host sends bytes while there is room; it may not touch the read index. */
    method HostSends(bytes: seq<char>)
      requires Valid()
      modifies this`wIdx, this`sent, p
      ensures Valid() && old(sent) <= sent
      ensures bytes != [] && old(wIdx) == rIdx ==> wIdx != rIdx
    {
      var k := 0;
      while k < |bytes| && Step(wIdx, p.Length) != rIdx
        invariant Valid() && old(sent) <= sent && k <= |bytes|
        invariant k == 0 ==> wIdx == old(wIdx)
        invariant k > 0 ==> wIdx != rIdx
      {
        StoreThenPublish(p[..], rIdx, wIdx, bytes[k]);
        hide Unread;
        ghost var before := p[..];
        p[wIdx] := bytes[k];
        assert p[..] == before[wIdx := bytes[k]];
        wIdx := Step(wIdx, p.Length);
        sent := sent + [bytes[k]];
        k := k + 1;
      }
    }

    /** Anything the host may do between two steps of the kernel. */
    method Interfere()
      requires Valid()
      modifies this`wIdx, this`sent, p
      ensures Valid() && old(sent) <= sent && old(Available()) <= Available()
    {
      var bytes: seq<char> := *;
      HostSends(bytes);
    }

    /** The busy loop on an empty buffer, with a host that sends again after finitely many polls; `spins`
        counts the polls that found nothing. */
    method AwaitByte() returns (ghost spins: nat)
      requires Valid()
      modifies this`wIdx, this`sent, p
      ensures Valid() && old(sent) <= sent && wIdx != rIdx && old(Available()) <= Available()
      ensures old(wIdx) != rIdx ==> spins == 0
    {
      var polls: nat := *;
      spins := 0;
      while wIdx == rIdx
        invariant Valid() && old(sent) <= sent
        invariant old(wIdx) != rIdx ==> spins == 0 && wIdx != rIdx
        decreases wIdx == rIdx, polls
      {
        spins := spins + 1;
        if polls == 0 {
          var byte: char := *;
          HostSends([byte]);
          break;
        }
        Interfere();
        polls := polls - 1;
      }
    }

    /** `rtt_peek`: the count may be out of date by the time it is returned, but never too large. */
    method Peek() returns (k: nat)
      requires Valid()
      modifies this`wIdx, this`sent, p
      ensures Valid() && old(sent) <= sent && received == old(received)
      ensures old(Available()) <= k <= Available()
    {
      var readIndex := rIdx;
      Interfere();
      var writeIndex := wIdx;
      k := if writeIndex >= readIndex then writeIndex - readIndex else p.Length - readIndex + writeIndex;
      Interfere();
    }

    /** The kernel's side of one byte: copy it out, then move the read index. */
    method TakeByte(dst: array<char>, i: nat)
      requires Valid() && rIdx != wIdx && dst != p && i < dst.Length
      modifies this`rIdx, this`received, dst
      ensures Valid() && sent == old(sent) && received == old(received) + [dst[i]]
      ensures dst[..] == old(dst[..])[i := dst[i]]
      ensures rIdx == Step(old(rIdx), p.Length) && Available() == old(Available()) - 1
    {
      hide Unread, Lag;
      TakeNext(p[..], rIdx, wIdx, received);
      dst[i] := p[rIdx];
      received := received + [p[rIdx]];
      rIdx := if rIdx + 1 >= p.Length then 0 else rIdx + 1;
    }

    /** `rtt_read`: the next len bytes of the host's stream, waiting only while fewer are available. */
    method Read(dst: array?<char>, len: nat) returns (count: nat, ghost spins: nat)
      requires Valid() && dst != p && (dst != null ==> len <= dst.Length)
      modifies this, p, dst
      ensures Valid() && old(sent) <= sent
      ensures dst == null ==> count == 0 && received == old(received)
      ensures dst != null ==> count == len && received == old(received) + dst[..len] && dst[len..] == old(dst[len..])
      ensures len <= old(Available()) ==> spins == 0
    {
      spins := 0;
      if dst == null {
        return 0, 0;
      }
      count := 0;
      while count < len
        invariant count <= len && Valid() && old(sent) <= sent
        invariant received == old(received) + dst[..count] && dst[len..] == old(dst[len..])
        invariant len <= old(Available()) ==> spins == 0 && len - count <= Available()
      {
        ghost var done := dst[..];
        ghost var more := NextByte(dst, count);
        spins := spins + more;
        SameElsewhere(done, dst[..], count, len);
        count := count + 1;
      }
    }

    /** One round of the loop of `rtt_read`: wait for a byte, then take it. */
    method NextByte(dst: array<char>, i: nat) returns (ghost spins: nat)
      requires Valid() && dst != p && i < dst.Length
      modifies this, p, dst
      ensures Valid() && old(sent) <= sent && received == old(received) + [dst[i]]
      ensures dst[..] == old(dst[..])[i := dst[i]]
      ensures old(Available()) - 1 <= Available() && (0 < old(Available()) ==> spins == 0)
    {
      spins := AwaitByte();
      Interfere();
      TakeByte(dst, i);
      Interfere();
    }

    /** `syscall_read`: it reads what is there, up to len, and never spins. */
    method SyscallRead(file: int, ptr: array?<char>, len: int) returns (rv: int, ghost spins: nat)
      requires Valid() && ptr != p && (ptr != null ==> len <= ptr.Length)
      modifies this, p, ptr
      ensures Valid() && old(sent) <= sent && spins == 0
      ensures rv == -1 <==> file != 0 || ptr == null || len < 0
      ensures rv == -1 ==> received == old(received)
      ensures rv != -1 ==>
                && (if len <= old(Available()) then rv == len else old(Available()) <= rv <= len)
                && received == old(received) + ptr[..rv] && ptr[rv..] == old(ptr[rv..])
    {
      if file != 0 || ptr == null || len < 0 {
        return -1, 0;
      }
      var available := Peek();
      var amount := if len < available then len else available;
      rv, spins := Read(ptr, amount);
    }
  }
}
