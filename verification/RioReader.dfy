/** The Rio buffered reader (segel.c): a fixed cache over a `read` that may return any chunk, be
    interrupted, fail, or report end of file. */
module RioReader {
  import opened Memory

  const RIO_BUFSIZE: nat := 8192

  // ---------------------------------------------------------------- the kernel

  /** What the next `read` does: deliver at most `max` bytes (but at least one if there is one),
      fail with EINTR, or fail otherwise. With no event left, `read` delivers all it can. */
  datatype Event = Chunk(max: nat) | Interrupted | Failed

  predicate Reliable(plan: seq<Event>)
  {
    Failed !in plan
  }

  /** How many reads are still to fail. */
  function Failures(plan: seq<Event>): nat
  {
    if plan == [] then 0 else (if plan[0] == Failed then 1 else 0) + Failures(plan[1..])
  }

  function Min(a: nat, b: nat): nat
  {
    if a < b then a else b
  }

  /** A descriptor: the bytes the peer will still deliver, and how `read` will deliver them. */
  class Descriptor {
    var pending: string
    var plan: seq<Event>

    constructor (pending: string, plan: seq<Event>)
      ensures this.pending == pending && this.plan == plan
    {
      this.pending, this.plan := pending, plan;
    }

    method Read(dst: array<char>, n: nat) returns (rc: int, eintr: bool)
      requires n <= dst.Length
      modifies this, dst
      ensures -1 <= rc <= n
      ensures rc >= 0 ==> rc <= |old(pending)| && dst[..rc] == old(pending)[..rc] && pending == old(pending)[rc..]
      ensures rc == 0 ==> n == 0 || old(pending) == []
      ensures rc == -1 ==> old(plan) != [] && pending == old(pending) && (!eintr ==> old(plan)[0] == Failed)
      ensures plan == if old(plan) == [] then [] else old(plan)[1..]
      ensures Failures(old(plan)) == Failures(plan) + if rc == -1 && !eintr then 1 else 0
    {
      var event := if plan == [] then Chunk(n) else plan[0];
      plan := if plan == [] then [] else plan[1..];
      match event
      case Interrupted => return -1, true;
      case Failed => return -1, false;
      case Chunk(max) =>
        var count := ChunkSize(n, |pending|, max);
        Memcpy(dst, 0, pending[..count]);
        pending := pending[count..];
        return count, false;
    }
  }

  function ChunkSize(n: nat, available: nat, max: nat): (k: nat)
    ensures k <= n && k <= available
    ensures k == 0 ==> n == 0 || available == 0
  {
    Min(Min(n, available), if max == 0 then 1 else max)
  }

  // ---------------------------------------------------------------- the stream specification

  /** The length of the line that `rio_readlineb` stores when at most `limit` bytes fit. */
  function LineLength(stream: string, limit: nat): (n: nat)
    ensures n <= |stream| && n <= limit
  {
    if stream == [] || limit == 0 then 0
    else if stream[0] == '\n' then 1
    else 1 + LineLength(stream[1..], limit - 1)
  }

  /** A line may stop after `n` bytes: at end of file, at the limit, or just after a newline. */
  predicate StopsAt(stream: string, limit: nat, n: nat)
    requires n <= |stream|
  {
    n == |stream| || n == limit || (n > 0 && stream[n - 1] == '\n')
  }

  /** The line is the shortest prefix at which it may stop. */
  lemma {:induction false} LineIsShortest(stream: string, limit: nat)
    ensures StopsAt(stream, limit, LineLength(stream, limit))
    ensures forall n: nat | n < LineLength(stream, limit) :: !StopsAt(stream, limit, n)
  {
    if stream != [] && limit != 0 && stream[0] != '\n' {
      LineIsShortest(stream[1..], limit - 1);
      forall n: nat | n < LineLength(stream, limit) ensures !StopsAt(stream, limit, n) {
        assert n > 0 ==> !StopsAt(stream[1..], limit - 1, n - 1);
      }
    }
  }

  /** Reading `n` bytes without passing a stop: the line is at least that long. */
  lemma {:induction false} LineGoesOn(stream: string, limit: nat, n: nat)
    requires n <= |stream| && n <= limit
    requires forall i | 0 <= i < n :: stream[i] != '\n'
    ensures LineLength(stream, limit) == n + LineLength(stream[n..], limit - n)
  {
    if n > 0 {
      LineGoesOn(stream[1..], limit - 1, n - 1);
      assert stream[1..][n - 1..] == stream[n..];
    }
  }

  /** What `rio_readlineb` returns: 0 at end of file with nothing read, the byte count when the line
      ends in a newline, and one more than the byte count otherwise. */
  function LineResult(stream: string, maxlen: nat): nat
    requires maxlen > 0
  {
    var n := LineLength(stream, maxlen - 1);
    if maxlen > 1 && stream == [] then 0
    else if n > 0 && stream[n - 1] == '\n' then n
    else n + 1
  }

  /** The result is the number of bytes stored exactly when the line ends in a newline or nothing is
      left to read; in every other case it is one more. */
  lemma ResultIsLengthAtNewline(stream: string, maxlen: nat)
    requires maxlen > 0
    ensures var n := LineLength(stream, maxlen - 1);
            && (LineResult(stream, maxlen) == n
                <==> (n > 0 && stream[n - 1] == '\n') || (maxlen > 1 && stream == []))
            && (LineResult(stream, maxlen) != n ==> LineResult(stream, maxlen) == n + 1)
  {
  }

  /** One byte before end of file, and two bytes at the limit, are reported as one more. */
  lemma ResultOffByOne()
    ensures LineLength("a", 9) == 1 && LineResult("a", 10) == 2
    ensures LineLength("abc", 2) == 2 && LineResult("abc", 3) == 3
  {
    assert "abc"[1..] == "bc" && "bc"[1..] == "c";
  }

  /** The outcome of one successful `rio_readlineb`: the line is stored and terminated (unless the
      result is 0), the result is as documented above, and exactly the line has been consumed. */
  ghost predicate LineRead(stream: string, rest: string, maxlen: nat, stored: string, rc: int)
    requires 0 < maxlen <= |stored|
  {
    var n := LineLength(stream, maxlen - 1);
    && rc == LineResult(stream, maxlen)
    && rest == stream[n..]
    && (rc > 0 ==> stored[..n] == stream[..n] && stored[n] == NUL)
  }

  ghost predicate IsSuffix(rest: string, all: string)
  {
    exists k :: 0 <= k <= |all| && rest == all[k..]
  }

  /** `part` is the front of `all`, and `rest` is left. */
  ghost predicate Took(all: string, rest: string, part: string)
  {
    part <= all && rest == all[|part|..]
  }

  lemma TakesMore(all: string, part: string, rest: string, k: nat)
    requires Took(all, rest, part) && k <= |rest|
    ensures Took(all, rest[k..], part + rest[..k])
  {
    assert all == part + rest;
  }

  lemma TookLeavesSuffix(all: string, rest: string, part: string)
    requires Took(all, rest, part)
    ensures IsSuffix(rest, all)
  {
  }

  /** `line` has been stored without reaching a stop, and `rest` is left. */
  ghost predicate Partial(all: string, rest: string, line: string)
  {
    line <= all && rest == all[|line|..] && '\n' !in line
  }

  /** `line` is the whole line and `n` the value to be returned. */
  ghost predicate Complete(all: string, rest: string, maxlen: nat, line: string, n: nat)
    requires maxlen > 0
  {
    && |line| == LineLength(all, maxlen - 1) && line <= all && rest == all[|line|..]
    && n == LineResult(all, maxlen)
  }

  lemma GrowsByOne(all: string, line: string, c: char)
    requires line <= all && '\n' !in line && all[|line|..] != [] && c == all[|line|..][0] && c != '\n'
    ensures Partial(all, all[|line|..][1..], line + [c])
  {
    assert all[|line|..][1..] == all[|line| + 1..];
  }

  lemma EndsInNewline(all: string, line: string, maxlen: nat)
    requires |line| + 1 <= maxlen - 1
    requires line <= all && '\n' !in line && all[|line|..] != [] && all[|line|..][0] == '\n'
    ensures Complete(all, all[|line|..][1..], maxlen, line + ['\n'], |line| + 1)
  {
    assert all[|line|..][1..] == all[|line| + 1..];
    LineEnds(all, maxlen, |line| + 1);
  }

  lemma EndsAtEof(all: string, line: string, maxlen: nat)
    requires |line| < maxlen - 1 && line <= all && '\n' !in line && all[|line|..] == []
    ensures line != [] ==> Complete(all, [], maxlen, line, |line| + 1)
    ensures line == [] ==> all == []
  {
    LineEnds(all, maxlen, |line|);
  }

  lemma EndsAtLimit(all: string, rest: string, line: string, maxlen: nat)
    requires |line| == maxlen - 1 && Partial(all, rest, line)
    ensures Complete(all, rest, maxlen, line, maxlen)
  {
    LineEnds(all, maxlen, |line|);
  }

  // ---------------------------------------------------------------- the reader

  class Rio {
    const fd: Descriptor
    const buf: array<char>
    var ptr: nat
    var cnt: int

    /** The bytes not yet handed to the caller: the cache, then what the kernel still has. */
    ghost var stream: string

    ghost predicate Valid()
      reads this, buf, fd
    {
      && buf.Length == RIO_BUFSIZE && -1 <= cnt <= RIO_BUFSIZE
      && (cnt > 0 ==> ptr + cnt <= RIO_BUFSIZE)
      && stream == (if cnt > 0 then buf[ptr..ptr + cnt] else []) + fd.pending
    }

    /** rio_readinitb */
    constructor (fd: Descriptor)
      ensures Valid() && fresh(buf) && this.fd == fd && stream == fd.pending
    {
      this.fd := fd;
      this.buf := new char[RIO_BUFSIZE];
      this.ptr, this.cnt := 0, 0;
      this.stream := fd.pending;
    }

    /** The refill loop of rio_read: ends with bytes in the cache, at end of file, or on an error. */
    method Refill() returns (rc: int)
      requires Valid()
      modifies this, buf, fd
      ensures Valid() && stream == old(stream)
      ensures rc in {-1, 0, 1}
      ensures rc == 1 ==> cnt > 0
      ensures rc == 0 ==> stream == []
      ensures Failures(old(fd.plan)) == Failures(fd.plan) + if rc == -1 then 1 else 0
      ensures Reliable(old(fd.plan)) ==> rc >= 0
      ensures Reliable(old(fd.plan)) ==> Reliable(fd.plan)
    {
      while cnt <= 0
        invariant Valid() && stream == old(stream)
        invariant Failures(old(fd.plan)) == Failures(fd.plan)
        invariant Reliable(old(fd.plan)) ==> Reliable(fd.plan)
        decreases |fd.plan|, if cnt <= 0 then 1 else 0
      {
        var eintr;
        cnt, eintr := fd.Read(buf, RIO_BUFSIZE);
        if cnt < 0 {
          if !eintr {
            return -1;
          }
        } else if cnt == 0 {
          return 0;
        } else {
          ptr := 0;
        }
      }
      return 1;
    }

    /** rio_read: hands over up to `n` bytes, stored at `dst[at..]`. */
    method ReadSome(dst: array<char>, at: nat, n: nat) returns (rc: int)
      requires Valid() && at + n <= dst.Length && dst != buf
      modifies this, buf, fd, dst
      ensures Valid() && -1 <= rc <= n
      ensures rc <= 0 ==> stream == old(stream) && dst[..] == old(dst[..])
      ensures rc > 0 ==> rc <= |old(stream)| && stream == old(stream)[rc..]
      ensures rc > 0 ==> dst[..at + rc] == old(dst[..at]) + old(stream)[..rc]
      ensures rc == 0 ==> n == 0 || old(stream) == []
      ensures Failures(old(fd.plan)) == Failures(fd.plan) + if rc == -1 then 1 else 0
      ensures Reliable(old(fd.plan)) ==> rc >= 0 && Reliable(fd.plan)
    {
      var filled := Refill();
      if filled <= 0 {
        return filled;
      }
      rc := if cnt < n then cnt else n;
      TakeCached(dst, at, rc);
    }

    /** The second half of rio_read: copy `k` bytes out of the cache and move the cursor. */
    method TakeCached(dst: array<char>, at: nat, k: nat)
      requires Valid() && 0 < cnt && k <= cnt && at + k <= dst.Length && dst != buf
      modifies this, dst
      ensures Valid() && k <= |old(stream)| && stream == old(stream)[k..]
      ensures dst[..at + k] == old(dst[..at]) + old(stream)[..k]
      ensures k == 0 ==> dst[..] == old(dst[..])
    {
      var part := buf[ptr..ptr + k];
      SplitCache(buf[..], ptr, cnt, k, fd.pending);
      Memcpy(dst, at, part);
      assert dst[..at + k] == dst[..at] + dst[at..at + k];
      ptr := ptr + k;
      cnt := cnt - k;
      stream := stream[k..];
    }

    /** rio_read of a single byte into a local, stored at `dst[at]` when there was one. */
    method StoreByte(dst: array<char>, at: nat) returns (r: int, c: char)
      requires Valid() && at < dst.Length && dst != buf
      modifies this, buf, fd, dst
      ensures Valid() && r in {-1, 0, 1}
      ensures r == 1 ==> old(stream) != [] && c == old(stream)[0] && stream == old(stream)[1..]
      ensures r == 1 ==> dst[..at + 1] == old(dst[..at]) + [c]
      ensures r <= 0 ==> stream == old(stream) && dst[..] == old(dst[..])
      ensures r == 0 ==> stream == []
      ensures Failures(old(fd.plan)) == Failures(fd.plan) + if r == -1 then 1 else 0
      ensures Reliable(old(fd.plan)) ==> r >= 0 && Reliable(fd.plan)
    {
      var cell := new char[1];
      r := ReadSome(cell, 0, 1);
      c := cell[0];
      if r == 1 {
        assert cell[..1][0] == c;
        dst[at] := c;
      }
    }

    /** rio_readnb: reads until `n` bytes are stored or the stream ends. */
    method ReadN(dst: array<char>, n: nat) returns (rc: int)
      requires Valid() && n <= dst.Length && dst != buf
      modifies this, buf, fd, dst
      ensures Valid()
      ensures rc == -1 || rc == Min(n, |old(stream)|)
      ensures rc >= 0 ==> Took(old(stream), stream, dst[..rc])
      ensures rc == -1 ==> IsSuffix(stream, old(stream))
      ensures Failures(old(fd.plan)) == Failures(fd.plan) + if rc == -1 then 1 else 0
      ensures Reliable(old(fd.plan)) ==> rc >= 0 && Reliable(fd.plan)
    {
      ghost var all := stream;
      var done := 0;
      while done < n
        invariant Valid() && 0 <= done <= n && done <= |all|
        invariant Took(all, stream, dst[..done])
        invariant Failures(old(fd.plan)) == Failures(fd.plan)
        invariant Reliable(old(fd.plan)) ==> Reliable(fd.plan)
      {
        ghost var part, rest := dst[..done], stream;
        var nread := ReadSome(dst, done, n - done);
        if nread < 0 {
          TookLeavesSuffix(all, stream, part);
          return -1;
        } else if nread == 0 {
          break;
        }
        TakesMore(all, part, rest, nread);
        assert dst[..done + nread] == part + rest[..nread];
        done := done + nread;
      }
      return done;
    }

    /** The for loop of rio_readlineb: stores the bytes of one line. `n` is the value to be returned. */
    method FillLine(dst: array<char>, maxlen: nat) returns (n: int, stored: nat)
      requires Valid() && 0 < maxlen <= dst.Length && dst != buf
      modifies this, buf, fd, dst
      ensures Valid() && n >= -1 && stored < maxlen
      ensures n > 0 ==> Complete(old(stream), stream, maxlen, dst[..stored], n)
      ensures n == 0 ==> old(stream) == [] && stream == [] && maxlen > 1 && dst[..] == old(dst[..])
      ensures n < 0 ==> IsSuffix(stream, old(stream))
      ensures Failures(old(fd.plan)) == Failures(fd.plan) + if n == -1 then 1 else 0
      ensures Reliable(old(fd.plan)) ==> n >= 0 && Reliable(fd.plan)
    {
      ghost var all := stream;
      stored, n := 0, 1;
      while n < maxlen
        invariant Valid() && 1 <= n <= maxlen && stored == n - 1
        invariant Partial(all, stream, dst[..stored])
        invariant stored == 0 ==> dst[..] == old(dst[..])
        invariant Failures(old(fd.plan)) == Failures(fd.plan)
        invariant Reliable(old(fd.plan)) ==> Reliable(fd.plan)
        decreases maxlen - n
      {
        ghost var line := dst[..stored];
        var r, c := StoreByte(dst, stored);
        if r == 1 {
          stored := stored + 1;
          if c == '\n' {
            EndsInNewline(all, line, maxlen);
            return;
          }
          GrowsByOne(all, line, c);
        } else if r == 0 {
          EndsAtEof(all, line, maxlen);
          if n == 1 {
            n := 0;
          }
          return;
        } else {
          n := -1;
          return;
        }
        n := n + 1;
      }
      EndsAtLimit(all, stream, dst[..stored], maxlen);
    }

    /** rio_readlineb: stores one line and a terminating NUL. At end of file with nothing read it
        returns 0 and does not touch `dst`. */
    method ReadLine(dst: array<char>, maxlen: nat) returns (rc: int)
      requires Valid() && 0 < maxlen <= dst.Length && dst != buf
      modifies this, buf, fd, dst
      ensures Valid()
      ensures rc == 0 ==> dst[..] == old(dst[..])
      ensures rc >= 0 ==> LineRead(old(stream), stream, maxlen, dst[..], rc)
      ensures rc < 0 ==> rc == -1 && IsSuffix(stream, old(stream))
      ensures Failures(old(fd.plan)) == Failures(fd.plan) + if rc == -1 then 1 else 0
      ensures Reliable(old(fd.plan)) ==> rc >= 0 && Reliable(fd.plan)
    {
      var stored;
      rc, stored := FillLine(dst, maxlen);
      if rc > 0 {
        dst[stored] := NUL;
      }
    }
  }

  /** The first `k` bytes of what remains come from the cache. */
  lemma SplitCache(cache: string, ptr: nat, cnt: nat, k: nat, pending: string)
    requires ptr + cnt <= |cache| && k <= cnt
    ensures (cache[ptr..ptr + cnt] + pending)[..k] == cache[ptr..ptr + k]
    ensures (cache[ptr..ptr + cnt] + pending)[k..] == cache[ptr + k..ptr + cnt] + pending
  {
  }

  /** The loop of `rio_readlineb` stops exactly where the line does. */
  lemma LineEnds(stream: string, maxlen: nat, stored: nat)
    requires maxlen > 0 && stored <= |stream| && stored <= maxlen - 1
    requires forall i | 0 <= i < stored - 1 :: stream[i] != '\n'
    requires StopsAt(stream, maxlen - 1, stored)
    ensures LineLength(stream, maxlen - 1) == stored
  {
    LineIsShortest(stream, maxlen - 1);
    if stored > 0 {
      LineGoesOn(stream, maxlen - 1, stored - 1);
    }
  }

  // ---------------------------------------------------------------- any mix of calls

  datatype Call = Line(maxlen: nat) | Bytes(n: nat)

  predicate Callable(c: Call)
  {
    c.Line? ==> c.maxlen > 0
  }

  /** How many bytes a call takes from a stream. */
  function Taken(stream: string, c: Call): (k: nat)
    requires Callable(c)
    ensures k <= |stream|
  {
    match c
    case Line(maxlen) => LineLength(stream, maxlen - 1)
    case Bytes(n) => Min(n, |stream|)
  }

  /** The strings that a series of calls delivers from a plain byte stream, and what is left. */
  function Delivered(stream: string, calls: seq<Call>): seq<string>
    requires forall c | c in calls :: Callable(c)
  {
    if calls == [] then []
    else
      var k := Taken(stream, calls[0]);
      [stream[..k]] + Delivered(stream[k..], calls[1..])
  }

  function Rest(stream: string, calls: seq<Call>): string
    requires forall c | c in calls :: Callable(c)
  {
    if calls == [] then stream else Rest(stream[Taken(stream, calls[0])..], calls[1..])
  }

  function Join(parts: seq<string>): string
  {
    if parts == [] then "" else parts[0] + Join(parts[1..])
  }

  /** No byte is lost, repeated or reordered by any series of calls. */
  lemma {:induction false} DeliveryIsFaithful(stream: string, calls: seq<Call>)
    requires forall c | c in calls :: Callable(c)
    ensures Join(Delivered(stream, calls)) + Rest(stream, calls) == stream
  {
    if calls != [] {
      var k := Taken(stream, calls[0]);
      DeliveryIsFaithful(stream[k..], calls[1..]);
      JoinFront(stream[..k], Delivered(stream[k..], calls[1..]));
      Regroup(stream, k, Join(Delivered(stream[k..], calls[1..])), Rest(stream[k..], calls[1..]));
    }
  }

  lemma JoinFront(part: string, parts: seq<string>)
    ensures Join([part] + parts) == part + Join(parts)
  {
    assert ([part] + parts)[1..] == parts;
  }

  lemma Regroup(stream: string, k: nat, tail: string, rest: string)
    requires k <= |stream| && tail + rest == stream[k..]
    ensures (stream[..k] + tail) + rest == stream
  {
    assert (stream[..k] + tail) + rest == stream[..k] + (tail + rest);
  }

  /** Any series of calls on the buffered reader delivers what the same calls deliver from the plain
      stream. The result does not mention how `read` chops or interrupts the stream. */
  method RunCalls(r: Rio, calls: seq<Call>) returns (out: seq<string>, failed: bool)
    requires r.Valid() && forall c | c in calls :: Callable(c)
    modifies r, r.buf, r.fd
    ensures r.Valid()
    ensures !failed ==> out == Delivered(old(r.stream), calls) && r.stream == Rest(old(r.stream), calls)
    ensures Failures(old(r.fd.plan)) == Failures(r.fd.plan) + if failed then 1 else 0
    ensures Reliable(old(r.fd.plan)) ==> !failed
  {
    ghost var all := r.stream;
    out, failed := [], false;
    var i := 0;
    assert calls[0..] == calls;
    while i < |calls|
      invariant 0 <= i <= |calls| && r.Valid()
      invariant out + Delivered(r.stream, calls[i..]) == Delivered(all, calls)
      invariant Rest(r.stream, calls[i..]) == Rest(all, calls)
      invariant Failures(old(r.fd.plan)) == Failures(r.fd.plan)
      invariant Reliable(old(r.fd.plan)) ==> Reliable(r.fd.plan)
    {
      ghost var before := r.stream;
      var part, ok := RunCall(r, calls[i]);
      if !ok {
        return out, true;
      }
      assert calls[i..][0] == calls[i] && calls[i..][1..] == calls[i + 1..];
      assert Delivered(before, calls[i..]) == [part] + Delivered(r.stream, calls[i + 1..]);
      out := out + [part];
      i := i + 1;
    }
  }

  method RunCall(r: Rio, c: Call) returns (part: string, ok: bool)
    requires r.Valid() && Callable(c)
    modifies r, r.buf, r.fd
    ensures r.Valid()
    ensures ok ==> var k := Taken(old(r.stream), c); part == old(r.stream)[..k] && r.stream == old(r.stream)[k..]
    ensures Failures(old(r.fd.plan)) == Failures(r.fd.plan) + if ok then 0 else 1
    ensures Reliable(old(r.fd.plan)) ==> ok && Reliable(r.fd.plan)
  {
    ghost var all := r.stream;
    match c
    case Bytes(n) =>
      var dst := new char[n];
      var rc := r.ReadN(dst, n);
      ok := rc >= 0;
      part := if ok then dst[..rc] else "";
    case Line(maxlen) =>
      var dst := new char[maxlen];
      var rc := r.ReadLine(dst, maxlen);
      ok := rc >= 0;
      if rc <= 0 {
        part := "";
      } else {
        part := dst[..if dst[rc - 1] == NUL then rc - 1 else rc];
      }
  }
}
