/**
 * The replay source of dataserver.py: a recording of five channels is
 * served in fixed-width chunks as if it arrived live. Wall-clock time is a
 * parameter (`now`, in milliseconds) and the realistic sleep is returned as
 * the number of milliseconds the call would block.
 */
module Replay {
  import opened Wrappers
  import opened Arith
  import opened Stages

  /** `int(buffer_size*256.0/1000)`: chunk width, computed at 256 Hz whatever the file's rate. */
  function BufferSamples(bufferSize: nat): (b: nat)
    ensures b * 1000 <= bufferSize * 256 < (b + 1) * 1000
  {
    bufferSize * 256 / 1000
  }

  /** The fixed configuration of one server. */
  datatype Config = Config(totalSamples: nat, samplingRate: nat, bufferSize: nat, bufferSamples: nat)

  /** The two mutable fields: `current_location` and `last_call_time`. */
  datatype Cursor = Cursor(location: nat, anchor: Option<int>)

  /** The cursor of a freshly constructed server. */
  const Start: Cursor := Cursor(0, None)

  /** The anchor is set whenever the position has left 0. */
  predicate Reachable(c: Cursor) {
    c.location != 0 ==> c.anchor.Some?
  }

  /**
   * What one `read_buffer` call does: where its chunk starts (`None` for end
   * of stream), the cursor after it and the realistic wait it adds.
   */
  datatype Read = Read(start: Option<nat>, next: Cursor, wait: nat)

  /** Samples lost by a call that is `deltaMs` late: only the overshoot past `buffer_size` counts. */
  function Skip(cfg: Config, deltaMs: int): (n: nat)
    ensures deltaMs <= cfg.bufferSize ==> n == 0
    ensures deltaMs > cfg.bufferSize ==>
      n * 1000 <= (deltaMs - cfg.bufferSize) * cfg.samplingRate < (n + 1) * 1000
  {
    if deltaMs > cfg.bufferSize then (deltaMs - cfg.bufferSize) * cfg.samplingRate / 1000 else 0
  }

  /** The specification of `read_buffer(realistic)` at wall-clock time `now`. */
  function ReadAt(cfg: Config, c: Cursor, now: int, realistic: bool): (r: Read)
    requires Reachable(c)
    ensures r.next.location >= c.location
    ensures r.wait > 0 ==> realistic && r.start.Some?
  {
    if c.location == 0 then
      if c.location + cfg.bufferSamples >= cfg.totalSamples then Read(None, c, 0)
      else Read(Some(0), Cursor(cfg.bufferSamples, Some(now)), 0)
    else
      var delta := now - c.anchor.value;
      var loc := c.location + Skip(cfg, delta);
      if loc + cfg.bufferSamples >= cfg.totalSamples then Read(None, Cursor(loc, c.anchor), 0)
      else
        var wait := if realistic && cfg.bufferSize - delta > 0 then cfg.bufferSize - delta else 0;
        Read(Some(loc), Cursor(loc + cfg.bufferSamples, Some(now + wait)), wait)
  }

  /**
   * One call: a chunk lies strictly inside the recording and moves the
   * position to its end; end of stream happens exactly when the next chunk
   * would reach the end; the position never moves back, and the anchor
   * changes only on calls that return a chunk.
   */
  lemma ReadStep(cfg: Config, c: Cursor, now: int, realistic: bool)
    requires Reachable(c)
    ensures var r := ReadAt(cfg, c, now, realistic);
      && Reachable(r.next)
      && r.next.location >= c.location
      && (r.start.Some? ==>
            && r.start.value + cfg.bufferSamples < cfg.totalSamples
            && r.start.value >= c.location
            && r.next.location == r.start.value + cfg.bufferSamples
            && r.next.anchor == Some(now + r.wait))
      && (r.start.None? ==> r.next.anchor == c.anchor
                            && r.next.location + cfg.bufferSamples >= cfg.totalSamples)
  {
  }

  /** The first call: no lateness check, chunk `[0, bufferSamples)` unless it would reach the end. */
  lemma FirstCall(cfg: Config, now: int, realistic: bool)
    ensures var r := ReadAt(cfg, Start, now, realistic);
      && r.wait == 0
      && (r.start == Some(0) <==> cfg.bufferSamples < cfg.totalSamples)
      && (r.start.Some? ==> r.next == Cursor(cfg.bufferSamples, Some(now)))
      && (r.start.None? ==> r.next == Start)
  {
  }

  /**
   * A later call `deltaMs` after the anchor: a late call first skips the
   * overshoot, a punctual one skips nothing, so a chunk starts exactly
   * `Skip` samples after the old position.
   */
  lemma LaterCall(cfg: Config, c: Cursor, now: int, realistic: bool)
    requires Reachable(c) && c.location != 0
    ensures var r := ReadAt(cfg, c, now, realistic);
      var delta := now - c.anchor.value;
      && r.next.location == c.location + Skip(cfg, delta) + (if r.start.Some? then cfg.bufferSamples else 0)
      && (r.start.Some? <==> c.location + Skip(cfg, delta) + cfg.bufferSamples < cfg.totalSamples)
      && (r.start.Some? ==> r.start.value == c.location + Skip(cfg, delta))
      && (delta <= cfg.bufferSize && r.start.Some? ==> r.start.value == c.location)
      && r.wait == (if r.start.Some? && realistic && delta < cfg.bufferSize then cfg.bufferSize - delta else 0)
  {
  }

  /**
   * A `buffer_size` under 4 ms gives `buffer_samples == 0`: the position
   * never leaves 0, so every call takes the first-call branch and serves an
   * empty chunk, and the stream never ends.
   */
  lemma ShortBufferStalls(cfg: Config, c: Cursor, now: int, realistic: bool)
    requires cfg.bufferSize < 4 && cfg.bufferSamples == BufferSamples(cfg.bufferSize)
    requires cfg.totalSamples > 0 && c.location == 0
    ensures ReadAt(cfg, c, now, realistic) == Read(Some(0), Cursor(0, Some(now)), 0)
  {
  }

  /** End of stream is terminal: once a call returns `None`, so does every later call. */
  lemma EndOfStreamIsFinal(cfg: Config, c: Cursor, now: int, realistic: bool, later: int, realistic': bool)
    requires Reachable(c)
    requires ReadAt(cfg, c, now, realistic).start.None?
    ensures var c' := ReadAt(cfg, c, now, realistic).next;
      Reachable(c') && ReadAt(cfg, c', later, realistic').start.None?
  {
  }

  /** A sequence of calls, at the given times, each with its `realistic` flag. */
  datatype Call = Call(now: int, realistic: bool)

  /** The chunk starts (or `None`) that a run of calls returns, in order. */
  function Replayed(cfg: Config, c: Cursor, calls: seq<Call>): (starts: seq<Option<nat>>)
    requires Reachable(c)
    ensures |starts| == |calls|
    decreases |calls|
  {
    if calls == [] then []
    else
      var r := ReadAt(cfg, c, calls[0].now, calls[0].realistic);
      ReadStep(cfg, c, calls[0].now, calls[0].realistic);
      [r.start] + Replayed(cfg, r.next, calls[1..])
  }

  /** The cursor after a run of calls. */
  function After(cfg: Config, c: Cursor, calls: seq<Call>): (c': Cursor)
    requires Reachable(c)
    ensures Reachable(c')
    decreases |calls|
  {
    if calls == [] then c
    else
      ReadStep(cfg, c, calls[0].now, calls[0].realistic);
      After(cfg, ReadAt(cfg, c, calls[0].now, calls[0].realistic).next, calls[1..])
  }

  /** No call of the run is late: each comes within `buffer_size` ms of the anchor. */
  predicate Punctual(cfg: Config, c: Cursor, calls: seq<Call>)
    requires Reachable(c)
    decreases |calls|
  {
    calls != [] ==>
      (c.location != 0 ==> calls[0].now - c.anchor.value <= cfg.bufferSize)
      && (ReadStep(cfg, c, calls[0].now, calls[0].realistic);
          Punctual(cfg, ReadAt(cfg, c, calls[0].now, calls[0].realistic).next, calls[1..]))
  }

  /**
   * The number of chunks a recording of `total` samples yields at width
   * `b` without late calls: those `k` with `k*b + b < total`.
   */
  function ChunkCount(total: nat, b: nat): nat
    requires b > 0
  {
    if total == 0 then 0 else (total - 1) / b
  }

  lemma ChunkCountSpec(total: nat, b: nat, k: nat)
    requires b > 0
    ensures k < ChunkCount(total, b) <==> k * b + b < total
  {
    if total > 0 {
      var q := (total - 1) / b;
      assert q * b <= total - 1 < q * b + b;
      if k < q {
        assert k * b + b <= q * b by { MulMonotone(k + 1, q, b); }
      } else {
        assert q * b + b <= k * b + b by { MulMonotone(q, k, b); }
      }
    }
  }

  /**
   * One punctual call at position `k*b` returns the chunk at `k*b` exactly
   * when `k` is below the chunk count, and then moves to `(k+1)*b`.
   */
  lemma PunctualCall(cfg: Config, c: Cursor, k: nat, call: Call)
    requires cfg.bufferSamples > 0 && Reachable(c)
    requires c.location == k * cfg.bufferSamples && (k == 0 <==> c.location == 0)
    requires c.location != 0 ==> call.now - c.anchor.value <= cfg.bufferSize
    ensures var r := ReadAt(cfg, c, call.now, call.realistic);
      && r.start == (if k < ChunkCount(cfg.totalSamples, cfg.bufferSamples)
                     then Some(k * cfg.bufferSamples) else None)
      && (r.start.Some? ==> r.next.location == (k + 1) * cfg.bufferSamples && r.next.location != 0)
  {
    var b := cfg.bufferSamples;
    ChunkCountSpec(cfg.totalSamples, b, k);
    assert (k + 1) * b == k * b + b;
  }

  /**
   * Without late calls, a run from position `k*b` (k chunks already served)
   * returns chunks at `k*b, (k+1)*b, …` up to the last `j` with
   * `j*b + b < total`, then `None` for ever.
   */
  lemma {:induction false} PunctualFrom(cfg: Config, c: Cursor, k: nat, calls: seq<Call>)
    requires cfg.bufferSamples > 0 && Reachable(c)
    requires c.location == k * cfg.bufferSamples && (k == 0 <==> c.location == 0)
    requires Punctual(cfg, c, calls)
    ensures var starts := Replayed(cfg, c, calls);
      forall j :: 0 <= j < |calls| ==>
        starts[j] == if k + j < ChunkCount(cfg.totalSamples, cfg.bufferSamples)
                     then Some((k + j) * cfg.bufferSamples) else None
    decreases |calls|
  {
    if calls != [] {
      var b := cfg.bufferSamples;
      var n := ChunkCount(cfg.totalSamples, b);
      var r := ReadAt(cfg, c, calls[0].now, calls[0].realistic);
      PunctualCall(cfg, c, k, calls[0]);
      var starts := Replayed(cfg, c, calls);
      var rest := Replayed(cfg, r.next, calls[1..]);
      assert starts == [r.start] + rest;
      if r.start.Some? {
        ReadStep(cfg, c, calls[0].now, calls[0].realistic);
        PunctualFrom(cfg, r.next, k + 1, calls[1..]);
        assert var st := Replayed(cfg, r.next, calls[1..]);
          forall i :: 0 <= i < |calls[1..]| ==>
            st[i] == if k + 1 + i < ChunkCount(cfg.totalSamples, cfg.bufferSamples)
                     then Some((k + 1 + i) * cfg.bufferSamples) else None;
        forall j | 1 <= j < |calls|
          ensures starts[j] == if k + j < n then Some((k + j) * b) else None
        {
          assert starts[j] == rest[j - 1];
          assert k + 1 + (j - 1) == k + j;
        }
      } else {
        forall j | 1 <= j < |calls|
          ensures starts[j] == None
        {
          NoneForever(cfg, c, calls, 0, j);
        }
      }
    }
  }

  /** Once the first call of a run returns `None`, every later call of it does too. */
  lemma {:induction false} NoneForever(cfg: Config, c: Cursor, calls: seq<Call>, i: nat, j: nat)
    requires Reachable(c) && i <= j < |calls|
    requires Replayed(cfg, c, calls)[i].None?
    ensures Replayed(cfg, c, calls)[j].None?
    decreases |calls|
  {
    var r := ReadAt(cfg, c, calls[0].now, calls[0].realistic);
    ReadStep(cfg, c, calls[0].now, calls[0].realistic);
    if i == 0 {
      if j > 0 {
        EndOfStreamIsFinal(cfg, c, calls[0].now, calls[0].realistic, calls[1].now, calls[1].realistic);
        assert Replayed(cfg, r.next, calls[1..])[0].None?;
        NoneForever(cfg, r.next, calls[1..], 0, j - 1);
      }
    } else {
      NoneForever(cfg, r.next, calls[1..], i - 1, j - 1);
    }
  }

  /**
   * A punctual replay from a fresh server serves chunks at 0, B, 2B, …
   * and stops at the first `k` with `k*B + B >= total`.
   */
  lemma PunctualReplay(cfg: Config, calls: seq<Call>)
    requires cfg.bufferSamples > 0
    requires Punctual(cfg, Start, calls)
    ensures var starts := Replayed(cfg, Start, calls);
      forall j :: 0 <= j < |calls| ==>
        starts[j] == if j < ChunkCount(cfg.totalSamples, cfg.bufferSamples)
                     then Some(j * cfg.bufferSamples) else None
  {
    PunctualFrom(cfg, Start, 0, calls);
  }

  /** The five-row chunk `data[:, start:start+width]`. */
  function Chunk(data: seq<seq<real>>, start: nat, width: nat): (chunk: seq<seq<real>>)
    requires forall r :: 0 <= r < |data| ==> start + width <= |data[r]|
    ensures |chunk| == |data|
    ensures forall r :: 0 <= r < |data| ==> |chunk[r]| == width
  {
    seq(|data|, r requires 0 <= r < |data| => data[r][start..start + width])
  }

  /** Consecutive chunks `0, B, …, (n-1)B` of one channel, joined in order. */
  function Joined(row: seq<real>, b: nat, n: nat): (s: seq<real>)
    requires n * b <= |row|
    ensures |s| == n * b
  {
    if n == 0 then [] else
      MulMonotone(n - 1, n, b);
      Joined(row, b, n - 1) + row[(n - 1) * b .. n * b]
  }

  /** The joined chunks of a punctual replay are a prefix of the channel. */
  lemma {:induction false} JoinedIsPrefix(row: seq<real>, b: nat, n: nat)
    requires n * b <= |row|
    ensures Joined(row, b, n) == row[..n * b]
  {
    if n > 0 {
      MulMonotone(n - 1, n, b);
      JoinedIsPrefix(row, b, n - 1);
      assert row[..(n - 1) * b] + row[(n - 1) * b .. n * b] == row[..n * b];
    }
  }

  /**
   * The `DataServer` object: the recording and its configuration are fixed
   * at construction; `read_buffer` moves `current_location` forward (by the
   * overshoot of a late call, then by the chunk it returns) and resets
   * `last_call_time` when it returns a chunk.
   */
  class DataServer {
    const data: seq<seq<real>>
    const totalSamples: nat
    const samplingRate: nat
    const bufferSize: nat
    const bufferSamples: nat
    var currentLocation: nat
    var lastCallTime: Option<int>

    ghost predicate Valid()
      reads this
    {
      && |data| == Channels
      && (forall r :: 0 <= r < Channels ==> |data[r]| == totalSamples)
      && bufferSamples == BufferSamples(bufferSize)
      && Reachable(Cursor(currentLocation, lastCallTime))
    }

    function Cfg(): Config {
      Config(totalSamples, samplingRate, bufferSize, bufferSamples)
    }

    function State(): Cursor
      reads this
    {
      Cursor(currentLocation, lastCallTime)
    }

    constructor (channels: seq<seq<real>>, rate: nat, bufferSize: nat)
      requires |channels| == Channels
      requires forall r :: 0 <= r < Channels ==> |channels[r]| == |channels[0]|
      ensures Valid() && State() == Start
      ensures data == channels && totalSamples == |channels[0]| && samplingRate == rate
      ensures this.bufferSize == bufferSize && bufferSamples == BufferSamples(bufferSize)
    {
      data := channels;
      totalSamples := |channels[0]|;
      samplingRate := rate;
      this.bufferSize := bufferSize;
      bufferSamples := bufferSize * 256 / 1000;
      currentLocation := 0;
      lastCallTime := None;
    }

    /**
     * `read_buffer(realistic)` called at `now`: the chunk `data[:, loc:loc+B]`
     * at the post-skip position, or `None` at end of stream, and the time
     * the realistic throttle would sleep.
     */
    method ReadBuffer(now: int, realistic: bool) returns (buffer: Option<seq<seq<real>>>, wait: nat)
      requires Valid()
      modifies this
      ensures Valid()
      ensures var r := ReadAt(Cfg(), old(State()), now, realistic);
        && State() == r.next && wait == r.wait
        && buffer == if r.start.Some? then Some(Chunk(data, r.start.value, bufferSamples)) else None
      ensures currentLocation >= old(currentLocation)
      ensures buffer.Some? ==> currentLocation <= totalSamples
      ensures buffer.None? ==> lastCallTime == old(lastCallTime)
    {
      ReadStep(Cfg(), State(), now, realistic);
      wait := 0;
      if currentLocation == 0 {
        if currentLocation + bufferSamples >= totalSamples {
          return None, 0;
        }
        lastCallTime := Some(now);
        buffer := Some(Chunk(data, currentLocation, bufferSamples));
        currentLocation := currentLocation + bufferSamples;
        return;
      }

      var delta := now - lastCallTime.value;
      if delta > bufferSize {
        currentLocation := currentLocation + (delta - bufferSize) * samplingRate / 1000;
      }

      if currentLocation + bufferSamples >= totalSamples {
        return None, 0;
      }

      buffer := Some(Chunk(data, currentLocation, bufferSamples));
      currentLocation := currentLocation + bufferSamples;

      var waitTime := bufferSize - delta;
      if realistic && waitTime > 0 {
        wait := waitTime;
      }
      lastCallTime := Some(now + wait);
    }
  }
}
