/**
 * The running window of demo_tmr.py as values: five rows of `length`
 * samples; ingesting a chunk drops its width of oldest columns and appends
 * the chunk at the tail of every row.
 */
module SlidingWindow {
  import opened Stages

  /** Five rows of equal width `w`. */
  predicate Shaped(rows: seq<seq<real>>, w: nat) {
    |rows| == Channels && forall r :: 0 <= r < Channels ==> |rows[r]| == w
  }

  /** Width of a five-row chunk (`buffer.shape[1]`). */
  function Width(chunk: seq<seq<real>>): nat
    requires |chunk| == Channels
  {
    |chunk[0]|
  }

  /** A chunk the loop can ingest: five rows of equal width, no wider than the window. */
  predicate Fits(chunk: seq<seq<real>>, length: nat) {
    |chunk| == Channels && Shaped(chunk, Width(chunk)) && Width(chunk) <= length
  }

  predicate AllFit(chunks: seq<seq<seq<real>>>, length: nat) {
    forall k :: 0 <= k < |chunks| ==> Fits(chunks[k], length)
  }

  /** The last `n` elements of `s`. */
  function Tail(s: seq<real>, n: nat): seq<real>
    requires n <= |s|
  {
    s[|s| - n..]
  }

  /** `running_window[:, 0:L-s] = running_window[:, s:]; running_window[:, L-s:] = buffer`. */
  function ShiftIn(window: seq<seq<real>>, chunk: seq<seq<real>>, length: nat): (w: seq<seq<real>>)
    requires Shaped(window, length) && Fits(chunk, length)
    ensures Shaped(w, length)
  {
    seq(Channels, r requires 0 <= r < Channels => window[r][Width(chunk)..] + chunk[r])
  }

  /**
   * Column by column: the first `length - w` columns are the old columns
   * shifted left by the chunk's width `w`, the last `w` are the chunk.
   */
  lemma ShiftInColumns(window: seq<seq<real>>, chunk: seq<seq<real>>, length: nat)
    requires Shaped(window, length) && Fits(chunk, length)
    ensures var w := ShiftIn(window, chunk, length);
      && (forall r, j :: 0 <= r < Channels && 0 <= j < length - Width(chunk) ==>
            w[r][j] == window[r][j + Width(chunk)])
      && (forall r, j :: 0 <= r < Channels && 0 <= j < Width(chunk) ==>
            w[r][length - Width(chunk) + j] == chunk[r][j])
  {
  }

  /** Ingesting keeps the last `length` samples of the row followed by the chunk. */
  lemma ShiftInIsTail(window: seq<seq<real>>, chunk: seq<seq<real>>, length: nat, r: nat)
    requires Shaped(window, length) && Fits(chunk, length) && r < Channels
    ensures ShiftIn(window, chunk, length)[r] == Tail(window[r] + chunk[r], length)
  {
    var s := window[r] + chunk[r];
    assert s[|s| - length..] == window[r][Width(chunk)..] + chunk[r];
  }

  /** The tail of `x + y` lies within `y` when `y` is long enough. */
  lemma TailOfAppend(x: seq<real>, y: seq<real>, n: nat)
    requires n <= |y|
    ensures Tail(x + y, n) == Tail(y, n)
  {
    assert (x + y)[|x| + |y| - n..] == y[|y| - n..];
  }

  /** Taking the tail twice is taking it once. */
  lemma TailOfTail(a: seq<real>, b: seq<real>, n: nat)
    requires n <= |a|
    ensures Tail(Tail(a, n) + b, n) == Tail(a + b, n)
  {
    var head := a[..|a| - n];
    assert a + b == head + (Tail(a, n) + b);
    TailOfAppend(head, Tail(a, n) + b, n);
  }

  /** Sum of the chunk widths: what `samples_read` accumulates. */
  function TotalWidth(chunks: seq<seq<seq<real>>>, length: nat): nat
    requires AllFit(chunks, length)
  {
    if chunks == [] then 0 else TotalWidth(chunks[..|chunks| - 1], length) + Width(chunks[|chunks| - 1])
  }

  /** The stream of one channel: the rows of all chunks, in arrival order. */
  function Stream(chunks: seq<seq<seq<real>>>, length: nat, r: nat): (s: seq<real>)
    requires AllFit(chunks, length) && r < Channels
    ensures |s| == TotalWidth(chunks, length)
  {
    if chunks == [] then [] else Stream(chunks[..|chunks| - 1], length, r) + chunks[|chunks| - 1][r]
  }

  /** Ingest every chunk in order (the acquisition loop's window, chunk after chunk). */
  function IngestAll(window: seq<seq<real>>, chunks: seq<seq<seq<real>>>, length: nat): (w: seq<seq<real>>)
    requires Shaped(window, length) && AllFit(chunks, length)
    ensures Shaped(w, length)
  {
    if chunks == [] then window
    else ShiftIn(IngestAll(window, chunks[..|chunks| - 1], length), chunks[|chunks| - 1], length)
  }

  /**
   * After any sequence of chunks, each row is the last `length` samples of
   * the initial row followed by that channel's stream: chunks enter strictly
   * in arrival order, most recent last.
   */
  lemma {:induction false} IngestAllIsTail(window: seq<seq<real>>, chunks: seq<seq<seq<real>>>, length: nat, r: nat)
    requires Shaped(window, length) && AllFit(chunks, length) && r < Channels
    ensures IngestAll(window, chunks, length)[r] == Tail(window[r] + Stream(chunks, length, r), length)
  {
    if chunks == [] {
      assert window[r] + [] == window[r];
    } else {
      var init := chunks[..|chunks| - 1];
      var last := chunks[|chunks| - 1];
      assert AllFit(init, length);
      var before := IngestAll(window, init, length);
      IngestAllIsTail(window, init, length, r);
      ShiftInIsTail(before, last, length, r);
      TailOfTail(window[r] + Stream(init, length, r), last[r], length);
      assert window[r] + Stream(init, length, r) + last[r] == window[r] + Stream(chunks, length, r);
    }
  }

  /**
   * Once chunks totalling at least `length` samples have arrived, the window
   * holds exactly the last `length` samples of the stream, whatever it held
   * before; when they total exactly `length` it is their concatenation.
   */
  lemma WindowIsStreamTail(window: seq<seq<real>>, chunks: seq<seq<seq<real>>>, length: nat, r: nat)
    requires Shaped(window, length) && AllFit(chunks, length) && r < Channels
    requires TotalWidth(chunks, length) >= length
    ensures IngestAll(window, chunks, length)[r] == Tail(Stream(chunks, length, r), length)
    ensures TotalWidth(chunks, length) == length ==> IngestAll(window, chunks, length)[r] == Stream(chunks, length, r)
  {
    IngestAllIsTail(window, chunks, length, r);
    TailOfAppend(window[r], Stream(chunks, length, r), length);
  }

  /** Ingesting one more chunk extends the fold by one shift and the total by its width. */
  lemma IngestOneMore(window: seq<seq<real>>, chunks: seq<seq<seq<real>>>, chunk: seq<seq<real>>, length: nat)
    requires Shaped(window, length) && AllFit(chunks, length) && Fits(chunk, length)
    ensures AllFit(chunks + [chunk], length)
    ensures IngestAll(window, chunks + [chunk], length) == ShiftIn(IngestAll(window, chunks, length), chunk, length)
    ensures TotalWidth(chunks + [chunk], length) == TotalWidth(chunks, length) + Width(chunk)
  {
    assert (chunks + [chunk])[..|chunks|] == chunks;
  }
}
