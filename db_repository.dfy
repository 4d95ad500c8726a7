/**
 * The batching loop of the facility repository: rows arrive one at a time
 * from a server-side cursor (ordered by id), are collected in a buffer, and
 * the buffer is emitted whenever it holds `chunk_size` rows; whatever is left
 * at the end is emitted as a last, shorter chunk.
 */
module DbRepository {
  import opened FeedValues

  /** The chunks the loop emits, as a reference definition: full chunks from
      the front, and the remainder (if any) last. */
  function Chunked<T>(rows: seq<T>, size: nat): seq<seq<T>>
    requires size > 0
    decreases |rows|
  {
    if rows == [] then []
    else if |rows| <= size then [rows]
    else [rows[..size]] + Chunked(rows[size..], size)
  }

  /** All chunks joined end to end. */
  function Flatten<T>(chunks: seq<seq<T>>): seq<T>
  {
    if chunks == [] then [] else chunks[0] + Flatten(chunks[1..])
  }

  function Last<T>(s: seq<T>): T
    requires s != []
  {
    s[|s| - 1]
  }

  /** Joining the chunks gives back the rows: nothing lost, duplicated or
      reordered. */
  lemma {:induction false} ChunkedPartition<T>(rows: seq<T>, size: nat)
    requires size > 0
    ensures Flatten(Chunked(rows, size)) == rows
    decreases |rows|
  {
    if |rows| > size {
      var rest := Chunked(rows[size..], size);
      var chunks := [rows[..size]] + rest;
      assert Chunked(rows, size) == chunks;
      assert chunks[1..] == rest;
      assert Flatten(chunks) == rows[..size] + Flatten(rest);
      ChunkedPartition(rows[size..], size);
      assert rows == rows[..size] + rows[size..];
    } else if rows != [] {
      assert Flatten(Chunked(rows, size)) == rows + Flatten<T>([]);
    }
  }

  /** No chunk is empty, none is larger than `size`, every chunk but the last
      is full, and the last is full exactly when `size` divides the number of
      rows. */
  lemma {:induction false} ChunkedSizes<T>(rows: seq<T>, size: nat)
    requires size > 0
    ensures var chunks := Chunked(rows, size);
      && (forall i :: 0 <= i < |chunks| ==> 0 < |chunks[i]| <= size)
      && (forall i :: 0 <= i < |chunks| - 1 ==> |chunks[i]| == size)
      && (chunks != [] ==> (|Last(chunks)| == size <==> |rows| % size == 0))
    decreases |rows|
  {
    if |rows| > size {
      var rest := Chunked(rows[size..], size);
      ChunkedSizes(rows[size..], size);
      assert Chunked(rows, size) == [rows[..size]] + rest;
      DivModStep(|rows|, size);
    } else if |rows| == size {
      DivModStep(|rows|, size);
    } else if rows != [] {
      DivSmall(|rows|, size);
    }
  }

  /** The number of chunks is the number of rows divided by `size`, rounded
      up; in particular no rows means no chunks. */
  lemma {:induction false} ChunkedCount<T>(rows: seq<T>, size: nat)
    requires size > 0
    ensures |Chunked(rows, size)| == (|rows| + size - 1) / size
    ensures Chunked(rows, size) == [] <==> rows == []
    decreases |rows|
  {
    if |rows| > size {
      ChunkedCount(rows[size..], size);
      DivModStep(|rows| + size - 1, size);
    } else if rows != [] {
      DivModStep(|rows| + size - 1, size);
      DivSmall(|rows| - 1, size);
    } else {
      DivSmall(size - 1, size);
    }
  }

  lemma MulStep(x: int, y: int, n: nat)
    ensures x < y ==> x * n + n <= y * n
  {
    if x < y {
      var d := y - x;
      assert y * n == x * n + d * n;
      assert d * n >= n;
    }
  }

  /** Euclidean division has one quotient and one remainder. */
  lemma DivModUnique(a: int, n: nat, q: int, r: int)
    requires n > 0 && 0 <= r < n && a == q * n + r
    ensures a / n == q && a % n == r
  {
    MulStep(q, a / n, n);
    MulStep(a / n, q, n);
  }

  lemma DivModStep(a: nat, n: nat)
    requires 0 < n <= a
    ensures a % n == (a - n) % n
    ensures a / n == (a - n) / n + 1
  {
    var q, r := (a - n) / n, (a - n) % n;
    assert a == (q + 1) * n + r;
    DivModUnique(a, n, q + 1, r);
  }

  lemma DivSmall(a: nat, n: nat)
    requires a < n
    ensures a / n == 0 && a % n == a
  {
  }

  lemma {:induction false} FlattenAppend<T>(chunks: seq<seq<T>>, c: seq<T>)
    ensures Flatten(chunks + [c]) == Flatten(chunks) + c
  {
    if chunks == [] {
      assert Flatten([c]) == c + Flatten<T>([]);
    } else {
      assert (chunks + [c])[1..] == chunks[1..] + [c];
      FlattenAppend(chunks[1..], c);
    }
  }

  /** Rows that are a run of full chunks are chunked back into those chunks. */
  lemma {:induction false} ChunkedFull<T>(full: seq<seq<T>>, size: nat)
    requires size > 0
    requires forall k :: 0 <= k < |full| ==> |full[k]| == size
    ensures Chunked(Flatten(full), size) == full
  {
    if full != [] {
      var rest := Flatten(full[1..]);
      ChunkedFull(full[1..], size);
      var whole := full[0] + rest;
      assert whole[..size] == full[0];
      assert whole[size..] == rest;
      if full[1..] == [] {
        assert whole == full[0];
      } else {
        assert rest == full[1..][0] + Flatten(full[1..][1..]);
      }
    }
  }

  /** After a run of full chunks, a last chunk of at most `size` rows comes out
      as one more chunk. */
  lemma {:induction false} ChunkedAppend<T>(full: seq<seq<T>>, tail: seq<T>, size: nat)
    requires size > 0
    requires forall k :: 0 <= k < |full| ==> |full[k]| == size
    requires 0 < |tail| <= size
    ensures Chunked(Flatten(full) + tail, size) == full + [tail]
  {
    if full == [] {
      assert Flatten(full) + tail == tail;
    } else {
      var whole := Flatten(full) + tail;
      assert whole == full[0] + (Flatten(full[1..]) + tail);
      assert whole[..size] == full[0];
      assert whole[size..] == Flatten(full[1..]) + tail;
      ChunkedAppend(full[1..], tail, size);
      assert full == [full[0]] + full[1..];
    }
  }

  /** The facility table, as the ordered cursor returns it. */
  class FacilityRepository {
    /** The rows of `SELECT ... FROM facility ORDER BY id`, in that order. */
    const rows: seq<Row>

    constructor (rows: seq<Row>)
      ensures this.rows == rows
    {
      this.rows := rows;
    }

    /** `fetch_facilities_chunked`: the chunks it yields, in order. */
    method FetchFacilitiesChunked(chunkSize: nat) returns (chunks: seq<seq<Row>>)
      requires chunkSize > 0
      ensures chunks == Chunked(rows, chunkSize)
      ensures Flatten(chunks) == rows
      ensures forall i :: 0 <= i < |chunks| ==> 0 < |chunks[i]| <= chunkSize
      ensures forall i :: 0 <= i < |chunks| - 1 ==> |chunks[i]| == chunkSize
      ensures chunks != [] ==> (|Last(chunks)| < chunkSize <==> |rows| % chunkSize != 0)
      ensures chunks == [] <==> rows == []
    {
      chunks := [];
      var currentChunk: seq<Row> := [];
      var i := 0;
      while i < |rows|
        invariant 0 <= |currentChunk| < chunkSize
        invariant |currentChunk| <= i <= |rows|
        invariant forall k :: 0 <= k < |chunks| ==> |chunks[k]| == chunkSize
        invariant Flatten(chunks) == rows[..i - |currentChunk|]
        invariant currentChunk == rows[i - |currentChunk|..i]
      {
        currentChunk := currentChunk + [rows[i]];
        i := i + 1;
        if |currentChunk| == chunkSize {
          FlattenAppend(chunks, currentChunk);
          assert rows[..i - chunkSize] + currentChunk == rows[..i];
          chunks := chunks + [currentChunk];
          currentChunk := [];
        }
      }
      if currentChunk != [] {
        ChunkedAppend(chunks, currentChunk, chunkSize);
        assert rows[..i - |currentChunk|] + currentChunk == rows;
        chunks := chunks + [currentChunk];
      } else {
        assert rows[..i] == rows;
        ChunkedFull(chunks, chunkSize);
      }
      ChunkedPartition(rows, chunkSize);
      ChunkedSizes(rows, chunkSize);
      ChunkedCount(rows, chunkSize);
    }
  }
}
