/** How `send_frame` splits a row wider than 497 pixels into pixel frames. */
module Chunking {
  import opened Bytes
  import opened Frames

  /** A run of `count` pixels starting at pixel `offset` of the row. */
  datatype Chunk = Chunk(offset: nat, count: nat)

  /** The chunks of `for offset in range(start, width, 497)`, each with
      `min(497, width - offset)` pixels. */
  function ChunksFrom(width: nat, start: nat): seq<Chunk>
    decreases width - start
  {
    if start >= width then []
    else [Chunk(start, Min(MaxPixelsPerPacket, width - start))] + ChunksFrom(width, start + MaxPixelsPerPacket)
  }

  /** The chunks of a whole row. */
  function Chunks(width: nat): seq<Chunk>
  {
    ChunksFrom(width, 0)
  }

  function SumCounts(cs: seq<Chunk>): nat
  {
    if cs == [] then 0 else cs[0].count + SumCounts(cs[1..])
  }

  /** Chunk i starts 497*i pixels after `start` and has `min(497, rest)` pixels,
      and there are as many chunks as 497-pixel runs needed to reach `width`. */
  lemma {:induction false} ChunksFromShape(width: nat, start: nat)
    ensures var cs := ChunksFrom(width, start);
      && |cs| == (if start < width then (width - start + MaxPixelsPerPacket - 1) / MaxPixelsPerPacket else 0)
      && forall i :: 0 <= i < |cs| ==>
           cs[i].offset == start + MaxPixelsPerPacket * i
           && cs[i].count == Min(MaxPixelsPerPacket, width - cs[i].offset)
           && cs[i].offset < width
    decreases width - start
  {
    if start < width {
      var cs := ChunksFrom(width, start);
      var rest := ChunksFrom(width, start + MaxPixelsPerPacket);
      ChunksFromShape(width, start + MaxPixelsPerPacket);
      assert cs == [Chunk(start, Min(MaxPixelsPerPacket, width - start))] + rest;
      forall i | 0 < i < |cs|
        ensures cs[i].offset == start + MaxPixelsPerPacket * i
      {
        assert cs[i] == rest[i - 1];
      }
    }
  }

  /** The counts add up to what is left of the row. */
  lemma {:induction false} ChunksFromSum(width: nat, start: nat)
    ensures SumCounts(ChunksFrom(width, start)) == if start < width then width - start else 0
    decreases width - start
  {
    if start < width {
      ChunksFromSum(width, start + MaxPixelsPerPacket);
      var cs := ChunksFrom(width, start);
      assert cs[1..] == ChunksFrom(width, start + MaxPixelsPerPacket);
    }
  }

  /** Pixel x of the row is inside chunk c. */
  predicate Covers(c: Chunk, x: int)
  {
    c.offset <= x < c.offset + c.count
  }

  /** The chunks of a row follow one another without gap or overlap: every
      chunk holds 1..497 pixels, the first starts at 0, the offsets strictly
      increase with each chunk beginning where the previous one ends, the
      last ends at `width`, and the counts sum to `width`. */
  lemma ChunksTileRow(width: nat)
    ensures var cs := Chunks(width);
      && (forall i :: 0 <= i < |cs| ==> 0 < cs[i].count <= MaxPixelsPerPacket)
      && (|cs| > 0 <==> width > 0)
      && (width > 0 ==> cs[0].offset == 0 && cs[|cs| - 1].offset + cs[|cs| - 1].count == width)
      && (forall i :: 0 <= i < |cs| - 1 ==>
            cs[i].offset < cs[i + 1].offset && cs[i + 1].offset == cs[i].offset + cs[i].count)
      && SumCounts(cs) == width
  {
    var cs := Chunks(width);
    ChunksFromSum(width, 0);
    assert |cs| > 0 <==> width > 0 by {
      ChunkAt(width, 0);
    }
    forall i | 0 <= i < |cs|
      ensures 0 < cs[i].count <= MaxPixelsPerPacket
    {
      ChunkAt(width, i);
    }
    if width > 0 {
      var n := |cs|;
      ChunkAt(width, n - 1);
      ChunkAt(width, n);
    }
    forall i | 0 <= i < |cs| - 1
      ensures cs[i].offset < cs[i + 1].offset && cs[i + 1].offset == cs[i].offset + cs[i].count
    {
      ChunkAt(width, i);
      ChunkAt(width, i + 1);
    }
  }

  /** The chunks cover exactly the pixels [0, width), each pixel x in chunk
      x / 497 and in no other. */
  lemma ChunksCoverRow(width: nat)
    ensures var cs := Chunks(width);
      forall x, i :: 0 <= i < |cs| ==>
        (Covers(cs[i], x) <==> 0 <= x < width && i == x / MaxPixelsPerPacket)
  {
    var cs := Chunks(width);
    ChunksFromShape(width, 0);
    forall x, i | 0 <= i < |cs|
      ensures Covers(cs[i], x) <==> 0 <= x < width && i == x / MaxPixelsPerPacket
    {
      if Covers(cs[i], x) {
        DivInRange(x, i);
      }
      if 0 <= x < width && i == x / MaxPixelsPerPacket {
        assert MaxPixelsPerPacket * i <= x < MaxPixelsPerPacket * i + MaxPixelsPerPacket;
      }
    }
  }

  /** Chunk k exists exactly when pixel 497*k is inside the row, and it
      then starts at that pixel. */
  lemma ChunkAt(width: nat, k: nat)
    ensures k < |Chunks(width)| <==> MaxPixelsPerPacket * k < width
    ensures k < |Chunks(width)| ==>
      Chunks(width)[k] == Chunk(MaxPixelsPerPacket * k, Min(MaxPixelsPerPacket, width - MaxPixelsPerPacket * k))
  {
    ChunksFromShape(width, 0);
    var n := |Chunks(width)|;
    if width > 0 {
      assert MaxPixelsPerPacket * n <= width + MaxPixelsPerPacket - 1 < MaxPixelsPerPacket * n + MaxPixelsPerPacket;
      if k < n {
        assert MaxPixelsPerPacket * k <= MaxPixelsPerPacket * (n - 1);
      } else {
        assert MaxPixelsPerPacket * k >= MaxPixelsPerPacket * n;
      }
    }
  }

  lemma DivInRange(x: int, i: nat)
    requires MaxPixelsPerPacket * i <= x < MaxPixelsPerPacket * i + MaxPixelsPerPacket
    ensures x / MaxPixelsPerPacket == i
  {
  }

  /** A row of at most 497 pixels is one chunk at offset 0. */
  lemma NarrowRowIsOneChunk(width: nat)
    requires 0 < width <= MaxPixelsPerPacket
    ensures Chunks(width) == [Chunk(0, width)]
  {
    assert ChunksFrom(width, MaxPixelsPerPacket) == [];
  }

  /** A 1024-pixel row goes out as (0, 497), (497, 497), (994, 30). */
  lemma Row1024()
    ensures Chunks(1024) == [Chunk(0, 497), Chunk(497, 497), Chunk(994, 30)]
  {
    assert ChunksFrom(1024, 1491) == [];
    assert ChunksFrom(1024, 994) == [Chunk(994, 30)];
    assert ChunksFrom(1024, 497) == [Chunk(497, 497), Chunk(994, 30)];
  }
}
