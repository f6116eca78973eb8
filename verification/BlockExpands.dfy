/** A block that did not shrink is not always stored instead: an input that goes out larger than it came in. */
module BlockExpands {
  import opened Bits
  import opened LzTokens
  import opened LzAlphabet
  import opened BitWriter
  import opened BlockFormat
  import opened CanonicalCode
  import opened Blocks
  import opened BlockFlush
  import opened Inflater
  import opened Options
  import opened Stream
  import opened RunLengths
  import opened Deflater

  const ALTERNATING: nat := 31_000
  const MATCHES: nat := 10
  const SIZE: nat := ALTERNATING + MATCHES * MAX_MATCH_LEN

  /** 200 and 201 in turn, then 201 over and over. */
  function ByteAt(i: nat): (b: byte)
    ensures 200 <= b <= 201
  {
    if i < ALTERNATING && i % 2 == 0 then 200 else 201
  }

  function Data(): (data: seq<byte>)
    ensures |data| == SIZE
    ensures forall i :: 0 <= i < SIZE ==> data[i] == ByteAt(i)
  {
    seq(SIZE, i requires 0 <= i => ByteAt(i))
  }

  // ---- its tokens ----

  /** The n literals from p on, then j matches of full length. */
  ghost function Sample(p: nat, n: nat, j: nat): (ts: seq<Token>)
    ensures |ts| == n + j
  {
    seq(n, i requires 0 <= i => Literal(ByteAt(p + i))) + seq(j, _ => Match(MAX_MATCH_LEN, 1))
  }

  lemma SampleHead(p: nat, n: nat, j: nat)
    ensures n > 0 ==> Sample(p, n, j) == [Literal(ByteAt(p))] + Sample(p + 1, n - 1, j)
    ensures n == 0 && j > 0 ==> Sample(p, n, j) == [Match(MAX_MATCH_LEN, 1)] + Sample(p, 0, j - 1)
  {
  }

  /** No byte of the first part repeats the one before it. */
  lemma NoRun(p: nat, filter: bool)
    requires p < ALTERNATING
    ensures Ahead(Data(), p) == MAX_MATCH_LEN && RunToken(Data(), p, MAX_MATCH_LEN, filter) == Literal(ByteAt(p))
  {
    hide Data;
    if p > 0 {
      assert Data()[p] != Data()[p - 1];
      assert RunLength(Data(), p, MAX_MATCH_LEN) == 0;
    }
  }

  /** The second part is runs of full length, none of them at a place where the parser drops it. */
  lemma FullRun(k: nat, filter: bool)
    requires k < MATCHES
    ensures var p := ALTERNATING + k * MAX_MATCH_LEN;
            p < SIZE && Ahead(Data(), p) == MAX_MATCH_LEN
            && RunToken(Data(), p, MAX_MATCH_LEN, filter) == Match(MAX_MATCH_LEN, 1)
  {
    hide Data;
    WholeRun(Data(), ALTERNATING + k * MAX_MATCH_LEN, MAX_MATCH_LEN);
  }

  lemma {:induction false} RunsOfTail(k: nat, filter: bool)
    requires k <= MATCHES
    ensures ALTERNATING + k * MAX_MATCH_LEN <= SIZE
    ensures RunTokens(Data(), ALTERNATING + k * MAX_MATCH_LEN, filter) == Sample(ALTERNATING, 0, MATCHES - k)
    decreases MATCHES - k
  {
    hide Data, RunToken, Ahead;
    if k < MATCHES {
      FullRun(k, filter);
      RunsOfTail(k + 1, filter);
      SampleHead(ALTERNATING, 0, MATCHES - k);
    }
  }

  lemma {:induction false} RunsOfData(p: nat, filter: bool)
    requires p <= ALTERNATING
    ensures RunTokens(Data(), p, filter) == Sample(p, ALTERNATING - p, MATCHES)
    decreases ALTERNATING - p
  {
    hide Data, RunToken, Ahead;
    if p < ALTERNATING {
      NoRun(p, filter);
      RunsOfData(p + 1, filter);
      SampleHead(p, ALTERNATING - p, MATCHES);
    } else {
      RunsOfTail(0, filter);
    }
  }

  // ---- their size ----

  lemma {:induction false} SampleExpands(n: nat, j: nat)
    requires n > 0 || j == 0
    ensures CanExpand([], Sample(0, n, j)) && TotalSize(Sample(0, n, j)) == n + MAX_MATCH_LEN * j
    decreases n + j
  {
    var ts := Sample(0, n, j);
    if j > 0 {
      SampleExpands(n, j - 1);
      assert ts[..|ts| - 1] == Sample(0, n, j - 1);
      ExpandSize([], Sample(0, n, j - 1));
    } else if n > 0 {
      SampleExpands(n - 1, 0);
      assert ts[..|ts| - 1] == Sample(0, n - 1, 0);
    }
  }

  lemma {:induction false} SamplePayloads(p: nat, n: nat, j: nat)
    ensures |Payloads(Sample(p, n, j))| == n + 3 * j
    decreases n + j
  {
    if n > 0 {
      SampleHead(p, n, j);
      SamplePayloads(p + 1, n - 1, j);
    } else if j > 0 {
      SampleHead(p, n, j);
      SamplePayloads(p, 0, j - 1);
    }
  }

  lemma FixedCosts()
    ensures FixedLitLens()[200] == FixedLitLens()[201] == 9 && FixedLitLens()[END_OF_BLOCK] == 7
    ensures FixedLitLens()[285] == 8 && FixedDistLens()[0] == 5
  {
  }

  lemma TokenCosts(p: nat)
    ensures Coded(FixedLitLens(), FixedDistLens(), Literal(ByteAt(p)))
            && Coded(FixedLitLens(), FixedDistLens(), Match(MAX_MATCH_LEN, 1))
    ensures |TokenBits(FixedLitLens(), FixedDistLens(), Literal(ByteAt(p)))| == 9
    ensures |TokenBits(FixedLitLens(), FixedDistLens(), Match(MAX_MATCH_LEN, 1))| == 13
  {
    FixedCosts();
    hide FixedLitLens, FixedDistLens, CodeBits, ToBits;
  }

  lemma {:induction false} SampleBits(p: nat, n: nat, j: nat)
    ensures AllCoded(FixedLitLens(), FixedDistLens(), Sample(p, n, j))
    ensures |DataBits(FixedLitLens(), FixedDistLens(), Sample(p, n, j))| == 9 * n + 13 * j + 7
    decreases n + j
  {
    hide FixedLitLens, FixedDistLens, TokenBits, Coded;
    FixedCosts();
    TokenCosts(p);
    FixedCoded(Sample(p, n, j));
    if n > 0 {
      SampleHead(p, n, j);
      SampleBits(p + 1, n - 1, j);
    } else if j > 0 {
      SampleHead(p, n, j);
      SampleBits(p, 0, j - 1);
    }
  }

  lemma {:induction false} LayoutAtMost(ts: seq<Token>)
    ensures 8 * |Layout(ts)| <= 8 * |Payloads(ts)| + |ts| + 7
  {
    if |ts| > 8 {
      LayoutAtMost(ts[8..]);
      assert ts == ts[..8] + ts[8..];
      PayloadsAppend(ts[..8], ts[8..]);
    }
  }

  lemma SampleStaysOpen(n: nat, j: nat)
    requires n <= ALTERNATING && j <= MATCHES && (n < ALTERNATING ==> j == 0)
    ensures StaysOpen(Sample(0, n, j))
  {
    hide Layout, Payloads, TotalSize, CanExpand;
    SampleExpands(n, j);
    SamplePayloads(0, n, j);
    LayoutAtMost(Sample(0, n, j));
  }

  lemma SampleNeverCloses()
    ensures NeverCloses(Sample(0, ALTERNATING, MATCHES))
  {
    hide StaysOpen;
    var ts := Sample(0, ALTERNATING, MATCHES);
    forall k | 0 <= k <= |ts|
      ensures StaysOpen(ts[..k])
    {
      var n, j := if k < ALTERNATING then k else ALTERNATING, if k < ALTERNATING then 0 else k - ALTERNATING;
      assert ts[..k] == Sample(0, n, j);
      SampleStaysOpen(n, j);
    }
  }

  /** The 33580 bytes are parsed into 31000 literals and 10 matches, without the block being closed earlier. That is
      more than the window holds, and the fixed code takes 34892 bytes for them: PutBlock sends that larger form. */
  lemma SentThoughUnshrunk(m: Mark, dict: array<byte>, dictPos: u32, raw: seq<byte>, filter: bool)
    ensures var ts := RunTokens(Data(), 0, filter);
            && CanExpand([], ts) && TotalSize(ts) == |Data()| == 33_580 && Fixed(ts).Valid() && NeverCloses(ts)
            && Unshrunk(m, Fixed(ts), TotalSize(ts)) && !InWindow(dict, dictPos, TotalSize(ts), raw)
            && |Body(Fixed(ts), 0)| == 279_137
  {
    hide Data, Layout, DataBits, FixedLitLens, FixedDistLens, AllCoded, CanExpand, TotalSize, StaysOpen, NeverCloses;
    RunsOfData(0, filter);
    SampleExpands(ALTERNATING, MATCHES);
    SampleBits(0, ALTERNATING, MATCHES);
    SampleNeverCloses();
  }

  // ---- what becomes of it ----

  /** Flags under which only runs are looked for and every block has the fixed code. */
  predicate FixedRuns(flags: Flags) {
    flags.rle && flags.forceStatic && !flags.forceRaw
  }

  lemma OutputSize(ts: seq<Token>, sink: seq<byte>, zlib: bool, probes: nat, adler: u32)
    requires Fixed(ts).Valid() && |Body(Fixed(ts), 0)| == 279_137
    requires ByteBits(sink) == FlushOutput(Fixed(ts), zlib, probes, Finish, zlib, adler, 0)
    ensures |sink| == 34_893 + if zlib then 6 else 0
  {
    hide ByteBits, DataBits, FixedLitLens, FixedDistLens, AllCoded;
  }

  lemma LargeSample(d: Compressor)
    requires FixedRuns(d.flags)
    ensures d.LargeInRuns(Data())
  {
    hide Data, NeverCloses;
    RunsOfData(0, d.flags.filter);
    SampleNeverCloses();
  }

  lemma SampleSent(d: Compressor)
    requires d.SentInRuns(Data())
    ensures |d.sink| == 34_893 + if d.flags.zlib then 6 else 0
  {
    hide Data, DataBits, RunTokens, FlushOutput, ByteBits, CanExpand;
    RunsOfData(0, d.flags.filter);
    SampleBits(0, ALTERNATING, MATCHES);
    OutputSize(RunTokens(Data(), 0, d.flags.filter), d.sink, d.flags.zlib, d.flags.probes, d.adler);
  }

  /** Compressing it with such flags, if nothing is refused, gives more bytes than it has; they decode to it all the
      same. */
  method CompressUnshrunk(flags: Flags, putBuf: nat -> bool) returns (succeeded: bool, output: seq<byte>)
    requires flags.probes < 0x1000 && FixedRuns(flags)
    ensures !succeeded ==> exists i :: 0 <= i <= |Data()| && !putBuf(i)
    ensures succeeded ==> |Data()| < |output| == 34_893 + if flags.zlib then 6 else 0
    ensures succeeded ==> (if flags.zlib then ZlibDecode(output) else RawDecode(output)) == Option.Some(Data())
  {
    hide Data, ZlibDecode, RawDecode, Decodes, Compressor.Valid, Compressor.LargeInRuns, Compressor.SentInRuns;
    var data := Data();
    var d := new Compressor(flags, putBuf);
    LargeSample(d);
    var s := d.Compress(data, Finish);
    succeeded, output := s == Done, d.sink;
    if succeeded {
      SampleSent(d);
      assert [] + data == data;
    } else {
      assert !putBuf(d.deliveries - 1);
    }
  }
}
