/**
 * The dataflow of the accelerator kernel (Seqmatcher.cpp): `read_in` packs the
 * sequences into 2-bit-per-nucleotide vectors and sends one message per
 * (target, query) pair, the `String_matching` workers run the bit-parallel
 * scan of a pair and report the position of the lowest score, and `write_out`
 * stores each position at the pair's id in the output array.
 *
 * The worker pool (a round-robin split, 42 workers and a round-robin merge)
 * keeps the order of the messages and is modelled as one sequential map.
 */
module SeqMatcherHw {
  import opened Common
  import opened LogicalBlock

  const MAX_SEQ_LENGTH: nat := 360
  const QUERY_BLOCK_SIZE: nat := 10240
  /** `ap_uint<POS_BITS_U>` lengths and positions hold values modulo 2^9. */
  const POS_BITS_U: nat := 9
  const POS_MODULUS: nat := 512
  /** `ap_int<SCORE_BITS_S>` scores hold values in [-2^10, 2^10). */
  const SCORE_BITS_S: nat := 11
  const SCORE_MIN: int := -1024
  const SCORE_MAX: int := 1023

  /** The two code bits `bit_process` keeps of a nucleotide: bits 1 and 2 of its ASCII code. */
  function Code1(b: u8): bool { (b / 2) % 2 == 1 }
  function Code2(b: u8): bool { (b / 4) % 2 == 1 }

  /** A, C, G and T get four different code pairs. */
  lemma NucleotideCodesDistinct()
    ensures Code1('A' as u8) == false && Code2('A' as u8) == false
    ensures Code1('C' as u8) == true && Code2('C' as u8) == false
    ensures Code1('G' as u8) == true && Code2('G' as u8) == true
    ensures Code1('T' as u8) == false && Code2('T' as u8) == true
  {
  }

  /**
   * bit_process: for i < t, bit i of the two vectors becomes the code of byte
   * `s[off + i]`; the bits from t up keep their value.
   */
  method BitProcess(s: seq<u8>, off: nat, t: nat, bit1: Vec, bit2: Vec) returns (b1: Vec, b2: Vec)
    requires t <= WIDTH && off + t <= |s|
    ensures forall i | 0 <= i < WIDTH :: b1[i] == if i < t then Code1(s[off + i]) else bit1[i]
    ensures forall i | 0 <= i < WIDTH :: b2[i] == if i < t then Code2(s[off + i]) else bit2[i]
  {
    b1, b2 := bit1, bit2;
    var i := 0;
    while i < t
      invariant i <= t
      invariant forall k | 0 <= k < WIDTH :: b1[k] == if k < i then Code1(s[off + k]) else bit1[k]
      invariant forall k | 0 <= k < WIDTH :: b2[k] == if k < i then Code2(s[off + k]) else bit2[k]
    {
      var c := s[off + i];
      b1 := b1[i := Code1(c)];
      b2 := b2[i := Code2(c)];
      i := i + 1;
    }
  }

  /** The kernel's arguments: packed sequences (MAX_SEQ_LENGTH bytes each), counts and lengths. */
  datatype Inputs = Inputs(seqTarget: seq<u8>, nt: nat, lengthTarget: seq<u32>,
                           seqQuery: seq<u8>, nq: nat, lengthQuery: seq<u32>)

  predicate WellFormed(inp: Inputs) {
    && |inp.lengthTarget| >= inp.nt && |inp.seqTarget| >= inp.nt * MAX_SEQ_LENGTH
    && |inp.lengthQuery| >= inp.nq && |inp.seqQuery| >= inp.nq * MAX_SEQ_LENGTH
    // a length read into ap_uint<9> must index a 360-bit vector
    && (forall i | 0 <= i < inp.nt :: inp.lengthTarget[i] % POS_MODULUS <= WIDTH)
    && (forall q | 0 <= q < inp.nq :: inp.lengthQuery[q] % POS_MODULUS <= WIDTH)
  }

  /** A message to a worker (msg_in_t). */
  datatype MsgIn = MsgIn(bit1Ref: Vec, bit2Ref: Vec, lengthRef: nat,
                         bit1Pat: Vec, bit2Pat: Vec, lengthPat: nat, id: nat)

  /** A worker's answer (msg_out_t). */
  datatype MsgOut = MsgOut(pos: nat, id: nat)

  /** A (target, query) pair. */
  datatype Pair = Pair(target: nat, query: nat)

  /** The id of a pair: target-major, `target * nq + query`. */
  function Id(p: Pair, nq: nat): nat {
    p.target * nq + p.query
  }

  /**
   * The message of pair p: its id, both lengths truncated to 9 bits, the
   * pattern's code bits (0 from its length up) and the reference's code bits
   * below its length (the bits above it are left over from earlier targets).
   */
  predicate Carries(m: MsgIn, p: Pair, inp: Inputs)
    requires WellFormed(inp) && p.target < inp.nt && p.query < inp.nq
  {
    var tOff := p.target * MAX_SEQ_LENGTH;
    var qOff := p.query * MAX_SEQ_LENGTH;
    MulMono(p.target + 1, inp.nt, MAX_SEQ_LENGTH);
    MulMono(p.query + 1, inp.nq, MAX_SEQ_LENGTH);
    && m.id == Id(p, inp.nq)
    && m.lengthRef == inp.lengthTarget[p.target] % POS_MODULUS
    && m.lengthPat == inp.lengthQuery[p.query] % POS_MODULUS
    && (forall k | 0 <= k < m.lengthRef ::
          m.bit1Ref[k] == Code1(inp.seqTarget[tOff + k]) && m.bit2Ref[k] == Code2(inp.seqTarget[tOff + k]))
    && (forall k | 0 <= k < WIDTH ::
          && m.bit1Pat[k] == (k < m.lengthPat && Code1(inp.seqQuery[qOff + k]))
          && m.bit2Pat[k] == (k < m.lengthPat && Code2(inp.seqQuery[qOff + k])))
  }

  /** Whether `msgs` are the messages of `pairs`, one for one. */
  predicate CarriesAll(msgs: seq<MsgIn>, pairs: seq<Pair>, inp: Inputs)
    requires WellFormed(inp)
  {
    && |msgs| == |pairs|
    && forall k | 0 <= k < |pairs| ::
         pairs[k].target < inp.nt && pairs[k].query < inp.nq && Carries(msgs[k], pairs[k], inp)
  }

  /** The queries of block b: from b * QUERY_BLOCK_SIZE, at most QUERY_BLOCK_SIZE of them. */
  function BlockWidth(nq: nat, b: nat): (w: nat)
    requires b * QUERY_BLOCK_SIZE < nq
    ensures 1 <= w <= QUERY_BLOCK_SIZE && b * QUERY_BLOCK_SIZE + w <= nq
  {
    var remaining := nq - b * QUERY_BLOCK_SIZE;
    if remaining > QUERY_BLOCK_SIZE then QUERY_BLOCK_SIZE else remaining
  }

  /** The number of query blocks. */
  function NumBlocks(nq: nat): (n: nat)
    ensures n * QUERY_BLOCK_SIZE >= nq && (n == 0 || (n - 1) * QUERY_BLOCK_SIZE < nq)
  {
    (nq + QUERY_BLOCK_SIZE - 1) / QUERY_BLOCK_SIZE
  }

  /** Target i against queries j .. j + w - 1. */
  function Row(i: nat, j: nat, w: nat): (r: seq<Pair>)
    ensures |r| == w
  {
    seq(w, s requires 0 <= s < w => Pair(i, j + s))
  }

  /** Targets 0 .. n - 1, each against queries j .. j + w - 1. */
  function Rows(n: nat, j: nat, w: nat): (r: seq<Pair>)
    ensures |r| == n * w
  {
    if n == 0 then [] else Rows(n - 1, j, w) + Row(n - 1, j, w)
  }

  /** The pairs of blocks 0 .. b - 1, in the order read_in sends them. */
  function Pairs(nt: nat, nq: nat, b: nat): seq<Pair>
    requires b <= NumBlocks(nq)
  {
    if b == 0 then [] else
      Pairs(nt, nq, b - 1) + Rows(nt, (b - 1) * QUERY_BLOCK_SIZE, BlockWidth(nq, b - 1))
  }

  /** All pairs, in the order read_in sends them. */
  function AllPairs(nt: nat, nq: nat): seq<Pair> {
    Pairs(nt, nq, NumBlocks(nq))
  }

  function MinNat(a: nat, b: nat): nat { if a < b then a else b }

  lemma {:induction false} PairsCount(nt: nat, nq: nat, b: nat)
    requires b <= NumBlocks(nq)
    ensures |Pairs(nt, nq, b)| == nt * MinNat(b * QUERY_BLOCK_SIZE, nq)
  {
    if b > 0 {
      PairsCount(nt, nq, b - 1);
      var j := (b - 1) * QUERY_BLOCK_SIZE;
      var w := BlockWidth(nq, b - 1);
      assert |Pairs(nt, nq, b)| == |Pairs(nt, nq, b - 1)| + nt * w;
      assert MinNat(j, nq) == j && MinNat(b * QUERY_BLOCK_SIZE, nq) == j + w;
      MulAdd(nt, j, w);
    }
  }

  lemma MulAdd(n: nat, a: nat, b: nat)
    ensures n * a + n * b == n * (a + b)
  {
  }

  lemma {:induction false} RowsMembers(n: nat, j: nat, w: nat, p: Pair)
    ensures p in Rows(n, j, w) <==> p.target < n && j <= p.query < j + w
  {
    if n > 0 {
      RowsMembers(n - 1, j, w, p);
      if p.target == n - 1 && j <= p.query < j + w {
        assert Row(n - 1, j, w)[p.query - j] == p;
      }
    }
  }

  lemma {:induction false} PairsMembers(nt: nat, nq: nat, b: nat, p: Pair)
    requires b <= NumBlocks(nq)
    ensures p in Pairs(nt, nq, b) <==> p.target < nt && p.query < MinNat(b * QUERY_BLOCK_SIZE, nq)
  {
    if b > 0 {
      PairsMembers(nt, nq, b - 1, p);
      RowsMembers(nt, (b - 1) * QUERY_BLOCK_SIZE, BlockWidth(nq, b - 1), p);
    }
  }

  predicate Distinct<T(==)>(s: seq<T>) {
    forall a, b | 0 <= a < b < |s| :: s[a] != s[b]
  }

  lemma DistinctConcat<T>(x: seq<T>, y: seq<T>)
    requires Distinct(x) && Distinct(y)
    requires forall e | e in x :: e !in y
    ensures Distinct(x + y)
  {
    forall a, b | 0 <= a < b < |x + y|
      ensures (x + y)[a] != (x + y)[b]
    {
      if a < |x| && b >= |x| {
        assert (x + y)[a] in x && (x + y)[b] == y[b - |x|];
      }
    }
  }

  lemma {:induction false} RowsDistinct(n: nat, j: nat, w: nat)
    ensures Distinct(Rows(n, j, w))
  {
    if n > 0 {
      RowsDistinct(n - 1, j, w);
      var earlier, last := Rows(n - 1, j, w), Row(n - 1, j, w);
      forall e | e in earlier
        ensures e !in last
      {
        RowsMembers(n - 1, j, w, e);
      }
      DistinctConcat(earlier, last);
    }
  }

  lemma {:induction false} PairsDistinct(nt: nat, nq: nat, b: nat)
    requires b <= NumBlocks(nq)
    ensures Distinct(Pairs(nt, nq, b))
  {
    if b > 0 {
      var j := (b - 1) * QUERY_BLOCK_SIZE;
      var w := BlockWidth(nq, b - 1);
      PairsDistinct(nt, nq, b - 1);
      RowsDistinct(nt, j, w);
      forall e | e in Pairs(nt, nq, b - 1)
        ensures e !in Rows(nt, j, w)
      {
        PairsMembers(nt, nq, b - 1, e);
        RowsMembers(nt, j, w, e);
      }
      DistinctConcat(Pairs(nt, nq, b - 1), Rows(nt, j, w));
    }
  }

  /**
   * read_in sends nt * nq messages, one per (target, query) pair, each pair once.
   */
  lemma AllPairsEnumerate(nt: nat, nq: nat)
    ensures |AllPairs(nt, nq)| == nt * nq
    ensures forall p: Pair :: p in AllPairs(nt, nq) <==> p.target < nt && p.query < nq
    ensures Distinct(AllPairs(nt, nq))
  {
    PairsCount(nt, nq, NumBlocks(nq));
    forall p: Pair
      ensures p in AllPairs(nt, nq) <==> p.target < nt && p.query < nq
    {
      PairsMembers(nt, nq, NumBlocks(nq), p);
    }
    PairsDistinct(nt, nq, NumBlocks(nq));
  }

  /** Different pairs have different ids. */
  lemma IdsInjective(nq: nat)
    ensures forall p: Pair, p': Pair | p.query < nq && p'.query < nq && Id(p, nq) == Id(p', nq) :: p == p'
  {
    forall p: Pair, p': Pair | p.query < nq && p'.query < nq && Id(p, nq) == Id(p', nq)
      ensures p == p'
    {
      DivOfBlock(Id(p, nq), nq, p.target);
      DivOfBlock(Id(p', nq), nq, p'.target);
    }
  }

  /** The ids of the pairs are exactly 0 .. nt * nq - 1. */
  lemma IdsArePositions(nt: nat, nq: nat)
    ensures forall p: Pair | p.target < nt && p.query < nq :: Id(p, nq) < nt * nq
    ensures nt * nq > 0 ==> nq >= 1
    ensures forall id: nat | id < nt * nq :: nq >= 1 && Id(PairOf(id, nq), nq) == id && PairOf(id, nq).target < nt
  {
    forall p: Pair | p.target < nt && p.query < nq
      ensures Id(p, nq) < nt * nq
    {
      IdBelow(p, nt, nq);
    }
    forall id: nat | id < nt * nq
      ensures nq >= 1 && Id(PairOf(id, nq), nq) == id && PairOf(id, nq).target < nt
    {
      PairOfId(id, nt, nq);
    }
  }

  lemma IdBelow(p: Pair, nt: nat, nq: nat)
    requires p.target < nt && p.query < nq
    ensures Id(p, nq) < nt * nq
  {
    MulMono(p.target + 1, nt, nq);
    assert (p.target + 1) * nq == p.target * nq + nq;
  }

  lemma PairOfId(id: nat, nt: nat, nq: nat)
    requires id < nt * nq
    ensures nq >= 1 && Id(PairOf(id, nq), nq) == id && PairOf(id, nq).target < nt
  {
    if nq > 0 {
      var t := id / nq;
      assert t * nq + id % nq == id;
      if t >= nt {
        MulMono(nt, t, nq);
      }
    }
  }

  /** The pair whose id is `id`. */
  function PairOf(id: nat, nq: nat): (p: Pair)
    requires nq >= 1
    ensures p.query < nq
  {
    Pair(id / nq, id % nq)
  }

  lemma DivOfBlock(x: nat, d: nat, k: nat)
    requires d >= 1 && k * d <= x < k * d + d
    ensures x / d == k && x % d == x - k * d
  {
    var k' := x / d;
    assert k' * d <= x < k' * d + d;
    if k' > k {
      MulMono(k + 1, k', d);
    } else if k' < k {
      MulMono(k' + 1, k, d);
    }
  }

  /**
   * read_in: for each query block, the block's queries are packed once, then
   * every target is packed and sent with each query of the block.  The ids run
   * `target * nq + query`.
   */
  method ReadIn(inp: Inputs) returns (msgs: seq<MsgIn>)
    requires WellFormed(inp)
    ensures CarriesAll(msgs, AllPairs(inp.nt, inp.nq), inp)
    ensures |msgs| == inp.nt * inp.nq
    ensures forall k | 0 <= k < |msgs| :: msgs[k].id < inp.nt * inp.nq
    ensures forall k, k' | 0 <= k < k' < |msgs| :: msgs[k].id != msgs[k'].id
  {
    var nt, nq := inp.nt, inp.nq;
    msgs := [];
    var ref1, ref2 := Zeros(), Zeros();
    var j := 0;
    ghost var b := 0;
    while j < nq
      invariant b <= NumBlocks(nq) && j == b * QUERY_BLOCK_SIZE
      invariant CarriesAll(msgs, Pairs(nt, nq, b), inp)
      decreases nq - j
    {
      var remaining := nq - j;
      var block := if remaining > QUERY_BLOCK_SIZE then QUERY_BLOCK_SIZE else remaining;
      assert block == BlockWidth(nq, b);
      var queries, queryLengths := ReadQueryBlock(inp, j, block);
      var sent;
      ref1, ref2, sent := SendBlock(inp, j, block, queries, queryLengths, ref1, ref2);
      BlockExtendsPairs(msgs, sent, inp, b);
      msgs := msgs + sent;
      j := j + QUERY_BLOCK_SIZE;
      b := b + 1;
    }
    PairsDone(nq, b);
    MessageIds(msgs, inp);
  }

  /** The messages of block b, appended, carry the pairs up to block b + 1. */
  lemma BlockExtendsPairs(msgs: seq<MsgIn>, sent: seq<MsgIn>, inp: Inputs, b: nat)
    requires WellFormed(inp) && b <= NumBlocks(inp.nq) && b * QUERY_BLOCK_SIZE < inp.nq
    requires CarriesAll(msgs, Pairs(inp.nt, inp.nq, b), inp)
    requires CarriesAll(sent, Rows(inp.nt, b * QUERY_BLOCK_SIZE, BlockWidth(inp.nq, b)), inp)
    ensures b + 1 <= NumBlocks(inp.nq)
    ensures CarriesAll(msgs + sent, Pairs(inp.nt, inp.nq, b + 1), inp)
  {
    CarriesAllAppend(msgs, Pairs(inp.nt, inp.nq, b), sent,
                     Rows(inp.nt, b * QUERY_BLOCK_SIZE, BlockWidth(inp.nq, b)), inp);
    PairsNext(inp.nt, inp.nq, b);
  }

  /** Block b, while it starts below nq, extends the pairs by its rows. */
  lemma PairsNext(nt: nat, nq: nat, b: nat)
    requires b <= NumBlocks(nq) && b * QUERY_BLOCK_SIZE < nq
    ensures b + 1 <= NumBlocks(nq)
    ensures Pairs(nt, nq, b + 1) == Pairs(nt, nq, b) + Rows(nt, b * QUERY_BLOCK_SIZE, BlockWidth(nq, b))
  {
  }

  /** The first block that starts at or past nq is the end. */
  lemma PairsDone(nq: nat, b: nat)
    requires b <= NumBlocks(nq) && b * QUERY_BLOCK_SIZE >= nq
    ensures b == NumBlocks(nq)
  {
  }

  /** The messages of all pairs carry each id of 0 .. nt * nq - 1 exactly once. */
  lemma MessageIds(msgs: seq<MsgIn>, inp: Inputs)
    requires WellFormed(inp) && CarriesAll(msgs, AllPairs(inp.nt, inp.nq), inp)
    ensures |msgs| == inp.nt * inp.nq
    ensures forall k | 0 <= k < |msgs| :: msgs[k].id < inp.nt * inp.nq
    ensures forall k, k' | 0 <= k < k' < |msgs| :: msgs[k].id != msgs[k'].id
  {
    var nt, nq := inp.nt, inp.nq;
    var pairs := AllPairs(nt, nq);
    AllPairsEnumerate(nt, nq);
    IdsInjective(nq);
    IdsArePositions(nt, nq);
    forall k | 0 <= k < |msgs|
      ensures msgs[k].id < nt * nq
    {
      assert msgs[k].id == Id(pairs[k], nq);
    }
    forall k, k' | 0 <= k < k' < |msgs|
      ensures msgs[k].id != msgs[k'].id
    {
      assert pairs[k] != pairs[k'];
      assert msgs[k].id == Id(pairs[k], nq) && msgs[k'].id == Id(pairs[k'], nq);
    }
  }

  /** Some message carries id `id`. */
  predicate SendsId(msgs: seq<MsgIn>, id: nat) {
    exists k :: 0 <= k < |msgs| && msgs[k].id == id
  }

  /** Every id of 0 .. nt * nq - 1 is carried by some message of all pairs. */
  lemma MessageIdsCover(msgs: seq<MsgIn>, inp: Inputs)
    requires WellFormed(inp) && CarriesAll(msgs, AllPairs(inp.nt, inp.nq), inp)
    ensures forall id: nat | id < inp.nt * inp.nq :: SendsId(msgs, id)
  {
    var nt, nq := inp.nt, inp.nq;
    var pairs := AllPairs(nt, nq);
    AllPairsEnumerate(nt, nq);
    IdsArePositions(nt, nq);
    forall id: nat | id < nt * nq
      ensures SendsId(msgs, id)
    {
      var p := PairOf(id, nq);
      assert p in pairs;
      var k :| 0 <= k < |pairs| && pairs[k] == p;
      assert msgs[k].id == id;
    }
  }

  /** read_in's second loop: every target against the queries j .. j + w - 1 of a block. */
  method SendBlock(inp: Inputs, j: nat, w: nat, queries: seq<(Vec, Vec)>, lengths: seq<nat>,
                   ref1: Vec, ref2: Vec)
    returns (ref1': Vec, ref2': Vec, sent: seq<MsgIn>)
    requires WellFormed(inp) && j + w <= inp.nq
    requires QueryBlock(inp, j, w, queries, lengths)
    ensures CarriesAll(sent, Rows(inp.nt, j, w), inp)
  {
    ref1', ref2' := ref1, ref2;
    sent := [];
    var i := 0;
    var id := j;
    while i < inp.nt
      invariant i <= inp.nt && id == i * inp.nq + j
      invariant CarriesAll(sent, Rows(i, j, w), inp)
    {
      var row;
      ref1', ref2', row := SendTarget(inp, i, j, w, queries, lengths, ref1', ref2', id);
      CarriesAllAppend(sent, Rows(i, j, w), row, Row(i, j, w), inp);
      sent := sent + row;
      id := id + w + inp.nq - w;
      assert (i + 1) * inp.nq == i * inp.nq + inp.nq;
      i := i + 1;
    }
  }

  lemma CarriesAllAppend(a: seq<MsgIn>, pa: seq<Pair>, b: seq<MsgIn>, pb: seq<Pair>, inp: Inputs)
    requires WellFormed(inp) && CarriesAll(a, pa, inp) && CarriesAll(b, pb, inp)
    ensures CarriesAll(a + b, pa + pb, inp)
  {
    forall k | 0 <= k < |pa + pb|
      ensures (pa + pb)[k].target < inp.nt && (pa + pb)[k].query < inp.nq
              && Carries((a + b)[k], (pa + pb)[k], inp)
    {
      if k >= |pa| {
        assert (a + b)[k] == b[k - |pa|] && (pa + pb)[k] == pb[k - |pa|];
      }
    }
  }

  /**
   * One target of read_in's second loop: the target's code bits go into the
   * vectors left by the previous target, then one message per query of the
   * block, with ids `id, id + 1, ...`.
   */
  method SendTarget(inp: Inputs, i: nat, j: nat, w: nat, queries: seq<(Vec, Vec)>, lengths: seq<nat>,
                    ref1: Vec, ref2: Vec, id: nat)
    returns (ref1': Vec, ref2': Vec, row: seq<MsgIn>)
    requires WellFormed(inp) && i < inp.nt && j + w <= inp.nq && id == i * inp.nq + j
    requires QueryBlock(inp, j, w, queries, lengths)
    ensures CarriesAll(row, Row(i, j, w), inp)
  {
    var lengthRef := inp.lengthTarget[i] % POS_MODULUS;
    MulMono(i + 1, inp.nt, MAX_SEQ_LENGTH);
    ref1', ref2' := BitProcess(inp.seqTarget, i * MAX_SEQ_LENGTH, lengthRef, ref1, ref2);
    row := [];
    var s := 0;
    while s < w
      invariant s <= w
      invariant CarriesAll(row, Row(i, j, w)[..s], inp)
    {
      var m := MsgIn(ref1', ref2', lengthRef, queries[s].0, queries[s].1, lengths[s], id + s);
      assert Carries(m, Pair(i, j + s), inp);
      assert Row(i, j, w)[..s + 1] == Row(i, j, w)[..s] + [Pair(i, j + s)];
      row := row + [m];
      s := s + 1;
    }
    assert Row(i, j, w)[..s] == Row(i, j, w);
  }

  /**
   * The code bits and lengths of queries j .. j + w - 1, as bit_process leaves
   * them: a query's bits are 0 from its length up.
   */
  predicate QueryBlock(inp: Inputs, j: nat, w: nat, queries: seq<(Vec, Vec)>, lengths: seq<nat>)
    requires WellFormed(inp) && j + w <= inp.nq
  {
    && |queries| == w && |lengths| == w
    && forall s | 0 <= s < w ::
         lengths[s] == inp.lengthQuery[j + s] % POS_MODULUS && queries[s] == QueryBits(inp, j + s)
  }

  /** The two code-bit vectors of query q. */
  function QueryBits(inp: Inputs, q: nat): (Vec, Vec)
    requires WellFormed(inp) && q < inp.nq
  {
    var len := inp.lengthQuery[q] % POS_MODULUS;
    (Packed(inp.seqQuery, q * MAX_SEQ_LENGTH, len, false), Packed(inp.seqQuery, q * MAX_SEQ_LENGTH, len, true))
  }

  /** read_in's first inner loop: the code bits and lengths of queries j .. j + w - 1. */
  method ReadQueryBlock(inp: Inputs, j: nat, w: nat) returns (queries: seq<(Vec, Vec)>, lengths: seq<nat>)
    requires WellFormed(inp) && j + w <= inp.nq
    ensures QueryBlock(inp, j, w, queries, lengths)
  {
    queries, lengths := [], [];
    var s := 0;
    while s < w
      invariant s <= w && QueryBlock(inp, j, s, queries, lengths)
    {
      var bits, l := ReadQuery(inp, j + s);
      QueryBlockExtend(inp, j, s, queries, lengths);
      queries := queries + [bits];
      lengths := lengths + [l];
      s := s + 1;
    }
  }

  /** One query of the block: its length truncated to 9 bits and bit_process from zero vectors. */
  method ReadQuery(inp: Inputs, q: nat) returns (bits: (Vec, Vec), l: nat)
    requires WellFormed(inp) && q < inp.nq
    ensures l == inp.lengthQuery[q] % POS_MODULUS && bits == QueryBits(inp, q)
  {
    l := inp.lengthQuery[q] % POS_MODULUS;
    var b1, b2 := BitProcess(inp.seqQuery, q * MAX_SEQ_LENGTH, l, Zeros(), Zeros());
    assert b1 == Packed(inp.seqQuery, q * MAX_SEQ_LENGTH, l, false);
    assert b2 == Packed(inp.seqQuery, q * MAX_SEQ_LENGTH, l, true);
    bits := (b1, b2);
  }

  /** One more query read extends the block by that query's bits and length. */
  lemma QueryBlockExtend(inp: Inputs, j: nat, s: nat, queries: seq<(Vec, Vec)>, lengths: seq<nat>)
    requires WellFormed(inp) && j + s < inp.nq && QueryBlock(inp, j, s, queries, lengths)
    ensures QueryBlock(inp, j, s + 1, queries + [QueryBits(inp, j + s)],
                       lengths + [inp.lengthQuery[j + s] % POS_MODULUS])
  {
    var queries', lengths' := queries + [QueryBits(inp, j + s)], lengths + [inp.lengthQuery[j + s] % POS_MODULUS];
    forall s' | 0 <= s' < s + 1
      ensures lengths'[s'] == inp.lengthQuery[j + s'] % POS_MODULUS && queries'[s'] == QueryBits(inp, j + s')
    {
      if s' < s {
        assert queries'[s'] == queries[s'] && lengths'[s'] == lengths[s'];
      }
    }
  }

  /** An `ap_int<11>` holding x: x reduced into [-1024, 1024). */
  function Signed11(x: int): (r: int)
    ensures SCORE_MIN <= r <= SCORE_MAX
    ensures SCORE_MIN <= x <= SCORE_MAX ==> r == x
  {
    var u := x % 2048;
    if u >= 1024 then u - 2048 else u
  }

  /** An `ap_int<9>` holding x: x reduced into [-256, 256). */
  function Signed9(x: int): (r: int)
    ensures -256 <= r < 256
    ensures -256 <= x < 256 ==> r == x
  {
    var u := x % POS_MODULUS;
    if u >= 256 then u - POS_MODULUS else u
  }

  /** An `ap_uint<9>` holding x: x reduced into [0, 512). */
  function Unsigned9(x: int): (r: nat)
    ensures r < POS_MODULUS
  {
    x % POS_MODULUS
  }

  /**
   * `min_pos` is a signed 9-bit value: positions from 256 up are stored as
   * negative numbers, and the unsigned 9-bit `pos` of the answer turns them
   * back into the position.
   */
  lemma PositionSurvivesSigned9(j: nat)
    requires j < POS_MODULUS
    ensures Unsigned9(Signed9(j)) == j
  {
  }

  /** The bit-vector state of the scan: VP, VN and the score. */
  datatype Scan = Scan(vp: Vec, vn: Vec, score: int)

  /** Both lengths index the 360-bit vectors (a length-0 pattern included). */
  predicate Scannable(m: MsgIn) {
    m.lengthPat <= WIDTH && m.lengthRef <= WIDTH
  }

  /**
   * What the reads `HP.range(length_pat-1, length_pat-1)` and
   * `HN.range(length_pat-1, length_pat-1)` yield for a length-0 pattern, whose
   * bit index is -1: C++ leaves those bits unspecified, so the model takes them
   * as a parameter, one pair of bits per message id and reference position.
   */
  type OutOfRange = (nat, nat) -> (bool, bool)

  /** The vectors one iteration of comp_cells computes from VP and VN. */
  datatype Cells = Cells(d0: Vec, hn: Vec, hp: Vec)

  function CompCells(bit1Pat: Vec, bit2Pat: Vec, ref1: bool, ref2: bool, vp: Vec, vn: Vec): Cells {
    var mask := MaskPattern2Bit(bit1Pat, bit2Pat, ref1, ref2);
    var x := Or(mask, vn);
    var d0 := Or(Xor(Sum(And(x, vp), vp), vp), x);
    Cells(d0, And(d0, vp), Or(vn, Not(Or(d0, vp))))
  }

  /** What the two unspecified bits add to the score of a length-0 pattern. */
  function UndefinedDelta(undefined: (bool, bool)): int {
    (if undefined.0 then 1 else 0) - (if undefined.1 then 1 else 0)
  }

  /**
   * What the score gains at one position: HP minus HN at the pattern's last bit;
   * for a length-0 pattern, the two unspecified bits `undefined` instead.
   */
  function Delta(c: Cells, lengthPat: nat, undefined: (bool, bool)): (d: int)
    requires lengthPat <= WIDTH
    ensures -1 <= d <= 1
    ensures lengthPat == 0 ==> d == UndefinedDelta(undefined)
    ensures lengthPat > 0 ==> d == (if c.hp[lengthPat - 1] then 1 else 0) - (if c.hn[lengthPat - 1] then 1 else 0)
  {
    if lengthPat == 0 then UndefinedDelta(undefined)
    else (if c.hp[lengthPat - 1] then 1 else 0) - (if c.hn[lengthPat - 1] then 1 else 0)
  }

  /** The rest of the iteration: the score update and the next VP and VN. */
  function Advance(c: Cells, score: int, lengthPat: nat, undefined: (bool, bool)): (next: Scan)
    requires lengthPat <= WIDTH
    ensures lengthPat == 0 ==> next.score == Signed11(score + UndefinedDelta(undefined))
  {
    var x := ShiftLeft(c.hp);
    Scan(Or(ShiftLeft(c.hn), Not(Or(x, c.d0))), And(x, c.d0), Signed11(score + Delta(c, lengthPat, undefined)))
  }

  /**
   * The score of a length-0 pattern after the first n reference positions: the
   * unspecified bits alone move it.
   */
  function UndefinedScore(id: nat, oob: OutOfRange, n: nat): (score: int)
    ensures -(n as int) <= score <= n
  {
    if n == 0 then 0 else UndefinedScore(id, oob, n - 1) + UndefinedDelta(oob(id, n - 1))
  }

  /**
   * The state after the first n reference positions; VN = 0, VP = ~0 and the
   * score is the pattern length at the start.  Each position moves the score
   * by at most one, so the 11-bit score never wraps.
   */
  function ScanAfter(m: MsgIn, oob: OutOfRange, n: nat): (st: Scan)
    requires Scannable(m) && n <= WIDTH
    ensures m.lengthPat - n <= st.score <= m.lengthPat + n
    ensures m.lengthPat == 0 ==> st.score == UndefinedScore(m.id, oob, n)
    decreases n, 0
  {
    if n == 0 then Scan(Ones(), Zeros(), m.lengthPat) else Step(m, oob, n - 1)
  }

  /** Iteration j of comp_cells: reference position j against the whole pattern. */
  function Step(m: MsgIn, oob: OutOfRange, j: nat): (st: Scan)
    requires Scannable(m) && j < WIDTH
    ensures ScanAfter(m, oob, j).score - 1 <= st.score <= ScanAfter(m, oob, j).score + 1
    decreases j, 1
  {
    var st := ScanAfter(m, oob, j);
    Advance(CompCells(m.bit1Pat, m.bit2Pat, m.bit1Ref[j], m.bit2Ref[j], st.vp, st.vn), st.score, m.lengthPat, oob(m.id, j))
  }

  /** One more position of the scan: comp_cells applied to the state so far. */
  lemma ScanAfterNext(m: MsgIn, oob: OutOfRange, j: nat)
    requires Scannable(m) && j < WIDTH
    ensures var st := ScanAfter(m, oob, j);
      ScanAfter(m, oob, j + 1) == Advance(CompCells(m.bit1Pat, m.bit2Pat, m.bit1Ref[j], m.bit2Ref[j], st.vp, st.vn), st.score, m.lengthPat, oob(m.id, j))
  {
    assert ScanAfter(m, oob, j + 1) == Step(m, oob, j);
  }

  /** The score after reference position j. */
  function ScoreAt(m: MsgIn, oob: OutOfRange, j: nat): int
    requires Scannable(m) && j < WIDTH
  {
    ScanAfter(m, oob, j + 1).score
  }

  /** The scores after positions 0 .. n-1, in order. */
  function ScoreList(m: MsgIn, oob: OutOfRange, n: nat): (s: seq<int>)
    requires Scannable(m) && n <= WIDTH
    ensures |s| == n
  {
    if n == 0 then [] else ScoreList(m, oob, n - 1) + [ScoreAt(m, oob, n - 1)]
  }

  lemma {:induction false} ScoreListAt(m: MsgIn, oob: OutOfRange, n: nat)
    requires Scannable(m) && n <= WIDTH
    ensures forall j | 0 <= j < n :: ScoreList(m, oob, n)[j] == ScoreAt(m, oob, j)
  {
    if n > 0 {
      ScoreListAt(m, oob, n - 1);
      var prev := ScoreList(m, oob, n - 1);
      assert ScoreList(m, oob, n) == prev + [ScoreAt(m, oob, n - 1)];
      forall j | 0 <= j < n
        ensures ScoreList(m, oob, n)[j] == ScoreAt(m, oob, j)
      {
        if j < n - 1 {
          assert ScoreList(m, oob, n)[j] == prev[j];
        }
      }
    }
  }

  /**
   * The running minimum over a list of scores, starting from `start` at position
   * 0: `min_value` and `min_pos` (a signed 9-bit value), replaced only by a
   * strictly lower score.
   */
  function MinTrack(s: seq<int>, start: int): (int, int) {
    if s == [] then (start, 0)
    else
      var prev := MinTrack(s[..|s| - 1], start);
      if s[|s| - 1] < prev.0 then (s[|s| - 1], Signed9(|s| - 1)) else prev
  }

  /** One more score extends the list by the score after the next position. */
  lemma ScoreListNext(m: MsgIn, oob: OutOfRange, j: nat)
    requires Scannable(m) && j < WIDTH
    ensures ScoreList(m, oob, j + 1) == ScoreList(m, oob, j) + [ScanAfter(m, oob, j + 1).score]
  {
  }

  /** One more score replaces the running minimum exactly when it is strictly lower. */
  lemma MinTrackNext(s: seq<int>, start: int, x: int)
    ensures var prev := MinTrack(s, start);
      MinTrack(s + [x], start) == if x < prev.0 then (x, Signed9(|s|)) else prev
  {
    assert (s + [x])[..|s|] == s;
  }

  /** The running minimum is at most the start and at most every score. */
  lemma {:induction false} MinTrackIsMinimum(s: seq<int>, start: int)
    ensures MinTrack(s, start).0 <= start
    ensures forall j | 0 <= j < |s| :: s[j] >= MinTrack(s, start).0
  {
    if s != [] {
      var init := s[..|s| - 1];
      MinTrackIsMinimum(init, start);
      assert forall j | 0 <= j < |init| :: s[j] == init[j];
    }
  }

  /** While no score went below the start, the position stays 0. */
  lemma {:induction false} MinTrackUntouched(s: seq<int>, start: int)
    ensures MinTrack(s, start).0 == start ==> MinTrack(s, start).1 == 0
  {
    if s != [] {
      MinTrackUntouched(s[..|s| - 1], start);
      MinTrackIsMinimum(s[..|s| - 1], start);
    }
  }

  /**
   * A running minimum below the start sits at the first position that reached
   * it, for lists shorter than 512 (the range of the 9-bit position).
   */
  lemma {:induction false} MinTrackIsEarliest(s: seq<int>, start: int)
    requires |s| <= POS_MODULUS
    ensures var (v, p) := MinTrack(s, start);
      v < start ==>
        && Unsigned9(p) < |s| && s[Unsigned9(p)] == v
        && forall j | 0 <= j < Unsigned9(p) :: s[j] > v
  {
    if s != [] {
      var init := s[..|s| - 1];
      MinTrackIsEarliest(init, start);
      MinTrackIsMinimum(init, start);
      assert forall j | 0 <= j < |init| :: s[j] == init[j];
      if s[|s| - 1] < MinTrack(init, start).0 {
        PositionSurvivesSigned9(|s| - 1);
      }
    }
  }

  /** The position a worker reports for message m. */
  function MatchPos(m: MsgIn, oob: OutOfRange): (pos: nat)
    requires Scannable(m)
    ensures pos < POS_MODULUS
  {
    Unsigned9(MinTrack(ScoreList(m, oob, m.lengthRef), m.lengthPat).1)
  }

  /** A worker whose scores never go below the pattern length reports position 0. */
  lemma MatchPosWithoutImprovement(m: MsgIn, oob: OutOfRange)
    requires Scannable(m)
    requires forall j | 0 <= j < m.lengthRef :: ScoreAt(m, oob, j) >= m.lengthPat
    ensures MatchPos(m, oob) == 0
  {
    var s := ScoreList(m, oob, m.lengthRef);
    ScoreListAt(m, oob, m.lengthRef);
    MinTrackIsMinimum(s, m.lengthPat);
    MinTrackUntouched(s, m.lengthPat);
    MinTrackIsEarliest(s, m.lengthPat);
  }

  /**
   * A worker with some score below the pattern length reports the earliest
   * position of the lowest score.
   */
  lemma MatchPosIsEarliestMinimum(m: MsgIn, oob: OutOfRange, k: nat)
    requires Scannable(m)
    requires k < m.lengthRef && ScoreAt(m, oob, k) < m.lengthPat
    ensures var pos := MatchPos(m, oob);
      && pos < m.lengthRef
      && ScoreAt(m, oob, pos) < m.lengthPat
      && (forall j | 0 <= j < m.lengthRef :: ScoreAt(m, oob, j) >= ScoreAt(m, oob, pos))
      && (forall j | 0 <= j < pos :: ScoreAt(m, oob, j) > ScoreAt(m, oob, pos))
  {
    var s := ScoreList(m, oob, m.lengthRef);
    ScoreListAt(m, oob, m.lengthRef);
    MinTrackIsMinimum(s, m.lengthPat);
    MinTrackIsEarliest(s, m.lengthPat);
    assert s[k] == ScoreAt(m, oob, k);
  }

  /** From equal states, one more position of a non-empty pattern gives equal states. */
  lemma StepIgnoresUndefinedBits(m: MsgIn, oob: OutOfRange, oob': OutOfRange, j: nat)
    requires Scannable(m) && 1 <= m.lengthPat && j < WIDTH
    requires ScanAfter(m, oob, j) == ScanAfter(m, oob', j)
    ensures ScanAfter(m, oob, j + 1) == ScanAfter(m, oob', j + 1)
  {
    var st := ScanAfter(m, oob, j);
    var c := CompCells(m.bit1Pat, m.bit2Pat, m.bit1Ref[j], m.bit2Ref[j], st.vp, st.vn);
    AdvanceIgnoresUndefinedBits(c, st.score, m.lengthPat, oob(m.id, j), oob'(m.id, j));
  }

  /** The step of a non-empty pattern does not read the unspecified bits. */
  lemma AdvanceIgnoresUndefinedBits(c: Cells, score: int, lengthPat: nat, undefined: (bool, bool), undefined': (bool, bool))
    requires 1 <= lengthPat <= WIDTH
    ensures Advance(c, score, lengthPat, undefined) == Advance(c, score, lengthPat, undefined')
  {
    assert Delta(c, lengthPat, undefined) == Delta(c, lengthPat, undefined');
  }

  /** A worker's answer for a non-empty pattern does not depend on the unspecified bits. */
  lemma MatchPosIgnoresUndefinedBits(m: MsgIn, oob: OutOfRange, oob': OutOfRange)
    requires Scannable(m) && 1 <= m.lengthPat
    ensures MatchPos(m, oob) == MatchPos(m, oob')
  {
    var j := 0;
    while j < m.lengthRef
      invariant j <= m.lengthRef
      invariant ScanAfter(m, oob, j) == ScanAfter(m, oob', j)
      invariant ScoreList(m, oob, j) == ScoreList(m, oob', j)
    {
      StepIgnoresUndefinedBits(m, oob, oob', j);
      ScoreListNext(m, oob, j);
      ScoreListNext(m, oob', j);
      j := j + 1;
    }
  }

  /**
   * For a length-0 pattern the answer is decided by the unspecified bits: for
   * any reference of two nucleotides it is 0 when every read gives 0, and 1
   * when the HN read at position 1 gives 1.
   */
  lemma EmptyPatternAnswerUnspecified(m: MsgIn)
    requires Scannable(m) && m.lengthPat == 0 && m.lengthRef == 2
    ensures MatchPos(m, (id: nat, j: nat) => (false, false)) == 0
    ensures MatchPos(m, (id: nat, j: nat) => (false, j == 1)) == 1
  {
    EmptyPatternTwoPositions(m, (id: nat, j: nat) => (false, false));
    EmptyPatternTwoPositions(m, (id: nat, j: nat) => (false, j == 1));
  }

  /**
   * The answer for a length-0 pattern against two reference positions: 1 when
   * the second score is below both the first and the start, 0 otherwise.
   */
  lemma EmptyPatternTwoPositions(m: MsgIn, oob: OutOfRange)
    requires Scannable(m) && m.lengthPat == 0 && m.lengthRef == 2
    ensures var s0 := UndefinedScore(m.id, oob, 1);
      var s1 := UndefinedScore(m.id, oob, 2);
      MatchPos(m, oob) == if s1 < s0 && s1 < 0 then 1 else 0
  {
    var s := ScoreList(m, oob, m.lengthRef);
    EmptyPatternScores(m, oob);
    AnswerOfTwo(s, UndefinedScore(m.id, oob, 1), UndefinedScore(m.id, oob, 2));
  }

  /** The answer over two scores from 0: position 1 only for a strictly lowest second score. */
  lemma AnswerOfTwo(s: seq<int>, s0: int, s1: int)
    requires |s| == 2 && s[0] == s0 && s[1] == s1
    ensures Unsigned9(MinTrack(s, 0).1) == if s1 < s0 && s1 < 0 then 1 else 0
  {
    assert s[..1] == [] + [s0];
    assert s == s[..1] + [s1];
    MinTrackNext([], 0, s0);
    MinTrackNext(s[..1], 0, s1);
  }

  /** The scores of a length-0 pattern come from the unspecified bits alone. */
  lemma EmptyPatternScores(m: MsgIn, oob: OutOfRange)
    requires Scannable(m) && m.lengthPat == 0
    ensures forall j | 0 <= j < m.lengthRef :: ScoreList(m, oob, m.lengthRef)[j] == UndefinedScore(m.id, oob, j + 1)
  {
    ScoreListAt(m, oob, m.lengthRef);
  }

  /**
   * String_matching: the scan over the reference, one position per iteration,
   * keeping the lowest score and its position; the answer carries the message's id.
   */
  method StringMatching(m: MsgIn, oob: OutOfRange) returns (out: MsgOut)
    requires Scannable(m)
    ensures out.id == m.id && out.pos == MatchPos(m, oob)
  {
    var score: int := m.lengthPat;
    var minValue: int := score;
    var minPos: int := 0;
    var vn, vp := Zeros(), Ones();
    var j := 0;
    while j < m.lengthRef
      invariant j <= m.lengthRef
      invariant ScanAfter(m, oob, j) == Scan(vp, vn, score)
      invariant MinTrack(ScoreList(m, oob, j), m.lengthPat) == (minValue, minPos)
    {
      var c := CompCells(m.bit1Pat, m.bit2Pat, m.bit1Ref[j], m.bit2Ref[j], vp, vn);
      var next := Advance(c, score, m.lengthPat, oob(m.id, j));
      ScanAfterNext(m, oob, j);
      vp, vn, score := next.vp, next.vn, next.score;
      ScoreListNext(m, oob, j);
      MinTrackNext(ScoreList(m, oob, j), m.lengthPat, score);
      if score < minValue {
        minValue := score;
        minPos := Signed9(j);
      }
      j := j + 1;
    }
    out := MsgOut(Unsigned9(minPos), m.id);
  }

  /** The stores of write_out, in order: each answer's position at its id. */
  function Scatter(output: seq<i32>, rs: seq<MsgOut>): (r: seq<i32>)
    requires forall k | 0 <= k < |rs| :: rs[k].id < |output| && rs[k].pos < POS_MODULUS
    ensures |r| == |output|
  {
    if rs == [] then output
    else Scatter(output, rs[..|rs| - 1])[rs[|rs| - 1].id := rs[|rs| - 1].pos]
  }

  /**
   * With distinct ids, every answer's position ends up at its id, and the
   * entries no answer names keep their value.
   */
  lemma {:induction false} ScatterStoresEachAnswer(output: seq<i32>, rs: seq<MsgOut>)
    requires forall k | 0 <= k < |rs| :: rs[k].id < |output| && rs[k].pos < POS_MODULUS
    requires forall k, k' | 0 <= k < k' < |rs| :: rs[k].id != rs[k'].id
    ensures forall k | 0 <= k < |rs| :: Scatter(output, rs)[rs[k].id] == rs[k].pos
    ensures forall x | 0 <= x < |output| && (forall k | 0 <= k < |rs| :: rs[k].id != x) ::
              Scatter(output, rs)[x] == output[x]
  {
    if rs != [] {
      ScatterStoresEachAnswer(output, rs[..|rs| - 1]);
    }
  }

  /**
   * write_out: nseqq * nseqt answers are read, in order, and each position is
   * stored at the answer's id.
   */
  method WriteOut(results: seq<MsgOut>, output: array<i32>, nseqt: nat, nseqq: nat)
    requires nseqt * nseqq <= |results|
    requires forall k | 0 <= k < |results| :: results[k].id < output.Length && results[k].pos < POS_MODULUS
    modifies output
    ensures output[..] == Scatter(old(output[..]), results[..nseqt * nseqq])
  {
    var k := 0;
    var j := 0;
    while j < nseqq
      invariant j <= nseqq && k == j * nseqt && k <= nseqt * nseqq
      invariant output[..] == Scatter(old(output[..]), results[..k])
    {
      var i := 0;
      while i < nseqt
        invariant i <= nseqt && k == j * nseqt + i && k <= nseqt * nseqq
        invariant output[..] == Scatter(old(output[..]), results[..k])
      {
        RowMajorBelow(j, i + 1, nseqq, nseqt);
        var out := results[k];
        ScatterNext(old(output[..]), results, k);
        output[out.id] := out.pos;
        k := k + 1;
        i := i + 1;
      }
      RowMajorBelow(j, nseqt, nseqq, nseqt);
      j := j + 1;
    }
  }

  /**
   * The first i entries of row j of a row-major table of nrows rows of ncols
   * entries lie inside it, and row j ends where row j + 1 starts.
   */
  lemma RowMajorBelow(j: nat, i: nat, nrows: nat, ncols: nat)
    requires j < nrows && i <= ncols
    ensures j * ncols + i <= ncols * nrows
    ensures j * ncols + ncols == (j + 1) * ncols
  {
    MulMono(j + 1, nrows, ncols);
  }

  /** One more answer stored: the scatter of the first k + 1 answers. */
  lemma ScatterNext(output: seq<i32>, rs: seq<MsgOut>, k: nat)
    requires k < |rs|
    requires forall k' | 0 <= k' < |rs| :: rs[k'].id < |output| && rs[k'].pos < POS_MODULUS
    ensures Scatter(output, rs[..k + 1]) == Scatter(output, rs[..k])[rs[k].id := rs[k].pos]
  {
    assert rs[..k + 1][..k] == rs[..k];
  }

  /**
   * Whether two messages give a worker the same input: the reference bits from
   * its length up are never read, and the id selects the unspecified bits.
   */
  predicate SameScanInput(m: MsgIn, m': MsgIn) {
    && m.id == m'.id
    && m.bit1Pat == m'.bit1Pat && m.bit2Pat == m'.bit2Pat
    && m.lengthPat == m'.lengthPat && m.lengthRef == m'.lengthRef
    && forall k | 0 <= k < m.lengthRef && k < WIDTH :: m.bit1Ref[k] == m'.bit1Ref[k] && m.bit2Ref[k] == m'.bit2Ref[k]
  }

  lemma {:induction false} ScanReadsRefBelowLength(m: MsgIn, m': MsgIn, oob: OutOfRange, n: nat)
    requires Scannable(m) && SameScanInput(m, m') && n <= m.lengthRef
    ensures ScanAfter(m, oob, n) == ScanAfter(m', oob, n)
  {
    if n > 0 {
      ScanReadsRefBelowLength(m, m', oob, n - 1);
      var j := n - 1;
      assert m.bit1Ref[j] == m'.bit1Ref[j] && m.bit2Ref[j] == m'.bit2Ref[j];
      var st := ScanAfter(m, oob, j);
      var c := CompCells(m.bit1Pat, m.bit2Pat, m.bit1Ref[j], m.bit2Ref[j], st.vp, st.vn);
      assert c == CompCells(m'.bit1Pat, m'.bit2Pat, m'.bit1Ref[j], m'.bit2Ref[j], st.vp, st.vn);
      assert ScanAfter(m, oob, n) == Advance(c, st.score, m.lengthPat, oob(m.id, j));
    }
  }

  lemma ScoreListsAgree(m: MsgIn, m': MsgIn, oob: OutOfRange, n: nat)
    requires Scannable(m) && SameScanInput(m, m') && n <= m.lengthRef
    ensures ScoreList(m, oob, n) == ScoreList(m', oob, n)
  {
    ScoreListAt(m, oob, n);
    ScoreListAt(m', oob, n);
    forall j | 0 <= j < n
      ensures ScoreList(m, oob, n)[j] == ScoreList(m', oob, n)[j]
    {
      ScanReadsRefBelowLength(m, m', oob, j + 1);
    }
  }

  /** Messages that give a worker the same input get the same answer. */
  lemma MatchPosReadsRefBelowLength(m: MsgIn, m': MsgIn, oob: OutOfRange)
    requires Scannable(m) && SameScanInput(m, m')
    ensures MatchPos(m, oob) == MatchPos(m', oob)
  {
    ScoreListsAgree(m, m', oob, m.lengthRef);
  }

  /** The code bits of the `len` bytes at `off`, 0 from bit `len` up. */
  function Packed(s: seq<u8>, off: nat, len: nat, upper: bool): (r: Vec)
    requires len <= WIDTH && off + len <= |s|
    ensures forall k | 0 <= k < WIDTH ::
      r[k] == (k < len && (if upper then Code2(s[off + k]) else Code1(s[off + k])))
  {
    seq(WIDTH, k requires 0 <= k < WIDTH =>
      k < len && (if upper then Code2(s[off + k]) else Code1(s[off + k])))
  }

  /** The message of pair p with the reference bits above its length cleared. */
  function PairMessage(inp: Inputs, p: Pair): (m: MsgIn)
    requires WellFormed(inp) && p.target < inp.nt && p.query < inp.nq
    ensures Carries(m, p, inp)
  {
    var tOff := p.target * MAX_SEQ_LENGTH;
    var qOff := p.query * MAX_SEQ_LENGTH;
    MulMono(p.target + 1, inp.nt, MAX_SEQ_LENGTH);
    MulMono(p.query + 1, inp.nq, MAX_SEQ_LENGTH);
    var lr := inp.lengthTarget[p.target] % POS_MODULUS;
    var lp := inp.lengthQuery[p.query] % POS_MODULUS;
    MsgIn(Packed(inp.seqTarget, tOff, lr, false), Packed(inp.seqTarget, tOff, lr, true), lr,
          Packed(inp.seqQuery, qOff, lp, false), Packed(inp.seqQuery, qOff, lp, true), lp, Id(p, inp.nq))
  }

  /** Pair p's own message can be scanned: both lengths fit the vectors. */
  lemma PairMessageScannable(inp: Inputs, p: Pair)
    requires WellFormed(inp) && p.target < inp.nt && p.query < inp.nq
    ensures Scannable(PairMessage(inp, p))
  {
    var m := PairMessage(inp, p);
    assert m.lengthPat == inp.lengthQuery[p.query] % POS_MODULUS;
    assert m.lengthRef == inp.lengthTarget[p.target] % POS_MODULUS;
  }

  /** The position the kernel answers for pair p. */
  function PairAnswer(inp: Inputs, oob: OutOfRange, p: Pair): (pos: nat)
    requires WellFormed(inp) && p.target < inp.nt && p.query < inp.nq
    ensures pos < POS_MODULUS
  {
    PairMessageScannable(inp, p);
    MatchPos(PairMessage(inp, p), oob)
  }

  /** Every message read_in sends for pair p gets the answer of p's own message. */
  lemma CarriedMessageMatchesPair(m: MsgIn, p: Pair, inp: Inputs, oob: OutOfRange)
    requires WellFormed(inp) && p.target < inp.nt && p.query < inp.nq
    requires Carries(m, p, inp) && Scannable(m)
    ensures MatchPos(m, oob) == PairAnswer(inp, oob, p)
  {
    var c := PairMessage(inp, p);
    assert m.bit1Pat == c.bit1Pat && m.bit2Pat == c.bit2Pat;
    MatchPosReadsRefBelowLength(m, c, oob);
  }

  /**
   * SeqMatcherHW: read_in, the workers and write_out.  Entry `target * nq +
   * query` of the output gets the position the scan finds for that pair; the
   * entries from nt * nq up keep their value.
   */
  method SeqMatcherHW(inp: Inputs, output: array<i32>, oob: OutOfRange)
    requires WellFormed(inp)
    requires output.Length >= inp.nt * inp.nq
    modifies output
    ensures AllAnswered(inp, oob, output[..])
    ensures forall x | inp.nt * inp.nq <= x < output.Length :: output[x] == old(output[x])
  {
    var msgs := ReadIn(inp);
    ghost var pairs := AllPairs(inp.nt, inp.nq);
    CarriedAreScannable(msgs, inp);
    var results := Workers(msgs, oob);
    WriteOut(results, output, inp.nt, inp.nq);
    assert results[..inp.nt * inp.nq] == results;
    ScatteredAnswers(inp, oob, msgs, results, old(output[..]));
  }

  /** Every pair's answer is stored at the pair's id. */
  ghost predicate AllAnswered(inp: Inputs, oob: OutOfRange, out: seq<i32>)
    requires WellFormed(inp)
  {
    forall p: Pair | p.target < inp.nt && p.query < inp.nq ::
      Id(p, inp.nq) < |out| && out[Id(p, inp.nq)] == PairAnswer(inp, oob, p) as i32
  }

  /** write_out's stores put each pair's answer at the pair's id and leave the rest alone. */
  lemma ScatteredAnswers(inp: Inputs, oob: OutOfRange, msgs: seq<MsgIn>, results: seq<MsgOut>, before: seq<i32>)
    requires WellFormed(inp) && |before| >= inp.nt * inp.nq
    requires CarriesAll(msgs, AllPairs(inp.nt, inp.nq), inp)
    requires |msgs| == inp.nt * inp.nq
    requires forall k | 0 <= k < |msgs| :: msgs[k].id < inp.nt * inp.nq
    requires forall k, k' | 0 <= k < k' < |msgs| :: msgs[k].id != msgs[k'].id
    requires forall k | 0 <= k < |msgs| :: Scannable(msgs[k])
    requires |results| == |msgs|
    requires forall k | 0 <= k < |msgs| :: results[k] == MsgOut(MatchPos(msgs[k], oob), msgs[k].id)
    ensures forall k | 0 <= k < |results| :: results[k].id < |before| && results[k].pos < POS_MODULUS
    ensures AllAnswered(inp, oob, Scatter(before, results))
    ensures forall x | inp.nt * inp.nq <= x < |before| :: Scatter(before, results)[x] == before[x]
  {
    ScatterStoresEachAnswer(before, results);
    IdsArePositions(inp.nt, inp.nq);
    forall p: Pair | p.target < inp.nt && p.query < inp.nq
      ensures Id(p, inp.nq) < |before| && Scatter(before, results)[Id(p, inp.nq)] == PairAnswer(inp, oob, p) as i32
    {
      AnswerOfPair(msgs, results, p, inp, oob);
    }
  }

  /** The worker pool: one answer per message, in order. */
  method Workers(msgs: seq<MsgIn>, oob: OutOfRange) returns (results: seq<MsgOut>)
    requires forall k | 0 <= k < |msgs| :: Scannable(msgs[k])
    ensures |results| == |msgs|
    ensures forall k | 0 <= k < |msgs| :: results[k] == MsgOut(MatchPos(msgs[k], oob), msgs[k].id)
  {
    results := [];
    var k := 0;
    while k < |msgs|
      invariant k <= |msgs| && |results| == k
      invariant forall k' | 0 <= k' < k :: results[k'] == MsgOut(MatchPos(msgs[k'], oob), msgs[k'].id)
    {
      var out := StringMatching(msgs[k], oob);
      results := results + [out];
      k := k + 1;
    }
  }

  /** Every message read_in sends can be scanned: its lengths come from the well-formed inputs. */
  lemma CarriedAreScannable(msgs: seq<MsgIn>, inp: Inputs)
    requires WellFormed(inp)
    requires CarriesAll(msgs, AllPairs(inp.nt, inp.nq), inp)
    ensures forall k | 0 <= k < |msgs| :: Scannable(msgs[k])
  {
    forall k | 0 <= k < |msgs|
      ensures Scannable(msgs[k])
    {
      var p := AllPairs(inp.nt, inp.nq)[k];
      assert Carries(msgs[k], p, inp);
    }
  }

  /** The answer stored at pair p's id is the answer for p's own message. */
  lemma AnswerOfPair(msgs: seq<MsgIn>, results: seq<MsgOut>, p: Pair, inp: Inputs, oob: OutOfRange)
    requires WellFormed(inp)
    requires CarriesAll(msgs, AllPairs(inp.nt, inp.nq), inp) && p.target < inp.nt && p.query < inp.nq
    requires forall k | 0 <= k < |msgs| :: Scannable(msgs[k])
    requires |results| == |msgs|
    requires forall k | 0 <= k < |msgs| :: results[k] == MsgOut(MatchPos(msgs[k], oob), msgs[k].id)
    ensures exists k | 0 <= k < |results| :: results[k].id == Id(p, inp.nq) && results[k].pos == PairAnswer(inp, oob, p)
  {
    var pairs := AllPairs(inp.nt, inp.nq);
    AllPairsEnumerate(inp.nt, inp.nq);
    assert p in pairs;
    var k :| 0 <= k < |pairs| && pairs[k] == p;
    CarriedMessageMatchesPair(msgs[k], p, inp, oob);
    assert results[k].id == Id(p, inp.nq);
  }
}
