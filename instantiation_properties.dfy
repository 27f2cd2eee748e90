/**
 * What the instantiators do when they run: how a fixed tuple, a sequence and a dict cut
 * their tokens into chunks, which option of a union is used, and the union metavar.
 */
module InstantiationProperties {
  import opened Wrappers
  import opened Text
  import opened Values
  import opened StringHelpers
  import opened Instantiators
  import opened ConstructionProperties

  // ---------------------------------------------------------------------------
  // Arithmetic on chunk positions
  // ---------------------------------------------------------------------------

  lemma {:induction false} MulMonotone(a: nat, b: nat, n: nat)
    requires a <= b
    ensures a * n <= b * n
    decreases b - a
  {
    if a < b {
      MulMonotone(a, b - 1, n);
      assert b * n == (b - 1) * n + n;
    }
  }

  /** With `count == m * n`, chunk `k < m` lies inside the tokens and chunk `m` starts at their end. */
  lemma ChunkBounds(count: nat, n: nat, k: nat)
    requires n > 0 && count % n == 0
    ensures k < count / n ==> k * n + n <= count
    ensures k == count / n ==> k * n == count
    ensures k > count / n ==> k * n > count
  {
    var m := count / n;
    assert count == m * n;
    if k < m {
      MulMonotone(k + 1, m, n);
      assert (k + 1) * n == k * n + n;
    } else if k > m {
      MulMonotone(m + 1, k, n);
      assert (m + 1) * n == m * n + n;
    }
  }

  /** Where chunk `j` of a run of `n`-token chunks starting at `index` begins: `n` tokens on per chunk. */
  function ChunkStart(index: nat, j: nat, n: nat): nat
    decreases j
  {
    if j == 0 then index else ChunkStart(index + n, j - 1, n)
  }

  /** Chunk `j` begins `j * n` tokens after the run. */
  lemma {:induction false} ChunkStartIs(index: nat, j: nat, n: nat)
    ensures ChunkStart(index, j, n) == index + j * n
    decreases j
  {
    if j > 0 {
      ChunkStartIs(index + n, j - 1, n);
      assert (j - 1) * n + n == j * n;
    }
  }

  /** Chunk `j + 1` begins `n` tokens after chunk `j`. */
  lemma StartNext(index: nat, n: nat, j: nat)
    ensures ChunkStart(index, j, n) + n == ChunkStart(index, j + 1, n)
  {
    ChunkStartIs(index, j, n);
    ChunkStartIs(index, j + 1, n);
    assert (j + 1) * n == j * n + n;
  }

  // ---------------------------------------------------------------------------
  // Fixed-length tuples
  // ---------------------------------------------------------------------------

  /** Where the tokens of part `i` start: the arities of the parts before it, added up. */
  function Offset(parts: seq<Part>, i: nat): nat
    requires i <= |parts|
  {
    SumNargs(parts[..i])
  }

  lemma OffsetStep(parts: seq<Part>, i: nat)
    requires i < |parts|
    ensures Offset(parts, i + 1) == Offset(parts, i) + Count(parts[i].meta.nargs)
  {
    assert parts[..i + 1][..i] == parts[..i];
  }

  lemma {:induction false} OffsetBound(parts: seq<Part>, i: nat)
    requires i <= |parts|
    ensures Offset(parts, i) <= Offset(parts, |parts|) == SumNargs(parts)
    decreases |parts| - i
  {
    assert parts[..|parts|] == parts;
    if i < |parts| {
      OffsetStep(parts, i);
      OffsetBound(parts, i + 1);
    }
  }

  /** The tokens handed to part `j`. */
  function Chunk(parts: seq<Part>, strings: seq<string>, j: nat): seq<string>
    requires j < |parts|
  {
    Slice(strings, Offset(parts, j), Offset(parts, j + 1))
  }

  /** Part `j` accepts its chunk: the choice check passes and its instantiator returns. */
  predicate ChunkAccepted(parts: seq<Part>, strings: seq<string>, parse: ScalarParser, j: nat)
    requires j < |parts|
  {
    CheckChoices(parts[j].meta, Chunk(parts, strings, j)).Ok? && Apply(parts[j].inst, Chunk(parts, strings, j), parse).Ok?
  }

  /** The value part `j` makes of its chunk. */
  function ChunkValue(parts: seq<Part>, strings: seq<string>, parse: ScalarParser, j: nat): PyValue
    requires j < |parts| && ChunkAccepted(parts, strings, parse, j)
  {
    Apply(parts[j].inst, Chunk(parts, strings, j), parse).value
  }

  /** Part `i` of the tuple loop: its chunk is converted and appended, or the loop stops with an error. */
  lemma TupleLoopStep(inst: Instantiator, strings: seq<string>, parse: ScalarParser, i: nat, out: seq<PyValue>)
    requires inst.TupleInst? && AllFixed(inst.parts) && i < |inst.parts|
    ensures ChunkAccepted(inst.parts, strings, parse, i)
        ==> TupleLoop(inst, strings, parse, i, Offset(inst.parts, i), out)
            == TupleLoop(inst, strings, parse, i + 1, Offset(inst.parts, i + 1), out + [ChunkValue(inst.parts, strings, parse, i)])
    ensures !ChunkAccepted(inst.parts, strings, parse, i) ==> TupleLoop(inst, strings, parse, i, Offset(inst.parts, i), out).Err?
  {
    var parts := inst.parts;
    OffsetStep(parts, i);
    assert Chunk(parts, strings, i) == Slice(strings, Offset(parts, i), Offset(parts, i) + parts[i].meta.nargs.n);
  }

  lemma {:induction false} TupleLoopOk(inst: Instantiator, strings: seq<string>, parse: ScalarParser, i: nat, out: seq<PyValue>)
    requires inst.TupleInst? && AllFixed(inst.parts)
    requires i <= |inst.parts|
    ensures TupleLoop(inst, strings, parse, i, Offset(inst.parts, i), out).Ok?
        <==> forall j :: i <= j < |inst.parts| ==> ChunkAccepted(inst.parts, strings, parse, j)
    decreases |inst.parts| - i
  {
    if i < |inst.parts| {
      TupleLoopStep(inst, strings, parse, i, out);
      if ChunkAccepted(inst.parts, strings, parse, i) {
        TupleLoopOk(inst, strings, parse, i + 1, out + [ChunkValue(inst.parts, strings, parse, i)]);
      }
    }
  }

  lemma {:induction false} TupleLoopItems(inst: Instantiator, strings: seq<string>, parse: ScalarParser, i: nat, out: seq<PyValue>)
    requires inst.TupleInst? && AllFixed(inst.parts)
    requires i <= |inst.parts| && |out| == i
    requires forall j :: i <= j < |inst.parts| ==> ChunkAccepted(inst.parts, strings, parse, j)
    ensures var r := TupleLoop(inst, strings, parse, i, Offset(inst.parts, i), out);
      && r.Ok? && |r.value| == |inst.parts| && r.value[..i] == out
      && forall j :: i <= j < |inst.parts| ==> r.value[j] == ChunkValue(inst.parts, strings, parse, j)
    decreases |inst.parts| - i
  {
    if i < |inst.parts| {
      TupleLoopStep(inst, strings, parse, i, out);
      var v := ChunkValue(inst.parts, strings, parse, i);
      TupleLoopItems(inst, strings, parse, i + 1, out + [v]);
      var r := TupleLoop(inst, strings, parse, i + 1, Offset(inst.parts, i + 1), out + [v]);
      assert r.value[..i] == r.value[..i + 1][..i];
      assert r.value[i] == r.value[..i + 1][i];
    }
  }

  /** A fixed tuple asserts that it receives exactly as many tokens as its arities add up to. */
  lemma TupleArity(parts: seq<Part>, strings: seq<string>, parse: ScalarParser)
    requires |strings| != SumNargs(parts)
    ensures Apply(TupleInst(parts, SumNargs(parts)), strings, parse) == Err(AssertionError)
  {
  }

  /** The chunks of a fixed tuple are consecutive and cover its tokens: part `j` reads `Offset(j)` up to `Offset(j + 1)`. */
  lemma {:induction false} TupleOffsets(parts: seq<Part>)
    requires AllFixed(parts)
    ensures Offset(parts, 0) == 0 && Offset(parts, |parts|) == SumNargs(parts)
    ensures forall j :: 0 <= j < |parts| ==> Offset(parts, j + 1) == Offset(parts, j) + parts[j].meta.nargs.n <= SumNargs(parts)
  {
    assert parts[..0] == [];
    OffsetBound(parts, 0);
    forall j | 0 <= j < |parts|
      ensures Offset(parts, j + 1) == Offset(parts, j) + parts[j].meta.nargs.n <= SumNargs(parts)
    {
      OffsetStep(parts, j);
      OffsetBound(parts, j + 1);
    }
  }

  /** With the right number of tokens, a fixed tuple succeeds exactly when every part accepts its chunk. */
  lemma TupleAccepts(parts: seq<Part>, strings: seq<string>, parse: ScalarParser)
    requires AllFixed(parts) && |strings| == SumNargs(parts)
    ensures Apply(TupleInst(parts, SumNargs(parts)), strings, parse).Ok?
        <==> forall j :: 0 <= j < |parts| ==> ChunkAccepted(parts, strings, parse, j)
  {
    assert parts[..0] == [];
    ApplyTuple(TupleInst(parts, SumNargs(parts)), strings, parse);
    TupleLoopOk(TupleInst(parts, SumNargs(parts)), strings, parse, 0, []);
  }

  /** A fixed tuple that succeeds has one component per part: what that part made of its chunk. */
  lemma TupleComponents(parts: seq<Part>, strings: seq<string>, parse: ScalarParser)
    requires AllFixed(parts) && |strings| == SumNargs(parts)
    requires forall j :: 0 <= j < |parts| ==> ChunkAccepted(parts, strings, parse, j)
    ensures var r := Apply(TupleInst(parts, SumNargs(parts)), strings, parse);
      && r.Ok? && r.value.PyCollection? && r.value.kind == TupleC && |r.value.items| == |parts|
      && forall j :: 0 <= j < |parts| ==> r.value.items[j] == ChunkValue(parts, strings, parse, j)
  {
    assert parts[..0] == [];
    ApplyTuple(TupleInst(parts, SumNargs(parts)), strings, parse);
    TupleLoopItems(TupleInst(parts, SumNargs(parts)), strings, parse, 0, []);
  }

  // ---------------------------------------------------------------------------
  // Variable-length sequences
  // ---------------------------------------------------------------------------

  /** The chunks `range(i, len(strings), n)` hands to the inner instantiator, in order. */
  function SeqChunks(strings: seq<string>, n: nat, i: nat): seq<seq<string>>
    requires n > 0
    decreases |strings| - i
  {
    if i >= |strings| then [] else [Slice(strings, i, i + n)] + SeqChunks(strings, n, i + n)
  }

  /** Every chunk converts under `inst`. */
  predicate AllConvert(inst: Instantiator, chunks: seq<seq<string>>, parse: ScalarParser)
    decreases |chunks|
  {
    chunks == [] || (Apply(inst, chunks[0], parse).Ok? && AllConvert(inst, chunks[1..], parse))
  }

  /** Every chunk given to `inst`, converted, in order. */
  function Converted(inst: Instantiator, chunks: seq<seq<string>>, parse: ScalarParser): (r: seq<PyValue>)
    requires AllConvert(inst, chunks, parse)
    ensures |r| == |chunks|
    decreases |chunks|
  {
    if chunks == [] then [] else [Apply(inst, chunks[0], parse).value] + Converted(inst, chunks[1..], parse)
  }

  /** `AllConvert` holds iff each chunk converts. */
  lemma {:induction false} AllConvertMeaning(inst: Instantiator, chunks: seq<seq<string>>, parse: ScalarParser)
    ensures AllConvert(inst, chunks, parse) <==> forall k :: 0 <= k < |chunks| ==> Apply(inst, chunks[k], parse).Ok?
    decreases |chunks|
  {
    if chunks != [] {
      AllConvertMeaning(inst, chunks[1..], parse);
      assert forall k :: 0 < k < |chunks| ==> chunks[k] == chunks[1..][k - 1];
    }
  }

  /** Element `k` of the converted chunks is chunk `k` converted. */
  lemma {:induction false} ConvertedAt(inst: Instantiator, chunks: seq<seq<string>>, parse: ScalarParser, k: nat)
    requires AllConvert(inst, chunks, parse) && k < |chunks|
    ensures Apply(inst, chunks[k], parse).Ok? && Converted(inst, chunks, parse)[k] == Apply(inst, chunks[k], parse).value
    decreases k
  {
    if k > 0 {
      ConvertedAt(inst, chunks[1..], parse, k - 1);
      assert chunks[1..][k - 1] == chunks[k];
    }
  }

  /** The sequence loop succeeds iff every remaining chunk converts. */
  lemma {:induction false} SeqLoopOk(inst: Instantiator, n: nat, strings: seq<string>, parse: ScalarParser, i: nat, out: seq<PyValue>)
    requires inst.SeqInst? && n > 0
    ensures SeqLoop(inst, n, strings, parse, i, out).Ok? <==> AllConvert(inst.inner.inst, SeqChunks(strings, n, i), parse)
    decreases |strings| - i
  {
    if i < |strings| {
      var cs := SeqChunks(strings, n, i);
      assert cs[0] == Slice(strings, i, i + n) && cs[1..] == SeqChunks(strings, n, i + n);
      var v := Apply(inst.inner.inst, cs[0], parse);
      if v.Ok? {
        SeqLoopOk(inst, n, strings, parse, i + n, out + [v.value]);
      }
    }
  }

  /** When every chunk converts, the sequence loop appends the converted chunks, in order. */
  lemma {:induction false} SeqLoopItems(inst: Instantiator, n: nat, strings: seq<string>, parse: ScalarParser, i: nat, out: seq<PyValue>)
    requires inst.SeqInst? && n > 0 && AllConvert(inst.inner.inst, SeqChunks(strings, n, i), parse)
    ensures SeqLoop(inst, n, strings, parse, i, out) == Ok(out + Converted(inst.inner.inst, SeqChunks(strings, n, i), parse))
    decreases |strings| - i
  {
    if i >= |strings| {
      assert out + [] == out;
    } else {
      var cs := SeqChunks(strings, n, i);
      assert cs[0] == Slice(strings, i, i + n) && cs[1..] == SeqChunks(strings, n, i + n);
      var v := Apply(inst.inner.inst, cs[0], parse).value;
      SeqLoopItems(inst, n, strings, parse, i + n, out + [v]);
      var rest := Converted(inst.inner.inst, cs[1..], parse);
      assert out + [v] + rest == out + ([v] + rest);
    }
  }

  /** With a divisible count, the chunks from chunk `j` on number `len / n - j`. */
  lemma {:induction false} SeqChunksCount(strings: seq<string>, n: nat, j: nat)
    requires n > 0 && |strings| % n == 0 && j <= |strings| / n
    ensures |SeqChunks(strings, n, ChunkStart(0, j, n))| == |strings| / n - j
    decreases |strings| / n - j
  {
    ChunkBounds(|strings|, n, j);
    ChunkStartIs(0, j, n);
    if j < |strings| / n {
      StartNext(0, n, j);
      SeqChunksCount(strings, n, j + 1);
    }
  }

  /** Chunk `k` of those from token `i` on starts `k * n` tokens after `i`. */
  lemma {:induction false} SeqChunksAt(strings: seq<string>, n: nat, i: nat, k: nat)
    requires n > 0 && k < |SeqChunks(strings, n, i)|
    ensures SeqChunks(strings, n, i)[k] == Slice(strings, ChunkStart(i, k, n), ChunkStart(i, k, n) + n)
    decreases k
  {
    if k > 0 {
      assert SeqChunks(strings, n, i)[k] == SeqChunks(strings, n, i + n)[k - 1];
      SeqChunksAt(strings, n, i + n, k - 1);
    }
  }

  /** A token count that the inner arity does not divide raises a ValueError. */
  lemma SequenceNotDivisible(c: Container, inner: Part, strings: seq<string>, parse: ScalarParser)
    requires inner.meta.nargs.Exactly? && inner.meta.nargs.n > 0 && |strings| % inner.meta.nargs.n != 0
    ensures Apply(SeqInst(c, inner), strings, parse) == Err(ValueError(NotDivisible(|strings|, inner.meta.nargs.n)))
  {
  }

  /** With a divisible count there are `len / n` chunks, and chunk `k` is tokens `k * n` to `k * n + n`. */
  lemma SequenceChunks(strings: seq<string>, n: nat)
    requires n > 0 && |strings| % n == 0
    ensures |SeqChunks(strings, n, 0)| == |strings| / n
    ensures forall k :: 0 <= k < |strings| / n ==> k * n + n <= |strings| && SeqChunks(strings, n, 0)[k] == strings[k * n..k * n + n]
  {
    SeqChunksCount(strings, n, 0);
    forall k | 0 <= k < |strings| / n
      ensures k * n + n <= |strings| && SeqChunks(strings, n, 0)[k] == strings[k * n..k * n + n]
    {
      ChunkBounds(|strings|, n, k);
      SeqChunksAt(strings, n, 0, k);
      ChunkStartIs(0, k, n);
    }
  }

  /** With a divisible count, a sequence succeeds exactly when every chunk converts. */
  lemma SequenceAccepts(c: Container, inner: Part, strings: seq<string>, parse: ScalarParser)
    requires inner.meta.nargs.Exactly? && inner.meta.nargs.n > 0 && |strings| % inner.meta.nargs.n == 0
    ensures Apply(SeqInst(c, inner), strings, parse).Ok?
        <==> forall k :: 0 <= k < |SeqChunks(strings, inner.meta.nargs.n, 0)| ==> Apply(inner.inst, SeqChunks(strings, inner.meta.nargs.n, 0)[k], parse).Ok?
  {
    SeqLoopOk(SeqInst(c, inner), inner.meta.nargs.n, strings, parse, 0, []);
    AllConvertMeaning(inner.inst, SeqChunks(strings, inner.meta.nargs.n, 0), parse);
  }

  /** A sequence whose chunks all convert holds the converted chunks, in order, in its container. */
  lemma SequenceElements(c: Container, inner: Part, strings: seq<string>, parse: ScalarParser)
    requires inner.meta.nargs.Exactly? && inner.meta.nargs.n > 0 && |strings| % inner.meta.nargs.n == 0
    requires AllConvert(inner.inst, SeqChunks(strings, inner.meta.nargs.n, 0), parse)
    ensures Apply(SeqInst(c, inner), strings, parse) == Ok(MakeContainer(c, Converted(inner.inst, SeqChunks(strings, inner.meta.nargs.n, 0), parse)))
  {
    var n := inner.meta.nargs.n;
    SeqLoopItems(SeqInst(c, inner), n, strings, parse, 0, []);
    assert [] + Converted(inner.inst, SeqChunks(strings, n, 0), parse) == Converted(inner.inst, SeqChunks(strings, n, 0), parse);
  }

  // ---------------------------------------------------------------------------
  // Dicts
  // ---------------------------------------------------------------------------

  /** The tokens of one key/value pair. */
  datatype PairTokens = PairTokens(k: seq<string>, v: seq<string>)

  /** The key and value tokens of the pair that starts at token `start`. */
  function PairAt(inst: Instantiator, strings: seq<string>, start: nat): PairTokens
    requires inst.DictInst?
  {
    PairTokens(Slice(strings, start, start + inst.keyNargs), Slice(strings, start + inst.keyNargs, start + inst.keyNargs + inst.valNargs))
  }

  /** The `remaining` pairs the dict loop reads from `index` on, in order. */
  function PairChunks(inst: Instantiator, strings: seq<string>, index: nat, remaining: nat): (r: seq<PairTokens>)
    requires inst.DictInst?
    ensures |r| == remaining
    decreases remaining
  {
    if remaining == 0 then []
    else
      [PairAt(inst, strings, index)] + PairChunks(inst, strings, index + inst.keyNargs + inst.valNargs, remaining - 1)
  }

  /** The pairs of a whole dict argument. */
  function DictChunks(inst: Instantiator, strings: seq<string>): seq<PairTokens>
    requires inst.DictInst? && inst.keyNargs + inst.valNargs > 0
  {
    PairChunks(inst, strings, 0, FloorDiv(|strings|, inst.keyNargs + inst.valNargs))
  }

  /** Pair `j` holds the `key_nargs` tokens from `j * pair_nargs` on, then the `val_nargs` tokens after them. */
  lemma {:induction false} PairChunksAt(inst: Instantiator, strings: seq<string>, index: nat, remaining: nat, j: nat)
    requires inst.DictInst? && j < remaining
    ensures PairChunks(inst, strings, index, remaining)[j] == PairAt(inst, strings, ChunkStart(index, j, inst.keyNargs + inst.valNargs))
    decreases j
  {
    var pair := inst.keyNargs + inst.valNargs;
    if j > 0 {
      var rest := PairChunks(inst, strings, index + pair, remaining - 1);
      assert PairChunks(inst, strings, index, remaining) == [PairAt(inst, strings, index)] + rest;
      assert PairChunks(inst, strings, index, remaining)[j] == rest[j - 1];
      PairChunksAt(inst, strings, index + pair, remaining - 1, j - 1);
    }
  }

  /** A pair converts exactly when both of its choice checks pass and both instantiators return. */
  lemma DictPairOk(inst: Instantiator, k: seq<string>, v: seq<string>, parse: ScalarParser)
    requires inst.DictInst?
    ensures DictPair(inst, k, v, parse).Ok?
        <==> && CheckChoices(inst.key.meta, k).Ok? && CheckChoices(inst.val.meta, v).Ok?
             && Apply(inst.key.inst, k, parse).Ok? && Apply(inst.val.inst, v, parse).Ok?
    ensures DictPair(inst, k, v, parse).Ok?
        ==> DictPair(inst, k, v, parse).value == Entry(Apply(inst.key.inst, k, parse).value, Apply(inst.val.inst, v, parse).value)
  {
  }

  /**
   * The checks of one pair run in order: the key's choices, the value's choices, then the
   * value's instantiator before the key's.
   */
  lemma DictPairOrder(inst: Instantiator, k: seq<string>, v: seq<string>, parse: ScalarParser)
    requires inst.DictInst?
    ensures CheckChoices(inst.key.meta, k).Err? ==> DictPair(inst, k, v, parse) == Err(ValueError(InvalidChoice(k)))
    ensures CheckChoices(inst.key.meta, k).Ok? && CheckChoices(inst.val.meta, v).Err?
        ==> DictPair(inst, k, v, parse) == Err(ValueError(InvalidChoice(v)))
    ensures CheckChoices(inst.key.meta, k).Ok? && CheckChoices(inst.val.meta, v).Ok? && Apply(inst.val.inst, v, parse).Err?
        ==> DictPair(inst, k, v, parse) == Err(Apply(inst.val.inst, v, parse).error)
  {
  }

  /** Every pair passes its checks and converts. */
  predicate AllPairsOk(inst: Instantiator, cs: seq<PairTokens>, parse: ScalarParser)
    requires inst.DictInst?
    decreases |cs|
  {
    cs == [] || (DictPair(inst, cs[0].k, cs[0].v, parse).Ok? && AllPairsOk(inst, cs[1..], parse))
  }

  /** `AllPairsOk` holds iff each pair converts. */
  lemma {:induction false} AllPairsOkMeaning(inst: Instantiator, cs: seq<PairTokens>, parse: ScalarParser)
    requires inst.DictInst?
    ensures AllPairsOk(inst, cs, parse) <==> forall c :: 0 <= c < |cs| ==> DictPair(inst, cs[c].k, cs[c].v, parse).Ok?
    decreases |cs|
  {
    if cs != [] {
      AllPairsOkMeaning(inst, cs[1..], parse);
      assert forall c :: 0 < c < |cs| ==> cs[c] == cs[1..][c - 1];
    }
  }

  /** The converted pairs, in the order they appear on the command line. */
  function PairEntries(inst: Instantiator, cs: seq<PairTokens>, parse: ScalarParser): (r: seq<Entry>)
    requires inst.DictInst? && AllPairsOk(inst, cs, parse)
    ensures |r| == |cs|
    decreases |cs|
  {
    if cs == [] then [] else [DictPair(inst, cs[0].k, cs[0].v, parse).value] + PairEntries(inst, cs[1..], parse)
  }

  /** Entry `c` is pair `c` converted. */
  lemma {:induction false} PairEntriesAt(inst: Instantiator, cs: seq<PairTokens>, parse: ScalarParser, c: nat)
    requires inst.DictInst? && AllPairsOk(inst, cs, parse) && c < |cs|
    ensures DictPair(inst, cs[c].k, cs[c].v, parse).Ok? && PairEntries(inst, cs, parse)[c] == DictPair(inst, cs[c].k, cs[c].v, parse).value
    decreases c
  {
    if c > 0 {
      PairEntriesAt(inst, cs[1..], parse, c - 1);
      assert cs[1..][c - 1] == cs[c];
    }
  }

  /** The value of the last pair whose key is `q`. */
  function LastValue(pairs: seq<Entry>, q: PyValue): Option<PyValue>
  {
    if pairs == [] then None
    else if pairs[|pairs| - 1].key == q then Some(pairs[|pairs| - 1].val)
    else LastValue(pairs[..|pairs| - 1], q)
  }

  /** `LastValue` is absent iff no pair has the key. */
  lemma {:induction false} LastValueAbsent(pairs: seq<Entry>, q: PyValue)
    ensures LastValue(pairs, q).None? <==> forall j :: 0 <= j < |pairs| ==> pairs[j].key != q
  {
    if pairs != [] && pairs[|pairs| - 1].key != q {
      var init := pairs[..|pairs| - 1];
      LastValueAbsent(init, q);
      assert forall j :: 0 <= j < |init| ==> init[j] == pairs[j];
    }
  }

  /** A present `LastValue` comes from a pair with that key and no later pair for it. */
  lemma {:induction false} LastValueFrom(pairs: seq<Entry>, q: PyValue)
    requires LastValue(pairs, q).Some?
    ensures exists j :: 0 <= j < |pairs| && pairs[j] == Entry(q, LastValue(pairs, q).value)
                        && forall k :: j < k < |pairs| ==> pairs[k].key != q
  {
    var n := |pairs| - 1;
    if pairs[n].key == q {
      assert pairs[n] == Entry(q, LastValue(pairs, q).value);
    } else {
      var init := pairs[..n];
      LastValueFrom(init, q);
      var j :| 0 <= j < n && init[j] == Entry(q, LastValue(init, q).value) && forall k :: j < k < n ==> init[k].key != q;
      assert pairs[j] == init[j];
      assert forall k :: j < k < n ==> pairs[k] == init[k];
    }
  }

  /** The dict loop succeeds iff every remaining pair converts. */
  lemma {:induction false} DictLoopOk(inst: Instantiator, strings: seq<string>, parse: ScalarParser, index: nat, remaining: nat, out: seq<Entry>)
    requires inst.DictInst?
    ensures DictLoop(inst, strings, parse, index, remaining, out).Ok? <==> AllPairsOk(inst, PairChunks(inst, strings, index, remaining), parse)
    decreases remaining
  {
    if remaining > 0 {
      var next := index + inst.keyNargs + inst.valNargs;
      var first := PairAt(inst, strings, index);
      var rest := PairChunks(inst, strings, next, remaining - 1);
      assert PairChunks(inst, strings, index, remaining) == [first] + rest;
      assert ([first] + rest)[0] == first && ([first] + rest)[1..] == rest;
      var e := DictPair(inst, first.k, first.v, parse);
      if e.Ok? {
        DictLoopPasses(inst, strings, parse, index, remaining, out, first.k, first.v);
        DictLoopOk(inst, strings, parse, next, remaining - 1, DictPut(out, e.value.key, e.value.val));
      } else {
        DictLoopFails(inst, strings, parse, index, remaining, out, first.k, first.v);
      }
    }
  }

  /** A key that the loop stores takes the value of the last pair naming it. */
  lemma StoreLast(out: seq<Entry>, before: seq<Entry>, e: Entry)
    requires forall q :: Lookup(out, q) == LastValue(before, q)
    ensures forall q :: Lookup(DictPut(out, e.key, e.val), q) == LastValue(before + [e], q)
  {
    forall q ensures Lookup(DictPut(out, e.key, e.val), q) == LastValue(before + [e], q) {
      DictPutLookup(out, e.key, e.val, q);
      assert (before + [e])[..|before|] == before;
    }
  }

  /** Storing `entries` into `out` one after another, as the loop's `output[k] = v` does. */
  function StoreAll(out: seq<Entry>, entries: seq<Entry>): seq<Entry>
    decreases |entries|
  {
    if entries == [] then out else StoreAll(DictPut(out, entries[0].key, entries[0].val), entries[1..])
  }

  /** Storing a first entry, then the rest. */
  lemma StoreAllCons(out: seq<Entry>, e: Entry, es: seq<Entry>)
    ensures StoreAll(out, [e] + es) == StoreAll(DictPut(out, e.key, e.val), es)
  {
    assert ([e] + es)[0] == e && ([e] + es)[1..] == es;
  }

  /** The first of several pairs that all convert converts, and its entry heads the entries. */
  lemma PairEntriesFirst(inst: Instantiator, strings: seq<string>, parse: ScalarParser, index: nat, remaining: nat)
    requires inst.DictInst? && remaining > 0 && AllPairsOk(inst, PairChunks(inst, strings, index, remaining), parse)
    ensures var first := PairAt(inst, strings, index);
      var rest := PairChunks(inst, strings, index + inst.keyNargs + inst.valNargs, remaining - 1);
      && DictPair(inst, first.k, first.v, parse).Ok?
      && AllPairsOk(inst, rest, parse)
      && PairEntries(inst, PairChunks(inst, strings, index, remaining), parse)
         == [DictPair(inst, first.k, first.v, parse).value] + PairEntries(inst, rest, parse)
  {
    var first := PairAt(inst, strings, index);
    var rest := PairChunks(inst, strings, index + inst.keyNargs + inst.valNargs, remaining - 1);
    assert PairChunks(inst, strings, index, remaining) == [first] + rest;
    assert ([first] + rest)[0] == first && ([first] + rest)[1..] == rest;
  }

  /** When every pair converts, the dict loop stores the converted pairs, in order. */
  lemma {:induction false} DictLoopItems(inst: Instantiator, strings: seq<string>, parse: ScalarParser, index: nat, remaining: nat,
                                         out: seq<Entry>)
    requires inst.DictInst? && AllPairsOk(inst, PairChunks(inst, strings, index, remaining), parse)
    ensures DictLoop(inst, strings, parse, index, remaining, out) == Ok(StoreAll(out, PairEntries(inst, PairChunks(inst, strings, index, remaining), parse)))
    decreases remaining
  {
    if remaining > 0 {
      var next := index + inst.keyNargs + inst.valNargs;
      var first := PairAt(inst, strings, index);
      PairEntriesFirst(inst, strings, parse, index, remaining);
      var e := DictPair(inst, first.k, first.v, parse).value;
      DictLoopPasses(inst, strings, parse, index, remaining, out, first.k, first.v);
      DictLoopItems(inst, strings, parse, next, remaining - 1, DictPut(out, e.key, e.val));
      StoreAllCons(out, e, PairEntries(inst, PairChunks(inst, strings, next, remaining - 1), parse));
    }
  }

  /** Storing entries keeps the keys distinct. */
  lemma {:induction false} StoreAllDistinct(out: seq<Entry>, entries: seq<Entry>)
    requires DistinctKeys(out)
    ensures DistinctKeys(StoreAll(out, entries))
    decreases |entries|
  {
    if entries != [] {
      DictPutDistinct(out, entries[0].key, entries[0].val);
      StoreAllDistinct(DictPut(out, entries[0].key, entries[0].val), entries[1..]);
    }
  }

  /**
   * After storing entries, each key holds the value of the last entry that names it,
   * counting the entries `before` already stored in `out`.
   */
  lemma {:induction false} StoreAllLookup(out: seq<Entry>, before: seq<Entry>, entries: seq<Entry>)
    requires forall q :: Lookup(out, q) == LastValue(before, q)
    ensures forall q :: Lookup(StoreAll(out, entries), q) == LastValue(before + entries, q)
    decreases |entries|
  {
    if entries == [] {
      assert before + [] == before;
    } else {
      var e := entries[0];
      StoreLast(out, before, e);
      StoreAllLookup(DictPut(out, e.key, e.val), before + [e], entries[1..]);
      assert before + [e] + entries[1..] == before + entries;
    }
  }

  /** A dict whose key and value take no tokens at all divides by zero. */
  lemma DictZeroArity(inst: Instantiator, strings: seq<string>, parse: ScalarParser)
    requires inst.DictInst? && inst.keyNargs + inst.valNargs == 0
    ensures Apply(inst, strings, parse) == Err(ZeroDivisionError)
  {
  }

  /** A token count that is not a whole number of pairs raises "incomplete set of key value pairs". */
  lemma DictIncompletePairs(inst: Instantiator, strings: seq<string>, parse: ScalarParser)
    requires inst.DictInst? && inst.keyNargs + inst.valNargs > 0 && |strings| % (inst.keyNargs + inst.valNargs) != 0
    ensures Apply(inst, strings, parse) == Err(ValueError(IncompletePairs))
  {
  }

  /** With whole pairs, a dict succeeds exactly when every pair passes its choice checks and converts. */
  lemma DictAccepts(inst: Instantiator, strings: seq<string>, parse: ScalarParser)
    requires inst.DictInst? && inst.keyNargs + inst.valNargs > 0 && |strings| % (inst.keyNargs + inst.valNargs) == 0
    ensures Apply(inst, strings, parse).Ok? <==> AllPairsOk(inst, DictChunks(inst, strings), parse)
  {
    ApplyDict(inst, strings, parse);
    DictLoopOk(inst, strings, parse, 0, FloorDiv(|strings|, inst.keyNargs + inst.valNargs), []);
  }

  /**
   * Pairs are inserted left to right: the resulting dict has distinct keys, and each key
   * holds the value of the last pair that names it, so a later duplicate overwrites.
   */
  lemma DictLastWins(inst: Instantiator, strings: seq<string>, parse: ScalarParser)
    requires inst.DictInst? && inst.keyNargs + inst.valNargs > 0 && |strings| % (inst.keyNargs + inst.valNargs) == 0
    requires AllPairsOk(inst, DictChunks(inst, strings), parse)
    ensures var r := Apply(inst, strings, parse);
      && r.Ok? && r.value.PyDict? && DistinctKeys(r.value.entries)
      && forall q :: Lookup(r.value.entries, q) == LastValue(PairEntries(inst, DictChunks(inst, strings), parse), q)
  {
    ApplyDict(inst, strings, parse);
    var cs := DictChunks(inst, strings);
    DictLoopItems(inst, strings, parse, 0, FloorDiv(|strings|, inst.keyNargs + inst.valNargs), []);
    var es := PairEntries(inst, cs, parse);
    StoreAllDistinct([], es);
    StoreAllLookup([], [], es);
    assert [] + es == es;
  }

  // ---------------------------------------------------------------------------
  // Unions
  // ---------------------------------------------------------------------------

  /** Option `p` is used for `strings`: its choices and arity fit, and it does not raise a ValueError. */
  predicate Takes(p: Part, strings: seq<string>, parse: ScalarParser)
  {
    && CheckChoices(p.meta, strings).Ok?
    && ArityMatches(p.meta.nargs, |strings|)
    && !(Apply(p.inst, strings, parse).Err? && Apply(p.inst, strings, parse).error.ValueError?)
  }

  lemma {:induction false} UnionLoopNone(inst: Instantiator, strings: seq<string>, parse: ScalarParser, i: nat, errors: seq<OptionError>)
    requires inst.UnionInst? && i <= |inst.parts|
    requires forall j :: i <= j < |inst.parts| ==> !Takes(inst.parts[j], strings, parse)
    ensures var r := UnionLoop(inst, strings, parse, i, errors);
      && r.Err? && r.error.ValueError? && r.error.reason.NoOptionMatched?
      && |r.error.reason.errors| == |errors| + |inst.parts| - i
      && r.error.reason.errors[..|errors|] == errors
      && forall j :: i <= j < |inst.parts| ==> r.error.reason.errors[|errors| + j - i].option == inst.parts[j].typ
    decreases |inst.parts| - i
  {
    var parts := inst.parts;
    if i < |parts| {
      var p := parts[i];
      var e :=
        if CheckChoices(p.meta, strings).Err? then ChoiceMismatch(p.typ)
        else if ArityMatches(p.meta.nargs, |strings|) then Raised(p.typ, Apply(p.inst, strings, parse).error.reason)
        else ArityMismatch(p.typ, |strings|);
      assert UnionLoop(inst, strings, parse, i, errors) == UnionLoop(inst, strings, parse, i + 1, errors + [e]);
      UnionLoopNone(inst, strings, parse, i + 1, errors + [e]);
      var es := UnionLoop(inst, strings, parse, i, errors).error.reason.errors;
      assert es[..|errors|] == es[..|errors| + 1][..|errors|];
      assert es[|errors|] == es[..|errors| + 1][|errors|];
      forall j | i <= j < |parts| ensures es[|errors| + j - i].option == parts[j].typ {
        if j > i {
          assert |errors| + j - i == |errors + [e]| + j - (i + 1);
        }
      }
    }
  }

  lemma {:induction false} UnionLoopFirst(inst: Instantiator, strings: seq<string>, parse: ScalarParser, i: nat, errors: seq<OptionError>, j: nat)
    requires inst.UnionInst? && i <= j < |inst.parts|
    requires Takes(inst.parts[j], strings, parse)
    requires forall k :: i <= k < j ==> !Takes(inst.parts[k], strings, parse)
    ensures UnionLoop(inst, strings, parse, i, errors) == Apply(inst.parts[j].inst, strings, parse)
    decreases j - i
  {
    var p := inst.parts[i];
    if i < j {
      var e :=
        if CheckChoices(p.meta, strings).Err? then ChoiceMismatch(p.typ)
        else if ArityMatches(p.meta.nargs, |strings|) then Raised(p.typ, Apply(p.inst, strings, parse).error.reason)
        else ArityMismatch(p.typ, |strings|);
      assert UnionLoop(inst, strings, parse, i, errors) == UnionLoop(inst, strings, parse, i + 1, errors + [e]);
      UnionLoopFirst(inst, strings, parse, i + 1, errors + [e], j);
    }
  }

  /** When no option is used, the union raises a ValueError with one error per option, in order. */
  lemma UnionNoOption(parts: seq<Part>, strings: seq<string>, parse: ScalarParser)
    requires forall j :: 0 <= j < |parts| ==> !Takes(parts[j], strings, parse)
    ensures var r := Apply(UnionInst(parts), strings, parse);
      && r.Err? && r.error.ValueError? && r.error.reason.NoOptionMatched?
      && |r.error.reason.errors| == |parts|
      && forall j :: 0 <= j < |parts| ==> r.error.reason.errors[j].option == parts[j].typ
  {
    assert Apply(UnionInst(parts), strings, parse) == UnionLoop(UnionInst(parts), strings, parse, 0, []);
    UnionLoopNone(UnionInst(parts), strings, parse, 0, []);
  }

  /** The first option that is used decides the union's result, error or value. */
  lemma UnionFirstOption(parts: seq<Part>, strings: seq<string>, parse: ScalarParser, j: nat)
    requires j < |parts| && Takes(parts[j], strings, parse)
    requires forall k :: 0 <= k < j ==> !Takes(parts[k], strings, parse)
    ensures Apply(UnionInst(parts), strings, parse) == Apply(parts[j].inst, strings, parse)
  {
    UnionLoopFirst(UnionInst(parts), strings, parse, 0, [], j);
  }

  /** Whatever a union returns comes from one of its options whose choices and arity fit. */
  lemma {:induction false} UnionResultFromOption(parts: seq<Part>, strings: seq<string>, parse: ScalarParser)
    requires Apply(UnionInst(parts), strings, parse).Ok?
    ensures exists j :: 0 <= j < |parts| && CheckChoices(parts[j].meta, strings).Ok? && ArityMatches(parts[j].meta.nargs, |strings|)
                        && Apply(parts[j].inst, strings, parse) == Apply(UnionInst(parts), strings, parse)
  {
    if forall j :: 0 <= j < |parts| ==> !Takes(parts[j], strings, parse) {
      UnionNoOption(parts, strings, parse);
    } else {
      var j := FirstTaker(parts, strings, parse, 0);
      UnionFirstOption(parts, strings, parse, j);
    }
  }

  /** The first option from `i` on that is used, knowing there is one. */
  function FirstTaker(parts: seq<Part>, strings: seq<string>, parse: ScalarParser, i: nat): (j: nat)
    requires i <= |parts| && exists j :: i <= j < |parts| && Takes(parts[j], strings, parse)
    ensures i <= j < |parts| && Takes(parts[j], strings, parse)
    ensures forall k :: i <= k < j ==> !Takes(parts[k], strings, parse)
    decreases |parts| - i
  {
    if Takes(parts[i], strings, parse) then i else FirstTaker(parts, strings, parse, i + 1)
  }

  // ---------------------------------------------------------------------------
  // _join_union_metavars
  // ---------------------------------------------------------------------------

  /** No two neighbouring entries are both brace groups. */
  predicate NoAdjacentBraced(ms: seq<string>)
  {
    forall i :: 0 <= i < |ms| - 1 ==> !(IsBraced(ms[i]) && IsBraced(ms[i + 1]))
  }

  /** One merge step ends in a brace group exactly when the metavar it adds is one. */
  lemma MergeStepLast(merged: seq<string>, curr: string)
    requires |merged| > 0
    ensures var r := MergeStep(merged, curr); |r| > 0 && (IsBraced(r[|r| - 1]) <==> IsBraced(curr))
  {
    var prev := merged[|merged| - 1];
    if IsBraced(prev) && IsBraced(curr) {
      var joined := prev[..|prev| - 1] + "," + curr[1..];
      assert joined[0] == '{' && joined[|joined| - 1] == '}';
    }
  }

  /** The merged metavars end in a brace group exactly when the input does. */
  lemma MergedLast(metavars: seq<string>)
    requires |metavars| > 0
    ensures IsBraced(metavars[|metavars| - 1]) <==> IsBraced(Merged(metavars)[|Merged(metavars)| - 1])
  {
    if |metavars| > 1 {
      MergeStepLast(Merged(metavars[..|metavars| - 1]), metavars[|metavars| - 1]);
    }
  }

  /** Merging leaves no two neighbouring brace groups. */
  lemma {:induction false} MergedNoAdjacent(metavars: seq<string>)
    requires |metavars| > 0
    ensures NoAdjacentBraced(Merged(metavars))
  {
    if |metavars| > 1 {
      var pre := metavars[..|metavars| - 1];
      var curr := metavars[|metavars| - 1];
      MergedNoAdjacent(pre);
      var m := Merged(pre);
      var prev := m[|m| - 1];
      if IsBraced(prev) && IsBraced(curr) {
        var joined := prev[..|prev| - 1] + "," + curr[1..];
        var r := m[..|m| - 1] + [joined];
        assert forall i :: 0 <= i < |m| - 1 ==> r[i] == m[i];
      }
    }
  }

  /** Merging never adds an entry. */
  lemma {:induction false} MergedLength(metavars: seq<string>)
    requires |metavars| > 0
    ensures |Merged(metavars)| <= |metavars|
  {
    if |metavars| > 1 {
      MergedLength(metavars[..|metavars| - 1]);
    }
  }

  /** Merging changes nothing when no metavar is a brace group. */
  lemma {:induction false} MergedPlain(metavars: seq<string>)
    requires |metavars| > 0 && forall i :: 0 <= i < |metavars| ==> !IsBraced(metavars[i])
    ensures Merged(metavars) == metavars
  {
    if |metavars| > 1 {
      var pre := metavars[..|metavars| - 1];
      assert forall i :: 0 <= i < |pre| ==> pre[i] == metavars[i];
      MergedPlain(pre);
      assert metavars == pre + [metavars[|metavars| - 1]];
    }
  }

  // The merge described by runs: each maximal run of adjacent brace groups `{a1}, ..., {ak}`
  // becomes the one group `{a1,...,ak}`, and every other metavar is kept as it is.

  /** The text between the braces of a brace group. */
  function Inside(s: string): (r: string)
    requires IsBraced(s)
    ensures s == "{" + r + "}"
  {
    s[1..|s| - 1]
  }

  /** A run of brace groups. */
  predicate BracedRun(g: seq<string>)
  {
    |g| > 0 && forall i :: 0 <= i < |g| ==> IsBraced(g[i])
  }

  /** What the merge keeps of one group: a run becomes one group, a lone metavar is kept. */
  predicate IsGroup(g: seq<string>)
  {
    BracedRun(g) || (|g| == 1 && !IsBraced(g[0]))
  }

  /** The insides of a run, in order. */
  function Insides(g: seq<string>): (r: seq<string>)
    requires forall i :: 0 <= i < |g| ==> IsBraced(g[i])
    ensures |r| == |g|
  {
    if g == [] then [] else Insides(g[..|g| - 1]) + [Inside(g[|g| - 1])]
  }

  /** The merged metavar of one group. */
  function Render(g: seq<string>): string
  {
    if BracedRun(g) then "{" + Join(",", Insides(g)) + "}" else if g != [] then g[0] else ""
  }

  function RenderAll(gs: seq<seq<string>>): (r: seq<string>)
    ensures |r| == |gs|
  {
    if gs == [] then [] else RenderAll(gs[..|gs| - 1]) + [Render(gs[|gs| - 1])]
  }

  function Flatten(gs: seq<seq<string>>): seq<string>
  {
    if gs == [] then [] else Flatten(gs[..|gs| - 1]) + gs[|gs| - 1]
  }

  /** One step of the cut: a brace group extends a trailing run, anything else starts a group. */
  function GroupStep(gs: seq<seq<string>>, x: string): (r: seq<seq<string>>)
    ensures r != []
  {
    if IsBraced(x) && gs != [] && BracedRun(gs[|gs| - 1]) then gs[..|gs| - 1] + [gs[|gs| - 1] + [x]]
    else gs + [[x]]
  }

  /** The metavars cut into maximal runs of brace groups and single other metavars. */
  function Groups(ms: seq<string>): (gs: seq<seq<string>>)
    ensures ms != [] ==> gs != []
  {
    if ms == [] then [] else GroupStep(Groups(ms[..|ms| - 1]), ms[|ms| - 1])
  }

  lemma FlattenSnoc(gs: seq<seq<string>>, g: seq<string>)
    ensures Flatten(gs + [g]) == Flatten(gs) + g
  {
    assert (gs + [g])[..|gs|] == gs;
  }

  lemma GroupStepFlatten(gs: seq<seq<string>>, x: string)
    ensures Flatten(GroupStep(gs, x)) == Flatten(gs) + [x]
  {
    if IsBraced(x) && gs != [] && BracedRun(gs[|gs| - 1]) {
      var init := gs[..|gs| - 1];
      var last := gs[|gs| - 1];
      assert gs == init + [last];
      FlattenSnoc(init, last);
      FlattenSnoc(init, last + [x]);
    } else {
      FlattenSnoc(gs, [x]);
    }
  }

  /** The groups hold exactly the metavars, in order. */
  lemma {:induction false} GroupsFlatten(ms: seq<string>)
    ensures Flatten(Groups(ms)) == ms
  {
    if ms != [] {
      var pre := ms[..|ms| - 1];
      GroupsFlatten(pre);
      GroupStepFlatten(Groups(pre), ms[|ms| - 1]);
      assert ms == pre + [ms[|ms| - 1]];
    }
  }

  lemma GroupStepShape(gs: seq<seq<string>>, x: string)
    requires forall i :: 0 <= i < |gs| ==> IsGroup(gs[i])
    ensures forall i :: 0 <= i < |GroupStep(gs, x)| ==> IsGroup(GroupStep(gs, x)[i])
  {
    if IsBraced(x) && gs != [] && BracedRun(gs[|gs| - 1]) {
      var last := gs[|gs| - 1];
      assert BracedRun(last + [x]);
    }
  }

  /** Every group is a run of brace groups or a single other metavar. */
  lemma {:induction false} GroupsShape(ms: seq<string>)
    ensures forall i :: 0 <= i < |Groups(ms)| ==> IsGroup(Groups(ms)[i])
  {
    if ms != [] {
      GroupsShape(ms[..|ms| - 1]);
      GroupStepShape(Groups(ms[..|ms| - 1]), ms[|ms| - 1]);
    }
  }

  lemma GroupStepMaximal(gs: seq<seq<string>>, x: string)
    requires forall i :: 0 <= i < |gs| - 1 ==> !(BracedRun(gs[i]) && BracedRun(gs[i + 1]))
    ensures var r := GroupStep(gs, x);
      forall i :: 0 <= i < |r| - 1 ==> !(BracedRun(r[i]) && BracedRun(r[i + 1]))
  {
    var r := GroupStep(gs, x);
    if IsBraced(x) && gs != [] && BracedRun(gs[|gs| - 1]) {
      assert |r| == |gs|;
      assert forall i :: 0 <= i < |r| - 1 ==> r[i] == gs[i];
    } else {
      assert r == gs + [[x]];
      assert forall i :: 0 <= i < |gs| ==> r[i] == gs[i];
      assert r[|gs|] == [x] && [x][0] == x;
    }
  }

  /** The runs are maximal: no two neighbouring groups are both runs of brace groups. */
  lemma {:induction false} GroupsMaximal(ms: seq<string>)
    ensures forall i :: 0 <= i < |Groups(ms)| - 1 ==> !(BracedRun(Groups(ms)[i]) && BracedRun(Groups(ms)[i + 1]))
  {
    if ms != [] {
      GroupsMaximal(ms[..|ms| - 1]);
      GroupStepMaximal(Groups(ms[..|ms| - 1]), ms[|ms| - 1]);
    }
  }

  /** A single brace group renders as itself, and so does a single other metavar. */
  lemma RenderSingle(x: string)
    ensures Render([x]) == x
  {
    if IsBraced(x) {
      assert Insides([x]) == [Inside(x)] by { assert [x][..0] == []; }
    }
  }

  /** Dropping the closing brace of `{j}` and the opening one of `{y}` and putting a comma between gives `{j,y}`. */
  lemma MergeBraces(j: string, y: string)
    ensures var prev := "{" + j + "}"; var x := "{" + y + "}";
      prev[..|prev| - 1] + "," + x[1..] == "{" + (j + "," + y) + "}"
  {
    var prev := "{" + j + "}";
    var x := "{" + y + "}";
    assert prev[..|prev| - 1] == "{" + j;
    assert x[1..] == y + "}";
  }

  /** Merging a brace group into a rendered run renders the longer run. */
  lemma RenderExtend(g: seq<string>, x: string)
    requires BracedRun(g) && IsBraced(x)
    ensures var prev := Render(g);
      |prev| > 0 && prev[..|prev| - 1] + "," + x[1..] == Render(g + [x])
  {
    var g2 := g + [x];
    var j := Join(",", Insides(g));
    var y := Inside(x);
    assert Render(g) == "{" + j + "}";
    assert BracedRun(g2);
    assert g2[..|g2| - 1] == g;
    assert Insides(g2) == Insides(g) + [y];
    JoinSnoc(",", Insides(g), y);
    assert Render(g2) == "{" + (j + "," + y) + "}";
    MergeBraces(j, y);
  }

  /** A rendered group is a brace group exactly when the group is a run. */
  lemma RenderBraced(g: seq<string>)
    requires IsGroup(g)
    ensures IsBraced(Render(g)) <==> BracedRun(g)
  {
    if BracedRun(g) {
      var r := Render(g);
      assert r[0] == '{' && r[|r| - 1] == '}';
    }
  }

  /** `merged_metavars` is each group rendered: every run of brace groups becomes one group holding their insides, separated by commas. */
  lemma {:induction false} MergedGroups(metavars: seq<string>)
    requires |metavars| > 0
    ensures Merged(metavars) == RenderAll(Groups(metavars))
    decreases |metavars|
  {
    var x := metavars[|metavars| - 1];
    var pre := metavars[..|metavars| - 1];
    var gs := Groups(pre);
    if |metavars| == 1 {
      RenderSingle(x);
      assert RenderAll([[x]]) == [Render([x])];
    } else {
      MergedGroups(pre);
      var m := Merged(pre);
      var last := gs[|gs| - 1];
      assert m[..|m| - 1] == RenderAll(gs[..|gs| - 1]) && m[|m| - 1] == Render(last);
      GroupsShape(pre);
      RenderBraced(last);
      if IsBraced(x) && BracedRun(last) {
        RenderExtend(last, x);
        var r := gs[..|gs| - 1] + [last + [x]];
        assert r[..|r| - 1] == gs[..|gs| - 1];
      } else {
        RenderSingle(x);
        var r := gs + [[x]];
        assert r[..|r| - 1] == gs;
      }
    }
  }

  /** After wrapping, every part that contains a space is a brace group. */
  lemma WrapAllBraces(ms: seq<string>)
    ensures forall i :: 0 <= i < |ms| ==> (' ' in ms[i] ==> WrapAll(ms)[i] == "{" + ms[i] + "}")
    ensures forall i :: 0 <= i < |ms| ==> (' ' !in ms[i] ==> WrapAll(ms)[i] == ms[i])
  {
  }

  /** Two parts that are not both brace groups are each wrapped if spaced, then joined with `|`. */
  lemma JoinTwo(a: string, b: string)
    requires !(IsBraced(a) && IsBraced(b))
    ensures JoinUnionMetavars([a, b]) == WrapIfSpaced(a) + "|" + WrapIfSpaced(b)
  {
    var ms := [a, b];
    assert ms[..1] == [a];
    assert Merged(ms) == [a] + [b] == ms;
    var w := WrapAll(ms);
    assert w == [WrapIfSpaced(a), WrapIfSpaced(b)];
    assert w[1..] == [WrapIfSpaced(b)];
    assert Join("|", w) == w[0] + "|" + Join("|", [WrapIfSpaced(b)]);
  }

  /** Unbraced parts without spaces are joined as they are: the code keeps `None` as written, not `NONE`. */
  lemma JoinUnionMetavarsPlain()
    ensures JoinUnionMetavars(["None", "INT"]) == "None|INT"
  {
    assert !IsBraced("None");
    JoinTwo("None", "INT");
    assert ' ' !in "None" && ' ' !in "INT";
  }

  /** Docstring examples of `_join_union_metavars`: neighbouring brace groups merge. */
  lemma JoinUnionMetavarsMerges()
    ensures JoinUnionMetavars(["{0,1,2}", "{3,4}"]) == "{0,1,2,3,4}"
  {
  }

  lemma JoinUnionMetavarsMergesThenJoins()
    ensures JoinUnionMetavars(["{0,1,2}", "{3,4}", "STR"]) == "{0,1,2,3,4}|STR"
  {
    var three := ["{0,1,2}", "{3,4}", "STR"];
    assert three[..2] == ["{0,1,2}", "{3,4}"];
    assert Merged(three[..2]) == ["{0,1,2,3,4}"] by {
      assert "{0,1,2}"[..6] + "," + "{3,4}"[1..] == "{0,1,2,3,4}";
    }
    assert Merged(three) == ["{0,1,2,3,4}", "STR"];
  }

  /** A part with no space is kept as it is. */
  lemma WrapUnspaced(s: string)
    requires ' ' !in s
    ensures WrapIfSpaced(s) == s
  {
  }

  /** A part with a space is put in braces. */
  lemma WrapSpaced(s: string, i: nat)
    requires i < |s| && s[i] == ' '
    ensures WrapIfSpaced(s) == "{" + s + "}"
  {
  }

  /** An unspaced part followed by a spaced, unbraced one: the second is braced, then they are joined with `|`. */
  lemma JoinWrapsSpaced(a: string, b: string, i: nat)
    requires ' ' !in a && !IsBraced(b) && i < |b| && b[i] == ' '
    ensures JoinUnionMetavars([a, b]) == a + "|{" + b + "}"
  {
    JoinTwo(a, b);
    WrapUnspaced(a);
    WrapSpaced(b, i);
  }

  /** Docstring examples of `_join_union_metavars`: a part with a space is braced. */
  lemma JoinUnionMetavarsWrapsNone()
    ensures JoinUnionMetavars(["{None}", "INT [INT ...]"]) == "{None}|{INT [INT ...]}"
  {
    assert !IsBraced("INT [INT ...]") && ' ' !in "{None}";
    JoinWrapsSpaced("{None}", "INT [INT ...]", 3);
    assert "{None}" + "|{" + "INT [INT ...]" + "}" == "{None}|{INT [INT ...]}";
  }

  lemma JoinUnionMetavarsWrapsSequence()
    ensures JoinUnionMetavars(["STR", "INT [INT ...]"]) == "STR|{INT [INT ...]}"
  {
    assert !IsBraced("INT [INT ...]") && ' ' !in "STR";
    JoinWrapsSpaced("STR", "INT [INT ...]", 3);
    assert "STR" + "|{" + "INT [INT ...]" + "}" == "STR|{INT [INT ...]}";
  }

  lemma JoinUnionMetavarsWrapsTuple()
    ensures JoinUnionMetavars(["STR", "INT INT"]) == "STR|{INT INT}"
  {
    assert !IsBraced("INT INT") && ' ' !in "STR";
    JoinWrapsSpaced("STR", "INT INT", 3);
    assert "STR" + "|{" + "INT INT" + "}" == "STR|{INT INT}";
  }
}
