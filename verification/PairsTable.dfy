// Random access into a Syzygy table: a sparse index, blocks of Huffman codewords, and a grammar of symbol pairs.

module PairsTable {
  import opened Powers
  import opened Huffman
  import opened BitStream

  // ---- the grammar ----

  datatype Rule = Literal | Pair(left: nat, right: nat)

  /** The three bytes of a symbol: two symbol numbers of 12 bits; 0xfff on the right marks a literal. */
  function ReadRule(w0: nat, w1: nat, w2: nat): Rule
  {
    var s2 := w2 * 16 + w1 / 16;
    if s2 == 0xfff then Literal else Pair((w1 % 16) * 256 + w0, s2)
  }

  /** The packing loses nothing: any two symbol numbers of 12 bits can be written, except 0xfff on the right. */
  lemma RulePacking(left: nat, right: nat)
    requires left < 4096 && right < 4096
    ensures ReadRule(left % 256, left / 256 + (right % 16) * 16, right / 16) == if right == 0xfff then Literal
      else Pair(left, right)
  {
    var w1 := left / 256 + (right % 16) * 16;
    assert w1 / 16 == right % 16 && w1 % 16 == left / 256;
  }

  /** `rank` witnesses that no symbol contains itself. */
  ghost predicate Acyclic(rules: seq<Rule>, rank: seq<nat>) {
    |rank| == |rules| && forall s {:trigger rules[s]} :: 0 <= s < |rules| && rules[s].Pair? ==>
      rules[s].left < |rules| && rules[s].right < |rules| && rank[rules[s].left] < rank[s] &&
        rank[rules[s].right] < rank[s]
  }

  /** The literals a symbol stands for. */
  ghost function Expand(rules: seq<Rule>, rank: seq<nat>, s: nat): (r: seq<nat>)
    requires Acyclic(rules, rank) && s < |rules|
    ensures |r| > 0 && (|r| == 1 ==> r == [s])
    decreases rank[s]
  {
    match rules[s]
    case Literal => [s]
    case Pair(l, r) => Expand(rules, rank, l) + Expand(rules, rank, r)
  }

  /** No symbol stands for more than 256 literals, so that lengths fit a byte. */
  ghost predicate Short(rules: seq<Rule>, rank: seq<nat>)
    requires Acyclic(rules, rank)
  {
    forall s {:trigger Expand(rules, rank, s)} :: 0 <= s < |rules| ==> |Expand(rules, rank, s)| <= 256
  }

  ghost predicate LensRight(rules: seq<Rule>, rank: seq<nat>, symLen: seq<nat>, done: seq<bool>)
    requires Acyclic(rules, rank)
  {
    |symLen| == |done| == |rules| &&
    forall s {:trigger done[s]} {:trigger symLen[s]} ::
      0 <= s < |rules| && done[s] ==> symLen[s] == |Expand(rules, rank, s)| - 1
  }

  ghost predicate Grows(was: seq<bool>, now: seq<bool>) {
    |was| == |now| && forall s {:trigger now[s]} :: 0 <= s < |was| && was[s] ==> now[s]
  }

  /** `calc_symLen`, with its byte arithmetic: each length is that of the expansion less one. */
  method CalcSymLen(rules: seq<Rule>, ghost rank: seq<nat>, symLen: array<nat>, tmp: array<bool>, s: nat)
    requires Acyclic(rules, rank) && Short(rules, rank) && s < |rules| && LensRight(rules, rank, symLen[..], tmp[..])
    modifies symLen, tmp
    ensures LensRight(rules, rank, symLen[..], tmp[..]) && Grows(old(tmp[..]), tmp[..]) && tmp[s]
    decreases rank[s]
  {
    match rules[s]
    case Literal =>
      symLen[s] := 0;
      tmp[s] := true;
    case Pair(s1, s2) =>
      if !tmp[s1] { CalcSymLen(rules, rank, symLen, tmp, s1); }
      if !tmp[s2] { CalcSymLen(rules, rank, symLen, tmp, s2); }
      assert |Expand(rules, rank, s)| <= 256;
      symLen[s] := (symLen[s1] + symLen[s2] + 1) % 256;
      tmp[s] := true;
  }

  method SetupSymLen(rules: seq<Rule>, ghost rank: seq<nat>) returns (symLen: array<nat>)
    requires Acyclic(rules, rank) && Short(rules, rank)
    ensures fresh(symLen) && symLen.Length == |rules|
    ensures forall s :: 0 <= s < |rules| ==> symLen[s] == |Expand(rules, rank, s)| - 1
  {
    symLen := new nat[|rules|](_ => 0);
    var tmp := new bool[|rules|](_ => false);
    var s := 0;
    while s < |rules|
      invariant 0 <= s <= |rules| && LensRight(rules, rank, symLen[..], tmp[..])
      invariant forall i :: 0 <= i < s ==> tmp[..][i]
    {
      ghost var was := tmp[..];
      if !tmp[s] { CalcSymLen(rules, rank, symLen, tmp, s); }
      assert Grows(was, tmp[..]);
      s := s + 1;
    }
    assert forall i :: 0 <= i < |rules| ==> tmp[..][i] && symLen[..][i] == symLen[i];
  }

  ghost predicate SymLens(rules: seq<Rule>, rank: seq<nat>, symLen: seq<nat>)
    requires Acyclic(rules, rank)
  {
    |symLen| == |rules| && forall s {:trigger symLen[s]} ::
      0 <= s < |rules| ==> symLen[s] == |Expand(rules, rank, s)| - 1
  }

  /** The descent: the `lit`-th literal of a symbol. */
  method Descend(rules: seq<Rule>, ghost rank: seq<nat>, symLen: seq<nat>, start: nat, first: nat) returns (sym: nat)
    requires Acyclic(rules, rank) && SymLens(rules, rank, symLen) && start < |rules| &&
      first < |Expand(rules, rank, start)|
    ensures sym == Expand(rules, rank, start)[first]
  {
    sym := start;
    var lit: int := first;
    while symLen[sym] != 0
      invariant sym < |rules| && 0 <= lit < |Expand(rules, rank, sym)|
      invariant Expand(rules, rank, sym)[lit] == Expand(rules, rank, start)[first]
      decreases rank[sym]
    {
      var s1 := rules[sym].left;
      if lit < symLen[s1] + 1 {
        sym := s1;
      } else {
        lit := lit - (symLen[s1] + 1);
        sym := rules[sym].right;
      }
    }
  }

  // ---- blocks of symbols ----

  ghost predicate Known(rules: seq<Rule>, syms: seq<nat>) {
    forall i :: 0 <= i < |syms| ==> syms[i] < |rules|
  }

  ghost function ExpandAll(rules: seq<Rule>, rank: seq<nat>, syms: seq<nat>): seq<nat>
    requires Acyclic(rules, rank) && Known(rules, syms)
  {
    if syms == [] then [] else Expand(rules, rank, syms[0]) + ExpandAll(rules, rank, syms[1..])
  }

  ghost predicate AllKnown(rules: seq<Rule>, blocks: seq<seq<nat>>) {
    forall b :: 0 <= b < |blocks| ==> Known(rules, blocks[b])
  }

  /** The whole table, fully expanded. */
  ghost function Full(rules: seq<Rule>, rank: seq<nat>, blocks: seq<seq<nat>>): seq<nat>
    requires Acyclic(rules, rank) && AllKnown(rules, blocks)
  {
    if blocks == [] then []
    else Full(rules, rank, blocks[..|blocks| - 1]) + ExpandAll(rules, rank, blocks[|blocks| - 1])
  }

  /** Where block `b` starts in the table. */
  ghost function Start(rules: seq<Rule>, rank: seq<nat>, blocks: seq<seq<nat>>, b: nat): nat
    requires Acyclic(rules, rank) && AllKnown(rules, blocks) && b <= |blocks|
  {
    |Full(rules, rank, blocks[..b])|
  }

  lemma StartStep(rules: seq<Rule>, rank: seq<nat>, blocks: seq<seq<nat>>, b: nat)
    requires Acyclic(rules, rank) && AllKnown(rules, blocks) && b < |blocks|
    ensures Start(rules, rank, blocks, b + 1) == Start(rules, rank, blocks, b) + |ExpandAll(rules, rank, blocks[b])|
  {
    assert blocks[..b + 1][..b] == blocks[..b];
  }

  lemma {:induction false} StartsBelow(rules: seq<Rule>, rank: seq<nat>, blocks: seq<seq<nat>>, b: nat, d: nat)
    requires Acyclic(rules, rank) && AllKnown(rules, blocks) && b <= d <= |blocks|
    ensures Start(rules, rank, blocks, b) <= Start(rules, rank, blocks, d)
    decreases d
  {
    if b < d {
      StartsBelow(rules, rank, blocks, b, d - 1);
      StartStep(rules, rank, blocks, d - 1);
    }
  }

  lemma {:induction false} FullAt(rules: seq<Rule>, rank: seq<nat>, blocks: seq<seq<nat>>, b: nat, lit: nat)
    requires Acyclic(rules, rank) && AllKnown(rules, blocks) && b < |blocks| &&
      lit < |ExpandAll(rules, rank, blocks[b])|
    ensures Start(rules, rank, blocks, b) + lit < |Full(rules, rank, blocks)|
    ensures Full(rules, rank, blocks)[Start(rules, rank, blocks, b) + lit] == ExpandAll(rules, rank, blocks[b])[lit]
    decreases |blocks|
  {
    var n := |blocks| - 1;
    if b < n {
      FullAt(rules, rank, blocks[..n], b, lit);
      assert blocks[..n][..b] == blocks[..b];
    }
  }

  ghost predicate Sizes(rules: seq<Rule>, rank: seq<nat>, blocks: seq<seq<nat>>, sizeTable: seq<nat>)
    requires Acyclic(rules, rank) && AllKnown(rules, blocks)
  {
    |blocks| <= |sizeTable| && forall b {:trigger sizeTable[b]} ::
      0 <= b < |blocks| ==> sizeTable[b] + 1 == |ExpandAll(rules, rank, blocks[b])|
  }

  /** From any block and offset that denote position `idx`, in either direction, to the block that holds it. */
  method Seek(rules: seq<Rule>, ghost rank: seq<nat>, ghost blocks: seq<seq<nat>>, sizeTable: seq<nat>, from: nat,
              offset: int, ghost idx: nat)
    returns (block: nat, lit: int)
    requires Acyclic(rules, rank) && AllKnown(rules, blocks) && Sizes(rules, rank, blocks, sizeTable)
    requires from <= |blocks| && Start(rules, rank, blocks, from) + offset == idx < |Full(rules, rank, blocks)|
    ensures block < |blocks| && 0 <= lit < |ExpandAll(rules, rank, blocks[block])|
    ensures Start(rules, rank, blocks, block) + lit == idx
  {
    block, lit := from, offset;
    assert blocks[..|blocks|] == blocks;
    if lit < 0 {
      while lit < 0
        invariant block <= |blocks| && Start(rules, rank, blocks, block) + lit == idx
        invariant block < |blocks| ==> lit < |ExpandAll(rules, rank, blocks[block])|
        invariant block == |blocks| ==> lit < 0
      {
        assert blocks[..0] == [];
        block := block - 1;
        StartStep(rules, rank, blocks, block);
        lit := lit + sizeTable[block] + 1;
      }
    } else {
      StartsBelow(rules, rank, blocks, from, |blocks|);
      while lit > sizeTable[block]
        invariant block < |blocks| && lit >= 0 && Start(rules, rank, blocks, block) + lit == idx
        decreases |blocks| - block
      {
        StartStep(rules, rank, blocks, block);
        lit := lit - (sizeTable[block] + 1);
        block := block + 1;
      }
    }
  }

  // ---- decoding a block ----

  /** A window position in the codewords of `syms`, and the literals still ahead. */
  ghost predicate Reading(c: Code, rules: seq<Rule>, rank: seq<nat>, bits: seq<bool>, pos: nat, syms: seq<nat>,
                          lit: int)
    requires c.Complete() && Acyclic(rules, rank)
  {
    && Known(rules, syms) && AllCoded(c, syms)
    && pos + |Encoded(c, syms)| + 64 <= |bits| && bits[pos..pos + |Encoded(c, syms)|] == Encoded(c, syms)
    && 0 <= lit < |ExpandAll(rules, rank, syms)|
  }

  /** The literal looked for, among those ahead. */
  ghost predicate Sought(rules: seq<Rule>, rank: seq<nat>, syms: seq<nat>, lit: int, want: nat)
    requires Acyclic(rules, rank)
  {
    Known(rules, syms) && 0 <= lit < |ExpandAll(rules, rank, syms)| && ExpandAll(rules, rank, syms)[lit] == want
  }

  /** The first symbol is read over. */
  ghost predicate ReadingRest(c: Code, rules: seq<Rule>, rank: seq<nat>, bits: seq<bool>, pos: nat, syms: seq<nat>,
                              lit: int)
    requires c.Complete() && Acyclic(rules, rank) && Reading(c, rules, rank, bits, pos, syms, lit) && syms != []
  {
    var n := lit - |Expand(rules, rank, syms[0])|;
    && Reading(c, rules, rank, bits, pos + |WordBits(c, syms[0])|, syms[1..], n)
    && ExpandAll(rules, rank, syms)[lit] == ExpandAll(rules, rank, syms[1..])[n]
  }

  lemma SliceOfTwo(bits: seq<bool>, pos: nat, w: seq<bool>, rest: seq<bool>)
    requires pos + |w + rest| <= |bits| && bits[pos..pos + |w + rest|] == w + rest
    ensures bits[pos..pos + |w|] == w && bits[pos + |w|..pos + |w| + |rest|] == rest
  {
    var all := bits[pos..pos + |w + rest|];
    assert bits[pos..pos + |w|] == all[..|w|] == w;
    assert bits[pos + |w|..pos + |w| + |rest|] == all[|w|..] == rest;
  }

  lemma ReadingNext(c: Code, rules: seq<Rule>, rank: seq<nat>, bits: seq<bool>, pos: nat, syms: seq<nat>, lit: int)
    requires c.Complete() && Acyclic(rules, rank) && Reading(c, rules, rank, bits, pos, syms, lit)
    ensures syms != [] && syms[0] < |rules| && Coded(c, syms[0])
    ensures bits[pos..pos + |WordBits(c, syms[0])|] == WordBits(c, syms[0])
    ensures lit < |Expand(rules, rank, syms[0])| ==>
      ExpandAll(rules, rank, syms)[lit] == Expand(rules, rank, syms[0])[lit]
    ensures lit >= |Expand(rules, rank, syms[0])| ==> ReadingRest(c, rules, rank, bits, pos, syms, lit)
  {
    SliceOfTwo(bits, pos, WordBits(c, syms[0]), Encoded(c, syms[1..]));
  }

  lemma ReadingMoves(c: Code, rules: seq<Rule>, rank: seq<nat>, bits: seq<bool>, pos: nat, syms: seq<nat>, lit: int,
                     n: nat, passed: int, want: nat)
    requires c.Complete() && Acyclic(rules, rank) && Reading(c, rules, rank, bits, pos, syms, lit) && syms != [] &&
      Sought(rules, rank, syms, lit, want)
    requires n == |WordBits(c, syms[0])| && passed == |Expand(rules, rank, syms[0])| &&
      ReadingRest(c, rules, rank, bits, pos, syms, lit)
    ensures PastSymbol(c, rules, rank, bits, pos + n, syms[1..], lit - passed, want)
  {
  }

  ghost predicate PastSymbol(c: Code, rules: seq<Rule>, rank: seq<nat>, bits: seq<bool>, pos: nat, syms: seq<nat>,
                             lit: int, want: nat)
    requires c.Complete() && Acyclic(rules, rank)
  {
    Reading(c, rules, rank, bits, pos, syms, lit) && pos + 64 <= |bits| && Sought(rules, rank, syms, lit, want)
  }

  /** The decoding loop of `decompress_pairs` on one block: the symbol that covers literal `first`, and which of its
      literals that is. The window always holds a whole codeword because it is refilled every 32 bits. */
  method DecodeBlock(c: Code, width: nat, base: seq<int>, rules: seq<Rule>, ghost rank: seq<nat>, symLen: seq<nat>,
                     bits: seq<bool>, ghost syms: seq<nat>, first: int)
    returns (sym: nat, lit: int)
    requires width == 64 && c.Complete() && c.Len(|c.offset| - 1) <= 32 && Aligned(c, width, base)
    requires Acyclic(rules, rank) && SymLens(rules, rank, symLen) && Reading(c, rules, rank, bits, 0, syms, first)
    ensures sym < |rules| && 0 <= lit < |Expand(rules, rank, sym)|
    ensures Expand(rules, rank, sym)[lit] == ExpandAll(rules, rank, syms)[first]
  {
    ghost var pos: nat, rest, want := 0, syms, ExpandAll(rules, rank, syms)[first];
    var end: nat, empty: nat := width, 0;
    var code := Val(bits[..end]);
    WindowStarts(bits, width);
    lit := first;
    while true
      invariant PastSymbol(c, rules, rank, bits, pos, rest, lit, want)
      invariant Window(bits, width, code, pos, end, empty) && empty < 32
      decreases |rest|
    {
      ReadingNext(c, rules, rank, bits, pos, rest, lit);
      var i;
      sym, i := NextCoded(c, width, base, bits, code, pos, end, empty, rest[0]);
      if lit < symLen[sym] + 1 { break; }
      var n, passed := c.Len(i), symLen[sym] + 1;
      ReadingMoves(c, rules, rank, bits, pos, rest, lit, n, passed, want);
      code, end, empty := Consume(bits, width, code, pos, end, empty, n);
      lit := lit - passed;
      pos, rest := pos + n, rest[1..];
    }
  }

  /** Move the window past `n` bits, and refill it when half of it is empty. */
  method Consume(bits: seq<bool>, width: nat, code: int, ghost pos: nat, end: nat, empty: nat, n: nat)
    returns (nextCode: int, nextEnd: nat, nextEmpty: nat)
    requires width == 64 && Window(bits, width, code, pos, end, empty) && empty < 32 && n <= 32
    requires pos + n <= end && pos + n + 64 <= |bits|
    ensures Window(bits, width, nextCode, pos + n, nextEnd, nextEmpty) && nextEmpty < 32
  {
    WindowShifts(bits, width, code, pos, end, empty, n);
    nextCode := (code * Pow2(n)) % Pow2(width);
    nextEnd, nextEmpty := end, empty + n;
    if nextEmpty >= 32 {
      WindowRefills(bits, width, nextCode, pos + n, nextEnd, nextEmpty);
      nextCode := nextCode + Val(bits[nextEnd..nextEnd + 32]) * Pow2(nextEmpty - 32);
      nextEnd, nextEmpty := nextEnd + 32, nextEmpty - 32;
    }
  }

  /** One scan, which finds the symbol `s` whose codeword comes next. */
  method NextCoded(c: Code, width: nat, base: seq<int>, bits: seq<bool>, code: int, ghost pos: nat, end: nat,
                   empty: nat, ghost s: nat)
    returns (sym: nat, i: nat)
    requires width == 64 && c.Complete() && c.Len(|c.offset| - 1) <= 32 && Aligned(c, width, base) && Coded(c, s)
    requires Window(bits, width, code, pos, end, empty) && empty < 32
    requires pos + |WordBits(c, s)| <= |bits| && bits[pos..pos + |WordBits(c, s)|] == WordBits(c, s)
    ensures sym == s && i < |c.offset| && |WordBits(c, s)| == c.Len(i) && pos + c.Len(i) <= end
  {
    WindowBound(bits, width, code, pos, end, empty);
    sym, i := NextSymbol(c, width, base, code);
    WindowFindsWord(c, bits, width, code, pos, end, empty, s, sym, i);
  }

  // ---- random access ----

  /** A compressed table. `data[b]` is the file from block `b` on, `index` the sparse index. Without index bits the
      table has the same value everywhere. */
  datatype Pairs = Pairs(constValue: int, idxBits: nat, index: seq<(nat, int)>, sizeTable: seq<nat>,
                         data: seq<seq<bool>>, code: Code, base: seq<int>, rules: seq<Rule>, symLen: seq<nat>)

  /** The table holds `blocks`. */
  ghost predicate Holds(p: Pairs, rank: seq<nat>, blocks: seq<seq<nat>>) {
    && Acyclic(p.rules, rank) && SymLens(p.rules, rank, p.symLen) && AllKnown(p.rules, blocks)
    && p.code.Complete() && p.code.Len(|p.code.offset| - 1) <= 32 && Aligned(p.code, 64, p.base)
    && Sizes(p.rules, rank, blocks, p.sizeTable)
    && |p.data| == |blocks| && forall b {:trigger p.data[b]} :: 0 <= b < |blocks| ==> Stored(p, blocks[b], p.data[b])
  }

  ghost predicate Stored(p: Pairs, syms: seq<nat>, bits: seq<bool>)
    requires p.code.Complete()
  {
    AllCoded(p.code, syms) && |Encoded(p.code, syms)| + 64 <= |bits| &&
      bits[..|Encoded(p.code, syms)|] == Encoded(p.code, syms)
  }

  /** Entry `m` of the index denotes the middle of the `m`-th stretch of `2^idxBits` positions. */
  ghost predicate Indexed(p: Pairs, rank: seq<nat>, blocks: seq<seq<nat>>)
    requires p.idxBits > 0 && Acyclic(p.rules, rank) && AllKnown(p.rules, blocks)
  {
    && |Full(p.rules, rank, blocks)| <= |p.index| * Pow2(p.idxBits)
    && forall m {:trigger p.index[m]} ::
      0 <= m < |p.index| ==> Denotes(p, rank, blocks, p.index[m], m * Pow2(p.idxBits) + Pow2(p.idxBits - 1))
  }

  ghost predicate Denotes(p: Pairs, rank: seq<nat>, blocks: seq<seq<nat>>, entry: (nat, int), position: int)
    requires Acyclic(p.rules, rank) && AllKnown(p.rules, blocks)
  {
    entry.0 <= |blocks| && Start(p.rules, rank, blocks, entry.0) + entry.1 == position
  }

  /** Where the bytes of an entry are found: in the header or in the pattern of a symbol that stands for itself. */
  datatype Entry = Constant(value: int) | Pattern(sym: nat)

  /** `decompress_pairs` returns the entry of the fully expanded table. */
  method DecompressPairs(p: Pairs, ghost rank: seq<nat>, ghost blocks: seq<seq<nat>>, idx: nat) returns (r: Entry)
    requires p.idxBits > 0 ==> Holds(p, rank, blocks) && Indexed(p, rank, blocks) && idx < |Full(p.rules, rank, blocks)|
    ensures p.idxBits == 0 ==> r == Constant(p.constValue)
    ensures p.idxBits > 0 ==> r == Pattern(Full(p.rules, rank, blocks)[idx])
  {
    if p.idxBits == 0 { return Constant(p.constValue); }
    var sym := IndexedEntry(p, rank, blocks, idx);
    r := Pattern(sym);
  }

  method IndexedEntry(p: Pairs, ghost rank: seq<nat>, ghost blocks: seq<seq<nat>>, idx: nat) returns (sym: nat)
    requires p.idxBits > 0 && Holds(p, rank, blocks) && Indexed(p, rank, blocks) && idx < |Full(p.rules, rank, blocks)|
    ensures sym == Full(p.rules, rank, blocks)[idx]
  {
    Pow2Positive(p.idxBits);
    var m, r := DivMod(idx, Pow2(p.idxBits));
    IndexHolds(|p.index|, idx, m, r, Pow2(p.idxBits));
    var lit := idx - m * Pow2(p.idxBits) - Pow2(p.idxBits - 1) + p.index[m].1;
    var block;
    block, lit := Seek(p.rules, rank, blocks, p.sizeTable, p.index[m].0, lit, idx);
    FullAt(p.rules, rank, blocks, block, lit);
    assert Stored(p, blocks[block], p.data[block]) && Known(p.rules, blocks[block]);
    assert p.data[block][0..0 + |Encoded(p.code, blocks[block])|] == p.data[block][..|Encoded(p.code, blocks[block])|];
    var start;
    start, lit := DecodeBlock(p.code, 64, p.base, p.rules, rank, p.symLen, p.data[block], blocks[block], lit);
    sym := Descend(p.rules, rank, p.symLen, start, lit);
  }

  lemma IndexHolds(n: nat, idx: nat, m: int, r: int, w: nat)
    requires 0 <= r < w && idx == m * w + r && idx < n * w
    ensures 0 <= m < n
  {
    if m < 0 { ScaleStrict(m, 0, w); }
    if m >= n { Scale(n, m, w); }
  }
}
