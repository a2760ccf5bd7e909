/** stayhomeslide.go: the number of days since the offices closed on
    March 10, 2020, as a number in a box or as tally marks. The instant of
    local midnight starting that day is an input. */
module StayHome {
  import opened GoInt
  import opened GoTime
  import Fmt

  /** `Min`. */
  function Min(a: int, b: int): (m: int)
    ensures m <= a && m <= b && (m == a || m == b)
  {
    if a < b then a else b
  }

  /** `GetDayCount`: whole days elapsed since `start`, counting a day
      begun as elapsed, less one. */
  function GetDayCount(now: Instant, start: Instant): (n: int)
    ensures n * Day < Since(now, start) <= (n + 1) * Day
  {
    CeilDiv(Since(now, start), Day) - 1
  }

  /** `IsEnabled`: only on days whose count is a multiple of 10, 25 or 365.
      Go's `%` truncates, but its zero test does not depend on the sign, so
      this is the mathematical divisibility of the count, either side of
      zero. */
  predicate IsEnabled(now: Instant, start: Instant): (b: bool)
    ensures b <==> GetDayCount(now, start) % 10 == 0 || GetDayCount(now, start) % 25 == 0 ||
                   GetDayCount(now, start) % 365 == 0
  {
    var n := GetDayCount(now, start);
    ZeroRemainder(n, 10);
    ZeroRemainder(n, 25);
    ZeroRemainder(n, 365);
    GoMod(n, 10) == 0 || GoMod(n, 25) == 0 || GoMod(n, 365) == 0
  }

  lemma ZeroRemainder(n: int, b: int)
    requires b > 0
    ensures GoMod(n, b) == 0 <==> n % b == 0
  {
    if n < 0 {
      var m := -n;
      assert GoMod(n, b) == -(m % b);
      if m % b == 0 {
        assert n == (-(m / b)) * b + 0;
        DivUnique(n, b, -(m / b), 0);
      }
      if n % b == 0 {
        assert m == (-(n / b)) * b + 0;
        DivUnique(m, b, -(n / b), 0);
      }
    }
  }

  // ---------------------------------------------------------------------
  // Tally marks

  /** A block of up to five marks: `Line` and `Column` place it at
      x = 13 * Column + 1, y = 8 * Line. */
  datatype Block = Block(Line: int, Column: int, X: int, Y: int, Size: int, Strokes: int, Diagonal: bool)

  function SizeSum(bs: seq<Block>): int {
    if |bs| == 0 then 0 else SizeSum(bs[..|bs| - 1]) + bs[|bs| - 1].Size
  }

  lemma SizeSumAppend(bs: seq<Block>, b: Block)
    ensures SizeSum(bs + [b]) == SizeSum(bs) + b.Size
  {
    assert (bs + [b])[..|bs|] == bs;
  }

  /** What a block of `size` marks draws: up to four strokes, and the
      diagonal only for a full block of five. */
  predicate WellDrawn(b: Block) {
    b.X == 13 * b.Column + 1 && b.Y == 8 * b.Line &&
    b.Strokes == Min(b.Size, 4) && (b.Diagonal <==> b.Size == 5)
  }

  /** Every block of `bs` is drawn as its size says. */
  predicate AllWellDrawn(bs: seq<Block>) {
    forall k :: 0 <= k < |bs| ==> WellDrawn(bs[k])
  }

  lemma WellDrawnConcat(xs: seq<Block>, ys: seq<Block>)
    requires AllWellDrawn(xs)
    requires forall k :: 0 <= k < |ys| ==> WellDrawn(ys[k])
    ensures AllWellDrawn(xs + ys)
  {
    forall k | 0 <= k < |xs + ys| ensures WellDrawn((xs + ys)[k]) {
      if k >= |xs| {
        assert (xs + ys)[k] == ys[k - |xs|];
      }
    }
  }

  lemma {:induction false} SizeSumConcat(xs: seq<Block>, ys: seq<Block>)
    ensures SizeSum(xs + ys) == SizeSum(xs) + SizeSum(ys)
    decreases |ys|
  {
    if |ys| == 0 {
      assert xs + ys == xs;
    } else {
      var init := ys[..|ys| - 1];
      assert xs + ys == (xs + init) + [ys[|ys| - 1]];
      SizeSumAppend(xs + init, ys[|ys| - 1]);
      SizeSumConcat(xs, init);
      assert ys == init + [ys[|ys| - 1]];
      SizeSumAppend(init, ys[|ys| - 1]);
    }
  }

  /** The block at column `k` of line `j` holding `size` marks. */
  function MakeBlock(j: int, k: int, size: int): Block {
    Block(j, k, 13 * k + 1, 8 * j, size, Min(size, 4), size == 5)
  }

  /** The first `n` blocks of line `j` holding `lineDiff` marks: column `k`
      holds `Min(5, lineDiff - 5 * k)` marks. */
  function LinePrefix(j: int, lineDiff: int, n: nat): seq<Block> {
    if n == 0 then [] else LinePrefix(j, lineDiff, n - 1) + [MakeBlock(j, n - 1, Min(5, lineDiff - 5 * (n - 1)))]
  }

  /** The blocks of line `j` holding `lineDiff` marks: columns 0 to
      `lineDiff / 5`, full blocks of five and then the remainder, which is
      an empty block when `lineDiff` is a multiple of 5. */
  function LineBlocks(j: int, lineDiff: nat): seq<Block> {
    LinePrefix(j, lineDiff, lineDiff / 5 + 1)
  }

  /** Each block of a line prefix is drawn at its column with its share of
      the marks; on a line of at most 50 marks, up to column 10, every block
      holds 0 to 5 marks. */
  lemma {:induction false} LinePrefixShape(j: int, lineDiff: nat, n: nat)
    requires n <= lineDiff / 5 + 1
    ensures |LinePrefix(j, lineDiff, n)| == n
    ensures forall k :: 0 <= k < n ==>
              var b := LinePrefix(j, lineDiff, n)[k];
              b.Line == j && b.Column == k && b.Size == Min(5, lineDiff - 5 * k) && WellDrawn(b)
    ensures lineDiff <= 50 ==> forall k :: 0 <= k < n ==>
              0 <= LinePrefix(j, lineDiff, n)[k].Size <= 5 && LinePrefix(j, lineDiff, n)[k].Column <= 10
  {
    if n > 0 {
      LinePrefixShape(j, lineDiff, n - 1);
      var pre := LinePrefix(j, lineDiff, n - 1);
      var all := LinePrefix(j, lineDiff, n);
      assert all == pre + [MakeBlock(j, n - 1, Min(5, lineDiff - 5 * (n - 1)))];
      forall k | 0 <= k < n - 1 ensures all[k] == pre[k] {
      }
    }
  }

  /** Line `j`'s blocks: column `k` holds `Min(5, lineDiff - 5 * k)` marks
      and is drawn as such; on a line of at most 50 marks every block holds
      0 to 5 marks and sits in columns 0 to 10. */
  lemma LineBlocksShape(j: int, lineDiff: nat)
    ensures |LineBlocks(j, lineDiff)| == lineDiff / 5 + 1
    ensures forall k :: 0 <= k < |LineBlocks(j, lineDiff)| ==>
              var b := LineBlocks(j, lineDiff)[k];
              b.Line == j && b.Column == k && b.Size == Min(5, lineDiff - 5 * k) && WellDrawn(b)
    ensures lineDiff <= 50 ==> forall k :: 0 <= k < |LineBlocks(j, lineDiff)| ==>
              0 <= LineBlocks(j, lineDiff)[k].Size <= 5 && LineBlocks(j, lineDiff)[k].Column <= 10
    ensures SizeSum(LineBlocks(j, lineDiff)) == lineDiff
  {
    LinePrefixShape(j, lineDiff, lineDiff / 5 + 1);
    LinePrefixSum(j, lineDiff, lineDiff / 5 + 1);
  }

  /** The first `n` lines of a tally of `diff` marks: line `j` holds
      `Min(50, diff - 50 * j)` marks. */
  function Lines(diff: nat, n: nat): seq<Block>
    requires n <= diff / 50 + 1
  {
    if n == 0 then []
    else Lines(diff, n - 1) + LineBlocks(n - 1, Min(50, diff - 50 * (n - 1)))
  }

  /** The first `j` lines of a tally are a prefix of its first `n`, so line
      `j` of the whole tally is `LineBlocks(j, Min(50, diff - 50 * j))`,
      right after the lines before it. */
  lemma {:induction false} LinesPrefix(diff: nat, j: nat, n: nat)
    requires j <= n <= diff / 50 + 1
    ensures Lines(diff, j) <= Lines(diff, n)
    decreases n
  {
    if j < n {
      var m := n - 1;
      LinesPrefix(diff, j, m);
      PrefixConcat(Lines(diff, j), Lines(diff, m), LineBlocks(m, Min(50, diff - 50 * m)));
    }
  }

  lemma PrefixConcat(a: seq<Block>, b: seq<Block>, c: seq<Block>)
    requires a <= b
    ensures a <= b + c
  {
    assert (b + c)[..|a|] == b[..|a|];
  }

  /** Every block of a tally's lines holds 0 to 5 marks, sits in columns 0
      to 10, and is drawn as its size says. */
  lemma {:induction false} LinesBounded(diff: nat, n: nat)
    requires n <= diff / 50 + 1
    ensures forall k :: 0 <= k < |Lines(diff, n)| ==>
              0 <= Lines(diff, n)[k].Size <= 5 && Lines(diff, n)[k].Column <= 10 && WellDrawn(Lines(diff, n)[k])
  {
    if n > 0 {
      LinesBounded(diff, n - 1);
      var pre, line := Lines(diff, n - 1), LineBlocks(n - 1, Min(50, diff - 50 * (n - 1)));
      LineBlocksShape(n - 1, Min(50, diff - 50 * (n - 1)));
      var all: seq<Block> := Lines(diff, n);
      assert all == pre + line;
      forall k | 0 <= k < |all| ensures 0 <= all[k].Size <= 5 && all[k].Column <= 10 && WellDrawn(all[k]) {
        if k < |pre| {
          assert all[k] == pre[k];
        } else {
          assert all[k] == line[k - |pre|];
        }
      }
    }
  }

  /** The loops' share of the marks: `n` for a full unit (a block of 5 or
      a line of 50), else Go's remainder, is the remaining count up to `n`. */
  lemma {:induction false} Share(total: int, i: int, n: int)
    requires n > 0 && 0 <= total && 0 <= i <= total / n
    ensures (if total < (i + 1) * n then GoMod(total, n) else n) == Min(n, total - n * i)
    ensures 0 <= Min(n, total - n * i)
  {
    NonNegativeDivision(total, n);
    var q := total / n;
    assert q * n <= total;
    assert i * n <= q * n by {
      assert (q - i) * n >= 0;
    }
    assert (i + 1) * n == i * n + n;
    if total < (i + 1) * n {
      DivUnique(total, n, i, total - n * i);
    }
  }

  /** The last index of a tally loop over `total` marks in units of `n`:
      Go's `total / n`, which for a non-negative count is Dafny's. */
  method LastIndex(total: int, n: int) returns (last: int)
    requires n > 0
    ensures last == GoDiv(total, n)
    ensures total >= 0 ==> last == total / n
  {
    last := GoDiv(total, n);
    if total >= 0 {
      NonNegativeDivision(total, n);
    }
  }

  /** The inner loop's body: a full block of 5, or what is left of the line
      past its last full block. */
  method NextBlock(lineDiff: int, i: int) returns (block: int)
    ensures 0 <= lineDiff && 0 <= i <= lineDiff / 5 ==> 0 <= block == Min(5, lineDiff - 5 * i)
  {
    block := 5;
    if lineDiff < (i + 1) * 5 {
      block := GoMod(lineDiff, 5);
    }
    if 0 <= lineDiff && 0 <= i <= lineDiff / 5 {
      Share(lineDiff, i, 5);
    }
  }

  /** The outer loop's body: a full line of 50, or what is left of the
      count past its last full line. */
  method NextLine(diff: int, j: int) returns (lineDiff: int)
    ensures 0 <= diff && 0 <= j <= diff / 50 ==> 0 <= lineDiff == Min(50, diff - 50 * j)
  {
    lineDiff := 50;
    if diff < (j + 1) * 50 {
      lineDiff := GoMod(diff, 50);
    }
    if 0 <= diff && 0 <= j <= diff / 50 {
      Share(diff, j, 50);
    }
  }

  /** The inner loop's step: the next block extends the line prefix. */
  lemma LinePrefixStep(j: int, lineDiff: int, i: nat, blocks: seq<Block>, block: int)
    requires blocks == LinePrefix(j, lineDiff, i) && block == Min(5, lineDiff - 5 * i)
    ensures blocks + [MakeBlock(j, i, block)] == LinePrefix(j, lineDiff, i + 1)
  {
  }

  /** A line prefix of `n` blocks holds the first `5 * n` marks of the line. */
  lemma {:induction false} LinePrefixSum(j: int, lineDiff: nat, n: nat)
    requires n <= lineDiff / 5 + 1
    ensures SizeSum(LinePrefix(j, lineDiff, n)) == Min(lineDiff, 5 * n)
  {
    if n > 0 {
      LinePrefixSum(j, lineDiff, n - 1);
      SizeSumAppend(LinePrefix(j, lineDiff, n - 1), MakeBlock(j, n - 1, Min(5, lineDiff - 5 * (n - 1))));
    }
  }

  /** The first `n` lines hold the first `50 * n` marks of the tally. */
  lemma {:induction false} LinesSum(diff: nat, n: nat)
    requires n <= diff / 50 + 1
    ensures SizeSum(Lines(diff, n)) == Min(diff, 50 * n)
  {
    if n > 0 {
      var lineDiff := Min(50, diff - 50 * (n - 1));
      LinesSum(diff, n - 1);
      LineBlocksShape(n - 1, lineDiff);
      SizeSumConcat(Lines(diff, n - 1), LineBlocks(n - 1, lineDiff));
    }
  }

  /** The outer loop's step: line `j` extends the lines before it. */
  lemma LinesStep(diff: nat, j: nat, blocks: seq<Block>, line: seq<Block>)
    requires j <= diff / 50 && blocks == Lines(diff, j) && line == LineBlocks(j, Min(50, diff - 50 * j))
    ensures blocks + line == Lines(diff, j + 1)
  {
  }

  /** A whole tally of `diff` marks, `n` lines, holds exactly `diff` marks,
      in blocks of 0 to 5 marks in columns 0 to 10, each drawn as its size
      says. */
  lemma TallyShape(diff: nat, n: nat)
    requires n == diff / 50 + 1
    ensures SizeSum(Lines(diff, n)) == diff
    ensures forall k :: 0 <= k < |Lines(diff, n)| ==>
              0 <= Lines(diff, n)[k].Size <= 5 && Lines(diff, n)[k].Column <= 10 && WellDrawn(Lines(diff, n)[k])
  {
    LinesBounded(diff, n);
    LinesSum(diff, n);
  }

  /** The inner tally loop: the blocks of line `j`, holding `lineDiff`
      marks. */
  method TallyLine(j: int, lineDiff: int) returns (blocks: seq<Block>)
    ensures forall k :: 0 <= k < |blocks| ==> WellDrawn(blocks[k]) && blocks[k].Line == j
    ensures 0 <= lineDiff ==> SizeSum(blocks) == lineDiff
    ensures 0 <= lineDiff ==>
              |blocks| == lineDiff / 5 + 1 &&
              forall k :: 0 <= k < |blocks| ==> blocks[k].Column == k && blocks[k].Size == Min(5, lineDiff - 5 * k)
    ensures 0 <= lineDiff ==> blocks == LineBlocks(j, lineDiff)
    ensures 0 <= lineDiff <= 50 ==> forall k :: 0 <= k < |blocks| ==> 0 <= blocks[k].Size <= 5 && blocks[k].Column <= 10
  {
    blocks := [];
    var count := LastIndex(lineDiff, 5);
    var i := 0;
    while i <= count
      invariant 0 <= i <= if count < 0 then 0 else count + 1
      invariant forall k :: 0 <= k < |blocks| ==> WellDrawn(blocks[k]) && blocks[k].Line == j
      invariant 0 <= lineDiff ==> blocks == LinePrefix(j, lineDiff, i)
    {
      var block := NextBlock(lineDiff, i);
      if lineDiff >= 0 {
        LinePrefixStep(j, lineDiff, i, blocks, block);
      }
      blocks := blocks + [MakeBlock(j, i, block)];
      i := i + 1;
    }
    if lineDiff >= 0 {
      NonNegativeDivision(lineDiff, 5);
      assert blocks == LineBlocks(j, lineDiff);
      LineBlocksShape(j, lineDiff);
    }
  }

  /** The tally loops of `Draw`: lines of 50 marks, blocks of 5. For a count
      of at least 0 the blocks hold exactly `diff` marks, each block at most
      5 and each line at most 50 (ten full blocks and an eleventh, empty). */
  method Tally(diff: int) returns (blocks: seq<Block>)
    ensures AllWellDrawn(blocks)
    ensures diff >= 0 ==> SizeSum(blocks) == diff
    ensures diff >= 0 ==> blocks == Lines(diff, diff / 50 + 1)
    ensures diff >= 0 ==> forall k :: 0 <= k < |blocks| ==> 0 <= blocks[k].Size <= 5 && blocks[k].Column <= 10
  {
    blocks := [];
    var lines := LastIndex(diff, 50);
    var j := 0;
    while j <= lines
      invariant 0 <= j <= if lines < 0 then 0 else lines + 1
      invariant AllWellDrawn(blocks)
      invariant diff >= 0 ==> blocks == Lines(diff, j)
    {
      var lineDiff := NextLine(diff, j);
      var line := TallyLine(j, lineDiff);
      if diff >= 0 {
        LinesStep(diff, j, blocks, line);
      }
      WellDrawnConcat(blocks, line);
      blocks := blocks + line;
      j := j + 1;
    }
    if diff >= 0 {
      assert j == diff / 50 + 1;
      TallyShape(diff, diff / 50 + 1);
    }
  }

  /** What `Draw` writes: tally marks or the count in a box, then two lines
      of text. `tallies` is `DISPLAY_TALLIES`. */
  datatype Picture = Tallies(Blocks: seq<Block>) | Number(Text: string)

  method Draw(now: Instant, start: Instant, tallies: bool) returns (pic: Picture, lines: seq<string>)
    ensures tallies ==> pic.Tallies?
    ensures tallies && GetDayCount(now, start) >= 0 ==>
              SizeSum(pic.Blocks) == GetDayCount(now, start) &&
              pic.Blocks == Lines(GetDayCount(now, start), GetDayCount(now, start) / 50 + 1)
    ensures !tallies ==> pic == Number(Fmt.Itoa(GetDayCount(now, start)))
    ensures lines == ["DAYS SINCE", "OFFICES CLOSED"]
  {
    var diff := GetDayCount(now, start);
    if tallies {
      var blocks := Tally(diff);
      pic := Tallies(blocks);
    } else {
      pic := Number(Fmt.Itoa(diff));
    }
    lines := ["DAYS SINCE", "OFFICES CLOSED"];
  }
}
