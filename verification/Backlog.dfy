// The queue-size warning of the sender loop: a threshold that doubles with every warning and
// halves, down to 1024, with every turn without one.
module Backlog {
  const LEAST := 1024
  const SIZE_RANGE := 0x1_0000_0000_0000_0000

  function Next(threshold: nat, size: nat): nat {
    if size >= threshold then threshold * 2 % SIZE_RANGE
    else if threshold / 2 < LEAST then LEAST else threshold / 2
  }

  function Threshold(sizes: seq<nat>): nat {
    if sizes == [] then LEAST else Next(Threshold(sizes[..|sizes| - 1]), sizes[|sizes| - 1])
  }

  function Warnings(sizes: seq<nat>): nat {
    if sizes == [] then 0 else
      var earlier := sizes[..|sizes| - 1];
      Warnings(earlier) + if sizes[|sizes| - 1] >= Threshold(earlier) then 1 else 0
  }

  function Power(k: nat): nat {
    if k == 0 then 1 else 2 * Power(k - 1)
  }

  lemma {:induction false} PowerGrows(k: nat, l: nat)
    requires k <= l
    ensures 1 <= Power(k) <= Power(l)
  {
    if k < l {
      PowerGrows(k, l - 1);
    } else if k > 0 {
      PowerGrows(k - 1, k - 1);
    }
  }

  // With a backlog of at most `bound` in every turn, 1024 * 2^(K-1) <= bound < 1024 * 2^K: the
  // threshold is 1024 * 2^level with a level of at most K, and so at most twice the bound; and
  // warnings make up at most half of the turns, apart from K.
  lemma {:induction false} WarningsAreFew(sizes: seq<nat>, bound: nat, K: nat) returns (level: nat)
    requires forall n | n in sizes :: n <= bound
    requires K > 0 && LEAST * Power(K - 1) <= bound < LEAST * Power(K) && 2 * bound < SIZE_RANGE
    ensures level <= K && Threshold(sizes) == LEAST * Power(level) && Threshold(sizes) <= 2 * bound
    ensures 2 * Warnings(sizes) <= |sizes| + level <= |sizes| + K
  {
    PowerGrows(0, K - 1);
    if sizes == [] {
      level := 0;
    } else {
      var earlier, size := sizes[..|sizes| - 1], sizes[|sizes| - 1];
      assert forall n | n in earlier :: n in sizes;
      var before := WarningsAreFew(earlier, bound, K);
      assert size in sizes;
      if size >= Threshold(earlier) {
        if before >= K {
          PowerGrows(K, before);
        }
        level := before + 1;
      } else {
        level := if before == 0 then 0 else before - 1;
      }
      PowerGrows(level, K);
    }
  }

  // One turn: a warning comes exactly if the size has reached 1024 * 2^level, and takes the level
  // up by one; a turn without one takes it down by one, if it can.
  lemma WarnsExactly(sizes: seq<nat>, level: nat, size: nat)
    requires Threshold(sizes) == 1024 * Power(level) && 2 * Threshold(sizes) < 0x1_0000_0000_0000_0000
    ensures var next := sizes + [size];
      if size >= 1024 * Power(level) then
        Warnings(next) == Warnings(sizes) + 1 && Threshold(next) == 1024 * Power(level + 1)
      else
        Warnings(next) == Warnings(sizes) && Threshold(next) == 1024 * Power(if level == 0 then 0 else level - 1)
  {
    assert (sizes + [size])[..|sizes|] == sizes;
    PowerGrows(0, level);
    if level > 1 {
      PowerGrows(0, level - 2);
    }
  }

  // As many turns with less than 1024 messages as the level is high take it back to 1024.
  lemma {:induction false} QuietTurnsLower(sizes: seq<nat>, level: nat, quiet: seq<nat>)
    requires Threshold(sizes) == 1024 * Power(level) && 2 * Threshold(sizes) < 0x1_0000_0000_0000_0000
    requires forall n | n in quiet :: n < 1024
    ensures Warnings(sizes + quiet) == Warnings(sizes)
    ensures Threshold(sizes + quiet) == 1024 * Power(if |quiet| < level then level - |quiet| else 0)
    decreases |quiet|
  {
    if quiet == [] {
      assert sizes + quiet == sizes;
    } else {
      PowerGrows(0, level);
      var down := if level == 0 then 0 else level - 1;
      PowerGrows(down, level);
      assert quiet[0] in quiet && quiet[0] < 1024 * Power(level);
      assert forall n | n in quiet[1..] :: n in quiet;
      WarnsExactly(sizes, level, quiet[0]);
      QuietTurnsLower(sizes + [quiet[0]], down, quiet[1..]);
      assert sizes + quiet == sizes + [quiet[0]] + quiet[1..];
    }
  }

  // So a warning must come: whatever was before, with a bounded backlog, after K turns with less than
  // 1024 messages a turn with 1024 or more warns.
  lemma WarningMustCome(sizes: seq<nat>, bound: nat, K: nat, quiet: seq<nat>, size: nat)
    requires forall n | n in sizes :: n <= bound
    requires K > 0 && LEAST * Power(K - 1) <= bound < LEAST * Power(K) && 4 * bound < 0x1_0000_0000_0000_0000
    requires |quiet| >= K && (forall n | n in quiet :: n < 1024) && size >= 1024
    ensures Warnings(sizes + quiet + [size]) == Warnings(sizes) + 1
  {
    var level := WarningsAreFew(sizes, bound, K);
    QuietTurnsLower(sizes, level, quiet);
    WarnsExactly(sizes + quiet, 0, size);
  }
}
