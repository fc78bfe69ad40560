// Context handles: the node in the top byte, the context's number on its node below.
module Handles {
  import opened Words

  const NUMBERS := 0x100_0000

  function NodeOf(handle: U32): Byte {
    handle / NUMBERS
  }

  function NumberOf(handle: U32): U32 {
    handle % NUMBERS
  }

  function WithNode(handle: U32, node: Byte): U32 {
    node as int * NUMBERS + handle % NUMBERS
  }

  function WithNumber(handle: U32, number: U32): U32 {
    handle / NUMBERS * NUMBERS + number % NUMBERS
  }

  // Putting a handle together and taking it apart: the node always comes back, the number
  // exactly when it fits 24 bits; and no other handle has these parts.
  lemma HandleRoundTrip(node: Byte, number: U32)
    ensures var h := WithNode(WithNumber(0, number), node);
      && NodeOf(h) == node && (NumberOf(h) == number <==> number < NUMBERS)
      && h == WithNumber(WithNode(0, node), number)
  {
  }

  lemma HandleIsItsParts(h: U32)
    ensures h == WithNode(WithNumber(0, NumberOf(h)), NodeOf(h))
  {
  }

  // The node is the top byte.
  lemma HandleLayout(h: U32)
    ensures h == 0x100_0000 * NodeOf(h) as int + NumberOf(h) && NumberOf(h) < 0x100_0000
  {
  }

  // The handle of the k-th context created on a node (k from 0): the counter wraps in 32 bits
  // and only its low 24 bits enter the handle.
  function Created(node: Byte, k: nat): U32 {
    WithNode(WithNumber(0, Low32(1 + Low32(k))), node)
  }

  // Two creations share a handle exactly when they are on one node and a multiple of 2^24 apart.
  lemma CreatedHandlesCollide(n: Byte, k: nat, m: Byte, l: nat)
    ensures Created(n, k) == Created(m, l) <==> n == m && k % NUMBERS == l % NUMBERS
  {
    CreatedNumber(n, k);
    CreatedNumber(m, l);
    HandleIsItsParts(Created(n, k));
    HandleIsItsParts(Created(m, l));
    SuccessorMod(k);
    SuccessorMod(l);
  }

  lemma SuccessorMod(k: nat)
    ensures (1 + k) % NUMBERS == if k % NUMBERS == NUMBERS - 1 then 0 else k % NUMBERS + 1
  {
  }

  lemma CreatedNumber(n: Byte, k: nat)
    ensures NodeOf(Created(n, k)) == n && NumberOf(Created(n, k)) == (1 + k) % NUMBERS
  {
    assert WORD == 256 * NUMBERS;
    ModOfMod(k);
    ModOfMod(1 + k % WORD);
  }

  lemma ModOfMod(x: nat)
    ensures x % WORD % NUMBERS == x % NUMBERS && (1 + x % WORD) % NUMBERS == (1 + x) % NUMBERS
  {
    var q := x / WORD;
    assert x == q * WORD + x % WORD;
    assert q * WORD == q * 256 * NUMBERS;
    AddMultiple(x % WORD, q * 256);
    AddMultiple(1 + x % WORD, q * 256);
  }

  lemma {:induction false} AddMultiple(x: nat, q: nat)
    ensures (x + q * NUMBERS) % NUMBERS == x % NUMBERS
  {
    if q > 0 {
      AddMultiple(x, q - 1);
      assert x + q * NUMBERS == (x + (q - 1) * NUMBERS) + NUMBERS;
    }
  }

  // So the first 2^24 creations on each node all have handles of their own.
  lemma CreatedHandlesAreDistinct(n: Byte, k: nat, m: Byte, l: nat)
    requires k < NUMBERS && l < NUMBERS && (n, k) != (m, l)
    ensures Created(n, k) != Created(m, l)
  {
    hide Created;
    CreatedHandlesCollide(n, k, m, l);
    assert k % NUMBERS == k && l % NUMBERS == l;
  }
}
