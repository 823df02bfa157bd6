/** How the managers split a number over threads: everyone gets the floor of the
    average, and the first few one more. */
module EvenSplits {
  import opened Basics

  function Part(total: nat, parts: nat, i: nat): nat
    requires parts > 0
  {
    total / parts + if i < total % parts then 1 else 0
  }

  /** What the parts before number i add up to. */
  function Offset(total: nat, parts: nat, i: nat): nat
    requires parts > 0
  {
    if i == 0 then 0 else Offset(total, parts, i - 1) + Part(total, parts, i - 1)
  }

  lemma {:induction false} OffsetValue(total: nat, parts: nat, i: nat)
    requires parts > 0
    ensures Offset(total, parts, i) == i * (total / parts) + if i < total % parts then i else total % parts
  {
    if i > 0 {
      OffsetValue(total, parts, i - 1);
    }
  }

  /** The parts add up to the total. */
  lemma OffsetTotal(total: nat, parts: nat)
    requires parts > 0
    ensures Offset(total, parts, parts) == total
  {
    OffsetValue(total, parts, parts);
  }

  lemma {:induction false} OffsetMonotone(total: nat, parts: nat, i: nat, j: nat)
    requires parts > 0 && i <= j
    ensures Offset(total, parts, i) <= Offset(total, parts, j)
  {
    if i < j {
      OffsetMonotone(total, parts, i, j - 1);
    }
  }

  /** The ranges [Offset(i), Offset(i) + Part(i)) tile [0, total): every slot lies
      in the range of exactly one part. */
  lemma {:induction false} RangesTile(total: nat, parts: nat, n: nat, slot: nat) returns (owner: nat)
    requires 0 < parts && n <= parts && slot < Offset(total, parts, n)
    ensures owner < n && Offset(total, parts, owner) <= slot < Offset(total, parts, owner) + Part(total, parts, owner)
    ensures forall i: nat :: Offset(total, parts, i) <= slot < Offset(total, parts, i) + Part(total, parts, i) ==> i == owner
  {
    if slot < Offset(total, parts, n - 1) {
      owner := RangesTile(total, parts, n - 1, slot);
    } else {
      owner := n - 1;
      forall i: nat | Offset(total, parts, i) <= slot < Offset(total, parts, i) + Part(total, parts, i)
        ensures i == owner
      {
        if i < owner {
          OffsetMonotone(total, parts, i + 1, owner);
        } else if owner < i {
          OffsetMonotone(total, parts, owner + 1, i);
        }
      }
    }
  }

  /** Part i is also the number of multiples dealt to thread i in turn: the
      entries i, i + parts, i + 2 * parts, ... below the total. */
  lemma PartCountsTurns(total: nat, parts: nat, i: nat, j: nat)
    requires i < parts
    ensures j < Part(total, parts, i) <==> i + j * parts < total
  {
    var q, r := total / parts, total % parts;
    assert total == q * parts + r;
    if j < q {
      assert (j + 1) * parts <= q * parts;
    } else if j > q {
      assert (q + 1) * parts <= j * parts;
    }
  }

  /** One more entry goes to the thread whose turn it is. */
  lemma PartNext(total: nat, parts: nat, i: nat)
    requires i < parts
    ensures Part(total + 1, parts, i) == Part(total, parts, i) + if total % parts == i then 1 else 0
  {
    var q, r := total / parts, total % parts;
    if r + 1 == parts {
      DivModUnique(total + 1, parts, q + 1, 0);
    } else {
      DivModUnique(total + 1, parts, q, r + 1);
    }
  }

  lemma PartTurn(total: nat, parts: nat)
    requires parts > 0
    ensures total == total % parts + Part(total, parts, total % parts) * parts
  {
  }
}
