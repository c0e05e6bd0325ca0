/**
 * The plant carousel: a cursor over the fetched plants that "next" and
 * "previous" move around the list, wrapping at either end.
 */
module PlantSlider {

  import PlantPage
  import opened Arith

  /** The index after `handleNext`. */
  function NextIndex(i: nat, n: nat): (r: nat)
    requires n > 0
    ensures r < n
  {
    (i + 1) % n
  }

  /** The index after `handlePrev`. */
  function PrevIndex(i: nat, n: nat): (r: nat)
    requires n > 0
    ensures r < n
  {
    (i - 1 + n) % n
  }

  /** From the first plant, "previous" goes to the last one; from the last, "next" goes to the first. */
  lemma WrapAround(n: nat)
    requires n > 0
    ensures PrevIndex(0, n) == n - 1
    ensures NextIndex(n - 1, n) == 0
  {
    ModUnique(n - 1, n, 0, n - 1);
    ModUnique(n, n, 1, 0);
  }

  /** "Next" then "previous", or "previous" then "next", come back to the same plant. */
  lemma NextPrevInverse(i: nat, n: nat)
    requires i < n
    ensures PrevIndex(NextIndex(i, n), n) == i
    ensures NextIndex(PrevIndex(i, n), n) == i
  {
    if i + 1 < n {
      ModUnique(i + 1, n, 0, i + 1);
      ModUnique(i + n, n, 1, i);
    } else {
      ModUnique(i + 1, n, 1, 0);
      ModUnique(n - 1, n, 0, i);
    }
    if i > 0 {
      ModUnique(i - 1 + n, n, 1, i - 1);
      ModUnique(i, n, 0, i);
    } else {
      ModUnique(n - 1, n, 0, n - 1);
      ModUnique(n, n, 1, 0);
    }
  }

  /** The index after `k` presses of "next". */
  function Advance(i: nat, n: nat, k: nat): (r: nat)
    requires i < n
    ensures r < n
  {
    if k == 0 then i else NextIndex(Advance(i, n, k - 1), n)
  }

  /** After `k` presses of "next" the cursor has gone round `q` whole times and sits `k` places on. */
  lemma {:induction false} AdvanceLaps(i: nat, n: nat, k: nat) returns (q: nat)
    requires i < n
    ensures i + k == q * n + Advance(i, n, k)
  {
    if k == 0 {
      q := 0;
    } else {
      var q0 := AdvanceLaps(i, n, k - 1);
      var j := Advance(i, n, k - 1);
      assert Advance(i, n, k) == (j + 1) % n;
      if j + 1 < n {
        ModUnique(j + 1, n, 0, j + 1);
        q := q0;
      } else {
        ModUnique(j + 1, n, 1, 0);
        MulSucc(q0, n);
        q := q0 + 1;
      }
    }
  }

  /** `k` presses of "next" move the cursor `k` places forward, modulo the list length. */
  lemma AdvanceIsOffset(i: nat, n: nat, k: nat)
    requires i < n
    ensures Advance(i, n, k) == (i + k) % n
  {
    var q := AdvanceLaps(i, n, k);
    ModUnique(i + k, n, q, Advance(i, n, k));
  }

  /** Pressing "next" once per plant comes back to where it started. */
  lemma FullCircle(i: nat, n: nat)
    requires i < n
    ensures Advance(i, n, n) == i
  {
    AdvanceIsOffset(i, n, n);
    ModUnique(i + n, n, 1, i);
  }

  class Slider {
    var plantsData: seq<PlantPage.Plant>
    var currentIndex: nat

    /** While the list is empty nothing is indexed; otherwise the cursor is on a plant. */
    ghost predicate Valid()
      reads this
    {
      if plantsData == [] then currentIndex == 0 else currentIndex < |plantsData|
    }

    constructor ()
      ensures Valid() && plantsData == [] && currentIndex == 0
    {
      plantsData := [];
      currentIndex := 0;
    }

    /** The fetch on mount: the response becomes the list, the cursor stays at 0. */
    method Fetched(plants: seq<PlantPage.Plant>)
      requires Valid() && plantsData == []
      modifies this`plantsData
      ensures Valid() && plantsData == plants && currentIndex == 0
    {
      plantsData := plants;
    }

    /** The plant on screen; while the list is empty a loading message is shown instead. */
    function CurrentPlant(): (p: PlantPage.Plant)
      reads this
      requires Valid() && plantsData != []
      ensures p in plantsData
    {
      plantsData[currentIndex]
    }

    method HandleNext()
      requires Valid() && plantsData != []
      modifies this`currentIndex
      ensures Valid()
      ensures currentIndex == NextIndex(old(currentIndex), |plantsData|)
    {
      currentIndex := (currentIndex + 1) % |plantsData|;
    }

    method HandlePrev()
      requires Valid() && plantsData != []
      modifies this`currentIndex
      ensures Valid()
      ensures currentIndex == PrevIndex(old(currentIndex), |plantsData|)
    {
      currentIndex := (currentIndex - 1 + |plantsData|) % |plantsData|;
    }
  }
}
