/** Mutually exclusive highlighting among sibling elements: a click removes the
    `active` class from every sibling and adds it to the clicked one. Used by
    the navigation links and by the category filter buttons. */
module Selection {

  /** After a click on element `k`, exactly element `k` is active. */
  method ActivateOnly(active: array<bool>, k: nat)
    requires k < active.Length
    modifies active
    ensures forall j :: 0 <= j < active.Length ==> (active[j] <==> j == k)
  {
    for j := 0 to active.Length
      invariant forall i :: 0 <= i < j ==> !active[i]
    {
      active[j] := false;
    }
    active[k] := true;
  }

  /** The number of active elements. */
  function CountActive(active: seq<bool>): (n: nat)
    ensures n <= |active|
    ensures n == 0 <==> forall i :: 0 <= i < |active| ==> !active[i]
  {
    if active == [] then 0 else (if active[0] then 1 else 0) + CountActive(active[1..])
  }

  /** The state `ActivateOnly` leaves has exactly one active element. */
  lemma {:induction false} ExactlyOneActive(active: seq<bool>, k: nat)
    requires k < |active|
    requires forall j :: 0 <= j < |active| ==> (active[j] <==> j == k)
    ensures CountActive(active) == 1
  {
    if k == 0 {
      assert forall j :: 0 <= j < |active[1..]| ==> !active[1..][j];
    } else {
      ExactlyOneActive(active[1..], k - 1);
    }
  }
}
