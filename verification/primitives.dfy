/**
  The two gate writers shared by every code: a CNOT and the sixteen-gate
  Toffoli macro used for majority-vote correction.  Both receive their qubit
  indices as `unsigned short`, so every index they emit is passed through
  `Wire`.
 */
module Primitives {
  import opened Circuit

  /** writeCnot: one X gate on `target` with a single positive control. */
  function Cnot(control: nat, target: nat): seq<Op>
  {
    [CX(Wire(control), Wire(target))]
  }

  /** writeToffoli: a doubly-controlled X on `target` (controls `c1`, `c2`)
      spelled out with H, T, Tdag, S and CNOT gates.  Its CNOTs are written
      through `Cnot` with indices that already fit, so they appear here as
      plain `CX`. */
  function Toffoli(c1: nat, c2: nat, target: nat): seq<Op>
  {
    var a, b, t := Wire(c1), Wire(c2), Wire(target);
    [ G1(H, t), CX(b, t), G1(Tdag, t), CX(a, t), G1(T, t),
      CX(b, t), G1(Tdag, t), CX(a, t), G1(T, t), G1(H, t),
      G1(Tdag, b), CX(a, b), G1(Tdag, b), CX(a, b),
      G1(S, b), G1(T, a) ]
  }

  /** Positions of the CNOTs inside the Toffoli macro. */
  predicate ToffoliCnotSlot(k: int)
  {
    k == 1 || k == 3 || k == 5 || k == 7 || k == 11 || k == 13
  }

  /** Number of CNOT slots before position `k`. */
  function SlotsBelow(k: int): nat
  {
    if k <= 1 then 0 else if k <= 3 then 1 else if k <= 5 then 2 else if k <= 7 then 3
    else if k <= 11 then 4 else if k <= 13 then 5 else 6
  }

  /** The Toffoli macro is sixteen gates: CNOTs exactly at the six CNOT
      slots, every other gate an H, T, Tdag or S; it touches only its three
      arguments, and it opens and closes the target's part with H. */
  lemma ToffoliShape(c1: nat, c2: nat, target: nat)
    ensures var m := Toffoli(c1, c2, target);
      && |m| == 16
      && (forall k :: 0 <= k < 16 ==> (m[k].CX? <==> ToffoliCnotSlot(k)))
      && (forall k :: 0 <= k < 16 && m[k].G1? ==> m[k].kind in {H, T, Tdag, S})
      && Within(m, {Wire(c1), Wire(c2), Wire(target)})
      && m[0] == G1(H, Wire(target)) && m[9] == G1(H, Wire(target))
      && (forall k :: 0 <= k < 9 && m[k].CX? ==> m[k].t == Wire(target))
      && (forall k :: 0 <= k < 16 && m[k].G1? && m[k].q == Wire(target) && Wire(target) != Wire(c1) && Wire(target) != Wire(c2) ==> k < 10)
  {
  }

  /** The Toffoli macro touches only its three arguments. */
  lemma ToffoliWithin(c1: nat, c2: nat, target: nat)
    ensures Within(Toffoli(c1, c2, target), {Wire(c1), Wire(c2), Wire(target)})
  {
  }

  /** The Toffoli macro holds six CNOTs (and so ten single-qubit gates). */
  lemma ToffoliCountCX(c1: nat, c2: nat, target: nat)
    ensures CountCX(Toffoli(c1, c2, target)) == 6
    ensures |Toffoli(c1, c2, target)| - CountCX(Toffoli(c1, c2, target)) == 10
  {
    var m := Toffoli(c1, c2, target);
    ToffoliShape(c1, c2, target);
    var k := 0;
    while k < 16
      invariant 0 <= k <= 16
      invariant CountCX(m[..k]) == SlotsBelow(k)
    {
      assert m[..k + 1][..k] == m[..k];
      k := k + 1;
    }
    assert m[..16] == m;
  }
}
