/**
  The error-correcting-code mapper: a logical circuit over `n` qubits is
  lowered to the selected code's encoding, the transversal translation of
  its gates in input order, and the code's decoding.
 */
module EccMapper {
  import opened Circuit
  import Q3Shor
  import Q9Shor

  /** The code tag a mapper is built with. */
  datatype Code = Q3 | Q9

  /** Physical copies per logical qubit of each code's layout. */
  function Redundancy(code: Code): nat
  {
    match code
    case Q3 => Q3Shor.Redundancy
    case Q9 => Q9Shor.Redundancy
  }

  /** The code's writeEncoding. */
  function Encoding(code: Code, n: nat): seq<Op>
  {
    match code
    case Q3 => Q3Shor.Encode(n)
    case Q9 => Q9Shor.Encode(n)
  }

  /** The code's writeDecoding. */
  function Decoding(code: Code, n: nat): seq<Op>
  {
    match code
    case Q3 => Q3Shor.Decode(n)
    case Q9 => Q9Shor.Decode(n)
  }

  // ---------------------------------------------------------------------
  // Gate translation

  /** What the mapper's gate-kind dispatch does with a gate. */
  datatype Treatment = Transversal | Skip | Reject

  /** The gate-kind dispatch of the mapping loop. */
  function Classify(k: Kind): Treatment
  {
    match k
    case I => Skip
    case X | H | Y | Z | S | Sdag | T | Tdag | V | Vdag => Transversal
    case U3 | U2 | Phase | SX | SXdag | RX | RY | RZ
       | SWAP | ISWAP | Peres | Peresdag | Compound | ClassicControlled => Skip
    case _ => Reject
  }

  /** The message of the exception the mapper raises for a gate it cannot
      encode; it is the same whichever gate is at fault. */
  const UnencodableMessage: string := "Gate not possible to encode in error code!"

  /** The exception the mapper raises. */
  datatype EccError = QMAPException(message: string)

  datatype Result<T> = Success(value: T) | Failure(error: EccError)

  /** A gate the translation copies has a first target to copy. */
  predicate Targeted(g: Gate)
  {
    Classify(g.kind) == Transversal ==> |g.targets| > 0
  }

  predicate AllTargeted(gates: seq<Gate>)
  {
    forall k :: 0 <= k < |gates| ==> Targeted(gates[k])
  }

  /** The translation of one logical gate: a copyable gate becomes the
      same uncontrolled gate on copies 0, 1 and 2 of its first target, in
      that order; a skipped gate becomes nothing; any other gate raises
      the mapper's exception. */
  function TranslateGate(g: Gate, n: nat): (r: Result<seq<Op>>)
    requires Targeted(g)
    ensures r.Failure? <==> Classify(g.kind) == Reject
    ensures r.Failure? ==> r.error == QMAPException(UnencodableMessage)
    ensures Classify(g.kind) == Skip ==> r == Success([])
    ensures Classify(g.kind) == Transversal ==>
      r.Success? && |r.value| == 3
      && forall j :: 0 <= j < 3 ==> r.value[j] == G1(g.kind, Copy(n, g.targets[0], j))
  {
    match Classify(g.kind)
    case Transversal =>
      var i := g.targets[0];
      Success([G1(g.kind, i), G1(g.kind, i + n), G1(g.kind, i + 2 * n)])
    case Skip => Success([])
    case Reject => Failure(QMAPException(UnencodableMessage))
  }

  /** Index of the first gate the translation rejects (`|gates|` when
      there is none). */
  function FirstReject(gates: seq<Gate>): (k: nat)
    ensures k <= |gates|
    ensures forall j :: 0 <= j < k ==> Classify(gates[j].kind) != Reject
    ensures k < |gates| ==> Classify(gates[k].kind) == Reject
  {
    if |gates| == 0 then 0
    else if Classify(gates[0].kind) == Reject then 0
    else 1 + FirstReject(gates[1..])
  }

  /** Number of gates the translation copies. */
  function CountTransversal(gates: seq<Gate>): nat
  {
    if |gates| == 0 then 0
    else (if Classify(gates[0].kind) == Transversal then 1 else 0) + CountTransversal(gates[1..])
  }

  /** The mapping loop over the logical gates: it stops at the first gate
      it cannot encode and otherwise emits the translations in input order,
      three gates per copied gate. */
  function Translate(gates: seq<Gate>, n: nat): (r: Result<seq<Op>>)
    requires AllTargeted(gates)
    ensures r.Success? <==> forall k :: 0 <= k < |gates| ==> Classify(gates[k].kind) != Reject
    ensures r.Failure? <==> FirstReject(gates) < |gates|
    ensures r.Failure? ==> r.error == QMAPException(UnencodableMessage)
    ensures r.Success? ==> |r.value| == 3 * CountTransversal(gates)
  {
    if |gates| == 0 then Success([])
    else
      match TranslateGate(gates[0], n)
      case Failure(e) => Failure(e)
      case Success(head) =>
        match Translate(gates[1..], n)
        case Failure(e) => Failure(e)
        case Success(tail) => Success(head + tail)
  }

  /** Sequencing of two translation results: the first error wins,
      otherwise the outputs are concatenated. */
  function AndThen(first: Result<seq<Op>>, second: Result<seq<Op>>): Result<seq<Op>>
  {
    match first
    case Failure(e) => Failure(e)
    case Success(x) =>
      match second
      case Failure(e) => Failure(e)
      case Success(y) => Success(x + y)
  }

  /** Translation is compositional over the input order: translating
      `a + b` is translating `a`, then `b`, stopping at the first error. */
  lemma {:induction false} TranslateAppend(a: seq<Gate>, b: seq<Gate>, n: nat)
    requires AllTargeted(a) && AllTargeted(b)
    ensures AllTargeted(a + b)
    ensures Translate(a + b, n) == AndThen(Translate(a, n), Translate(b, n))
  {
    assert AllTargeted(a + b) by {
      forall k | 0 <= k < |a + b|
        ensures Targeted((a + b)[k])
      {
        if k >= |a| {
          assert (a + b)[k] == b[k - |a|];
        }
      }
    }
    if |a| > 0 {
      assert (a + b)[1..] == a[1..] + b;
      assert AllTargeted(a[1..]) by {
        forall k | 0 <= k < |a[1..]|
          ensures Targeted(a[1..][k])
        {
          assert a[1..][k] == a[k + 1];
        }
      }
      TranslateAppend(a[1..], b, n);
      assert (a + b)[0] == a[0];
      match Translate(a[1..], n)
      case Failure(_) =>
      case Success(x) =>
        match Translate(b, n)
        case Failure(_) =>
        case Success(y) =>
          var g := TranslateGate(a[0], n);
          if g.Success? {
            assert g.value + (x + y) == (g.value + x) + y;
          }
    } else {
      assert a + b == b;
      match Translate(b, n)
      case Failure(_) =>
      case Success(y) => assert [] + y == y;
    }
  }

  /** A single gate is translated exactly as the dispatch prescribes. */
  lemma TranslateOne(g: Gate, n: nat)
    requires Targeted(g)
    ensures AllTargeted([g])
    ensures Translate([g], n) == TranslateGate(g, n)
  {
    assert [g][1..] == [];
    match TranslateGate(g, n)
    case Failure(_) =>
    case Success(x) => assert x + [] == x;
  }

  /** One more iteration of the mapping loop: the gate's translation is
      appended to what the earlier gates produced, unless an earlier gate
      or this one raised the exception. */
  lemma TranslateStep(gates: seq<Gate>, g: Gate, n: nat)
    requires AllTargeted(gates) && Targeted(g)
    ensures AllTargeted(gates + [g])
    ensures Translate(gates + [g], n) == AndThen(Translate(gates, n), TranslateGate(g, n))
  {
    TranslateOne(g, n);
    TranslateAppend(gates, [g], n);
  }

  /** Controls, targets beyond the first and the rest of the gate play no
      part in its translation: only its kind and first target count. */
  lemma TranslateIgnoresControls(g: Gate, g': Gate, n: nat)
    requires Targeted(g) && g'.kind == g.kind
    requires Classify(g.kind) == Transversal ==> |g'.targets| > 0 && g'.targets[0] == g.targets[0]
    ensures Targeted(g')
    ensures TranslateGate(g', n) == TranslateGate(g, n)
  {
  }

  /** Every copied gate's first target is a logical qubit. */
  predicate TargetsBelow(gates: seq<Gate>, n: nat)
  {
    forall k :: 0 <= k < |gates| && Classify(gates[k].kind) == Transversal && |gates[k].targets| > 0 ==>
      gates[k].targets[0] < n
  }

  /** With logical targets the translation is uncontrolled single-qubit
      gates inside the `3n` register. */
  lemma {:induction false} TranslateInRegister(gates: seq<Gate>, n: nat)
    requires AllTargeted(gates) && TargetsBelow(gates, n) && Translate(gates, n).Success?
    ensures Bounded(Translate(gates, n).value, 3 * n)
    ensures forall k :: 0 <= k < |Translate(gates, n).value| ==> Translate(gates, n).value[k].G1?
  {
    if |gates| > 0 {
      assert AllTargeted(gates[1..]) && TargetsBelow(gates[1..], n) by {
        forall k | 0 <= k < |gates[1..]|
          ensures gates[1..][k] == gates[k + 1]
        {
        }
      }
      TranslateInRegister(gates[1..], n);
      var head := TranslateGate(gates[0], n).value;
      var tail := Translate(gates[1..], n).value;
      assert Translate(gates, n).value == head + tail;
      if Classify(gates[0].kind) == Transversal {
        forall j | 0 <= j < 3
          ensures OpBelow(head[j], 3 * n)
        {
          CopyBelow(n, 3, gates[0].targets[0], j);
        }
      }
    }
  }

  // ---------------------------------------------------------------------
  // Mapping

  datatype LogicalCircuit = LogicalCircuit(name: string, nqubits: nat, gates: seq<Gate>)

  /** The parts of the mapping results the mapper fills from the circuit. */
  datatype MappingResults = MappingResults(inputName: string, inputQubits: nat, outputName: string, outputQubits: nat)

  datatype Mapped = Mapped(results: MappingResults, ops: seq<Op>)

  /** Appended to the input name to form the output name. */
  const MappedSuffix: string := "_mapped"

  /** initResults with the output register sized for the code: every copy
      of every logical qubit has a place in it, and the output is named
      after the input. */
  function InitResults(code: Code, c: LogicalCircuit): (r: MappingResults)
    ensures r.inputName == c.name && r.inputQubits == c.nqubits
    ensures |r.outputName| == |c.name| + 7
    ensures r.outputName[..|c.name|] == c.name && r.outputName[|c.name|..] == MappedSuffix
    ensures forall i, j :: 0 <= i < c.nqubits && 0 <= j < Redundancy(code) ==> Copy(c.nqubits, i, j) < r.outputQubits
  {
    var r := MappingResults(c.name, c.nqubits, c.name + MappedSuffix, Redundancy(code) * c.nqubits);
    forall i, j | 0 <= i < c.nqubits && 0 <= j < Redundancy(code)
      ensures Copy(c.nqubits, i, j) < r.outputQubits
    {
      CopyBelow(c.nqubits, Redundancy(code), i, j);
    }
    r
  }

  /** initResults as written: the output register is three times the
      input register whatever the code. */
  function InitResultsAsWritten(c: LogicalCircuit): (r: MappingResults)
    ensures r.outputName == c.name + MappedSuffix
    ensures r.outputQubits == 3 * c.nqubits
  {
    MappingResults(c.name, c.nqubits, c.name + MappedSuffix, c.nqubits * 3)
  }

  /** For the repetition code the register as written is the right one:
      the Q3 mapper's redundancy is three. */
  lemma AsWrittenFitsQ3(c: LogicalCircuit)
    ensures InitResultsAsWritten(c) == InitResults(Q3, c)
  {
  }

  /** For Shor's code the register as written is too small: the very first
      encoding gate targets physical qubit `3n`. */
  lemma AsWrittenTooSmallForQ9(c: LogicalCircuit)
    requires 0 < c.nqubits && 9 * c.nqubits <= ShortRange
    ensures !Bounded(Encoding(Q9, c.nqubits), InitResultsAsWritten(c).outputQubits)
    ensures Bounded(Encoding(Q9, c.nqubits), InitResults(Q9, c).outputQubits)
  {
    var n := c.nqubits;
    Q9Shor.InRegister(n);
    Q9FirstGate(n);
    assert Q9Shor.Encode(n)[0] in Q9Shor.Encode(n);
  }

  lemma Q9FirstGate(n: nat)
    requires 0 < n && 9 * n <= ShortRange
    ensures |Q9Shor.Encode(n)| > 0 && Q9Shor.Encode(n)[0] == CX(0, 3 * n)
  {
    var b := Q9Shor.EncodeBlock(n, 0);
    assert b[0] == CX(0, 3 * n) by {
      Q9Shor.EncodeSlices(n, 0);
      assert b[0] == b[0..2][0];
    }
    var e := Q9Shor.Encode(n);
    assert e[0..11] == b by {
      Q9Shor.Layout(n);
      assert Chunk(e, 11, 0) == b;
    }
    assert e[0] == e[0..11][0];
  }

  /** map: the encoding, the translated gates and the decoding, or the
      exception raised at the first gate that cannot be encoded. */
  function Map(code: Code, c: LogicalCircuit): (r: Result<Mapped>)
    requires AllTargeted(c.gates)
    ensures r.Success? <==> forall k :: 0 <= k < |c.gates| ==> Classify(c.gates[k].kind) != Reject
    ensures r.Failure? <==> FirstReject(c.gates) < |c.gates|
    ensures r.Failure? ==> r.error == QMAPException(UnencodableMessage)
    ensures r.Success? ==> r.value.results == InitResults(code, c)
  {
    match Translate(c.gates, c.nqubits)
    case Failure(e) => Failure(e)
    case Success(body) =>
      Success(Mapped(InitResults(code, c), Encoding(code, c.nqubits) + body + Decoding(code, c.nqubits)))
  }

  /** A measurement anywhere in the input aborts the mapping: no decoding
      is ever produced for it. */
  lemma MeasurementAborts(code: Code, c: LogicalCircuit, k: nat)
    requires AllTargeted(c.gates) && k < |c.gates| && c.gates[k].kind == Measure
    ensures Map(code, c).Failure?
    ensures Map(code, c).error == QMAPException(UnencodableMessage)
    ensures FirstReject(c.gates) <= k
  {
  }

  /** A successful mapping is exactly the code's encoding, then the
      translated gates in input order, then the code's decoding. */
  lemma MapStructure(code: Code, c: LogicalCircuit)
    requires AllTargeted(c.gates) && Map(code, c).Success?
    ensures var ops, e, d := Map(code, c).value.ops, Encoding(code, c.nqubits), Decoding(code, c.nqubits);
      && Translate(c.gates, c.nqubits).Success?
      && |ops| == |e| + |Translate(c.gates, c.nqubits).value| + |d|
      && ops[..|e|] == e
      && ops[|e|..|ops| - |d|] == Translate(c.gates, c.nqubits).value
      && ops[|ops| - |d|..] == d
  {
  }

  /** With `k` copied gates the mapping is `20n + 3k` gates under the
      repetition code and `86n + 3k` under Shor's code. */
  lemma MapLength(code: Code, c: LogicalCircuit)
    requires AllTargeted(c.gates) && Map(code, c).Success?
    ensures |Map(code, c).value.ops|
      == (if code == Q3 then 20 else 86) * c.nqubits + 3 * CountTransversal(c.gates)
  {
    var n := c.nqubits;
    MapStructure(code, c);
    match code
    case Q3 =>
      Q3Shor.EncodeLayout(n);
      Q3Shor.DecodeLayout(n);
    case Q9 =>
      Q9Shor.Counts(n);
  }

  /** With logical targets and indices within the writers' width, every
      physical index of a successful mapping lies in the output register. */
  lemma MapInRegister(code: Code, c: LogicalCircuit)
    requires AllTargeted(c.gates) && TargetsBelow(c.gates, c.nqubits)
    requires Redundancy(code) * c.nqubits <= ShortRange
    requires Map(code, c).Success?
    ensures Bounded(Map(code, c).value.ops, Map(code, c).value.results.outputQubits)
  {
    var n := c.nqubits;
    var m := Map(code, c).value;
    var r := Redundancy(code) * n;
    MapStructure(code, c);
    TranslateInRegister(c.gates, n);
    var body := Translate(c.gates, n).value;
    assert 3 * n <= r;
    match code
    case Q3 => Q3Shor.InRegister(n);
    case Q9 => Q9Shor.InRegister(n);
    forall op | op in m.ops
      ensures OpBelow(op, r)
    {
      if op in body {
        assert OpBelow(op, 3 * n);
      }
    }
  }
}
