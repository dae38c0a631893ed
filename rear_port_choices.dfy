/**
 * The rear-port position allocator of the two front-port create forms
 * (`FrontPortTemplateCreateForm` and `FrontPortCreateForm`): their constructors offer
 * every unoccupied (rear port, position) pair as a choice whose value is the text
 * "pk:position", and `get_iterative_data` turns a selected value back into two integers.
 */
module RearPortChoices {
  import opened Wrappers
  import opened Decimal

  /** A rear port (or rear-port template) of the device (type): primary key, name, position count. */
  datatype RearPort = RearPort(pk: nat, name: string, positions: nat)

  /** A (rear port pk, position) pair: held by an existing front port, or decoded from a choice. */
  datatype Mapping = Mapping(rearPort: nat, position: nat)

  /** Where a choice comes from: the index of its rear port in the queried list, and a position. */
  datatype Slot = Slot(port: nat, position: nat)

  /** A form choice: the submitted value and the text shown to the user. */
  datatype Choice = Choice(value: string, display: string)

  /** True when `a` comes strictly before `b`: by rear port first, then by position. */
  predicate SlotBefore(a: Slot, b: Slot) {
    a.port < b.port || (a.port == b.port && a.position < b.position)
  }

  predicate Ordered(slots: seq<Slot>) {
    forall k, l :: 0 <= k < l < |slots| ==> SlotBefore(slots[k], slots[l])
  }

  /** The slot is a real position of an existing rear port, and no front port holds it. */
  predicate Free(rearPorts: seq<RearPort>, occupied: seq<Mapping>, s: Slot) {
    && s.port < |rearPorts|
    && 1 <= s.position <= rearPorts[s.port].positions
    && Mapping(rearPorts[s.port].pk, s.position) !in occupied
  }

  /** The unoccupied positions 1..hi of rear port `j`, in ascending order. */
  function PortSlots(rearPorts: seq<RearPort>, occupied: seq<Mapping>, j: nat, hi: nat): seq<Slot>
    requires j < |rearPorts| && hi <= rearPorts[j].positions
  {
    if hi == 0 then []
    else
      PortSlots(rearPorts, occupied, j, hi - 1)
      + (if Mapping(rearPorts[j].pk, hi) in occupied then [] else [Slot(j, hi)])
  }

  /** The slots offered for the first `n` rear ports, in the order the nested loops visit them. */
  function AvailableSlots(rearPorts: seq<RearPort>, occupied: seq<Mapping>, n: nat): seq<Slot>
    requires n <= |rearPorts|
  {
    if n == 0 then []
    else
      AvailableSlots(rearPorts, occupied, n - 1)
      + PortSlots(rearPorts, occupied, n - 1, rearPorts[n - 1].positions)
  }

  function Available(rearPorts: seq<RearPort>, occupied: seq<Mapping>): seq<Slot> {
    AvailableSlots(rearPorts, occupied, |rearPorts|)
  }

  /** The choice value `'{}:{}'.format(rear_port.pk, i)`. */
  function EncodeValue(pk: nat, position: nat): string {
    NatToString(pk) + ":" + NatToString(position)
  }

  /** The choice label `'{}:{}'.format(rear_port.name, i)`. */
  function EncodeLabel(name: string, position: nat): string {
    name + ":" + NatToString(position)
  }

  /**
   * The choice a slot produces. Every slot the model builds names an existing rear port
   * (`Free`); a slot outside the list has no rear port and yields an empty choice.
   */
  function ChoiceOf(rearPorts: seq<RearPort>, s: Slot): Choice {
    if s.port < |rearPorts| then
      Choice(EncodeValue(rearPorts[s.port].pk, s.position), EncodeLabel(rearPorts[s.port].name, s.position))
    else
      Choice("", "")
  }

  /** The choice for each slot, in slot order. */
  function ChoicesOf(rearPorts: seq<RearPort>, slots: seq<Slot>): (r: seq<Choice>)
    ensures |r| == |slots|
  {
    if slots == [] then []
    else ChoicesOf(rearPorts, slots[..|slots| - 1]) + [ChoiceOf(rearPorts, slots[|slots| - 1])]
  }

  lemma {:induction false} ChoicesOfAt(rearPorts: seq<RearPort>, slots: seq<Slot>, k: nat)
    requires k < |slots|
    ensures ChoicesOf(rearPorts, slots)[k] == ChoiceOf(rearPorts, slots[k])
  {
    if k < |slots| - 1 {
      ChoicesOfAt(rearPorts, slots[..|slots| - 1], k);
    }
  }

  /** The choices for positions 1..hi of one rear port, ascending, skipping occupied ones. */
  function PortChoices(rearPort: RearPort, occupied: seq<Mapping>, hi: nat): seq<Choice> {
    if hi == 0 then []
    else
      PortChoices(rearPort, occupied, hi - 1)
      + (if Mapping(rearPort.pk, hi) in occupied then []
         else [Choice(EncodeValue(rearPort.pk, hi), EncodeLabel(rearPort.name, hi))])
  }

  /** The choices for the first `n` rear ports. */
  function ChoicesUpTo(rearPorts: seq<RearPort>, occupied: seq<Mapping>, n: nat): seq<Choice>
    requires n <= |rearPorts|
  {
    if n == 0 then []
    else ChoicesUpTo(rearPorts, occupied, n - 1) + PortChoices(rearPorts[n - 1], occupied, rearPorts[n - 1].positions)
  }

  /** The choices the constructors install on `rear_port_set`. */
  function Choices(rearPorts: seq<RearPort>, occupied: seq<Mapping>): seq<Choice> {
    ChoicesUpTo(rearPorts, occupied, |rearPorts|)
  }

  lemma ChoicesOfAppend(rearPorts: seq<RearPort>, a: seq<Slot>, b: seq<Slot>)
    ensures ChoicesOf(rearPorts, a + b) == ChoicesOf(rearPorts, a) + ChoicesOf(rearPorts, b)
    decreases |b|
  {
    if b != [] {
      var b' := b[..|b| - 1];
      assert (a + b)[..|a + b| - 1] == a + b';
      ChoicesOfAppend(rearPorts, a, b');
    } else {
      assert a + b == a;
    }
  }

  lemma {:induction false} PortChoicesOfSlots(rearPorts: seq<RearPort>, occupied: seq<Mapping>, j: nat, hi: nat)
    requires j < |rearPorts| && hi <= rearPorts[j].positions
    ensures PortChoices(rearPorts[j], occupied, hi) == ChoicesOf(rearPorts, PortSlots(rearPorts, occupied, j, hi))
  {
    if hi > 0 {
      PortChoicesOfSlots(rearPorts, occupied, j, hi - 1);
      var tail := if Mapping(rearPorts[j].pk, hi) in occupied then [] else [Slot(j, hi)];
      ChoicesOfAppend(rearPorts, PortSlots(rearPorts, occupied, j, hi - 1), tail);
      if tail != [] {
        assert ChoicesOf(rearPorts, tail) == [ChoiceOf(rearPorts, Slot(j, hi))] by {
          assert tail[..0] == [];
        }
      }
    }
  }

  /** The choice list is exactly one choice per available slot, in slot order. */
  lemma {:induction false} ChoicesMatchSlots(rearPorts: seq<RearPort>, occupied: seq<Mapping>, n: nat)
    requires n <= |rearPorts|
    ensures ChoicesUpTo(rearPorts, occupied, n) == ChoicesOf(rearPorts, AvailableSlots(rearPorts, occupied, n))
  {
    if n > 0 {
      ChoicesMatchSlots(rearPorts, occupied, n - 1);
      PortChoicesOfSlots(rearPorts, occupied, n - 1, rearPorts[n - 1].positions);
      ChoicesOfAppend(rearPorts, AvailableSlots(rearPorts, occupied, n - 1),
                      PortSlots(rearPorts, occupied, n - 1, rearPorts[n - 1].positions));
    }
  }

  /**
   * The choice loop of the constructors: for each rear port, for i in 1..positions,
   * append the pair unless an existing front port already maps to it.
   */
  method BuildChoices(rearPorts: seq<RearPort>, occupied: seq<Mapping>) returns (choices: seq<Choice>)
    ensures choices == Choices(rearPorts, occupied)
  {
    choices := [];
    var j := 0;
    while j < |rearPorts|
      invariant 0 <= j <= |rearPorts|
      invariant choices == ChoicesUpTo(rearPorts, occupied, j)
    {
      var rearPort := rearPorts[j];
      var i := 1;
      while i <= rearPort.positions
        invariant 1 <= i <= rearPort.positions + 1
        invariant choices == ChoicesUpTo(rearPorts, occupied, j) + PortChoices(rearPort, occupied, i - 1)
      {
        if Mapping(rearPort.pk, i) !in occupied {
          choices := choices + [Choice(EncodeValue(rearPort.pk, i), EncodeLabel(rearPort.name, i))];
        }
        i := i + 1;
      }
      j := j + 1;
    }
  }

  /** Index of the first ':' in `s`, or `|s|` when there is none. */
  function ColonIndex(s: string): (k: nat)
    ensures k <= |s|
    ensures k < |s| ==> s[k] == ':'
    ensures forall j :: 0 <= j < k ==> s[j] != ':'
  {
    if s == [] then 0 else if s[0] == ':' then 0 else 1 + ColonIndex(s[1..])
  }

  /** `s.split(':')` unpacked into exactly two parts; `None` where Python raises `ValueError`. */
  function SplitPair(s: string): (r: Option<(string, string)>)
    ensures r.Some? ==> s == r.value.0 + ":" + r.value.1 && ':' !in r.value.0 && ':' !in r.value.1
  {
    var k := ColonIndex(s);
    if k == |s| then None
    else if ':' in s[k + 1..] then None
    else
      assert s == s[..k] + ":" + s[k + 1..];
      assert forall c :: c in s[..k] ==> c != ':';
      Some((s[..k], s[k + 1..]))
  }

  /** `rear_port, position = value.split(':')` followed by `int(rear_port)`, `int(position)`. */
  function DecodeValue(s: string): Option<Mapping> {
    match SplitPair(s)
    case None => None
    case Some((a, b)) =>
      match (ParseNat(a), ParseNat(b))
      case (Some(pk), Some(position)) => Some(Mapping(pk, position))
      case _ => None
  }

  /** `get_iterative_data(iteration)`: the rear port and position for the front port created in that iteration. */
  function IterativeData(rearPortSet: seq<string>, iteration: nat): Option<Mapping>
    requires iteration < |rearPortSet|
  {
    DecodeValue(rearPortSet[iteration])
  }
}

/** What the front-port create forms rely on about the allocator and the choice encoding. */
module RearPortChoiceProperties {
  import opened Wrappers
  import opened Decimal
  import opened RearPortChoices

  lemma NoColonInDigits(s: string)
    requires AllDigits(s)
    ensures ':' !in s
  {
    assert forall k :: 0 <= k < |s| ==> s[k] != ':';
  }

  /** Text with exactly one ':' always splits into the two parts around it. */
  lemma SplitPairComplete(s: string, k: nat)
    requires k < |s| && s[k] == ':' && ':' !in s[..k] && ':' !in s[k + 1..]
    ensures SplitPair(s) == Some((s[..k], s[k + 1..]))
  {
    var c := ColonIndex(s);
    assert forall j :: 0 <= j < k ==> s[j] == s[..k][j] && s[j] != ':';
    assert c == k;
  }

  /** `get_iterative_data` recovers exactly the rear port pk and position a choice value was built from. */
  lemma {:induction false} DecodeEncode(pk: nat, position: nat)
    ensures DecodeValue(EncodeValue(pk, position)) == Some(Mapping(pk, position))
  {
    var a, b := NatToString(pk), NatToString(position);
    var s := EncodeValue(pk, position);
    assert s == a + ":" + b;
    NoColonInDigits(a);
    NoColonInDigits(b);
    var k := ColonIndex(s);
    assert s[|a|] == ':';
    assert forall j :: 0 <= j < |a| ==> s[j] == a[j] && s[j] != ':';
    assert k == |a|;
    assert s[..k] == a && s[k + 1..] == b;
    ParseNatToString(pk);
    ParseNatToString(position);
  }

  /** Distinct (pk, position) pairs get distinct choice values. */
  lemma EncodeInjective(pk1: nat, position1: nat, pk2: nat, position2: nat)
    ensures EncodeValue(pk1, position1) == EncodeValue(pk2, position2) ==> pk1 == pk2 && position1 == position2
  {
    DecodeEncode(pk1, position1);
    DecodeEncode(pk2, position2);
  }

  /**
   * The values `get_iterative_data` accepts: two non-empty digit strings around a single
   * ':'; the result is their two decimal values.
   */
  lemma {:induction false} DecodeValueExact(s: string, k: nat)
    requires 0 < k < |s| - 1 && s[k] == ':'
    requires AllDigits(s[..k]) && AllDigits(s[k + 1..])
    ensures DecodeValue(s) == Some(Mapping(DigitsValue(s[..k]), DigitsValue(s[k + 1..])))
  {
    NoColonInDigits(s[..k]);
    NoColonInDigits(s[k + 1..]);
    var c := ColonIndex(s);
    assert forall j :: 0 <= j < k ==> s[j] == s[..k][j] && s[j] != ':';
    assert c == k;
  }

  /** A decoded value always came from text of the form digits ':' digits. */
  lemma DecodeValueShape(s: string)
    requires DecodeValue(s).Some?
    ensures exists k :: 0 < k < |s| - 1 && s[k] == ':' && AllDigits(s[..k]) && AllDigits(s[k + 1..])
  {
    var p := SplitPair(s).value;
    var k := |p.0|;
    assert s == p.0 + ":" + p.1;
    assert s[..k] == p.0 && s[k + 1..] == p.1;
    assert s[k] == ':';
  }

  lemma {:induction false} PortSlotsSound(rearPorts: seq<RearPort>, occupied: seq<Mapping>, j: nat, hi: nat)
    requires j < |rearPorts| && hi <= rearPorts[j].positions
    ensures forall k :: 0 <= k < |PortSlots(rearPorts, occupied, j, hi)| ==>
      var s := PortSlots(rearPorts, occupied, j, hi)[k];
      Free(rearPorts, occupied, s) && s.port == j && s.position <= hi
  {
    if hi > 0 {
      PortSlotsSound(rearPorts, occupied, j, hi - 1);
      var a := PortSlots(rearPorts, occupied, j, hi - 1);
      var b := if Mapping(rearPorts[j].pk, hi) in occupied then [] else [Slot(j, hi)];
      assert PortSlots(rearPorts, occupied, j, hi) == a + b;
      assert forall k :: 0 <= k < |a + b| ==> (a + b)[k] == if k < |a| then a[k] else b[k - |a|];
    }
  }

  lemma {:induction false} AvailableSlotsSound(rearPorts: seq<RearPort>, occupied: seq<Mapping>, n: nat)
    requires n <= |rearPorts|
    ensures forall k :: 0 <= k < |AvailableSlots(rearPorts, occupied, n)| ==>
      var s := AvailableSlots(rearPorts, occupied, n)[k];
      Free(rearPorts, occupied, s) && s.port < n
  {
    if n > 0 {
      AvailableSlotsSound(rearPorts, occupied, n - 1);
      PortSlotsSound(rearPorts, occupied, n - 1, rearPorts[n - 1].positions);
      var a := AvailableSlots(rearPorts, occupied, n - 1);
      var b := PortSlots(rearPorts, occupied, n - 1, rearPorts[n - 1].positions);
      assert AvailableSlots(rearPorts, occupied, n) == a + b;
      assert forall k :: 0 <= k < |a + b| ==> (a + b)[k] == if k < |a| then a[k] else b[k - |a|];
    }
  }

  /** Every slot on offer is a real, unoccupied position of one of the queried rear ports. */
  lemma AvailableSound(rearPorts: seq<RearPort>, occupied: seq<Mapping>, k: nat)
    requires k < |Available(rearPorts, occupied)|
    ensures Free(rearPorts, occupied, Available(rearPorts, occupied)[k])
  {
    AvailableSlotsSound(rearPorts, occupied, |rearPorts|);
  }

  lemma {:induction false} PortSlotsComplete(rearPorts: seq<RearPort>, occupied: seq<Mapping>, j: nat, hi: nat, i: nat)
    requires j < |rearPorts| && hi <= rearPorts[j].positions
    requires 1 <= i <= hi && Mapping(rearPorts[j].pk, i) !in occupied
    ensures Slot(j, i) in PortSlots(rearPorts, occupied, j, hi)
  {
    if i < hi {
      PortSlotsComplete(rearPorts, occupied, j, hi - 1, i);
    }
  }

  lemma {:induction false} AvailableSlotsComplete(rearPorts: seq<RearPort>, occupied: seq<Mapping>, n: nat, j: nat, i: nat)
    requires j < n <= |rearPorts|
    requires 1 <= i <= rearPorts[j].positions && Mapping(rearPorts[j].pk, i) !in occupied
    ensures Slot(j, i) in AvailableSlots(rearPorts, occupied, n)
  {
    if j < n - 1 {
      AvailableSlotsComplete(rearPorts, occupied, n - 1, j, i);
    } else {
      PortSlotsComplete(rearPorts, occupied, j, rearPorts[j].positions, i);
    }
  }

  /** Every unoccupied position of every rear port is on offer. */
  lemma AvailableComplete(rearPorts: seq<RearPort>, occupied: seq<Mapping>, j: nat, i: nat)
    requires j < |rearPorts|
    requires 1 <= i <= rearPorts[j].positions && Mapping(rearPorts[j].pk, i) !in occupied
    ensures Slot(j, i) in Available(rearPorts, occupied)
  {
    AvailableSlotsComplete(rearPorts, occupied, |rearPorts|, j, i);
  }

  lemma {:induction false} PortSlotsOrdered(rearPorts: seq<RearPort>, occupied: seq<Mapping>, j: nat, hi: nat)
    requires j < |rearPorts| && hi <= rearPorts[j].positions
    ensures Ordered(PortSlots(rearPorts, occupied, j, hi))
  {
    if hi > 0 {
      PortSlotsOrdered(rearPorts, occupied, j, hi - 1);
      PortSlotsSound(rearPorts, occupied, j, hi - 1);
    }
  }

  lemma {:induction false} AvailableSlotsOrdered(rearPorts: seq<RearPort>, occupied: seq<Mapping>, n: nat)
    requires n <= |rearPorts|
    ensures Ordered(AvailableSlots(rearPorts, occupied, n))
  {
    if n > 0 {
      AvailableSlotsOrdered(rearPorts, occupied, n - 1);
      PortSlotsOrdered(rearPorts, occupied, n - 1, rearPorts[n - 1].positions);
      AvailableSlotsSound(rearPorts, occupied, n - 1);
      PortSlotsSound(rearPorts, occupied, n - 1, rearPorts[n - 1].positions);
      var a := AvailableSlots(rearPorts, occupied, n - 1);
      var b := PortSlots(rearPorts, occupied, n - 1, rearPorts[n - 1].positions);
      forall k, l | 0 <= k < l < |a + b|
        ensures SlotBefore((a + b)[k], (a + b)[l])
      {
        if l < |a| {
        } else if k < |a| {
          assert (a + b)[k] == a[k] && (a + b)[l] == b[l - |a|];
        } else {
          assert (a + b)[k] == b[k - |a|] && (a + b)[l] == b[l - |a|];
        }
      }
    }
  }

  /**
   * The offered slots are ordered by rear port, then by ascending position, so in
   * particular no slot is offered twice.
   */
  lemma AvailableOrdered(rearPorts: seq<RearPort>, occupied: seq<Mapping>)
    ensures Ordered(Available(rearPorts, occupied))
    ensures forall k, l :: 0 <= k < l < |Available(rearPorts, occupied)| ==>
      Available(rearPorts, occupied)[k] != Available(rearPorts, occupied)[l]
  {
    AvailableSlotsOrdered(rearPorts, occupied, |rearPorts|);
  }

  predicate DistinctPks(rearPorts: seq<RearPort>) {
    forall j, j' :: 0 <= j < j' < |rearPorts| ==> rearPorts[j].pk != rearPorts[j'].pk
  }

  /**
   * Choice `k` is the one for slot `k`: its value decodes to that slot's rear port pk and
   * position, which are free.
   */
  lemma ChoiceAt(rearPorts: seq<RearPort>, occupied: seq<Mapping>, k: nat)
    requires k < |Choices(rearPorts, occupied)|
    ensures k < |Available(rearPorts, occupied)|
    ensures var s := Available(rearPorts, occupied)[k];
      && Free(rearPorts, occupied, s)
      && Choices(rearPorts, occupied)[k] == ChoiceOf(rearPorts, s)
      && Choices(rearPorts, occupied)[k].display == rearPorts[s.port].name + ":" + NatToString(s.position)
      && DecodeValue(Choices(rearPorts, occupied)[k].value) == Some(Mapping(rearPorts[s.port].pk, s.position))
  {
    ChoicesMatchSlots(rearPorts, occupied, |rearPorts|);
    AvailableSlotsSound(rearPorts, occupied, |rearPorts|);
    var s := Available(rearPorts, occupied)[k];
    ChoicesOfAt(rearPorts, Available(rearPorts, occupied), k);
    DecodeEncode(rearPorts[s.port].pk, s.position);
  }

  /**
   * With the rear ports' primary keys distinct (as those of a queryset are), no two choices
   * share a value: every unoccupied pair is offered exactly once.
   */
  lemma ChoiceValuesDistinct(rearPorts: seq<RearPort>, occupied: seq<Mapping>, k: nat, l: nat)
    requires DistinctPks(rearPorts)
    requires k < l < |Choices(rearPorts, occupied)|
    ensures Choices(rearPorts, occupied)[k].value != Choices(rearPorts, occupied)[l].value
  {
    ChoiceAt(rearPorts, occupied, k);
    ChoiceAt(rearPorts, occupied, l);
    AvailableOrdered(rearPorts, occupied);
    var s, t := Available(rearPorts, occupied)[k], Available(rearPorts, occupied)[l];
    EncodeInjective(rearPorts[s.port].pk, s.position, rearPorts[t.port].pk, t.position);
    assert s.port < t.port ==> rearPorts[s.port].pk != rearPorts[t.port].pk;
  }

  /**
   * For a selection made from the offered choices, `get_iterative_data` yields a free
   * position of one of the rear ports.
   */
  lemma IterativeDataOfOffered(rearPorts: seq<RearPort>, occupied: seq<Mapping>, rearPortSet: seq<string>, iteration: nat)
    requires iteration < |rearPortSet|
    requires exists k :: 0 <= k < |Choices(rearPorts, occupied)| && Choices(rearPorts, occupied)[k].value == rearPortSet[iteration]
    ensures IterativeData(rearPortSet, iteration).Some?
    ensures var m := IterativeData(rearPortSet, iteration).value;
      exists j :: 0 <= j < |rearPorts| && rearPorts[j].pk == m.rearPort
        && 1 <= m.position <= rearPorts[j].positions && m !in occupied
  {
    var k :| 0 <= k < |Choices(rearPorts, occupied)| && Choices(rearPorts, occupied)[k].value == rearPortSet[iteration];
    ChoiceAt(rearPorts, occupied, k);
    var s := Available(rearPorts, occupied)[k];
    assert rearPorts[s.port].pk == IterativeData(rearPortSet, iteration).value.rearPort;
  }
}
