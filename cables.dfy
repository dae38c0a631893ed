/**
 * Cable rules: resolving each termination of a CSV row (`CableCSVForm._clean_side`), the
 * CSV length-unit normalisation (`CableCSVForm.clean_length_unit`) and the bulk-edit
 * length/unit check (`CableBulkEditForm.clean`).
 */
module Cables {
  import opened Wrappers

  datatype Side = SideA | SideB

  /**
   * A cable-terminating component of a device: its primary key, the content type of its
   * model, the device it belongs to, its name, and the cable attached to it (if any).
   */
  datatype Component = Component(pk: nat, contentType: nat, device: nat, name: string, cable: Option<nat>)

  /** The errors of termination resolution. */
  datatype CableError =
    | TerminationNotFound(side: Side, device: nat, name: string)  // no such component
    | AlreadyConnected(side: Side, component: Component)         // it already has a cable
    | MultipleObjectsReturned(side: Side)                        // `get` found more than one

  /** A cleaned value that is missing: an absent key, `None`, or an empty name. */
  predicate MissingName(name: Option<string>) {
    name.None? || name.value == ""
  }

  /** Rows of `model.objects.get(device=device, name=name)` for the chosen content type. */
  function Matching(components: seq<Component>, contentType: nat, device: nat, name: string): (r: seq<Component>)
    ensures forall c :: c in r <==> c in components && c.contentType == contentType && c.device == device && c.name == name
  {
    if components == [] then []
    else
      var c := components[0];
      assert components == [c] + components[1..];
      (if c.contentType == contentType && c.device == device && c.name == name then [c] else [])
      + Matching(components[1..], contentType, device, name)
  }

  /**
   * `_clean_side(side)`: nothing when the device, the type or the name is missing; otherwise
   * the single matching component, which must not be cabled already.
   */
  function ResolveSide(side: Side, device: Option<nat>, contentType: Option<nat>, name: Option<string>,
                       components: seq<Component>): (r: Result<Option<Component>, CableError>)
    ensures device.None? || contentType.None? || MissingName(name) ==> r == Ok(None)
    ensures r.Ok? && r.value.Some? ==>
      var c := r.value.value;
      && c in components && c.device == device.value && c.contentType == contentType.value
      && c.name == name.value && c.cable.None?
    ensures device.Some? && contentType.Some? && !MissingName(name) ==>
      (r == Err(TerminationNotFound(side, device.value, name.value)) <==>
        forall c :: c in components ==> !(c.contentType == contentType.value && c.device == device.value && c.name == name.value))
    ensures r.Err? && r.error.AlreadyConnected? ==>
      var c := r.error.component;
      && c in components && c.device == device.value && c.contentType == contentType.value
      && c.name == name.value && c.cable.Some?
  {
    if device.None? || contentType.None? || MissingName(name) then Ok(None)
    else
      var found := Matching(components, contentType.value, device.value, name.value);
      if found == [] then Err(TerminationNotFound(side, device.value, name.value))
      else
        assert found[0] in found;
        if |found| > 1 then Err(MultipleObjectsReturned(side))
        else if found[0].cable.Some? then Err(AlreadyConnected(side, found[0]))
        else Ok(Some(found[0]))
  }

  /** Rows of a table have distinct primary keys. */
  predicate DistinctPks(components: seq<Component>) {
    forall i, j :: 0 <= i < j < |components| ==> components[i].pk != components[j].pk
  }

  predicate Matches(c: Component, contentType: nat, device: nat, name: string) {
    c.contentType == contentType && c.device == device && c.name == name
  }

  /** In a table with distinct rows, a component that is the only match is the whole query result. */
  lemma {:induction false} MatchingOfUnique(components: seq<Component>, c: Component)
    requires DistinctPks(components) && c in components
    requires forall d :: d in components && Matches(d, c.contentType, c.device, c.name) ==> d == c
    ensures Matching(components, c.contentType, c.device, c.name) == [c]
  {
    var x, rest := components[0], components[1..];
    assert components == [x] + rest;
    assert DistinctPks(rest) by {
      forall i, j | 0 <= i < j < |rest| ensures rest[i].pk != rest[j].pk {
        assert rest[i] == components[i + 1] && rest[j] == components[j + 1];
      }
    }
    if x == c {
      assert forall d :: d in rest ==> d.pk != c.pk by {
        forall d | d in rest ensures d.pk != c.pk {
          var j :| 0 <= j < |rest| && rest[j] == d;
          assert components[j + 1] == d;
        }
      }
      var tail := Matching(rest, c.contentType, c.device, c.name);
      if tail != [] {
        assert tail[0] in tail;
      }
    } else {
      MatchingOfUnique(rest, c);
    }
  }

  /**
   * When exactly one row matches the device, type and name, `_clean_side` accepts it if it
   * has no cable and rejects it as already connected if it has one.
   */
  lemma UniqueComponentResolution(side: Side, components: seq<Component>, c: Component)
    requires DistinctPks(components) && c in components && c.name != ""
    requires forall d :: d in components && Matches(d, c.contentType, c.device, c.name) ==> d == c
    ensures ResolveSide(side, Some(c.device), Some(c.contentType), Some(c.name), components)
         == if c.cable.None? then Ok(Some(c)) else Err(AlreadyConnected(side, c))
  {
    MatchingOfUnique(components, c);
  }

  /** The cable being imported; `_clean_side` records the termination it found on it. */
  class CableInstance {
    var terminationA: Option<Component>
    var terminationB: Option<Component>

    constructor ()
      ensures terminationA == None && terminationB == None
    {
      terminationA := None;
      terminationB := None;
    }

    /** `clean_side_a_name` / `clean_side_b_name`: resolve one side and set its termination. */
    method CleanSide(side: Side, device: Option<nat>, contentType: Option<nat>, name: Option<string>,
                     components: seq<Component>) returns (r: Result<Option<Component>, CableError>)
      modifies this
      ensures r == ResolveSide(side, device, contentType, name, components)
      ensures r.Ok? && r.value.Some? && side == SideA ==> terminationA == r.value && terminationB == old(terminationB)
      ensures r.Ok? && r.value.Some? && side == SideB ==> terminationB == r.value && terminationA == old(terminationA)
      ensures !(r.Ok? && r.value.Some?) ==> terminationA == old(terminationA) && terminationB == old(terminationB)
    {
      r := ResolveSide(side, device, contentType, name, components);
      if r.Ok? && r.value.Some? {
        if side == SideA {
          terminationA := r.value;
        } else {
          terminationB := r.value;
        }
      }
    }
  }

  /** `clean_length_unit`: a missing unit is stored as the empty string rather than NULL. */
  function NormaliseLengthUnit(unit: Option<string>): (r: string)
    ensures unit.None? ==> r == ""
    ensures unit.Some? ==> r == unit.value
  {
    if unit.Some? then unit.value else ""
  }

  /** The error of the bulk-edit length check, reported on `length_unit`. */
  datatype LengthError = UnitRequired

  /** Python truthiness of a cleaned length: `None` and 0 mean no length. */
  predicate HasLength(length: Option<int>) {
    length.Some? && length.value != 0
  }

  /** `CableBulkEditForm.clean`: setting a length requires a unit. */
  function CleanBulkLength(length: Option<int>, unit: Option<string>): (r: Option<LengthError>)
    ensures r.Some? <==> HasLength(length) && MissingName(unit)
  {
    if HasLength(length) && MissingName(unit) then Some(UnitRequired) else None
  }
}
