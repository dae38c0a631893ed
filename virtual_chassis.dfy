/**
 * Virtual chassis membership rules: duplicate positions across the member formset, the
 * sequential positions given on create, the conflict check when adding a member, and the
 * rejection of a device that already belongs to a chassis.
 */
module VirtualChassis {
  import opened Wrappers
  import opened Devices

  /** Python truthiness of a cleaned `vc_position`: `None` and 0 count as no position. */
  predicate HasPosition(p: Option<int>) {
    p.Some? && p.value != 0
  }

  /** Form `k` repeats a position that an earlier form of the formset already holds. */
  predicate Flagged(positions: seq<Option<int>>, k: nat)
    requires k < |positions|
  {
    HasPosition(positions[k]) && exists j :: 0 <= j < k && positions[j] == positions[k]
  }

  /** The non-empty positions of `positions`, in order: `vc_position_list` after those forms. */
  function SeenPositions(positions: seq<Option<int>>): (r: seq<int>)
    ensures forall v :: v in r <==> v != 0 && Some(v) in positions
  {
    if positions == [] then []
    else
      var last := positions[|positions| - 1];
      assert positions == positions[..|positions| - 1] + [last];
      SeenPositions(positions[..|positions| - 1]) + (if HasPosition(last) then [last.value] else [])
  }

  /** A flagged form always points back to an earlier, unflagged form at the same position. */
  lemma {:induction false} FlaggedHasUnflaggedFirst(positions: seq<Option<int>>, k: nat)
    requires k < |positions| && Flagged(positions, k)
    ensures exists j :: 0 <= j < k && positions[j] == positions[k] && !Flagged(positions, j)
    decreases k
  {
    var j :| 0 <= j < k && positions[j] == positions[k];
    if Flagged(positions, j) {
      FlaggedHasUnflaggedFirst(positions, j);
    }
  }

  /** The first form at a position, and every form with no position, is never flagged. */
  lemma FirstOccurrenceNotFlagged(positions: seq<Option<int>>, k: nat)
    requires k < |positions|
    requires !HasPosition(positions[k]) || forall j :: 0 <= j < k ==> positions[j] != positions[k]
    ensures !Flagged(positions, k)
  {
  }

  /** What one turn of the formset loop sees and adds to `vc_position_list`. */
  lemma SeenStep(positions: seq<Option<int>>, i: nat)
    requires i < |positions|
    ensures SeenPositions(positions[..i + 1])
         == SeenPositions(positions[..i]) + (if HasPosition(positions[i]) then [positions[i].value] else [])
    ensures Flagged(positions, i) <==> HasPosition(positions[i]) && positions[i].value in SeenPositions(positions[..i])
  {
    assert positions[..i + 1][..i] == positions[..i];
    if HasPosition(positions[i]) && Flagged(positions, i) {
      var j :| 0 <= j < i && positions[j] == positions[i];
      assert positions[..i][j] == positions[j];
    }
  }

  /** One member form of the formset: its cleaned position and the errors on `vc_position`. */
  class MemberForm {
    const vcPosition: Option<int>
    var vcPositionErrors: seq<int>

    constructor (vcPosition: Option<int>)
      ensures this.vcPosition == vcPosition && vcPositionErrors == []
    {
      this.vcPosition := vcPosition;
      vcPositionErrors := [];
    }
  }

  function PositionsOf(forms: seq<MemberForm>): (r: seq<Option<int>>)
    ensures |r| == |forms| && forall k :: 0 <= k < |forms| ==> r[k] == forms[k].vcPosition
  {
    seq(|forms|, k requires 0 <= k < |forms| => forms[k].vcPosition)
  }

  predicate DistinctForms(forms: seq<MemberForm>) {
    forall j, k :: 0 <= j < k < |forms| ==> forms[j] != forms[k]
  }

  /**
   * `BaseVCMemberFormSet.clean`: each form whose position already appeared in an earlier
   * form gets one error on `vc_position`, naming that position; no other form changes.
   */
  method CleanFormSet(forms: seq<MemberForm>)
    requires DistinctForms(forms)
    modifies set k | 0 <= k < |forms| :: forms[k]
    ensures forall k :: 0 <= k < |forms| ==>
      forms[k].vcPositionErrors == old(forms[k].vcPositionErrors)
        + (if Flagged(PositionsOf(forms), k) then [forms[k].vcPosition.value] else [])
  {
    ghost var positions := PositionsOf(forms);
    ghost var before := seq(|forms|, k requires 0 <= k < |forms| reads forms => forms[k].vcPositionErrors);
    ghost var added := seq(|forms|, k requires 0 <= k < |forms| =>
      if Flagged(positions, k) then [positions[k].value] else []);
    var seen: seq<int> := [];
    var i := 0;
    while i < |forms|
      invariant 0 <= i <= |forms|
      invariant seen == SeenPositions(positions[..i])
      invariant forall k :: 0 <= k < i ==> forms[k].vcPositionErrors == before[k] + added[k]
      invariant forall k :: i <= k < |forms| ==> forms[k].vcPositionErrors == before[k]
    {
      var form := forms[i];
      var position := form.vcPosition;
      SeenStep(positions, i);
      assert forall k :: 0 <= k < |forms| && k != i ==> forms[k] != form;
      if position.Some? && position.value != 0 {
        if position.value in seen {
          form.vcPositionErrors := form.vcPositionErrors + [position.value];
        }
        seen := seen + [position.value];
      }
      i := i + 1;
    }
  }

  /** `initial_position or 1`: the position of the first member. */
  function StartPosition(initialPosition: Option<int>): (r: int)
    ensures HasPosition(Some(r))
    ensures HasPosition(initialPosition) ==> r == initialPosition.value
    ensures !HasPosition(initialPosition) ==> r == 1
  {
    if initialPosition.Some? && initialPosition.value != 0 then initialPosition.value else 1
  }

  predicate DistinctDevices(members: seq<Device>) {
    forall j, k :: 0 <= j < k < |members| ==> members[j] != members[k]
  }

  /**
   * The member loop of `VirtualChassisCreateForm.save`: once the new chassis has a primary
   * key, the k-th selected device joins it at position start + k.
   */
  method AssignMembers(chassis: Option<nat>, members: seq<Device>, initialPosition: Option<int>)
    requires DistinctDevices(members)
    modifies set k | 0 <= k < |members| :: members[k]
    ensures chassis.None? ==> forall k :: 0 <= k < |members| ==>
      members[k].virtualChassis == old(members[k].virtualChassis) && members[k].vcPosition == old(members[k].vcPosition)
    ensures chassis.Some? ==> forall k :: 0 <= k < |members| ==>
      members[k].virtualChassis == chassis && members[k].vcPosition == Some(StartPosition(initialPosition) + k)
    ensures chassis.Some? ==> forall j, k :: 0 <= j < k < |members| ==>
      members[j].vcPosition.value < members[k].vcPosition.value
    ensures forall k :: 0 <= k < |members| ==>
      members[k].site == old(members[k].site) && members[k].rack == old(members[k].rack)
      && members[k].parentBay == old(members[k].parentBay)
  {
    if chassis.Some? {
      var start := StartPosition(initialPosition);
      var i := 0;
      while i < |members|
        invariant 0 <= i <= |members|
        invariant forall k :: 0 <= k < i ==>
          members[k].virtualChassis == chassis && members[k].vcPosition == Some(start + k)
        invariant forall k :: i <= k < |members| ==>
          members[k].virtualChassis == old(members[k].virtualChassis) && members[k].vcPosition == old(members[k].vcPosition)
        invariant forall k :: 0 <= k < |members| ==>
          members[k].site == old(members[k].site) && members[k].rack == old(members[k].rack)
          && members[k].parentBay == old(members[k].parentBay)
      {
        members[i].virtualChassis := chassis;
        members[i].vcPosition := Some(start + i);
        i := i + 1;
      }
    }
  }

  /** An existing device as `clean_vc_position` queries it: its chassis and position. */
  datatype MemberRecord = MemberRecord(virtualChassis: Option<nat>, vcPosition: Option<int>)

  /** The errors of the membership forms. */
  datatype MembershipError =
    | PositionTaken(position: int)     // another member of the chassis holds it
    | AlreadyInChassis                 // the device already belongs to a chassis

  /** The devices of chassis `chassis` at position `position`: the `conflicting_members` query. */
  function ConflictingMembers(devices: seq<MemberRecord>, chassis: Option<nat>, position: int): (r: seq<MemberRecord>)
    ensures forall d :: d in r <==> d in devices && d.virtualChassis == chassis && d.vcPosition == Some(position)
  {
    if devices == [] then []
    else
      var d := devices[0];
      assert devices == [d] + devices[1..];
      (if d.virtualChassis == chassis && d.vcPosition == Some(position) then [d] else [])
      + ConflictingMembers(devices[1..], chassis, position)
  }

  /**
   * `DeviceVCMembershipForm.clean_vc_position`: with validation on, a position already held
   * by a device of the same chassis is refused; otherwise the position is kept.
   */
  function CleanVcPosition(validate: bool, position: int, chassis: Option<nat>, devices: seq<MemberRecord>)
    : (r: Result<int, MembershipError>)
    ensures r.Ok? ==> r.value == position
    ensures r.Err? ==> r.error == PositionTaken(position)
    ensures r.Err? <==> validate && exists d :: d in devices && d.virtualChassis == chassis && d.vcPosition == Some(position)
  {
    if validate then
      var conflicting := ConflictingMembers(devices, chassis, position);
      if conflicting != [] then
        assert conflicting[0] in conflicting;
        Err(PositionTaken(position))
      else Ok(position)
    else Ok(position)
  }

  /** `VCMemberSelectForm.clean_device`: only a device outside every chassis may be added. */
  function CleanMemberDevice(device: Device): (r: Result<Device, MembershipError>)
    reads device
    ensures r.Ok? <==> device.virtualChassis == None
    ensures r.Ok? ==> r.value == device
    ensures r.Err? ==> r.error == AlreadyInChassis
  {
    if device.virtualChassis != None then Err(AlreadyInChassis) else Ok(device)
  }
}
