/**
 * The 802.1Q mode rules of `InterfaceCommonForm.clean` (single interface forms) and
 * `InterfaceBulkEditForm.clean` (bulk edit), over VLANs that carry an optional site.
 */
module InterfaceMode {
  import opened Wrappers

  /** `InterfaceModeChoices`, plus `Unset` for a blank or null mode. */
  datatype Mode = Access | Tagged | TaggedAll | Unset

  /** A VLAN: its primary key and its site, `None` for a global VLAN. */
  datatype Vlan = Vlan(pk: nat, site: Option<nat>)

  /** The form field a validation error is attached to. */
  datatype FormField = ModeField | TaggedVlansField

  /** The errors the two `clean` methods raise. */
  datatype ModeError =
    | AccessWithTaggedVlans          // an access interface was given tagged VLANs
    | ForeignTaggedVlans(vlans: seq<Vlan>)  // these tagged VLANs are of another site

  function ErrorField(e: ModeError): FormField {
    match e
    case AccessWithTaggedVlans => ModeField
    case ForeignTaggedVlans(_) => TaggedVlansField
  }

  /** A tagged VLAN is acceptable when it is global or at the parent device/VM's site. */
  predicate SiteAllowed(v: Vlan, parentSite: Option<nat>) {
    v.site == None || v.site == parentSite
  }

  /** The tagged VLANs whose site is neither global nor the parent's, in input order. */
  function InvalidVlans(tagged: seq<Vlan>, parentSite: Option<nat>): (r: seq<Vlan>)
    ensures |r| <= |tagged|
    ensures forall v :: v in r ==> v in tagged && !SiteAllowed(v, parentSite)
    ensures forall v :: v in tagged && !SiteAllowed(v, parentSite) ==> v in r
  {
    if tagged == [] then []
    else
      (if SiteAllowed(tagged[0], parentSite) then [] else [tagged[0]])
      + InvalidVlans(tagged[1..], parentSite)
  }

  /**
   * The offending list keeps input order: it distributes over concatenation, so it is
   * exactly the input with the acceptable VLANs removed.
   */
  lemma {:induction false} InvalidVlansAppend(a: seq<Vlan>, b: seq<Vlan>, parentSite: Option<nat>)
    ensures InvalidVlans(a + b, parentSite) == InvalidVlans(a, parentSite) + InvalidVlans(b, parentSite)
  {
    if a == [] {
      assert a + b == b;
    } else {
      assert (a + b)[1..] == a[1..] + b;
      InvalidVlansAppend(a[1..], b, parentSite);
    }
  }

  /**
   * `InterfaceCommonForm.clean`: the tagged-VLAN list the form keeps, or the error it raises.
   */
  function CleanCommon(mode: Mode, tagged: seq<Vlan>, parentSite: Option<nat>): (r: Result<seq<Vlan>, ModeError>)
    ensures mode == Access ==> (r.Err? <==> tagged != [])
    ensures mode == TaggedAll ==> r == Ok([])
    ensures mode == Tagged ==> (r.Ok? <==> forall v :: v in tagged ==> SiteAllowed(v, parentSite))
    ensures mode == Unset ==> r.Ok?
    ensures r.Ok? && mode != TaggedAll ==> r.value == tagged
    ensures r.Err? && mode == Access ==> r.error == AccessWithTaggedVlans && ErrorField(r.error) == ModeField
    ensures r.Err? && mode == Tagged ==>
      r.error == ForeignTaggedVlans(InvalidVlans(tagged, parentSite)) && ErrorField(r.error) == TaggedVlansField
  {
    if mode == Access && tagged != [] then Err(AccessWithTaggedVlans)
    else if mode == TaggedAll then Ok([])
    else if mode == Tagged then
      var invalid := InvalidVlans(tagged, parentSite);
      if invalid != [] then
        assert invalid[0] in invalid;
        Err(ForeignTaggedVlans(invalid))
      else Ok(tagged)
    else Ok(tagged)
  }

  /** `InterfaceBulkEditForm.clean`: the access and tagged-all rules only; no site check. */
  function CleanBulkEdit(mode: Mode, tagged: seq<Vlan>): (r: Result<seq<Vlan>, ModeError>)
    ensures r.Err? <==> mode == Access && tagged != []
    ensures r.Err? ==> r.error == AccessWithTaggedVlans
    ensures r.Ok? ==> r.value == if mode == TaggedAll then [] else tagged
  {
    if mode == Access && tagged != [] then Err(AccessWithTaggedVlans)
    else if mode == TaggedAll then Ok([])
    else Ok(tagged)
  }

  /** Cleaning what a clean kept changes nothing further. */
  lemma CleanCommonIdempotent(mode: Mode, tagged: seq<Vlan>, parentSite: Option<nat>)
    requires CleanCommon(mode, tagged, parentSite).Ok?
    ensures var kept := CleanCommon(mode, tagged, parentSite).value;
      CleanCommon(mode, kept, parentSite) == Ok(kept)
  {
  }

  lemma CleanBulkEditIdempotent(mode: Mode, tagged: seq<Vlan>)
    requires CleanBulkEdit(mode, tagged).Ok?
    ensures var kept := CleanBulkEdit(mode, tagged).value;
      CleanBulkEdit(mode, kept) == Ok(kept)
  {
  }

  /**
   * The bulk-edit rule is the single-interface rule without the site check: the two agree
   * outside tagged mode, and whatever the single-interface rule accepts the bulk rule
   * accepts with the same result.
   */
  lemma BulkEditAgreesWithCommon(mode: Mode, tagged: seq<Vlan>, parentSite: Option<nat>)
    ensures mode != Tagged ==> CleanBulkEdit(mode, tagged) == CleanCommon(mode, tagged, parentSite)
    ensures CleanCommon(mode, tagged, parentSite).Ok? ==>
      CleanBulkEdit(mode, tagged) == CleanCommon(mode, tagged, parentSite)
  {
  }

  /** The cleaned data of one interface form: the mode, the tagged VLANs, the parent's site. */
  class InterfaceCleanedData {
    var mode: Mode
    var taggedVlans: seq<Vlan>
    const parentSite: Option<nat>

    constructor (mode: Mode, taggedVlans: seq<Vlan>, parentSite: Option<nat>)
      ensures this.mode == mode && this.taggedVlans == taggedVlans && this.parentSite == parentSite
    {
      this.mode := mode;
      this.taggedVlans := taggedVlans;
      this.parentSite := parentSite;
    }

    /**
     * `InterfaceCommonForm.clean`: raises, or leaves `taggedVlans` as the rule says
     * (emptied for tagged-all).
     */
    method Clean() returns (error: Option<ModeError>)
      modifies this`taggedVlans
      ensures var r := CleanCommon(mode, old(taggedVlans), parentSite);
        && (r.Err? ==> error == Some(r.error) && taggedVlans == old(taggedVlans))
        && (r.Ok? ==> error == None && taggedVlans == r.value)
    {
      error := None;
      if mode == Access && taggedVlans != [] {
        error := Some(AccessWithTaggedVlans);
      } else if mode == TaggedAll {
        taggedVlans := [];
      } else if mode == Tagged {
        var invalid := InvalidVlans(taggedVlans, parentSite);
        if invalid != [] {
          error := Some(ForeignTaggedVlans(invalid));
        }
      }
    }

    /** `InterfaceBulkEditForm.clean` on the same cleaned data. */
    method CleanBulk() returns (error: Option<ModeError>)
      modifies this`taggedVlans
      ensures var r := CleanBulkEdit(mode, old(taggedVlans));
        && (r.Err? ==> error == Some(r.error) && taggedVlans == old(taggedVlans))
        && (r.Ok? ==> error == None && taggedVlans == r.value)
    {
      error := None;
      if mode == Access && taggedVlans != [] {
        error := Some(AccessWithTaggedVlans);
      } else if mode == TaggedAll {
        taggedVlans := [];
      }
    }
  }
}
