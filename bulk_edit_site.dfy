/**
 * The site consensus of `InterfaceBulkEditForm.__init__` when no single device is given:
 * the VLAN pickers are narrowed to a site only when every selected interface's device is
 * at that one site. Sites are identified by primary key; every device has one.
 */
module BulkEditSite {
  import opened Wrappers

  predicate AllSameSite(sites: seq<nat>) {
    forall k :: 0 <= k < |sites| ==> sites[k] == sites[0]
  }

  /**
   * The loop over the selected interfaces (`sites[k]` is the site of the k-th one's device):
   * the first sets the site, a later one at another site resets it and stops the loop.
   */
  method CommonSite(sites: seq<nat>) returns (site: Option<nat>)
    ensures site == if sites != [] && AllSameSite(sites) then Some(sites[0]) else None
  {
    site := None;
    var i := 0;
    while i < |sites|
      invariant 0 <= i <= |sites|
      invariant i == 0 ==> site == None
      invariant i > 0 ==> site == Some(sites[0])
      invariant forall k :: 0 <= k < i ==> sites[k] == sites[0]
    {
      if site == None {
        site := Some(sites[i]);
      } else if sites[i] != site.value {
        site := None;
        break;
      }
      i := i + 1;
    }
  }

  /** A query parameter added to a form widget: the field, the parameter name and its value. */
  datatype QueryParam = QueryParam(field: string, name: string, value: nat)

  /**
   * The `'pk' in self.initial` branch: `selection` is `None` when no interfaces were passed,
   * otherwise the sites of the selected interfaces' devices. Both VLAN fields get a
   * `site_id` filter exactly when there is a common site.
   */
  method SiteFilterParams(selection: Option<seq<nat>>) returns (params: seq<QueryParam>)
    ensures params == [] <==> !(selection.Some? && selection.value != [] && AllSameSite(selection.value))
    ensures params != [] ==> params == [
      QueryParam("untagged_vlan", "site_id", selection.value[0]),
      QueryParam("tagged_vlans", "site_id", selection.value[0])]
  {
    params := [];
    if selection.Some? {
      var site := CommonSite(selection.value);
      if site.Some? {
        params := [QueryParam("untagged_vlan", "site_id", site.value), QueryParam("tagged_vlans", "site_id", site.value)];
      }
    }
  }
}
