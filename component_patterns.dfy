/**
 * Count matching of `ComponentForm.clean` and of the front-port create forms' `clean`.
 * The name and label patterns arrive already expanded, one entry per component.
 */
module ComponentPatterns {
  import opened Wrappers

  /** The form field a count error is attached to. */
  datatype FormField = LabelPattern | RearPortSet

  /** A count mismatch: the field it is reported on, the number of names, the other count. */
  datatype CountError = CountMismatch(field: FormField, names: nat, other: nat)

  /** `ComponentForm.clean`: a non-empty label pattern must give one label per name. */
  function CleanComponent(names: seq<string>, labels: seq<string>): (r: Option<CountError>)
    ensures labels == [] ==> r == None
    ensures labels != [] ==> (r == None <==> |labels| == |names|)
    ensures r.Some? ==> r.value == CountMismatch(LabelPattern, |names|, |labels|)
  {
    if labels != [] && |names| != |labels| then Some(CountMismatch(LabelPattern, |names|, |labels|))
    else None
  }

  /**
   * `clean` of `FrontPortTemplateCreateForm` and `FrontPortCreateForm`: the inherited label
   * check runs first; then one selected (rear port, position) value is needed per name.
   */
  function CleanFrontPort(names: seq<string>, labels: seq<string>, rearPortSet: seq<string>): (r: Option<CountError>)
    ensures r == None <==> CleanComponent(names, labels) == None && |names| == |rearPortSet|
    ensures CleanComponent(names, labels).Some? ==> r == CleanComponent(names, labels)
    ensures CleanComponent(names, labels) == None && r.Some? ==>
      r.value == CountMismatch(RearPortSet, |names|, |rearPortSet|)
  {
    var labelCheck := CleanComponent(names, labels);
    if labelCheck.Some? then labelCheck
    else if |names| != |rearPortSet| then Some(CountMismatch(RearPortSet, |names|, |rearPortSet|))
    else None
  }
}

/** What an accepted front-port create form guarantees to the per-port creation loop. */
module FrontPortCreate {
  import opened Wrappers
  import opened ComponentPatterns
  import opened RearPortChoices
  import opened RearPortChoiceProperties

  /**
   * Once `clean` accepts and every selected value is one of the offered choices, each
   * iteration over the names gets, from `get_iterative_data`, a free position of one of
   * the device's rear ports, and a label of its own when labels were given.
   */
  lemma AcceptedCreateIsAllocatable(
    rearPorts: seq<RearPort>, occupied: seq<Mapping>,
    names: seq<string>, labels: seq<string>, rearPortSet: seq<string>, iteration: nat)
    requires CleanFrontPort(names, labels, rearPortSet) == None
    requires forall v :: v in rearPortSet ==>
      exists k :: 0 <= k < |Choices(rearPorts, occupied)| && Choices(rearPorts, occupied)[k].value == v
    requires iteration < |names|
    ensures labels != [] ==> iteration < |labels|
    ensures iteration < |rearPortSet| && IterativeData(rearPortSet, iteration).Some?
    ensures var m := IterativeData(rearPortSet, iteration).value;
      exists j :: 0 <= j < |rearPorts| && rearPorts[j].pk == m.rearPort
        && 1 <= m.position <= rearPorts[j].positions && m !in occupied
  {
    assert rearPortSet[iteration] in rearPortSet;
    IterativeDataOfOffered(rearPorts, occupied, rearPortSet, iteration);
  }
}
