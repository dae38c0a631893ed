# NetBox DCIM form rules, modelled in Dafny

This project models the validation and allocation logic buried in NetBox's DCIM form
layer (`netbox/dcim/forms.py`): the checks and list-building loops that run when a user
creates or edits interfaces, front ports, cables and virtual chassis. The objects the
forms would fetch from the database (VLANs with an optional site, rear ports with a
position count, existing front-port mappings, member forms, cable-terminating components)
are plain Dafny values passed in; the database and the web framework are not modelled.

Modules, one per concern of the source:

- `Wrappers` — `Option` (Python `None` / a missing cleaned-data key) and `Result` (a cleaned value or the raised `ValidationError`).
- `Decimal` — decimal text of non-negative integers, as written by `'{}'.format(n)` and read by `int(s)`.
- `DeviceLookup` — the string part of `get_device_by_name_or_pk`: the `{\d+\}` prefix match, `strip('{}')`, and a corrected whole-reference classification.
- `InterfaceMode` — the 802.1Q mode rules of `InterfaceCommonForm.clean` and `InterfaceBulkEditForm.clean`, as functions and as in-place updates of the cleaned data (class `InterfaceCleanedData`).
- `ComponentPatterns` — the name/label and name/rear-port count checks of `ComponentForm.clean` and of the front-port create forms' `clean`.
- `RearPortChoices` — the rear-port position allocator (the constructor loops of `FrontPortTemplateCreateForm` and `FrontPortCreateForm`), the `"pk:position"` choice encoding and `get_iterative_data`.
- `RearPortChoiceProperties` — what the allocator guarantees: soundness, completeness, order, uniqueness and the choice round trip.
- `FrontPortCreate` — an accepted front-port create gives every iteration a free rear-port position.
- `BulkEditSite` — the site-consensus loop of `InterfaceBulkEditForm.__init__` and the `site_id` filters it adds.
- `Devices` — the device fields the forms assign in place (site, rack, parent bay, chassis, position).
- `VirtualChassis` — duplicate positions in `BaseVCMemberFormSet.clean`, position assignment in `VirtualChassisCreateForm.save`, `DeviceVCMembershipForm.clean_vc_position` and `VCMemberSelectForm.clean_device`.
- `Cables` — `CableCSVForm._clean_side` (termination resolution and the in-place `termination_a`/`termination_b` assignment), `clean_length_unit` and `CableBulkEditForm.clean`.
- `CsvRules` — `InterfaceCSVForm.clean_enabled` and `ChildDeviceCSVForm.clean`.

Conventions taken from Python's semantics: a cleaned `vc_position` of `None` or 0 is no
position, a cable length of `None` or 0 is no length, and a unit or component name of
`None` or `''` is missing (all falsy in Python). Validation errors are modelled by the
field they are attached to and the items they list, not by their text.

## Model

| member | source | states |
|---|---|---|
| `Decimal.NatToString` | netbox/dcim/forms.py:1670 | the decimal text of a number is non-empty, all digits, and starts with '0' only for zero |
| `Decimal.ParseNat` | netbox/dcim/forms.py:1692-1693 | `int()` restricted to ASCII: the text is read exactly when it is a non-empty string of the digits 0-9 (see "## Left out") |
| `Decimal.ParseNatToString` | netbox/dcim/forms.py:1670-1693 | reading back the decimal text of `n` gives `n` |
| `Decimal.NatToStringInjective` | netbox/dcim/forms.py:1670 | two numbers with the same decimal text are equal |
| `DeviceLookup.DigitRun` | netbox/dcim/forms.py:36 | the run counted is a maximal run of ASCII digits 0-9 starting at the given index (the pattern's `\d`, read as ASCII) |
| `DeviceLookup.MatchesPkPrefixMeaning` | netbox/dcim/forms.py:36-49 | with `\d` read as ASCII 0-9, the greedy test accepts exactly the strings that `re.match(r'{\d+\}', s)` matches: '{', some k >= 1 digits, '}', anything after |
| `DeviceLookup.LeadingBraces` | netbox/dcim/forms.py:50 | counts exactly the leading '{'/'}' characters |
| `DeviceLookup.TrailingBraces` | netbox/dcim/forms.py:50 | counts exactly the trailing '{'/'}' characters |
| `DeviceLookup.StripEnd` | netbox/dcim/forms.py:50 | the end cut of `strip('{}')` lies after the leading braces, only braces follow it, and the character before it is not a brace |
| `DeviceLookup.StripBraces` | netbox/dcim/forms.py:50 | `strip('{}')` is the input with exactly its leading brace run and its trailing brace run cut off, and neither begins nor ends with a brace |
| `DeviceLookup.AsWrittenKeyStartsWithDigits` | netbox/dcim/forms.py:49-50 | as written, the key of a prefix-matched reference begins with the matched digits |
| `DeviceLookup.ClassifyAsWrittenMeaning` | netbox/dcim/forms.py:45-54 | `ClassifyAsWritten`, the lookup as written: by primary key exactly when the pattern matches at the start, with a key that begins with the matched digits; otherwise by the unchanged name |
| `DeviceLookup.Classify` | netbox/dcim/forms.py:45-54 | (corrected) a reference is a primary key exactly when it is '{' digits '}', the key being the digits; anything else is a name, unchanged |
| `DeviceLookup.ClassifyPkReference` | netbox/dcim/forms.py:49-51 | the reference "{pk}" is read back as the key text of `pk` |
| `DeviceLookup.PlainNameIsName` | netbox/dcim/forms.py:49-53 | a reference that does not begin with '{' is looked up by name, as written and as corrected |
| `DeviceLookup.AsWrittenAgreesOnPkReferences` | netbox/dcim/forms.py:49-50 | on whole "{digits}" references the code as written and the corrected lookup give the same key |
| `DeviceLookup.PrefixMatchMisreadsName` | netbox/dcim/forms.py:49-50 | as written, "{12}x" is looked up by the non-numeric key "12}x"; corrected, it is the name "{12}x" |
| `InterfaceMode.InvalidVlans` | netbox/dcim/forms.py:130-131 | the offending list holds exactly the tagged VLANs that fail `SiteAllowed`, i.e. are neither global nor at the parent's site |
| `InterfaceMode.InvalidVlansAppend` | netbox/dcim/forms.py:131 | the offending list distributes over concatenation, so it keeps input order |
| `InterfaceMode.CleanCommon` | netbox/dcim/forms.py:112-137 | access mode with tagged VLANs is rejected on `mode`; tagged-all keeps no tagged VLANs; tagged mode is accepted iff every tagged VLAN is global or at the parent's site, and otherwise rejected on `tagged_vlans` naming exactly the offending VLANs; accepted lists are otherwise unchanged |
| `InterfaceMode.CleanBulkEdit` | netbox/dcim/forms.py:3321-3332 | rejected exactly in access mode with tagged VLANs; tagged-all keeps no tagged VLANs; otherwise the list is kept |
| `InterfaceMode.CleanCommonIdempotent` | netbox/dcim/forms.py:125-126 | cleaning what a clean kept is accepted and keeps it (tagged-all applied twice changes nothing) |
| `InterfaceMode.CleanBulkEditIdempotent` | netbox/dcim/forms.py:3331-3332 | the same for the bulk-edit rule |
| `InterfaceMode.BulkEditAgreesWithCommon` | netbox/dcim/forms.py:3321-3332 | the bulk-edit rule equals the single-interface rule outside tagged mode, and accepts with the same result whatever the single-interface rule accepts |
| `InterfaceMode.InterfaceCleanedData.Clean` | netbox/dcim/forms.py:112-137 | the in-place clean raises the rule's error and leaves the tagged list, or stores the rule's tagged list (emptied for tagged-all) |
| `InterfaceMode.InterfaceCleanedData.CleanBulk` | netbox/dcim/forms.py:3321-3332 | the same for the bulk-edit clean |
| `ComponentPatterns.CleanComponent` | netbox/dcim/forms.py:154-165 | an empty label pattern is always accepted; a non-empty one is accepted iff it has as many entries as the name pattern, else the error is on `label_pattern` with both counts |
| `ComponentPatterns.CleanFrontPort` | netbox/dcim/forms.py:1674-1684 | accepted iff the label check passes and the name count equals the number of selected rear-port positions; the label error takes precedence; otherwise the error is on `rear_port_set` with both counts |
| `FrontPortCreate.AcceptedCreateIsAllocatable` | netbox/dcim/forms.py:3485-3505 | after an accepted clean with offered selections, every iteration over the names has a label (if labels were given) and `get_iterative_data` yields a free position of one of the rear ports |
| `RearPortChoices.ChoicesOf` | netbox/dcim/forms.py:1669-1671 | one choice per slot |
| `RearPortChoices.ChoicesOfAt` | netbox/dcim/forms.py:1669-1671 | choice k is built from slot k |
| `RearPortChoices.ChoicesMatchSlots` | netbox/dcim/forms.py:1664-1672 | `Choices`, the list the constructors install, is exactly the encoding of the available slots, in order |
| `RearPortChoices.BuildChoices` | netbox/dcim/forms.py:1664-1672 | the nested loop builds exactly the specified choice list (template form; the device form at 3475-3483 is the same loop) |
| `RearPortChoices.ColonIndex` | netbox/dcim/forms.py:1689 | the index found is that of the first ':' (or the end) |
| `RearPortChoices.SplitPair` | netbox/dcim/forms.py:1689 | `split(':')` into two parts succeeds only when the text is two colon-free parts around one ':' |
| `RearPortChoiceProperties.SplitPairComplete` | netbox/dcim/forms.py:1689 | conversely, text with exactly one ':' splits into the two parts around it |
| `RearPortChoiceProperties.DecodeEncode` | netbox/dcim/forms.py:1670-1694 | `DecodeValue` inverts `EncodeValue`: decoding the value `'{}:{}'.format(pk, i)` gives exactly `(pk, i)` |
| `RearPortChoiceProperties.EncodeInjective` | netbox/dcim/forms.py:1670 | `EncodeValue` gives distinct (pk, position) pairs distinct choice values |
| `RearPortChoiceProperties.DecodeValueExact` | netbox/dcim/forms.py:1689-1694 | `DecodeValue` (the split and the two `int()` calls): digits ':' digits decodes to the two decimal values |
| `RearPortChoiceProperties.DecodeValueShape` | netbox/dcim/forms.py:1689-1694 | `DecodeValue` decodes only digits ':' digits |
| `RearPortChoiceProperties.PortSlotsSound` | netbox/dcim/forms.py:1667-1668 | the slots of one rear port are free positions 1..hi of that port |
| `RearPortChoiceProperties.AvailableSlotsSound` | netbox/dcim/forms.py:1666-1668 | every slot offered for the first n rear ports is a free position `1 <= i <= positions` of one of them |
| `RearPortChoiceProperties.AvailableSound` | netbox/dcim/forms.py:1667-1668 | every offered pair satisfies `1 <= i <= rp.positions` and is not occupied |
| `RearPortChoiceProperties.PortSlotsComplete` | netbox/dcim/forms.py:1667-1668 | every free position up to hi of a port is among its slots |
| `RearPortChoiceProperties.AvailableSlotsComplete` | netbox/dcim/forms.py:1666-1668 | every free position of the first n ports is offered |
| `RearPortChoiceProperties.AvailableComplete` | netbox/dcim/forms.py:1666-1668 | every unoccupied pair of every rear port is offered |
| `RearPortChoiceProperties.PortSlotsOrdered` | netbox/dcim/forms.py:1667 | one port's slots come in ascending position |
| `RearPortChoiceProperties.AvailableSlotsOrdered` | netbox/dcim/forms.py:1666-1667 | the slots of the first n ports are ordered by port, then position |
| `RearPortChoiceProperties.AvailableOrdered` | netbox/dcim/forms.py:1666-1667 | offered slots are ordered by rear port, then ascending position, so none is offered twice |
| `RearPortChoiceProperties.ChoiceAt` | netbox/dcim/forms.py:1666-1694 | choice k is the encoding of free slot k, is labelled (`EncodeLabel`) with the rear port's name, ':' and the position, and decodes to its rear-port pk and position |
| `RearPortChoiceProperties.ChoiceValuesDistinct` | netbox/dcim/forms.py:1666-1671 | with distinct rear-port keys no two choices share a value: each unoccupied pair is offered exactly once |
| `RearPortChoiceProperties.IterativeDataOfOffered` | netbox/dcim/forms.py:1686-1694 | `IterativeData` (`get_iterative_data`) on an offered value yields a free position of one of the rear ports |
| `BulkEditSite.CommonSite` | netbox/dcim/forms.py:3300-3311 | the result is the common site when the selection is non-empty and all devices share it, otherwise none |
| `BulkEditSite.SiteFilterParams` | netbox/dcim/forms.py:3302-3314 | both VLAN fields get a `site_id` filter for the common site, and no filter is added when there is none or nothing is selected |
| `VirtualChassis.SeenPositions` | netbox/dcim/forms.py:4609-4616 | `vc_position_list` holds exactly the non-empty positions seen |
| `VirtualChassis.SeenStep` | netbox/dcim/forms.py:4611-4616 | one turn appends the form's non-empty position, and a position is already listed iff the form is a duplicate |
| `VirtualChassis.FlaggedHasUnflaggedFirst` | netbox/dcim/forms.py:4609-4616 | every flagged form follows an unflagged form at the same position |
| `VirtualChassis.FirstOccurrenceNotFlagged` | netbox/dcim/forms.py:4612-4614 | a first occurrence and an empty position are never flagged |
| `VirtualChassis.CleanFormSet` | netbox/dcim/forms.py:4605-4616 | a form gets one `vc_position` error iff its non-empty position appeared in an earlier form; other forms are untouched |
| `VirtualChassis.StartPosition` | netbox/dcim/forms.py:4568 | `initial_position or 1` is never the falsy 0: a truthy initial position, otherwise 1 |
| `VirtualChassis.AssignMembers` | netbox/dcim/forms.py:4564-4573 | with a saved chassis the k-th member joins it at `start + k` (start is `initial_position`, or 1 when absent or 0), so positions strictly increase; nothing else changes |
| `VirtualChassis.ConflictingMembers` | netbox/dcim/forms.py:4645-4648 | the query returns exactly the devices of that chassis at that position |
| `VirtualChassis.CleanVcPosition` | netbox/dcim/forms.py:4641-4655 | with validation on, a position held by a device of the same chassis is refused; otherwise the position is returned |
| `VirtualChassis.CleanMemberDevice` | netbox/dcim/forms.py:4697-4702 | a device is accepted iff it belongs to no virtual chassis |
| `Cables.Matching` | netbox/dcim/forms.py:4286 | the lookup finds exactly the components of that type, device and name |
| `Cables.ResolveSide` | netbox/dcim/forms.py:4270-4293 | nothing when an input is missing; not found iff no component matches; a returned termination is a matching, uncabled component; an already-connected one is a matching, cabled component |
| `Cables.MatchingOfUnique` | netbox/dcim/forms.py:4286 | in a table with distinct rows, a sole matching component is the whole lookup result |
| `Cables.UniqueComponentResolution` | netbox/dcim/forms.py:4285-4293 | a sole matching component is accepted if uncabled and rejected as already connected if cabled |
| `Cables.CableInstance.CleanSide` | netbox/dcim/forms.py:4292-4299 | the side's termination is set to the resolved component, and nothing else changes |
| `Cables.NormaliseLengthUnit` | netbox/dcim/forms.py:4301-4304 | a missing unit becomes `''`, a given one is kept |
| `Cables.CleanBulkLength` | netbox/dcim/forms.py:4349-4358 | rejected exactly when a length is set without a unit |
| `CsvRules.CleanEnabled` | netbox/dcim/forms.py:3394-3399 | a row without an `enabled` column gives `True`; otherwise the cleaned value |
| `CsvRules.CleanChildDevice` | netbox/dcim/forms.py:2350-2362 | the device bay is set when given, and the child takes its parent's site and rack; nothing else changes |

## Left out

- Field declarations, widgets, `query_params`/`initial_params`, help texts and `Meta` classes: declarative wiring with no behaviour.
- Database access: `Device.objects.get`, `DeviceType.objects.get`, the queryset filters of the constructors and `.exists()` are replaced by sequences passed in (rear ports, occupied mappings, devices, components); persistence is not modelled.
- `MACAddressField.to_python`: it delegates EUI-48 parsing to `netaddr.EUI`, which is not part of this model.
- `ExpandableNameField` expansion: `utilities/forms` is not part of this model; name and label patterns are taken as already-expanded sequences.
- `DeviceForm.__init__`: primary-IP choice assembly and rack-position widget setup are queries and rendering.
- MTU, ASN and rear-port-position bounds: the constants live in files that are not part of this model and are enforced by Django's `IntegerField`.
- `member.save()` and `super().save()` in `VirtualChassisCreateForm.save`: only the in-memory assignment is modelled; whether the chassis got a primary key is an input.
- The inherited `super().clean()` of `BootstrapMixin`, `CustomFieldForm` and the Django base classes is not part of this model; the front-port `clean` is modelled as calling `ComponentForm.clean` first.
- `InterfaceCommonForm.clean` choosing between the `device` and `virtual_machine` parent, and the `KeyError` it raises when a field failed its own validation: the parent's site is an input.
- `InterfaceBulkEditForm.__init__` with a `device` in `initial` (device-scoped query parameters) and the disabling of the parent/LAG choices: widget wiring.
- `BulkEditSite.CommonSite`: sites are primary keys and every device has one; the source's identity test `is not` is modelled as key inequality.
- `Decimal.ParseNat`: `int()` is modelled on ASCII digit strings only; Python also reads surrounding blanks, a sign, underscores between digits and non-ASCII decimal digits, which the model reports as unreadable.
- `RearPortChoices.DecodeValue`: inherits that restriction; in the forms it cannot matter, because a `MultipleChoiceField` accepts only the offered values, which are ASCII digits.
- `DeviceLookup.DigitRun`: the pattern's `\d` is taken as the ASCII digits 0-9, whereas a Python 3 `str` pattern also matches every other Unicode decimal digit (so `"{٣}"` is a primary-key reference for the source and a name for the model).
- `DeviceLookup.MatchesPkPrefixMeaning`: states the match with `\d` read as ASCII 0-9 only, for the same reason.
- `Cables.ResolveSide`: `content_type.model_class()` dispatch is modelled by a content-type key on each component; models without a `device` field are not considered.
- `get_device_by_name_or_pk`: only the classification of the text is modelled, not the lookup or its `DoesNotExist`.
- Exact error-message wording.

## Findings

| source | as written | input that shows it | evidently intended | confidence | as-written member | corrected member |
|---|---|---|---|---|---|---|
| netbox/dcim/forms.py:36-50 | `re.match(r'{\d+\}', name)` matches only a prefix, and `strip('{}')` then keeps the rest of the text | `"{12}x"` is looked up by primary key `"12}x"`, which is not a number, instead of by the name `"{12}x"` | only a whole `{digits}` reference is a primary key; any other text is a device name | medium; not executed | `DeviceLookup.PrefixMatchMisreadsName` | `DeviceLookup.Classify` |
