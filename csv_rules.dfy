/** Small per-row rules of the CSV import forms for interfaces and child devices. */
module CsvRules {
  import opened Wrappers
  import opened Devices

  /**
   * `InterfaceCSVForm.clean_enabled`: `row` is the uploaded row (column to text),
   * `cleanedEnabled` the field's cleaned value. A row without the column leaves the
   * interface enabled.
   */
  function CleanEnabled(row: map<string, string>, cleanedEnabled: bool): (r: bool)
    ensures "enabled" !in row ==> r
    ensures "enabled" in row ==> r == cleanedEnabled
  {
    if "enabled" !in row then true else cleanedEnabled
  }

  /**
   * `ChildDeviceCSVForm.clean`: the bay the device is installed in, and the site and rack
   * of the parent device, are copied onto the new device; what is missing changes nothing.
   */
  method CleanChildDevice(instance: Device, deviceBay: Option<nat>, parent: Option<Device>)
    modifies instance
    ensures instance.parentBay == if deviceBay.Some? then deviceBay else old(instance.parentBay)
    ensures parent.Some? ==> instance.site == old(parent.value.site) && instance.rack == old(parent.value.rack)
    ensures parent.None? ==> instance.site == old(instance.site) && instance.rack == old(instance.rack)
    ensures instance.virtualChassis == old(instance.virtualChassis) && instance.vcPosition == old(instance.vcPosition)
  {
    if deviceBay.Some? {
      instance.parentBay := deviceBay;
    }
    if parent.Some? {
      instance.site := parent.value.site;
      instance.rack := parent.value.rack;
    }
  }
}
