/** The device fields the forms assign in place. */
module Devices {
  import opened Wrappers

  /**
   * A device instance: site and rack, the device bay it is installed in (for a child
   * device), and its virtual chassis membership. Related objects are given by primary key.
   */
  class Device {
    var site: Option<nat>
    var rack: Option<nat>
    var parentBay: Option<nat>
    var virtualChassis: Option<nat>
    var vcPosition: Option<int>

    constructor (site: Option<nat>, rack: Option<nat>, virtualChassis: Option<nat>, vcPosition: Option<int>)
      ensures this.site == site && this.rack == rack && this.parentBay == None
      ensures this.virtualChassis == virtualChassis && this.vcPosition == vcPosition
    {
      this.site := site;
      this.rack := rack;
      this.parentBay := None;
      this.virtualChassis := virtualChassis;
      this.vcPosition := vcPosition;
    }
  }
}
