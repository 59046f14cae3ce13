/** The settings of the computer that the daemon changes through its root helpers. */
module Machine {

  class Computer {
    const possible: nat         // core numbers are below this
    var online: set<int>        // cpu cores that are online
    var governors: seq<string>  // contents of every scaling_governor file
    var profile: seq<string>    // the platform_profile file: one string, or none when it does not exist

    constructor (possible: nat, online: set<int>, governors: seq<string>, profile: seq<string>)
      requires |profile| <= 1
      ensures this.possible == possible && this.online == online
      ensures this.governors == governors && this.profile == profile
    {
      this.possible, this.online, this.governors, this.profile := possible, online, governors, profile;
    }
  }
}
