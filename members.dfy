/** The member records the two batch jobs read and update. Only the attributes the
    training core touches are modelled. */
module Members {
  import opened Php

  /** A user row: its subdivision and visiting-controller flag come from the membership
      data and are never changed by the core; the mentor group and the two
      associations (`teaches`: trainings mentored, `groups`: role memberships) are. */
  class User {
    const id: nat
    const subdivision: Option<string>
    const visitingController: bool
    var group: Option<nat>
    var groups: set<nat>
    var teaches: set<nat>

    constructor (id: nat, subdivision: Option<string>, visitingController: bool,
                 group: Option<nat>, groups: set<nat>, teaches: set<nat>)
      ensures this.id == id && this.subdivision == subdivision
      ensures this.visitingController == visitingController
      ensures this.group == group && this.groups == groups && this.teaches == teaches
    {
      this.id := id;
      this.subdivision := subdivision;
      this.visitingController := visitingController;
      this.group := group;
      this.groups := groups;
      this.teaches := teaches;
    }
  }
}
