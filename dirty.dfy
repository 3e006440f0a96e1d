/**
 * `DirtyFlag` (riakfs.py:33-49): a descriptor that, read through an
 * instance with `autoupdate` set, always reports clean and, written with a
 * true value, asks that instance to save instead of recording anything.
 * The instance is passed as its `autoupdate` setting; the save it asks for
 * is returned to the caller, which owns `save`.
 */
module Dirty {

  class DirtyFlag {
    var isdirty: bool

    /** A new flag is clean. */
    constructor ()
      ensures !isdirty
    {
      isdirty := false;
    }

    /** `__get__`: clean whenever the instance updates automatically. */
    function Get(autoupdate: bool): (r: bool)
      reads this
      ensures r ==> !autoupdate
      ensures !autoupdate ==> r == isdirty
    {
      if autoupdate then false else isdirty
    }

    /**
     * `__set__`: with autoupdate a true value requests a save and nothing is
     * recorded; without it the value is recorded.
     */
    method Set(autoupdate: bool, value: bool) returns (saveRequested: bool)
      modifies this
      ensures saveRequested == (autoupdate && value)
      ensures autoupdate ==> isdirty == old(isdirty)
      ensures !autoupdate ==> isdirty == value
      ensures Get(autoupdate) == (!autoupdate && value)
    {
      if autoupdate {
        saveRequested := value;
      } else {
        isdirty := value;
        saveRequested := false;
      }
    }
  }
}
