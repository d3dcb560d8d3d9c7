/** What every module of the model shares: Python's `X | None`, and some member of a set, for a proof and for a loop. */
module Wrappers {
  datatype Option<+T> = None | Some(value: T) {
    function GetOr(default: T): T {
      if Some? then value else default
    }
  }

  ghost function SomeOf<T>(members: set<T>): (member: T)
    requires members != {}
    ensures member in members
  {
    assert |members| > 0;
    var member :| member in members;
    member
  }

  /** The next member of a set a loop goes over, in no order. */
  method AnyOf<T>(members: set<T>) returns (member: T)
    requires members != {}
    ensures member in members
  {
    assert |members| > 0;
    member :| member in members;
  }
}
