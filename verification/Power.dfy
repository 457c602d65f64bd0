/** Power loss and exceptions, shared by every protocol of the control plane.
    A durable write is one step. A machine keeps its disk through a power loss and
    nothing else; a raised exception is the status `Refused`. */
module Power {

  datatype Option<+T> = None | Some(value: T)

  datatype Status = Ok | Refused | PowerLost {
    predicate IsFailure() {
      !Ok?
    }

    function PropagateFailure(): Status
      requires IsFailure()
    {
      this
    }
  }

  function Need(condition: bool): Status {
    if condition then Ok else Refused
  }

  /** A write-once record, once written, never changes. */
  predicate Once<T(==)>(was: Option<T>, is': Option<T>) {
    was.Some? ==> is' == was
  }

  /** A leaf may be published when it is absent or already holds the same bytes. */
  predicate Free<T(==)>(leaf: Option<T>, value: T) {
    leaf.None? || leaf.value == value
  }

  /** A host whose power lasts for a given number of durable writes: a run with
      power `n` ends exactly where a crash after the `n`-th write would end it. */
  class Machine<D> {
    var disk: D
    var power: nat

    constructor (disk: D)
      ensures this.disk == disk && power == 0
    {
      this.disk, this.power := disk, 0;
    }

    /** One atomic durable write, or a power loss just before it. */
    method Put(next: D) returns (r: Status)
      modifies this
      ensures r == if old(power) == 0 then PowerLost else Ok
      ensures disk == if r.Ok? then next else old(disk)
      ensures power == if r.Ok? then old(power) - 1 else 0
    {
      if power == 0 {
        return PowerLost;
      }
      disk, power := next, power - 1;
      return Ok;
    }

    /** One file that is not written atomically: created, then filled. */
    method Write(torn: D, whole: D) returns (r: Status)
      modifies this
      ensures r == if old(power) < 2 then PowerLost else Ok
      ensures disk == if r.Ok? then whole else if old(power) == 0 then old(disk) else torn
      ensures power == if r.Ok? then old(power) - 2 else 0
    {
      r := Put(torn);
      if r.Ok? {
        r := Put(whole);
      }
    }

    /** Write a leaf once, or find the same bytes already there. `next` is the
        disk with the leaf holding `value`. */
    method Publish<T(==)>(leaf: Option<T>, value: T, next: D) returns (r: Status)
      requires leaf == Some(value) ==> next == disk
      modifies this
      ensures disk == if r.Ok? then next else old(disk)
      ensures r == if leaf.Some? then Need(leaf.value == value) else if old(power) == 0 then PowerLost else Ok
      ensures power == if leaf.Some? || old(power) == 0 then old(power) else old(power) - 1
    {
      if leaf.Some? {
        return Need(leaf.value == value);
      }
      r := Put(next);
    }
  }
}
