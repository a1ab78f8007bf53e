/**
 * One shared build number: the `SharedBuildNumber` value handed to callers and the
 * mutable `SharedBuildNumberEntity` that the configuration stores.
 */
module Entity {
  import opened JavaString

  /**
   * The value copy of a shared build number that the service hands out and accepts.
   * Its text fields are Java references and may be null.
   */
  datatype SharedBuildNumber = SharedBuildNumber(
    id: int,
    name: NString,
    description: NString,
    format: NString,
    dateFormat: NString,
    incrementOnceForChain: bool,
    counter: int)

  /** `new SharedBuildNumber(id)`: no text yet, not once-per-chain, counter starting at 1. */
  function NewSharedBuildNumber(id: int): SharedBuildNumber
  {
    SharedBuildNumber(id, Null, Null, Null, Null, false, 1)
  }

  /** The stored record; each setter overwrites one field, and the counter also counts up in place. */
  class SharedBuildNumberEntity {
    var id: int
    var name: NString
    var description: NString
    var format: NString
    var dateFormat: NString
    var incrementOnceForChain: bool
    var counter: int

    /** All seven fields as a value: what `new SharedBuildNumber(entity)` copies. */
    function Value(): SharedBuildNumber
      reads this
    {
      SharedBuildNumber(id, name, description, format, dateFormat, incrementOnceForChain, counter)
    }

    constructor ()
      ensures Value() == SharedBuildNumber(0, Null, Null, Null, Null, false, 1)
    {
      id := 0;
      name, description, format, dateFormat := Null, Null, Null, Null;
      incrementOnceForChain := false;
      counter := 1;
    }

    method SetId(id: int)
      modifies this
      ensures Value() == old(Value()).(id := id)
    {
      this.id := id;
    }

    method SetName(name: NString)
      modifies this
      ensures Value() == old(Value()).(name := name)
    {
      this.name := name;
    }

    method SetDescription(description: NString)
      modifies this
      ensures Value() == old(Value()).(description := description)
    {
      this.description := description;
    }

    method SetFormat(format: NString)
      modifies this
      ensures Value() == old(Value()).(format := format)
    {
      this.format := format;
    }

    method SetDateFormat(dateFormat: NString)
      modifies this
      ensures Value() == old(Value()).(dateFormat := dateFormat)
    {
      this.dateFormat := dateFormat;
    }

    method SetIncrementOnceForChain(incrementOnceForChain: bool)
      modifies this
      ensures Value() == old(Value()).(incrementOnceForChain := incrementOnceForChain)
    {
      this.incrementOnceForChain := incrementOnceForChain;
    }

    method SetCounter(counter: int)
      modifies this
      ensures Value() == old(Value()).(counter := counter)
    {
      this.counter := counter;
    }

    /** Hands out the current counter and leaves the next one behind. */
    method GetAndIncrementCounter() returns (previous: int)
      modifies this
      ensures previous == old(counter)
      ensures Value() == old(Value()).(counter := previous + 1)
    {
      previous := counter;
      counter := counter + 1;
    }
  }
}
