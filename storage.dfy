/** A key of the browser's local or session storage, as the services see it
    after `JSON.parse`: missing, holding text that does not parse, or holding a
    value. */
module Storage {

  datatype Slot<T> = Absent | Corrupt | Stored(value: T)
  {
    /** What a reader gets: the stored value, or `default` when the key is
        missing or its content does not parse. */
    function ReadOr(default: T): (r: T)
      ensures Stored? ==> r == value
      ensures !Stored? ==> r == default
    {
      if Stored? then value else default
    }
  }
}
