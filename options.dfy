/** An optional value: JavaScript's `undefined`/`null` versus a present value. */
module Options {
  datatype Option<T> = None | Some(value: T)
  {
    /** `x ?? d` */
    function GetOr(d: T): (r: T)
      ensures this.None? ==> r == d
      ensures this.Some? ==> r == this.value
    {
      match this
      case None => d
      case Some(v) => v
    }
  }

  /** JavaScript truthiness of an optional string: present and non-empty. */
  predicate Truthy(o: Option<string>) { o.Some? && o.value != "" }
}
