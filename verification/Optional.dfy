/** Results that may be missing. */
module Optional {

  datatype Option<+T> = None | Some(value: T)

  /** What follows a part that was read, if it could be read. */
  function Behind<T>(part: seq<T>, rest: Option<seq<T>>): Option<seq<T>> {
    if rest.None? then None else Some(part + rest.value)
  }

  lemma BehindNothing<T>(rest: Option<seq<T>>)
    ensures Behind([], rest) == rest
  {
    assert rest.Some? ==> [] + rest.value == rest.value;
  }

  lemma BehindBehind<T>(a: seq<T>, b: seq<T>, rest: Option<seq<T>>)
    ensures Behind(a, Behind(b, rest)) == Behind(a + b, rest)
  {
    assert rest.Some? ==> a + (b + rest.value) == a + b + rest.value;
  }
}
