/** Values shared by the dashboard components: JavaScript's `null`-able values and the
    outcome of a call to the hosted backend, which either yields a value or an error
    whose `message` the components copy into their `error` field. */
module Common {

  /** A value that may be `null` in the source. */
  datatype Option<+T> = None | Some(value: T)

  /** The outcome of a remote call that returns a record. */
  datatype Result<+T> = Ok(value: T) | Err(msg: string)

  /** The outcome of a remote call that returns no record (update, delete, upload). */
  datatype Status = Success | Failure(msg: string)

  /** Concatenation regrouped, as a step for the proofs about list rewrites. */
  lemma AppendAssoc<T>(x: seq<T>, y: seq<T>, z: seq<T>)
    ensures x + (y + z) == (x + y) + z
  {
  }

  /** A prefix `r` of a suffix `t` of `s` is the slice of `s` starting where `t` does. */
  lemma PrefixOfSuffix<T>(s: seq<T>, t: seq<T>, r: seq<T>)
    requires |t| <= |s| && t == s[|s| - |t|..]
    requires |r| <= |t| && r == t[..|r|]
    ensures |s| - |t| + |r| <= |s| && s[|s| - |t|..|s| - |t| + |r|] == r
    ensures r != [] ==> r[0] == t[0]
  {
  }
}
