/** Python list operations whose behaviour on negative or oversized bounds the modelled code relies on. */
module PyList {

  datatype Option<+T> = None | Some(value: T)

  /** A slice bound: a negative one counts from the end, and both ends are clamped. */
  function Bound(n: int, length: nat): (r: nat)
    ensures r <= length
  {
    if n < 0 then (if n + length < 0 then 0 else n + length)
    else if n > length then length
    else n
  }

  /** `s[:n]` */
  function Take<T>(s: seq<T>, n: int): seq<T> {
    s[..Bound(n, |s|)]
  }

  /** `s[n:]` */
  function Drop<T>(s: seq<T>, n: int): seq<T> {
    s[Bound(n, |s|)..]
  }

  /** `[x] * n` */
  function Repeat<T>(x: T, n: int): (r: seq<T>)
    ensures |r| == (if n < 0 then 0 else n)
    ensures forall i :: 0 <= i < |r| ==> r[i] == x
  {
    seq(if n < 0 then 0 else n, _ => x)
  }

  /** Concatenation of a list of lists, as the repeated `+=` of the source builds it. */
  function Flatten<T>(parts: seq<seq<T>>): seq<T> {
    if parts == [] then [] else parts[0] + Flatten(parts[1..])
  }

  lemma {:induction false} FlattenAppend<T>(parts: seq<seq<T>>, last: seq<T>)
    ensures Flatten(parts + [last]) == Flatten(parts) + last
  {
    if parts == [] {
      assert parts + [last] == [last];
      assert Flatten([last]) == last + Flatten<T>([]) == last;
    } else {
      assert (parts + [last])[0] == parts[0] && (parts + [last])[1..] == parts[1..] + [last];
      FlattenAppend(parts[1..], last);
    }
  }
}
