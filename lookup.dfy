/**
 * `Array.prototype.find` with an equality test on a key: the first element
 * whose key is the one sought, or nothing.
 */
module Lookup {
  import opened Options

  /** `xs.find((x) => key(x) === k)` */
  function FindFirst<T>(xs: seq<T>, key: T -> string, k: string): (r: Option<T>)
    ensures r.Some? ==> r.value in xs && key(r.value) == k
    ensures r.None? <==> forall x :: x in xs ==> key(x) != k
    decreases |xs|
  {
    if xs == [] then None
    else if key(xs[0]) == k then Some(xs[0])
    else FindFirst(xs[1..], key, k)
  }

  /** What is found is the first element with the key: every element before it has another key. */
  lemma {:induction false} FindFirstIsFirst<T>(xs: seq<T>, key: T -> string, k: string)
    ensures var r := FindFirst(xs, key, k);
            r.Some? ==> exists i :: 0 <= i < |xs| && xs[i] == r.value && forall j :: 0 <= j < i ==> key(xs[j]) != k
    decreases |xs|
  {
    var r := FindFirst(xs, key, k);
    if xs != [] && key(xs[0]) == k {
      assert xs[0] == r.value;
    } else if xs != [] && r.Some? {
      var tail := xs[1..];
      FindFirstIsFirst(tail, key, k);
      var i :| 0 <= i < |tail| && tail[i] == r.value && forall j :: 0 <= j < i ==> key(tail[j]) != k;
      assert xs[i + 1] == r.value;
      forall j | 0 <= j < i + 1
        ensures key(xs[j]) != k
      {
        if j > 0 {
          assert xs[j] == tail[j - 1];
        }
      }
    }
  }
}
