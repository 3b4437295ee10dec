/** Types shared by every module of the model. */
module Prelude {

  datatype Option<+T> = None | Some(value: T) {
    function UnwrapOr(default: T): T { match this case Some(v) => v case None => default }
  }

  datatype Result<+T, +E> = Ok(value: T) | Err(error: E)

  /** Machine integers are ranges of int: the source's width is stated where it matters. */
  type byte = x: int | 0 <= x < 0x100
  type u16 = x: int | 0 <= x < 0x1_0000
  type u32 = x: int | 0 <= x < 0x1_0000_0000
  type u64 = x: int | 0 <= x < 0x1_0000_0000_0000_0000

  type Bytes = seq<byte>

  /** The last n elements of s, or all of s when it is shorter. */
  function LastN<T>(s: seq<T>, n: nat): (r: seq<T>)
    ensures |r| == if |s| < n then |s| else n
    ensures forall j | 0 <= j < |r| :: r[j] == s[|s| - |r| + j]
  {
    if |s| <= n then s else s[|s| - n..]
  }

  lemma {:induction false} Assoc<T>(a: seq<T>, b: seq<T>, c: seq<T>)
    ensures (a + b) + c == a + (b + c)
  {
  }

  /** The first index from i on whose element maps to an error, or the length when none does. */
  function FirstError<A, B, E>(f: A -> Result<B, E>, xs: seq<A>, i: nat): (r: nat)
    requires i <= |xs|
    ensures i <= r <= |xs|
    ensures forall k | i <= k < r :: f(xs[k]).Ok?
    ensures r < |xs| ==> f(xs[r]).Err?
    decreases |xs| - i
  {
    if i == |xs| || f(xs[i]).Err? then i else FirstError(f, xs, i + 1)
  }

  /** `iter().map(f).collect::<Result<Vec<_>, _>>()`: every value in order, or the first error. */
  function Collect<A, B, E>(f: A -> Result<B, E>, xs: seq<A>): (r: Result<seq<B>, E>)
    ensures r.Ok? <==> forall k | 0 <= k < |xs| :: f(xs[k]).Ok?
    ensures r.Ok? ==> |r.value| == |xs| && forall k | 0 <= k < |xs| :: f(xs[k]) == Ok(r.value[k])
    ensures r.Err? ==> var i := FirstError(f, xs, 0);
                       i < |xs| && f(xs[i]) == Err(r.error) && forall k | 0 <= k < i :: f(xs[k]).Ok?
  {
    var i := FirstError(f, xs, 0);
    if i < |xs| then Err(f(xs[i]).error)
    else Ok(seq(|xs|, k requires 0 <= k < |xs| && f(xs[k]).Ok? => f(xs[k]).value))
  }
}
