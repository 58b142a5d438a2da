/**
 * Sequence helpers shared by the model: `std::vector::resize`, the outcome of
 * a run of provider requests that stops at the first failure, and the count of
 * set completion flags.
 */
module SeqUtil {
  import opened SipTypes

  /** `std::vector::resize(n)`: keeps the first `n` elements, pads with `fill`. */
  function Resize<T>(s: seq<T>, n: nat, fill: T): (r: seq<T>)
    ensures |r| == n
    ensures forall k :: 0 <= k < n && k < |s| ==> r[k] == s[k]
    ensures forall k :: |s| <= k < n ==> r[k] == fill
  {
    if n <= |s| then s[..n] else s + seq(n - |s|, _ => fill)
  }

  /** Index of the first failed reply, or `|rs|` when every reply succeeded. */
  function FirstError<T>(rs: seq<Reply<T>>): (j: nat)
    ensures j <= |rs|
    ensures forall k :: 0 <= k < j ==> rs[k].Ok?
    ensures j < |rs| ==> rs[j].Err?
  {
    if |rs| == 0 then 0
    else if rs[0].Err? then 0
    else
      assert forall k :: 1 <= k < |rs| ==> rs[k] == rs[1..][k - 1];
      1 + FirstError(rs[1..])
  }

  /** The first failure is the one preceded only by successes. */
  lemma FirstErrorAt<T>(rs: seq<Reply<T>>, j: nat)
    requires j <= |rs|
    requires forall k :: 0 <= k < j ==> rs[k].Ok?
    requires j < |rs| ==> rs[j].Err?
    ensures FirstError(rs) == j
  {
  }

  /**
   * The slots after a run of requests into `base`, one per reply, that stops at
   * the first failure: the replies before it are stored, the rest keep `base`.
   */
  function Filled<T>(base: seq<T>, rs: seq<Reply<T>>): seq<T>
    requires |base| == |rs|
  {
    seq(|rs|, k requires 0 <= k < |rs| => if k < FirstError(rs) then rs[k].value else base[k])
  }

  /** When no request fails, every slot holds its reply. */
  lemma FilledAllOk<T>(base: seq<T>, rs: seq<Reply<T>>)
    requires |base| == |rs| && FirstError(rs) == |rs|
    ensures |Filled(base, rs)| == |rs|
    ensures forall k :: 0 <= k < |rs| ==> rs[k].Ok? && Filled(base, rs)[k] == rs[k].value
  {
  }

  /** Number of set flags. */
  function CountTrue(s: seq<bool>): (c: nat)
    ensures c <= |s|
  {
    if |s| == 0 then 0 else (if s[0] then 1 else 0) + CountTrue(s[1..])
  }

  /** Setting one clear flag raises the count by exactly one. */
  lemma {:induction false} CountTrueSet(s: seq<bool>, i: int)
    requires 0 <= i < |s| && !s[i]
    ensures CountTrue(s[i := true]) == CountTrue(s) + 1
  {
    if i == 0 {
      assert s[i := true][1..] == s[1..];
    } else {
      assert s[i := true][1..] == s[1..][i - 1 := true];
      CountTrueSet(s[1..], i - 1);
    }
  }

  /** The count equals the length exactly when every flag is set. */
  lemma {:induction false} CountTrueAll(s: seq<bool>)
    ensures CountTrue(s) == |s| <==> forall k :: 0 <= k < |s| ==> s[k]
  {
    if |s| > 0 {
      CountTrueAll(s[1..]);
      assert forall k :: 1 <= k < |s| ==> s[k] == s[1..][k - 1];
    }
  }
}
