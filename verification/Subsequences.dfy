/** Lists had from other lists by leaving elements out. */
module Subsequences {

  /** `small` can be had from `large` by leaving elements out. */
  ghost predicate SubSequence<X>(small: seq<X>, large: seq<X>) {
    if |small| == 0 then true
    else if |large| == 0 then false
    else if small[0] == large[0] then SubSequence(small[1..], large[1..])
    else SubSequence(small, large[1..])
  }

  lemma {:induction false} SubWithin<X>(small: seq<X>, large: seq<X>)
    requires SubSequence(small, large)
    ensures |small| <= |large| && forall s :: s in small ==> s in large
  {
    if |small| > 0 {
      if small[0] == large[0] {
        SubWithin(small[1..], large[1..]);
        assert small == [small[0]] + small[1..];
      } else {
        SubWithin(small, large[1..]);
      }
    }
  }

  lemma {:induction false} SubTail<X>(small: seq<X>, large: seq<X>)
    requires |small| > 0 && SubSequence(small, large)
    ensures |large| > 0 && SubSequence(small[1..], large[1..])
  {
    if small[0] != large[0] {
      SubTail(small, large[1..]);
      SubDrop(small[1..], large[1..]);
    }
  }

  lemma {:induction false} SubDrop<X>(small: seq<X>, large: seq<X>)
    requires |large| > 0 && SubSequence(small, large[1..])
    ensures SubSequence(small, large)
  {
    if |small| > 0 && small[0] == large[0] {
      SubTail(small, large[1..]);
      SubDrop(small[1..], large[1..]);
    }
  }

  lemma {:induction false} SubSnoc<X>(small: seq<X>, large: seq<X>, s: X)
    requires SubSequence(small, large)
    ensures SubSequence(small + [s], large + [s])
  {
    if |small| == 0 {
      SubLast(large, s);
      assert small + [s] == [s];
    } else {
      assert (large + [s])[1..] == large[1..] + [s];
      assert (small + [s])[1..] == small[1..] + [s];
      if small[0] == large[0] {
        SubSnoc(small[1..], large[1..], s);
      } else {
        SubSnoc(small, large[1..], s);
      }
    }
  }

  lemma {:induction false} SubLast<X>(large: seq<X>, s: X)
    ensures SubSequence([s], large + [s])
  {
    if |large| > 0 {
      assert (large + [s])[1..] == large[1..] + [s];
      SubLast(large[1..], s);
      SubDrop([s], large + [s]);
    }
  }

  /** A subsequence as long as the whole is the whole. */
  lemma {:induction false} FullWhenBehind<X>(a: seq<X>, b: seq<X>)
    requires SubSequence(a, b)
    ensures |a| == |b| ==> a == b
  {
    if |a| > 0 && |a| == |b| {
      if a[0] == b[0] {
        FullWhenBehind(a[1..], b[1..]);
      } else {
        SubWithin(a, b[1..]);
      }
    }
  }

  lemma {:induction false} AddKeepsSub<X>(small: seq<X>, large: seq<X>, s: X)
    requires SubSequence(small, large)
    ensures SubSequence(small, large + [s])
  {
    if |small| > 0 {
      assert (large + [s])[1..] == large[1..] + [s];
      if small[0] == large[0] {
        AddKeepsSub(small[1..], large[1..], s);
      } else {
        AddKeepsSub(small, large[1..], s);
      }
    }
  }
}
