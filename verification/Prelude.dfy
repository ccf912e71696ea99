/** Stock datatypes, 64-bit saturation, and finite sums. */
module Prelude {

  datatype Option<+T> = None | Some(value: T) {
    function GetOr(default: T): T {
      if Some? then value else default
    }
  }

  datatype Result<+T> = Ok(value: T) | Err(reason: string)

  /** A process or thread id. Zero is the idle task. */
  type Pid = nat

  const U64_MAX: nat := 0xFFFF_FFFF_FFFF_FFFF

  function SaturatingAdd(a: nat, b: nat): nat {
    if a + b > U64_MAX then U64_MAX else a + b
  }

  function SaturatingSub(a: nat, b: nat): nat {
    if a < b then 0 else a - b
  }

  function SeqSum(s: seq<nat>): nat {
    if s == [] then 0 else SeqSum(s[..|s| - 1]) + s[|s| - 1]
  }

  lemma {:induction false} SeqSumUpdate(s: seq<nat>, i: nat, x: nat)
    requires i < |s|
    ensures SeqSum(s[i := x]) == SeqSum(s) - s[i] + x
    ensures s[i] <= SeqSum(s)
  {
    var init := s[..|s| - 1];
    if i == |s| - 1 {
      assert s[i := x][..|s| - 1] == init;
    } else {
      assert s[i := x][..|s| - 1] == init[i := x];
      SeqSumUpdate(init, i, x);
    }
  }

  /** A fresh row: `x` in slot `c`, zero everywhere else. */
  function OneHot(n: nat, c: nat, x: nat): seq<nat> {
    seq(n, i => if i == c then x else 0)
  }

  lemma {:induction false} SeqSumOneHot(n: nat, c: nat, x: nat)
    ensures SeqSum(OneHot(n, c, x)) == if c < n then x else 0
  {
    if n > 0 {
      assert OneHot(n, c, x)[..n - 1] == OneHot(n - 1, c, x);
      SeqSumOneHot(n - 1, c, x);
    }
  }

  /** The sum of `f` over a finite set, in whatever order. */
  ghost function SumSet<T>(keys: set<T>, f: T -> nat): nat {
    if keys == {} then 0 else
      var k :| k in keys;
      f(k) + SumSet(keys - {k}, f)
  }

  lemma {:induction false} SumSetRemove<T>(keys: set<T>, f: T -> nat, x: T)
    requires x in keys
    ensures SumSet(keys, f) == f(x) + SumSet(keys - {x}, f)
  {
    var k :| k in keys && SumSet(keys, f) == f(k) + SumSet(keys - {k}, f);
    if k != x {
      SumSetRemove(keys - {k}, f, x);
      SumSetRemove(keys - {x}, f, k);
      assert keys - {k} - {x} == keys - {x} - {k};
    }
  }

  lemma {:induction false} SumSetLe<T>(keys: set<T>, f: T -> nat, g: T -> nat)
    requires forall k :: k in keys ==> f(k) <= g(k)
    ensures SumSet(keys, f) <= SumSet(keys, g)
  {
    if keys != {} {
      var x :| x in keys;
      SumSetRemove(keys, f, x);
      SumSetRemove(keys, g, x);
      SumSetLe(keys - {x}, f, g);
    }
  }

  lemma {:induction false} SumSetAdd<T>(keys: set<T>, f: T -> nat, g: T -> nat, h: T -> nat)
    requires forall k :: k in keys ==> h(k) == f(k) + g(k)
    ensures SumSet(keys, h) == SumSet(keys, f) + SumSet(keys, g)
  {
    if keys != {} {
      var x :| x in keys;
      SumSetRemove(keys, f, x);
      SumSetRemove(keys, g, x);
      SumSetRemove(keys, h, x);
      SumSetAdd(keys - {x}, f, g, h);
    }
  }

  lemma {:induction false} SumSetIndicator<T>(keys: set<T>, f: T -> nat, x: T)
    requires x in keys && f(x) == 1
    requires forall k :: k in keys && k != x ==> f(k) == 0
    ensures SumSet(keys, f) == 1
  {
    SumSetRemove(keys, f, x);
    SumSetZero(keys - {x}, f);
  }

  lemma {:induction false} SumSetZero<T>(keys: set<T>, f: T -> nat)
    requires forall k :: k in keys ==> f(k) == 0
    ensures SumSet(keys, f) == 0
  {
    if keys != {} {
      var x :| x in keys;
      SumSetRemove(keys, f, x);
      SumSetZero(keys - {x}, f);
    }
  }

  lemma {:induction false} SubsetSize<T>(a: set<T>, b: set<T>)
    requires a <= b
    ensures |a| <= |b|
  {
    if a != {} {
      var x :| x in a;
      SubsetSize(a - {x}, b - {x});
    }
  }
}
