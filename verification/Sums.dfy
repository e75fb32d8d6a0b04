/** Sums over a finite set: of accounts, of queue entries. */
module Sums {
  ghost function Sum<T(!new)>(us: set<T>, f: T -> int): int
  {
    if us == {} then 0 else var u :| u in us; f(u) + Sum(us - {u}, f)
  }

  lemma {:induction false} SumRemove<T(!new)>(us: set<T>, f: T -> int, a: T)
    requires a in us
    ensures Sum(us, f) == f(a) + Sum(us - {a}, f)
  {
    var u :| u in us && Sum(us, f) == f(u) + Sum(us - {u}, f);
    if u != a {
      SumRemove(us - {u}, f, a);
      SumRemove(us - {a}, f, u);
      assert us - {u} - {a} == us - {a} - {u};
    }
  }

  lemma {:induction false} SumLinear<T(!new)>(us: set<T>, f: T -> int, g: T -> int, k: int, h: T -> int)
    requires forall u | u in us :: h(u) == f(u) + k * g(u)
    ensures Sum(us, h) == Sum(us, f) + k * Sum(us, g)
  {
    if us != {} {
      var u :| u in us;
      SumRemove(us, f, u);
      SumRemove(us, g, u);
      SumRemove(us, h, u);
      SumLinear(us - {u}, f, g, k, h);
      calc {
        Sum(us, h);
        f(u) + k * g(u) + Sum(us - {u}, f) + k * Sum(us - {u}, g);
        Sum(us, f) + (k * g(u) + k * Sum(us - {u}, g));
        Sum(us, f) + k * (g(u) + Sum(us - {u}, g));
      }
    }
  }

  lemma SumCongruent<T(!new)>(us: set<T>, f: T -> int, g: T -> int)
    requires forall u | u in us :: f(u) == g(u)
    ensures Sum(us, f) == Sum(us, g)
  {
    SumLinear(us, f, f, 0, g);
  }

  /** One account changes; everyone else keeps their value. */
  lemma SumUpdate<T(!new)>(us: set<T>, f: T -> int, g: T -> int, a: T)
    requires a in us
    requires forall u | u in us && u != a :: f(u) == g(u)
    ensures Sum(us, g) == Sum(us, f) - f(a) + g(a)
  {
    SumRemove(us, f, a);
    SumRemove(us, g, a);
    SumCongruent(us - {a}, f, g);
  }

  lemma {:induction false} SumMonotone<T(!new)>(us: set<T>, f: T -> int, g: T -> int)
    requires forall u | u in us :: f(u) <= g(u)
    ensures Sum(us, f) <= Sum(us, g)
  {
    if us != {} {
      var u :| u in us;
      SumRemove(us, f, u);
      SumRemove(us, g, u);
      SumMonotone(us - {u}, f, g);
    }
  }

  lemma {:induction false} SumConstant<T(!new)>(us: set<T>, f: T -> int, c: int)
    requires forall u | u in us :: f(u) == c
    ensures Sum(us, f) == c * |us|
  {
    if us != {} {
      var u :| u in us;
      SumRemove(us, f, u);
      SumConstant(us - {u}, f, c);
      assert |us| == |us - {u}| + 1;
    }
  }

  /** A member's value is at most the sum when nobody's is negative. */
  lemma SumMember<T(!new)>(us: set<T>, f: T -> int, a: T)
    requires a in us
    requires forall u | u in us :: f(u) >= 0
    ensures 0 <= f(a) <= Sum(us, f)
  {
    SumRemove(us, f, a);
    SumConstant(us - {a}, (u: T) => 0, 0);
    SumMonotone(us - {a}, (u: T) => 0, f);
  }
}
