/**
 * Test-case bookkeeping of the system test: a counter of test cases run and
 * passed, in `size_t` arithmetic, and the context that accumulates them.
 */
module SystemTest {

  /** 2^64: `size_t` arithmetic is modulo this. */
  const SizeModulus: int := 0x1_0000_0000_0000_0000

  newtype Size = x: int | 0 <= x < SizeModulus

  /** `a + b` in `size_t`: the exact sum, or the sum less 2^64 when it overflows. */
  function WrapAdd(a: Size, b: Size): (r: Size)
    ensures a as int + b as int < SizeModulus ==> r as int == a as int + b as int
    ensures a as int + b as int >= SizeModulus ==> r as int == a as int + b as int - SizeModulus
  {
    ((a as int + b as int) % SizeModulus) as Size
  }

  /** The value of a counter: test cases in total, and passed. */
  datatype Count = Count(total: Size, ok: Size)

  /** Componentwise `size_t` sum. */
  function Plus(a: Count, b: Count): Count
  {
    Count(WrapAdd(a.total, b.total), WrapAdd(a.ok, b.ok))
  }

  /** The counters added one after another to a zero counter, in order. */
  function Accumulate(cs: seq<Count>): Count
  {
    if |cs| == 0 then Count(0, 0) else Plus(Accumulate(cs[..|cs| - 1]), cs[|cs| - 1])
  }

  /** Reference definition: the plain integer sums. */
  function TotalSum(cs: seq<Count>): int
  {
    if |cs| == 0 then 0 else TotalSum(cs[..|cs| - 1]) + cs[|cs| - 1].total as int
  }

  function OkSum(cs: seq<Count>): int
  {
    if |cs| == 0 then 0 else OkSum(cs[..|cs| - 1]) + cs[|cs| - 1].ok as int
  }

  /** Accumulating is summing modulo 2^64, componentwise. */
  lemma {:induction false} AccumulateIsSum(cs: seq<Count>)
    ensures Accumulate(cs).total as int == TotalSum(cs) % SizeModulus
    ensures Accumulate(cs).ok as int == OkSum(cs) % SizeModulus
  {
    if |cs| > 0 {
      var init, last := cs[..|cs| - 1], cs[|cs| - 1];
      AccumulateIsSum(init);
      ModAddLeft(TotalSum(init), last.total as int);
      ModAddLeft(OkSum(init), last.ok as int);
    }
  }

  lemma ModAddLeft(x: int, y: int)
    ensures (x % SizeModulus + y) % SizeModulus == (x + y) % SizeModulus
  {
    var q := x / SizeModulus;
    assert x == q * SizeModulus + x % SizeModulus;
    ModShift(x % SizeModulus + y, q);
  }

  lemma ModShift(z: int, k: int)
    ensures (z + k * SizeModulus) % SizeModulus == z % SizeModulus
  {
    var r := z % SizeModulus;
    var q := z / SizeModulus;
    assert z + k * SizeModulus == (q + k) * SizeModulus + r;
  }

  lemma {:induction false} SumsAppend(a: seq<Count>, b: seq<Count>)
    ensures TotalSum(a + b) == TotalSum(a) + TotalSum(b)
    ensures OkSum(a + b) == OkSum(a) + OkSum(b)
  {
    if |b| > 0 {
      assert (a + b)[..|a + b| - 1] == a + b[..|b| - 1];
      SumsAppend(a, b[..|b| - 1]);
    } else {
      assert a + b == a;
    }
  }

  /** Removing one element from the sums. */
  lemma SumsRemove(cs: seq<Count>, j: nat)
    requires j < |cs|
    ensures TotalSum(cs) == TotalSum(cs[..j] + cs[j + 1..]) + cs[j].total as int
    ensures OkSum(cs) == OkSum(cs[..j] + cs[j + 1..]) + cs[j].ok as int
  {
    var left, right := cs[..j], cs[j + 1..];
    var front := left + [cs[j]];
    SplitAt(cs, j);
    SumsAppend(front, right);
    SumsAppend(left, [cs[j]]);
    SumsAppend(left, right);
    SumsSingleton(cs[j]);
  }

  lemma SplitAt(cs: seq<Count>, j: nat)
    requires j < |cs|
    ensures cs == (cs[..j] + [cs[j]]) + cs[j + 1..]
  {
  }

  lemma SumsSingleton(c: Count)
    ensures TotalSum([c]) == c.total as int && OkSum([c]) == c.ok as int
  {
    assert [c][..0] == [];
  }

  lemma {:induction false} SumsPermutation(a: seq<Count>, b: seq<Count>)
    requires multiset(a) == multiset(b)
    ensures TotalSum(a) == TotalSum(b) && OkSum(a) == OkSum(b)
    decreases |a|
  {
    if |a| == 0 {
      assert |b| == |multiset(b)| == 0;
    } else {
      var x := a[|a| - 1];
      var init := a[..|a| - 1];
      assert a == init + [x];
      assert x in multiset(b);
      var j :| 0 <= j < |b| && b[j] == x;
      var rest := b[..j] + b[j + 1..];
      assert b == b[..j] + [x] + b[j + 1..];
      assert multiset(init) == multiset(a) - multiset{x};
      assert multiset(rest) == multiset(b) - multiset{x};
      SumsPermutation(init, rest);
      SumsRemove(b, j);
    }
  }

  /** The order in which counters are added does not matter. */
  lemma AccumulateOrderIrrelevant(a: seq<Count>, b: seq<Count>)
    requires multiset(a) == multiset(b)
    ensures Accumulate(a) == Accumulate(b)
  {
    AccumulateIsSum(a);
    AccumulateIsSum(b);
    SumsPermutation(a, b);
  }

  /** Adding zero changes nothing. */
  lemma PlusZero(a: Count)
    ensures Plus(a, Count(0, 0)) == a
  {
  }

  class TestCaseCounter {
    var total: Size
    var ok: Size

    function Value(): Count
      reads this
    {
      Count(total, ok)
    }

    /** A counter with nothing counted. */
    constructor ()
      ensures Value() == Count(0, 0)
    {
      total := 0;
      ok := 0;
    }

    constructor WithValues(total: Size, ok: Size)
      ensures Value() == Count(total, ok)
    {
      this.total := total;
      this.ok := ok;
    }

    function Total(): (r: Size)
      reads this
      ensures r == Value().total
    {
      total
    }

    function Ok(): (r: Size)
      reads this
      ensures r == Value().ok
    {
      ok
    }

    /** `add(total, ok)`. */
    method AddValues(total: Size, ok: Size)
      modifies this
      ensures Value() == Plus(old(Value()), Count(total, ok))
    {
      this.total := WrapAdd(this.total, total);
      this.ok := WrapAdd(this.ok, ok);
    }

    /** `add(counter)`; the argument may be this very counter, which then doubles. */
    method Add(counter: TestCaseCounter)
      modifies this
      ensures Value() == Plus(old(Value()), old(counter.Value()))
    {
      total := WrapAdd(total, counter.Total());
      ok := WrapAdd(ok, counter.Ok());
    }

    /** `addOk(value)`: more passed cases, same total. */
    method AddOk(value: Size)
      modifies this
      ensures Value() == Count(old(total), WrapAdd(old(ok), value))
    {
      ok := WrapAdd(ok, value);
    }

    /** `incOk()`. */
    method IncOk()
      modifies this
      ensures Value() == Count(old(total), WrapAdd(old(ok), 1))
    {
      ok := WrapAdd(ok, 1);
    }
  }

  class Context {
    const counter: TestCaseCounter

    constructor ()
      ensures fresh(counter) && counter.Value() == Count(0, 0)
    {
      counter := new TestCaseCounter();
    }

    /** `addCounter(counter)`. */
    method AddCounter(c: TestCaseCounter)
      modifies counter
      ensures counter.Value() == Plus(old(counter.Value()), old(c.Value()))
    {
      counter.Add(c);
    }
  }

  /** Adding counters one by one to a fresh context gives their accumulation. */
  method AddAll(cs: seq<Count>) returns (total: Count)
    ensures total == Accumulate(cs)
  {
    var ctx := new Context();
    var i := 0;
    while i < |cs|
      invariant 0 <= i <= |cs|
      invariant ctx.counter.Value() == Accumulate(cs[..i])
    {
      var c := new TestCaseCounter.WithValues(cs[i].total, cs[i].ok);
      ctx.AddCounter(c);
      assert cs[..i + 1][..i] == cs[..i];
      i := i + 1;
    }
    assert cs[..i] == cs;
    total := ctx.counter.Value();
  }
}
