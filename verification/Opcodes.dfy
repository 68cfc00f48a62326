// What each instruction does to the stack and what it costs, opcode by opcode:
// the price paid at once, the price put off to the end of the instruction, the
// items left, and the exact conditions of failure.
module Opcodes {
  import opened Wrappers
  import opened Bytes
  import opened VmTypes
  import opened Machine
  import opened StackOps
  import opened NumericOps
  import opened Interpreter

  /** The instruction takes `now` from the run limit and fails only if there is less; it puts off `later`, leaves these
      items on the data stack and changes nothing else. */
  predicate Does(c: Core, r: Res<()>, now: int, later: int, data: seq<Bytes>) {
    if c.runLimit >= now then
      r == Good(c.(runLimit := c.runLimit - now, deferred := c.deferred + later, data := data), ())
    else r.Bad? && r.err == RunLimitExceeded
  }

  /** The instruction fails, for lack of run limit if there is less than `now`. */
  predicate Fails(c: Core, r: Res<()>, now: int, err: VmError) {
    r.Bad? && r.err == if c.runLimit >= now then err else RunLimitExceeded
  }

  function Answer(b: bool): Bytes {
    if b then [1] else []
  }

  lemma TopPops(c: Core, base: seq<Bytes>, x: Bytes)
    requires c.data == base + [x]
    ensures Pop(c, true) == Good(c.(deferred := c.deferred + 8 + |x|, data := base), x)
    ensures c.runLimit >= 8 + |x| ==> Pop(c, false) == Good(c.(runLimit := c.runLimit - 8 - |x|, data := base), x)
    ensures c.runLimit < 8 + |x| ==> Pop(c, false) == Bad(c.(runLimit := 0), RunLimitExceeded)
  {
    hide StackCost;
    assert c.data[..|c.data| - 1] == base;
  }

  lemma TopPopsInt(c: Core, base: seq<Bytes>, x: Bytes, n: int)
    requires c.data == base + [x] && AsInt64(x) == Ok(n)
    ensures PopInt(c, true) == Good(c.(deferred := c.deferred + 8 + |x|, data := base), n)
  {
    hide StackCost, AsInt64, Pop;
    TopPops(c, base, x);
  }

  lemma TwoPop(c: Core, base: seq<Bytes>, x: Bytes, y: Bytes)
    requires c.data == base + [x, y]
    ensures PopTwo(c) == Good(c.(deferred := c.deferred + 16 + |x| + |y|, data := base), (x, y))
  {
    hide StackCost, Pop;
    assert c.data == base + [x] + [y];
    TopPops(c, base + [x], y);
    TopPops(Pop(c, true).core, base, x);
  }

  lemma TwoPopInts(c: Core, base: seq<Bytes>, x: Bytes, y: Bytes, m: int, n: int)
    requires c.data == base + [x, y] && AsInt64(x) == Ok(m) && AsInt64(y) == Ok(n)
    ensures PopTwoInts(c) == Good(c.(deferred := c.deferred + 16 + |x| + |y|, data := base), (m, n))
  {
    hide StackCost, AsInt64, PopInt;
    assert c.data == base + [x] + [y];
    TopPopsInt(c, base + [x], y, n);
    TopPopsInt(PopInt(c, true).core, base, x, m);
  }

  // -------------------------------------------------------------------------- numbers

  /** An instruction that takes two numbers and leaves one item. */
  predicate Leaves(c: Core, r: Res<()>, cost: nat, base: seq<Bytes>, x: Bytes, y: Bytes, z: Bytes) {
    Does(c, r, cost, 24 + |x| + |y| + |z|, base + [z])
  }

  lemma BinaryLeaves(c: Core, op: Byte, base: seq<Bytes>, x: Bytes, y: Bytes, m: int, n: int)
    requires c.data == base + [x, y] && AsInt64(x) == Ok(m) && AsInt64(y) == Ok(n)
    ensures var v, cost := BinaryValue(op, m, n), if op in {0x95, 0x96, 0x97, 0x99} then 8 else 2;
            if v.Ok? then Leaves(c, Binary(c, op), cost, base, x, y, v.value)
            else Fails(c, Binary(c, op), cost, v.error)
  {
    hide StackCost, AsInt64, PopTwoInts, BinaryValue;
    var cost := if op in {0x95, 0x96, 0x97, 0x99} then 8 else 2;
    TwoPopInts(ApplyCost(c, cost).core, base, x, y, m, n);
  }

  lemma BinaryDispatch(env: Env, c: Core, op: Byte, data: Bytes)
    requires 0x93 <= op <= 0xa4 && op !in {0x98, 0x9a, 0x9b, 0x9d}
    ensures ExecPlain(env, c, op, data) == Binary(c, op)
  {
    hide Binary;
  }

  /** NUMEQUAL, NUMNOTEQUAL, LESSTHAN, GREATERTHAN, LESSTHANOREQUAL, GREATERTHANOREQUAL, MIN and MAX of the number below
      and the number on top. */
  lemma ComparisonsExactly(env: Env, c: Core, data: Bytes, base: seq<Bytes>, x: Bytes, y: Bytes, m: int, n: int)
    requires c.data == base + [x, y] && AsInt64(x) == Ok(m) && AsInt64(y) == Ok(n)
    ensures Leaves(c, ExecPlain(env, c, 0x9c, data), 2, base, x, y, Answer(m == n))
    ensures Leaves(c, ExecPlain(env, c, 0x9e, data), 2, base, x, y, Answer(m != n))
    ensures Leaves(c, ExecPlain(env, c, 0x9f, data), 2, base, x, y, Answer(m < n))
    ensures Leaves(c, ExecPlain(env, c, 0xa0, data), 2, base, x, y, Answer(m > n))
    ensures Leaves(c, ExecPlain(env, c, 0xa1, data), 2, base, x, y, Answer(m <= n))
    ensures Leaves(c, ExecPlain(env, c, 0xa2, data), 2, base, x, y, Answer(m >= n))
    ensures Leaves(c, ExecPlain(env, c, 0xa3, data), 2, base, x, y, Int64Bytes(if m <= n then m else n))
    ensures Leaves(c, ExecPlain(env, c, 0xa4, data), 2, base, x, y, Int64Bytes(if m <= n then n else m))
  {
    hide StackCost, AsInt64, ExecPlain, Binary, Leaves, Int64Bytes;
    AsInt64InRange(x);
    AsInt64InRange(y);
    forall op: Byte | op in {0x9c, 0x9e, 0x9f, 0xa0, 0xa1, 0xa2, 0xa3, 0xa4}
      ensures var v := BinaryValue(op, m, n);
              v.Ok? && Leaves(c, ExecPlain(env, c, op, data), 2, base, x, y, v.value)
    {
      BinaryDispatch(env, c, op, data);
      BinaryLeaves(c, op, base, x, y, m, n);
    }
  }

  /** An instruction that leaves a number, if it fits. */
  predicate Computes(c: Core, r: Res<()>, cost: nat, base: seq<Bytes>, x: Bytes, y: Bytes, n: int) {
    if FitsInt64(n) then Leaves(c, r, cost, base, x, y, Int64Bytes(n)) else Fails(c, r, cost, RangeError)
  }

  /** ADD, SUB, MUL, DIV, MOD and RSHIFT: the number, or the reason why there is none.  MOD of the least number by minus
      one is out of range although its value is zero. */
  lemma ArithmeticExactly(env: Env, c: Core, data: Bytes, base: seq<Bytes>, x: Bytes, y: Bytes, m: int, n: int)
    requires c.data == base + [x, y] && AsInt64(x) == Ok(m) && AsInt64(y) == Ok(n)
    ensures Computes(c, ExecPlain(env, c, 0x93, data), 2, base, x, y, m + n)
    ensures Computes(c, ExecPlain(env, c, 0x94, data), 2, base, x, y, m - n)
    ensures Computes(c, ExecPlain(env, c, 0x95, data), 8, base, x, y, m * n)
    ensures if n == 0 then Fails(c, ExecPlain(env, c, 0x96, data), 8, DivZero)
            else Computes(c, ExecPlain(env, c, 0x96, data), 8, base, x, y, Quotient(m, n))
    ensures if n == 0 then Fails(c, ExecPlain(env, c, 0x97, data), 8, DivZero)
            else if m == MIN_INT64 && n == -1 then Fails(c, ExecPlain(env, c, 0x97, data), 8, RangeError)
            else Computes(c, ExecPlain(env, c, 0x97, data), 8, base, x, y, Modulo(m, n))
    ensures if n < 0 then Fails(c, ExecPlain(env, c, 0x99, data), 8, BadValue)
            else Computes(c, ExecPlain(env, c, 0x99, data), 8, base, x, y, m / Power2(n))
  {
    hide StackCost, AsInt64, ExecPlain, Binary, Leaves, Int64Bytes, Fails, Quotient, Modulo, Power2;
    forall op: Byte | op in {0x93, 0x94, 0x95, 0x96, 0x97, 0x99}
      ensures var v, cost := BinaryValue(op, m, n), if op in {0x95, 0x96, 0x97, 0x99} then 8 else 2;
              var r := ExecPlain(env, c, op, data);
              if v.Ok? then Leaves(c, r, cost, base, x, y, v.value) else Fails(c, r, cost, v.error)
    {
      BinaryDispatch(env, c, op, data);
      BinaryLeaves(c, op, base, x, y, m, n);
    }
  }

  lemma UnaryLeaves(c: Core, op: Byte, base: seq<Bytes>, x: Bytes, n: int)
    requires c.data == base + [x] && AsInt64(x) == Ok(n)
    ensures var v := UnaryValue(op, n);
            if v.Ok? then Does(c, Unary(c, op), 2, 16 + |x| + |v.value|, base + [v.value])
            else Fails(c, Unary(c, op), 2, v.error)
  {
    hide StackCost, AsInt64, PopInt, UnaryValue;
    TopPopsInt(ApplyCost(c, 2).core, base, x, n);
  }

  lemma UnaryDispatch(env: Env, c: Core, op: Byte, data: Bytes)
    requires 0x8b <= op <= 0x92
    ensures ExecPlain(env, c, op, data) == Unary(c, op)
  {
    hide Unary;
  }

  predicate Turns(c: Core, r: Res<()>, base: seq<Bytes>, x: Bytes, n: int) {
    if FitsInt64(n) then Does(c, r, 2, 16 + |x| + |Int64Bytes(n)|, base + [Int64Bytes(n)])
    else Fails(c, r, 2, RangeError)
  }

  /** 1ADD, 1SUB, 2MUL, 2DIV (which rounds down), NEGATE, ABS, NOT and 0NOTEQUAL. */
  lemma UnaryExactly(env: Env, c: Core, data: Bytes, base: seq<Bytes>, x: Bytes, n: int)
    requires c.data == base + [x] && AsInt64(x) == Ok(n)
    ensures Turns(c, ExecPlain(env, c, 0x8b, data), base, x, n + 1)
    ensures Turns(c, ExecPlain(env, c, 0x8c, data), base, x, n - 1)
    ensures Turns(c, ExecPlain(env, c, 0x8d, data), base, x, n * 2)
    ensures Turns(c, ExecPlain(env, c, 0x8e, data), base, x, n / 2)
    ensures Turns(c, ExecPlain(env, c, 0x8f, data), base, x, -n)
    ensures Turns(c, ExecPlain(env, c, 0x90, data), base, x, if n < 0 then -n else n)
    ensures Does(c, ExecPlain(env, c, 0x91, data), 2, 16 + |x| + |Answer(n == 0)|, base + [Answer(n == 0)])
    ensures Does(c, ExecPlain(env, c, 0x92, data), 2, 16 + |x| + |Answer(n != 0)|, base + [Answer(n != 0)])
  {
    hide StackCost, AsInt64, ExecPlain, Unary, Int64Bytes, Does, Fails;
    forall op: Byte | 0x8b <= op <= 0x92
      ensures var v, r := UnaryValue(op, n), ExecPlain(env, c, op, data);
              if v.Ok? then Does(c, r, 2, 16 + |x| + |v.value|, base + [v.value]) else Fails(c, r, 2, v.error)
    {
      UnaryDispatch(env, c, op, data);
      UnaryLeaves(c, op, base, x, n);
    }
  }

  /** LSHIFT: zero stays zero, and otherwise nothing may be lost. */
  lemma LshiftExactly(env: Env, c: Core, data: Bytes, base: seq<Bytes>, x: Bytes, y: Bytes, m: int, n: int)
    requires c.data == base + [x, y] && AsInt64(x) == Ok(m) && AsInt64(y) == Ok(n)
    ensures var r := ExecPlain(env, c, 0x98, data);
            if n < 0 then Fails(c, r, 8, BadValue)
            else if m != 0 && n >= 64 then Fails(c, r, 8, RangeError)
            else Computes(c, r, 8, base, x, y, if m == 0 then 0 else m * Power2(n))
  {
    hide StackCost, AsInt64, PopInt, Int64Bytes, Power2;
    var c1 := ApplyCost(c, 8).core;
    assert c.data == base + [x] + [y];
    TopPopsInt(c1, base + [x], y, n);
    TopPopsInt(PopInt(c1, true).core, base, x, m);
  }

  /** BOOLAND and BOOLOR of two items, whatever numbers they are. */
  lemma LogicExactly(env: Env, c: Core, data: Bytes, base: seq<Bytes>, x: Bytes, y: Bytes)
    requires c.data == base + [x, y]
    ensures Leaves(c, ExecPlain(env, c, 0x9a, data), 2, base, x, y, Answer(AsBool(x) && AsBool(y)))
    ensures Leaves(c, ExecPlain(env, c, 0x9b, data), 2, base, x, y, Answer(AsBool(x) || AsBool(y)))
  {
    hide StackCost, PopTwo, AsBool;
    TwoPop(ApplyCost(c, 2).core, base, x, y);
  }

  lemma NumEqualVerifyExactly(env: Env, c: Core, data: Bytes, base: seq<Bytes>, x: Bytes, y: Bytes, m: int, n: int)
    requires c.data == base + [x, y] && AsInt64(x) == Ok(m) && AsInt64(y) == Ok(n)
    ensures var r := ExecPlain(env, c, 0x9d, data);
            if m == n then Does(c, r, 2, 16 + |x| + |y|, base) else Fails(c, r, 2, VerifyFailed)
  {
    hide StackCost, PopTwoInts, AsInt64;
    TwoPopInts(ApplyCost(c, 2).core, base, x, y, m, n);
  }

  /** WITHIN: the lowest item lies in the range, whose upper end is excluded. */
  lemma WithinExactly(env: Env, c: Core, data: Bytes, base: seq<Bytes>, x: Bytes, low: Bytes, high: Bytes,
                      n: int, from: int, to: int)
    requires c.data == base + [x, low, high]
    requires AsInt64(x) == Ok(n) && AsInt64(low) == Ok(from) && AsInt64(high) == Ok(to)
    ensures var z := Answer(from <= n < to);
            Does(c, ExecPlain(env, c, 0xa5, data), 4, 32 + |x| + |low| + |high| + |z|, base + [z])
  {
    hide StackCost, PopTwoInts, PopInt, AsInt64;
    var c1 := ApplyCost(c, 4).core;
    assert c.data == base + [x] + [low, high];
    TwoPopInts(c1, base + [x], low, high, from, to);
    TopPopsInt(PopTwoInts(c1).core, base, x, n);
  }

  // ---------------------------------------------------------------------------- stack

  lemma StackDispatch(env: Env, c: Core, op: Byte, data: Bytes)
    requires 0x6b <= op <= 0x7d
    ensures ExecPlain(env, c, op, data) == ExecStack(c, op)
  {
    hide ExecStack;
  }

  /** DROP pays for what it takes off. */
  lemma DropExactly(env: Env, c: Core, data: Bytes, base: seq<Bytes>, x: Bytes)
    requires c.data == base + [x]
    ensures Does(c, ExecPlain(env, c, 0x75, data), 9 + |x|, 0, base)
  {
    hide StackCost, Pop, ExecPlain, ExecSplice, ExecNumeric, ExecCrypto, ExecContext;
    StackDispatch(env, c, 0x75, data);
    TopPops(ApplyCost(c, 1).core, base, x);
  }

  /** 2DROP, NIP, OVER, TUCK and SWAP on the two items on top. */
  lemma TwoItemsExactly(env: Env, c: Core, data: Bytes, base: seq<Bytes>, x: Bytes, y: Bytes)
    requires c.data == base + [x, y]
    ensures Does(c, ExecPlain(env, c, 0x6d, data), 18 + |x| + |y|, 0, base)
    ensures Does(c, ExecPlain(env, c, 0x77, data), 9 + |x|, 0, base + [y])
    ensures Does(c, ExecPlain(env, c, 0x78, data), 9 + |x|, 0, base + [x, y, x])
    ensures Does(c, ExecPlain(env, c, 0x7d, data), 9 + |y|, 0, base + [y, x, y])
    ensures Does(c, ExecPlain(env, c, 0x7c, data), 1, 0, base + [y, x])
  {
    hide ExecPlain, Does, Drop2, Nip, Over, Tuck, Rearrange;
    forall op: Byte | op in {0x6d, 0x77, 0x78, 0x7d, 0x7c} {
      StackDispatch(env, c, op, data);
    }
    Drop2Does(c, base, x, y);
    NipDoes(c, base, x, y);
    OverDoes(c, base, x, y);
    TuckDoes(c, base, x, y);
    SwapDoes(c, base, x, y);
  }

  lemma Drop2Does(c: Core, base: seq<Bytes>, x: Bytes, y: Bytes)
    requires c.data == base + [x, y]
    ensures Does(c, Drop2(c), 18 + |x| + |y|, 0, base)
  {
    hide StackCost, Pop;
    assert c.data == base + [x] + [y];
    var c1 := ApplyCost(c, 2).core;
    TopPops(c1, base + [x], y);
    if Pop(c1, false).Good? {
      TopPops(Pop(c1, false).core, base, x);
    }
  }

  lemma NipDoes(c: Core, base: seq<Bytes>, x: Bytes, y: Bytes)
    requires c.data == base + [x, y]
    ensures Does(c, Nip(c), 9 + |x|, 0, base + [y])
  {
    hide StackCost, Pop;
    var c1 := ApplyCost(c, 1).core;
    assert c1.data[..|c1.data| - 1] == base + [x];
    TopPops(c1.(data := base + [x]), base, x);
  }

  lemma OverDoes(c: Core, base: seq<Bytes>, x: Bytes, y: Bytes)
    requires c.data == base + [x, y]
    ensures Does(c, Over(c), 9 + |x|, 0, base + [x, y, x])
  {
    hide StackCost;
    assert base + [x, y] + [x] == base + [x, y, x];
  }

  lemma TuckDoes(c: Core, base: seq<Bytes>, x: Bytes, y: Bytes)
    requires c.data == base + [x, y]
    ensures Does(c, Tuck(c), 9 + |y|, 0, base + [y, x, y])
  {
    hide StackCost;
    assert c.data[|c.data| - 2..] == [x, y] && c.data[..|c.data| - 2] == base;
    assert base + [y] + [x, y] == base + [y, x, y];
  }

  lemma SwapDoes(c: Core, base: seq<Bytes>, x: Bytes, y: Bytes)
    requires c.data == base + [x, y]
    ensures Does(c, Rearrange(c, 1, 2, 1), 1, 0, base + [y, x])
  {
    hide StackCost;
    assert Moved(c.data, 2, 1) == base + [y, x];
  }

  lemma CopyDoes(c: Core, x: Bytes)
    ensures Push(c, x, false) ==
            if c.runLimit >= 8 + |x| then Good(c.(runLimit := c.runLimit - 8 - |x|, data := c.data + [x]), ())
            else Bad(c.(runLimit := 0), RunLimitExceeded)
  {
    hide StackCost;
  }

  /** Copying n items from a depth: each is paid for. */
  lemma {:induction false} PushFromDoes(c: Core, depth: nat, n: nat)
    requires 0 < depth <= |c.data| && n <= depth && c.runLimit >= 0
    ensures var k := |c.data| - depth;
            Does(c, PushFrom(c, depth, n), StackCost(c.data[k..k + n]), 0, c.data + c.data[k..k + n])
    decreases n
  {
    hide Push, StackCost;
    var k := |c.data| - depth;
    if n == 0 {
      assert c.data[k..k] == [] && c.data + [] == c.data;
      CostOfNone();
    } else {
      CopyDoes(c, c.data[k]);
      FirstCosts(c.data[k..k + n]);
      assert c.data[k..k + n][1..] == c.data[k + 1..k + n];
      var r := Push(c, c.data[k], false);
      if r.Good? {
        PushFromDoes(r.core, depth, n - 1);
        CopyGoesOn(c.data, k, n);
      }
    }
  }

  lemma CopyGoesOn(s: seq<Bytes>, k: nat, n: nat)
    requires 0 < n && k + n <= |s|
    ensures var d := s + [s[k]]; d[k + 1..k + n] == s[k + 1..k + n] && d + d[k + 1..k + n] == s + s[k..k + n]
  {
    assert s[k..k + n] == [s[k]] + s[k + 1..k + n];
  }

  lemma CostOfNone()
    ensures StackCost([]) == 0
  {
  }

  lemma FirstCosts(s: seq<Bytes>)
    requires s != []
    ensures StackCost(s) == 8 + |s[0]| + StackCost(s[1..])
  {
    assert s == [s[0]] + s[1..];
    StackCostConcat([s[0]], s[1..]);
    StackCostSnoc([], s[0]);
    assert [] + [s[0]] == [s[0]];
  }

  lemma DupDoes(c: Core, n: nat)
    requires 0 < n <= |c.data|
    ensures Does(c, Dup(c, n), n + StackCost(c.data[|c.data| - n..]), 0, c.data + c.data[|c.data| - n..])
  {
    hide StackCost, PushFrom;
    if c.runLimit >= n {
      PushFromDoes(ApplyCost(c, n).core, n, n);
    }
    assert c.data[|c.data| - n..|c.data|] == c.data[|c.data| - n..];
  }

  lemma Over2Does(c: Core)
    requires 4 <= |c.data|
    ensures var k := |c.data| - 4;
            Does(c, Over2(c), 2 + StackCost(c.data[k..k + 2]), 0, c.data + c.data[k..k + 2])
  {
    hide StackCost, PushFrom;
    if c.runLimit >= 2 {
      PushFromDoes(ApplyCost(c, 2).core, 4, 2);
    }
  }

  /** DUP, 2DUP and 3DUP copy one, two or three items from the top, 2OVER the two items below the two on top, and pay
      for the copies; IFDUP copies the top if it is true. */
  lemma CopiesExactly(env: Env, c: Core, data: Bytes)
    ensures var n := |c.data|;
            && (n >= 1 ==> Does(c, ExecPlain(env, c, 0x76, data), 1 + StackCost(c.data[n - 1..]), 0,
                                c.data + c.data[n - 1..]))
            && (n >= 2 ==> Does(c, ExecPlain(env, c, 0x6e, data), 2 + StackCost(c.data[n - 2..]), 0,
                                c.data + c.data[n - 2..]))
            && (n >= 3 ==> Does(c, ExecPlain(env, c, 0x6f, data), 3 + StackCost(c.data[n - 3..]), 0,
                                c.data + c.data[n - 3..]))
            && (n >= 4 ==> Does(c, ExecPlain(env, c, 0x70, data), 2 + StackCost(c.data[n - 4..n - 2]), 0,
                                c.data + c.data[n - 4..n - 2]))
            && (n >= 1 ==> var x := c.data[n - 1];
                           if AsBool(x) then Does(c, ExecPlain(env, c, 0x73, data), 9 + |x|, 0, c.data + [x])
                           else Does(c, ExecPlain(env, c, 0x73, data), 1, 0, c.data))
  {
    hide ExecPlain, Does, Dup, Over2, IfDup, StackCost, AsBool;
    forall op: Byte | op in {0x76, 0x6e, 0x6f, 0x70, 0x73} {
      StackDispatch(env, c, op, data);
    }
    forall k | 1 <= k <= 3 && k <= |c.data| {
      DupDoes(c, k);
    }
    if |c.data| >= 4 {
      Over2Does(c);
    }
    if |c.data| >= 1 {
      IfDupDoes(c);
    }
  }

  lemma IfDupDoes(c: Core)
    requires c.data != []
    ensures var x := c.data[|c.data| - 1];
            if AsBool(x) then Does(c, IfDup(c), 9 + |x|, 0, c.data + [x]) else Does(c, IfDup(c), 1, 0, c.data)
  {
    hide StackCost, AsBool;
  }

  /** 2SWAP, ROT and 2ROT move items up without copying. */
  lemma MovesExactly(env: Env, c: Core, data: Bytes, base: seq<Bytes>, u: Bytes, v: Bytes, w: Bytes, x: Bytes, y: Bytes,
                     z: Bytes)
    ensures c.data == base + [x, y, z] ==> Does(c, ExecPlain(env, c, 0x7b, data), 2, 0, base + [y, z, x])
    ensures c.data == base + [w, x, y, z] ==> Does(c, ExecPlain(env, c, 0x72, data), 2, 0, base + [y, z, w, x])
    ensures c.data == base + [u, v, w, x, y, z] ==>
              Does(c, ExecPlain(env, c, 0x71, data), 2, 0, base + [w, x, y, z, u, v])
  {
    hide ExecPlain, Does, Rearrange, Moved;
    forall op: Byte | op in {0x7b, 0x72, 0x71} {
      StackDispatch(env, c, op, data);
    }
    if c.data == base + [x, y, z] {
      MovedItems(base, [x], [y, z]);
      RearrangeDoes(c, 2, 3, 1);
      assert base + [x] + [y, z] == c.data && base + [y, z] + [x] == base + [y, z, x];
    }
    if c.data == base + [w, x, y, z] {
      MovedItems(base, [w, x], [y, z]);
      RearrangeDoes(c, 2, 4, 2);
      assert base + [w, x] + [y, z] == c.data && base + [y, z] + [w, x] == base + [y, z, w, x];
    }
    if c.data == base + [u, v, w, x, y, z] {
      MovedItems(base, [u, v], [w, x, y, z]);
      RearrangeDoes(c, 2, 6, 2);
      assert base + [u, v] + [w, x, y, z] == c.data && base + [w, x, y, z] + [u, v] == base + [w, x, y, z, u, v];
    }
  }

  lemma RearrangeDoes(c: Core, cost: nat, n: nat, m: nat)
    requires m <= n <= |c.data| && cost > 0
    ensures Does(c, Rearrange(c, cost, n, m), cost, 0, Moved(c.data, n, m))
  {
    hide StackCost, Moved;
  }

  lemma MovedItems(base: seq<Bytes>, moving: seq<Bytes>, rest: seq<Bytes>)
    ensures Moved(base + moving + rest, |moving| + |rest|, |moving|) == base + rest + moving
  {
    hide StackCost;
    var s, k := base + moving + rest, |base|;
    assert s[..k] == base && s[k..k + |moving|] == moving && s[k + |moving|..] == rest;
  }

  lemma ToAltDoes(c: Core, base: seq<Bytes>, x: Bytes)
    requires c.data == base + [x]
    ensures var r := ToAltStack(c);
            if c.runLimit >= 2 then r == Good(c.(runLimit := c.runLimit - 2, data := base, alt := c.alt + [x]), ())
            else r.Bad? && r.err == RunLimitExceeded
  {
    hide StackCost;
    assert c.data[..|c.data| - 1] == base;
  }

  lemma FromAltDoes(c: Core, base: seq<Bytes>, x: Bytes)
    requires c.alt == base + [x]
    ensures var r := FromAltStack(c);
            if c.runLimit >= 2 then r == Good(c.(runLimit := c.runLimit - 2, data := c.data + [x], alt := base), ())
            else r.Bad? && r.err == RunLimitExceeded
  {
    hide StackCost;
    assert c.alt[..|c.alt| - 1] == base;
  }

  /** TOALTSTACK and FROMALTSTACK move one item for a price of two; from an empty alternate stack nothing comes. */
  lemma AltStackExactly(env: Env, c: Core, data: Bytes, base: seq<Bytes>, x: Bytes)
    ensures c.data == base + [x] ==>
              var r := ExecPlain(env, c, 0x6b, data);
              if c.runLimit >= 2 then r == Good(c.(runLimit := c.runLimit - 2, data := base, alt := c.alt + [x]), ())
              else r.Bad? && r.err == RunLimitExceeded
    ensures c.alt == base + [x] ==>
              var r := ExecPlain(env, c, 0x6c, data);
              if c.runLimit >= 2 then r == Good(c.(runLimit := c.runLimit - 2, data := c.data + [x], alt := base), ())
              else r.Bad? && r.err == RunLimitExceeded
    ensures c.alt == [] ==> Fails(c, ExecPlain(env, c, 0x6c, data), 2, AltStackUnderflow)
  {
    hide ExecPlain, ToAltStack;
    StackDispatch(env, c, 0x6b, data);
    StackDispatch(env, c, 0x6c, data);
    if c.data == base + [x] {
      ToAltDoes(c, base, x);
    }
    if c.alt == base + [x] {
      FromAltDoes(c, base, x);
    }
  }

  lemma PopDepthDoes(c: Core, base: seq<Bytes>, x: Bytes, n: int)
    requires c.data == base + [x] && AsInt64(x) == Ok(n)
    ensures var r := PopDepth(c);
            if c.runLimit < 10 + |x| then r.Bad? && r.err == RunLimitExceeded
            else if n < 0 || n == MAX_INT64 then r.Bad? && r.err == BadValue
            else r == Good(c.(runLimit := c.runLimit - 10 - |x|, data := base), n + 1)
  {
    hide StackCost, AsInt64, Pop;
    TopPops(ApplyCost(c, 2).core, base, x);
  }

  lemma PickDoes(c: Core, base: seq<Bytes>, x: Bytes, n: int)
    requires c.data == base + [x] && AsInt64(x) == Ok(n)
    ensures if n < 0 || n == MAX_INT64 then Fails(c, Pick(c), 10 + |x|, BadValue)
            else if n >= |base| then Fails(c, Pick(c), 10 + |x|, DataStackUnderflow)
            else var y := base[|base| - 1 - n]; Does(c, Pick(c), 18 + |x| + |y|, 0, base + [y])
  {
    hide StackCost, AsInt64, PopDepth;
    PopDepthDoes(c, base, x, n);
  }

  lemma RollDoes(c: Core, base: seq<Bytes>, x: Bytes, n: int)
    requires c.data == base + [x] && AsInt64(x) == Ok(n)
    ensures if n < 0 || n == MAX_INT64 then Fails(c, Roll(c), 10 + |x|, BadValue)
            else if n >= |base| then Fails(c, Roll(c), 10 + |x|, DataStackUnderflow)
            else var k := |base| - 1 - n; Does(c, Roll(c), 10 + |x|, 0, base[..k] + base[k + 1..] + [base[k]])
  {
    hide StackCost, AsInt64, PopDepth;
    PopDepthDoes(c, base, x, n);
    if 0 <= n < |base| {
      var k := |base| - 1 - n;
      assert base[k..k + 1] == [base[k]];
    }
  }

  /** PICK copies and ROLL moves the item n below the one after the number; DEPTH counts the items. */
  lemma DepthsExactly(env: Env, c: Core, data: Bytes, base: seq<Bytes>, x: Bytes, n: int)
    requires c.data == base + [x] && AsInt64(x) == Ok(n)
    ensures var r := ExecPlain(env, c, 0x79, data);
            if n < 0 || n == MAX_INT64 then Fails(c, r, 10 + |x|, BadValue)
            else if n >= |base| then Fails(c, r, 10 + |x|, DataStackUnderflow)
            else var y := base[|base| - 1 - n]; Does(c, r, 18 + |x| + |y|, 0, base + [y])
    ensures var r := ExecPlain(env, c, 0x7a, data);
            if n < 0 || n == MAX_INT64 then Fails(c, r, 10 + |x|, BadValue)
            else if n >= |base| then Fails(c, r, 10 + |x|, DataStackUnderflow)
            else var k := |base| - 1 - n; Does(c, r, 10 + |x|, 0, base[..k] + base[k + 1..] + [base[k]])
  {
    hide ExecPlain, Pick, Roll, AsInt64, Does, Fails;
    StackDispatch(env, c, 0x79, data);
    StackDispatch(env, c, 0x7a, data);
    PickDoes(c, base, x, n);
    RollDoes(c, base, x, n);
  }

  lemma DepthCounts(env: Env, c: Core, data: Bytes)
    ensures var z := Int64Bytes(|c.data|); Does(c, ExecPlain(env, c, 0x74, data), 9 + |z|, 0, c.data + [z])
  {
    hide ExecPlain, StackCost, Int64Bytes;
    StackDispatch(env, c, 0x74, data);
  }

  // -------------------------------------------------------------- pushes and verdicts

  lemma PushBytesDoes(c: Core, x: Bytes)
    ensures Does(c, PushBytes(c, x), 9 + |x|, 0, c.data + [x])
  {
    hide StackCost;
  }

  /** Instructions up to 0x60 push their data; 0x4f pushes minus one. */
  lemma PushesExactly(env: Env, c: Core, op: Byte, data: Bytes)
    ensures 0x01 <= op <= 0x4e || 0x51 <= op <= 0x60 ==>
              Does(c, ExecPlain(env, c, op, data), 9 + |data|, 0, c.data + [data])
    ensures op == 0 ==> Does(c, ExecPlain(env, c, op, data), 9, 0, c.data + [[]])
    ensures op == 0x4f ==> var m := Int64Bytes(-1); Does(c, ExecPlain(env, c, op, data), 9 + |m|, 0, c.data + [m])
  {
    hide PushBytes, Does, Int64Bytes;
    PushBytesDoes(c, data);
    PushBytesDoes(c, []);
    PushBytesDoes(c, Int64Bytes(-1));
  }

  /** VERIFY goes on exactly if the item on top is true; FAIL always fails; NOP costs one. */
  lemma VerdictsExactly(env: Env, c: Core, data: Bytes, base: seq<Bytes>, x: Bytes)
    requires c.data == base + [x]
    ensures var r := ExecPlain(env, c, 0x69, data);
            if AsBool(x) then Does(c, r, 1, 8 + |x|, base) else Fails(c, r, 1, VerifyFailed)
    ensures Fails(c, ExecPlain(env, c, 0x6a, data), 1, ReturnExecuted)
    ensures Does(c, ExecPlain(env, c, 0x61, data), 1, 0, c.data)
  {
    hide StackCost, AsBool, Pop;
    TopPops(ApplyCost(c, 1).core, base, x);
  }
}
