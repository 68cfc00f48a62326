// protocol/vm/vm.go: the state of the virtual machine, its two stacks and the
// run limit.  Pushing and popping both charge 8 plus the size of the item, at
// once or deferred to the end of the instruction.
module Machine {
  import opened Wrappers
  import opened Bytes
  import opened VmTypes

  /** What instructions act on.  `world` stands for the account state that contracts change.  `unpaid` records what
      failing CHECKPREDICATE children left uncharged; no instruction reads it. */
  datatype Core = Core(
    runLimit: int,
    deferred: int,
    data: seq<Bytes>,
    alt: seq<Bytes>,
    world: nat,
    unpaid: nat)

  /** The outcome of an action on the machine; an error keeps the state it happened in.  Out is the outcome of a run
      that was cut off. */
  datatype Res<+T> = Good(core: Core, val: T) | Bad(core: Core, err: VmError) | Out(core: Core) {
    predicate IsFailure() {
      !Good?
    }

    function PropagateFailure<U>(): Res<U>
      requires !Good?
    {
      if Bad? then Bad(core, err) else Out(core)
    }

    function Extract(): (Core, T)
      requires Good?
    {
      (core, val)
    }
  }

  /** Everything outside the machine that instructions can look at. */
  datatype Context = Context(
    vmVersion: nat,
    code: Bytes,
    arguments: seq<Bytes>,
    entryId: Bytes,
    txVersion: Option<nat>,
    blockHeight: Option<nat>,
    assetId: Option<Bytes>,
    amount: Option<nat>,
    txData: Option<Bytes>,
    entryData: Option<Bytes>,
    destPos: Option<nat>,
    spentOutputId: Option<Bytes>,
    txSigHash: Option<Bytes>,
    checkOutput: Option<(int, int, Bytes, int, Bytes, bool) -> Option<bool>>,
    sha256: Bytes -> Bytes,
    sha3: Bytes -> Bytes,
    ripemd160: Bytes -> Bytes,
    verifySig: (Bytes, Bytes, Bytes) -> bool,
    evm: (nat, Byte, seq<Bytes>, int) -> (nat, Option<(nat, Bytes)>),
    transfer: (nat, Byte, Bytes) -> (nat, bool))

  // ------------------------------------------------------------------ accounting

  function ItemCost(x: Bytes): nat {
    8 + |x|
  }

  function StackCost(s: seq<Bytes>): nat {
    if s == [] then 0 else StackCost(s[..|s| - 1]) + ItemCost(s[|s| - 1])
  }

  method ComputeStackCost(s: seq<Bytes>) returns (r: nat)
    ensures r == StackCost(s)
  {
    var total := 0;
    for i := 0 to |s|
      invariant 8 * i + total == StackCost(s[..i])
    {
      assert s[..i + 1][..i] == s[..i];
      total := total + |s[i]|;
    }
    assert s[..|s|] == s;
    return 8 * |s| + total;
  }

  lemma StackCostSnoc(s: seq<Bytes>, x: Bytes)
    ensures StackCost(s + [x]) == StackCost(s) + ItemCost(x)
  {
    assert (s + [x])[..|s|] == s;
  }

  lemma {:induction false} StackCostConcat(a: seq<Bytes>, b: seq<Bytes>)
    ensures StackCost(a + b) == StackCost(a) + StackCost(b)
  {
    if b == [] {
      assert a + b == a;
    } else {
      StackCostConcat(a, b[..|b| - 1]);
      assert (a + b)[..|a + b| - 1] == a + b[..|b| - 1];
    }
  }

  /** The run limit together with what the items on both stacks have cost. */
  function Worth(c: Core): int {
    c.runLimit + StackCost(c.data) + StackCost(c.alt)
  }

  /** Worth without what was never paid for. */
  function Net(c: Core): int {
    Worth(c) - c.unpaid
  }

  /** What will be left of it once the deferred cost is charged. */
  function Level(c: Core): int {
    Net(c) - c.deferred
  }

  /** A part of an instruction that takes at least k from the level and, whether it fails or not, adds no worth. */
  predicate Takes<T>(before: Core, r: Res<T>, k: int) {
    !r.Out? &&
    (before.runLimit >= 0 ==>
       && r.core.runLimit >= 0 && r.core.unpaid == before.unpaid && Net(r.core) <= Net(before)
       && (r.Good? ==> Level(r.core) <= Level(before) - k))
  }

  /** A whole instruction: if it succeeds it lowers the level, if it fails it has added no worth. */
  predicate Pays<T>(before: Core, r: Res<T>) {
    !r.Out? &&
    (before.runLimit >= 0 ==>
       && r.core.runLimit >= 0 && r.core.unpaid == before.unpaid
       && (r.Good? ==> Level(r.core) < Level(before))
       && (r.Bad? ==> Net(r.core) <= Net(before)))
  }

  // ------------------------------------------------------------------ primitives

  function ApplyCost(c: Core, n: int): (r: Res<()>)
    ensures n >= 0 ==> Takes(c, r, n)
  {
    if n > c.runLimit then Bad(c.(runLimit := 0), RunLimitExceeded) else Good(c.(runLimit := c.runLimit - n), ())
  }

  function Defer(c: Core, n: int): (r: Core)
    ensures Level(r) == Level(c) - n && Net(r) == Net(c)
  {
    c.(deferred := c.deferred + n)
  }

  function Charge(c: Core, n: int, deferred: bool): (r: Res<()>)
    ensures n >= 0 ==> Takes(c, r, n)
  {
    if deferred then Good(Defer(c, n), ()) else ApplyCost(c, n)
  }

  /** A push moves run limit into the stack.  A deferred one adds worth until it is paid for, so it only ever comes
      last in an instruction. */
  function Push(c: Core, x: Bytes, deferred: bool): (r: Res<()>)
    ensures !deferred ==> Takes(c, r, 0)
    ensures deferred ==>
            r.Good? && r.core.runLimit == c.runLimit && r.core.unpaid == c.unpaid && Level(r.core) == Level(c)
  {
    StackCostSnoc(c.data, x);
    var (c, _) :- Charge(c, ItemCost(x), deferred);
    Good(c.(data := c.data + [x]), ())
  }

  function Top(c: Core): (r: Res<Bytes>)
    ensures Takes(c, r, 0)
  {
    if c.data == [] then Bad(c, DataStackUnderflow) else Good(c, c.data[|c.data| - 1])
  }

  function Pop(c: Core, deferred: bool): (r: Res<Bytes>)
    ensures Takes(c, r, if r.Good? then 2 * ItemCost(r.val) else 0)
    ensures deferred ==> r.core.runLimit == c.runLimit
  {
    var (c, x) :- Top(c);
    var (c, _) :- Charge(c, ItemCost(x), deferred);
    Good(c.(data := c.data[..|c.data| - 1]), x)
  }

  function PopInt(c: Core, deferred: bool): (r: Res<int>)
    ensures Takes(c, r, 16)
    ensures deferred ==> r.core.runLimit == c.runLimit
  {
    var (c, x) :- Pop(c, deferred);
    match AsInt64(x)
    case Ok(n) => Good(c, n)
    case Err(e) => Bad(c, e)
  }

  /** The two topmost items, the lower one first; both pops are deferred. */
  function PopTwo(c: Core): (r: Res<(Bytes, Bytes)>)
    ensures Takes(c, r, if r.Good? then |r.val.0| + |r.val.1| else 0)
  {
    var (c, y) :- Pop(c, true);
    var (c, x) :- Pop(c, true);
    Good(c, (x, y))
  }

  function PopTwoInts(c: Core): (r: Res<(int, int)>)
    ensures Takes(c, r, 0)
  {
    var (c, y) :- PopInt(c, true);
    var (c, x) :- PopInt(c, true);
    Good(c, (x, y))
  }

  function PopMany(c: Core, n: nat, deferred: bool): (r: Res<seq<Bytes>>)
    ensures r.Good? ==> |r.val| == n
    ensures Takes(c, r, 16 * n)
  {
    if n == 0 then Good(c, [])
    else
      var (c, items) :- PopMany(c, n - 1, deferred);
      var (c, x) :- Pop(c, deferred);
      Good(c, items + [x])
  }

  predicate FalseTop(c: Core) {
    c.data == [] || !AsBool(c.data[|c.data| - 1])
  }
}
