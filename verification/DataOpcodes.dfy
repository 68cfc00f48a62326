// What the instructions on strings, hashes and signatures and those that look at
// the transaction do to the stack and what they cost, opcode by opcode.
module DataOpcodes {
  import opened Wrappers
  import opened Bytes
  import opened VmTypes
  import opened Pushdata
  import opened Machine
  import opened SpliceOps
  import opened CryptoOps
  import opened ContextOps
  import opened Interpreter
  import opened Opcodes

  // -------------------------------------------------------------------------- strings

  lemma SpliceDispatch(env: Env, c: Core, op: Byte, data: Bytes)
    requires 0x7e <= op <= 0x89
    ensures ExecPlain(env, c, op, data) == ExecSplice(c, op)
  {
    hide ExecSplice;
  }

  lemma CompareDoes(c: Core, base: seq<Bytes>, x: Bytes, y: Bytes)
    requires c.data == base + [x, y]
    ensures var r, now := Compare(c), 1 + if |x| < |y| then |x| else |y|;
            if c.runLimit >= now then
              r == Good(c.(runLimit := c.runLimit - now, deferred := c.deferred + 16 + |x| + |y|, data := base), x == y)
            else r.Bad? && r.err == RunLimitExceeded
  {
    hide StackCost, PopTwo;
    TwoPop(ApplyCost(c, 1).core, base, x, y);
  }

  /** EQUAL and EQUALVERIFY compare the two items on top and pay for the shorter one. */
  lemma EqualExactly(env: Env, c: Core, data: Bytes, base: seq<Bytes>, x: Bytes, y: Bytes)
    requires c.data == base + [x, y]
    ensures var now, z := 1 + (if |x| < |y| then |x| else |y|), Answer(x == y);
            && Does(c, ExecPlain(env, c, 0x87, data), now, 24 + |x| + |y| + |z|, base + [z])
            && (if x == y then Does(c, ExecPlain(env, c, 0x88, data), now, 16 + |x| + |y|, base)
                else Fails(c, ExecPlain(env, c, 0x88, data), now, VerifyFailed))
  {
    hide StackCost, ExecPlain, Compare;
    SpliceDispatch(env, c, 0x87, data);
    SpliceDispatch(env, c, 0x88, data);
    CompareDoes(c, base, x, y);
  }

  lemma ConcatenateDoes(c: Core, asPushdata: bool, base: seq<Bytes>, a: Bytes, b: Bytes)
    requires c.data == base + [a, b]
    ensures var z := a + if asPushdata then PushdataBytes(b) else b;
            Does(c, Concatenate(c, asPushdata), 4 + |a| + |b|, 24 + |z|, base + [z])
  {
    hide StackCost, PopTwo, PushdataBytes;
    TwoPop(ApplyCost(c, 4).core, base, a, b);
  }

  /** CAT joins two items; CATPUSHDATA joins one and the push of the other. */
  lemma CatExactly(env: Env, c: Core, data: Bytes, base: seq<Bytes>, a: Bytes, b: Bytes)
    requires c.data == base + [a, b]
    ensures Does(c, ExecPlain(env, c, 0x7e, data), 4 + |a| + |b|, 24 + |a + b|, base + [a + b])
    ensures var z := a + PushdataBytes(b); Does(c, ExecPlain(env, c, 0x89, data), 4 + |a| + |b|, 24 + |z|, base + [z])
  {
    hide ExecPlain, Concatenate, Does, PushdataBytes;
    SpliceDispatch(env, c, 0x7e, data);
    SpliceDispatch(env, c, 0x89, data);
    ConcatenateDoes(c, false, base, a, b);
    ConcatenateDoes(c, true, base, a, b);
  }

  lemma PopSizeDoes(c: Core, base: seq<Bytes>, y: Bytes, n: int)
    requires c.data == base + [y] && AsInt64(y) == Ok(n)
    ensures var r := PopSize(c);
            if c.runLimit < 4 then r.Bad? && r.err == RunLimitExceeded
            else if n < 0 then r.Bad? && r.err == BadValue
            else if c.runLimit < 4 + n then r.Bad? && r.err == RunLimitExceeded
            else r == Good(c.(runLimit := c.runLimit - 4 - n, deferred := c.deferred + 8 + |y| - n, data := base), n)
  {
    hide StackCost, AsInt64, PopInt;
    TopPopsInt(ApplyCost(c, 4).core, base, y, n);
  }

  lemma LeftDoes(c: Core, base: seq<Bytes>, s: Bytes, y: Bytes, n: int)
    requires c.data == base + [s, y] && AsInt64(y) == Ok(n)
    ensures if n < 0 then Fails(c, Left(c), 4, BadValue)
            else if n > |s| then Fails(c, Left(c), 4 + n, BadValue)
            else Does(c, Left(c), 4 + n, 24 + |s| + |y|, base + [s[..n]])
  {
    hide StackCost, AsInt64, PopSize, Pop;
    assert c.data == base + [s] + [y];
    PopSizeDoes(c, base + [s], y, n);
    if PopSize(c).Good? {
      TopPops(PopSize(c).core, base, s);
    }
  }

  lemma RightDoes(c: Core, base: seq<Bytes>, s: Bytes, y: Bytes, n: int)
    requires c.data == base + [s, y] && AsInt64(y) == Ok(n)
    ensures if n < 0 then Fails(c, Right(c), 4, BadValue)
            else if n > |s| then Fails(c, Right(c), 4 + n, BadValue)
            else Does(c, Right(c), 4 + n, 24 + |s| + |y|, base + [s[|s| - n..]])
  {
    hide StackCost, AsInt64, PopSize, Pop;
    assert c.data == base + [s] + [y];
    PopSizeDoes(c, base + [s], y, n);
    if PopSize(c).Good? {
      TopPops(PopSize(c).core, base, s);
    }
  }

  /** LEFT and RIGHT: the first or last n bytes. */
  lemma LeftRightExactly(env: Env, c: Core, data: Bytes, base: seq<Bytes>, s: Bytes, y: Bytes, n: int)
    requires c.data == base + [s, y] && AsInt64(y) == Ok(n)
    ensures var l, r := ExecPlain(env, c, 0x80, data), ExecPlain(env, c, 0x81, data);
            if n < 0 then Fails(c, l, 4, BadValue) && Fails(c, r, 4, BadValue)
            else if n > |s| then Fails(c, l, 4 + n, BadValue) && Fails(c, r, 4 + n, BadValue)
            else
              && Does(c, l, 4 + n, 24 + |s| + |y|, base + [s[..n]])
              && Does(c, r, 4 + n, 24 + |s| + |y|, base + [s[|s| - n..]])
  {
    hide ExecPlain, Left, Right, Does, Fails, AsInt64;
    SpliceDispatch(env, c, 0x80, data);
    SpliceDispatch(env, c, 0x81, data);
    LeftDoes(c, base, s, y, n);
    RightDoes(c, base, s, y, n);
  }

  /** SUBSTR: n bytes from the m-th on, if there are so many. */
  lemma SubstrExactly(env: Env, c: Core, data: Bytes, base: seq<Bytes>, s: Bytes, x: Bytes, y: Bytes, m: int, n: int)
    requires c.data == base + [s, x, y] && AsInt64(x) == Ok(m) && AsInt64(y) == Ok(n)
    ensures var r := ExecPlain(env, c, 0x7f, data);
            if n < 0 then Fails(c, r, 4, BadValue)
            else if m < 0 || m + n > MAX_INT64 || m + n > |s| then Fails(c, r, 4 + n, BadValue)
            else Does(c, r, 4 + n, 32 + |s| + |x| + |y|, base + [s[m..m + n]])
  {
    hide StackCost, AsInt64, PopSize, Pop, PopInt, ExecPlain;
    SpliceDispatch(env, c, 0x7f, data);
    assert c.data == base + [s] + [x] + [y];
    PopSizeDoes(c, base + [s] + [x], y, n);
    if PopSize(c).Good? {
      var c1 := PopSize(c).core;
      TopPopsInt(c1, base + [s], x, m);
      TopPops(PopInt(c1, true).core, base, s);
    }
  }

  lemma InvertDoes(c: Core, base: seq<Bytes>, x: Bytes)
    requires c.data == base + [x]
    ensures Does(c, Invert(c), 1 + |x|, 0, base + [seq(|x|, i requires 0 <= i < |x| => 255 - x[i])])
  {
    hide StackCost;
    assert c.data[..|c.data| - 1] == base;
  }

  /** SIZE adds the size of the item on top, INVERT turns its bits. */
  lemma SizeInvertExactly(env: Env, c: Core, data: Bytes, base: seq<Bytes>, x: Bytes)
    requires c.data == base + [x]
    ensures var z := Int64Bytes(|x|); Does(c, ExecPlain(env, c, 0x82, data), 1, 8 + |z|, base + [x, z])
    ensures Does(c, ExecPlain(env, c, 0x83, data), 1 + |x|, 0, base + [seq(|x|, i requires 0 <= i < |x| => 255 - x[i])])
  {
    hide StackCost, ExecPlain, Int64Bytes, Invert;
    SpliceDispatch(env, c, 0x82, data);
    SpliceDispatch(env, c, 0x83, data);
    InvertDoes(c, base, x);
    assert base + [x] + [Int64Bytes(|x|)] == base + [x, Int64Bytes(|x|)];
  }

  lemma BitwiseDoes(c: Core, op: Byte, base: seq<Bytes>, x: Bytes, y: Bytes)
    requires c.data == base + [x, y]
    ensures var z := BitwiseValue(op, x, y); Does(c, Bitwise(c, op), 1 + |z|, 24 + |x| + |y| + |z|, base + [z])
  {
    hide StackCost, PopTwo, BitwiseValue;
    TwoPop(ApplyCost(c, 1).core, base, x, y);
  }

  /** AND keeps the length of the shorter operand, OR and XOR that of the longer one, with zeros behind the shorter. */
  lemma BitwiseExactly(env: Env, c: Core, op: Byte, data: Bytes, base: seq<Bytes>, x: Bytes, y: Bytes)
    returns (z: Bytes)
    requires c.data == base + [x, y] && 0x84 <= op <= 0x86
    ensures Does(c, ExecPlain(env, c, op, data), 1 + |z|, 24 + |x| + |y| + |z|, base + [z])
    ensures |z| == if (op == 0x84) == (|x| < |y|) then |x| else |y|
    ensures forall i :: 0 <= i < |z| ==> z[i] == BitOp(op, if i < |x| then x[i] else 0, if i < |y| then y[i] else 0)
  {
    hide ExecPlain, Does, Bitwise, BitOp;
    SpliceDispatch(env, c, op, data);
    BitwiseDoes(c, op, base, x, y);
    z := BitwiseValue(op, x, y);
  }

  lemma BitOps(a: Byte, b: Byte)
    ensures BitOp(0x84, a, b) == ((a as bv8) & (b as bv8)) as nat
    ensures BitOp(0x85, a, b) == ((a as bv8) | (b as bv8)) as nat
    ensures BitOp(0x86, a, b) == ((a as bv8) ^ (b as bv8)) as nat
  {
  }

  // ----------------------------------------------------------- hashes and signatures

  lemma CryptoDispatch(env: Env, c: Core, op: Byte, data: Bytes)
    requires 0xa8 <= op <= 0xae
    ensures ExecPlain(env, c, op, data) == ExecCrypto(env.ctx, c, op)
  {
    hide ExecCrypto;
  }

  lemma HashTopDoes(ctx: Context, c: Core, op: Byte, base: seq<Bytes>, x: Bytes)
    requires c.data == base + [x]
    ensures var h := if op == 0xa8 then ctx.sha256(x) else if op == 0xaa then ctx.sha3(x) else ctx.ripemd160(x);
            var price := if op == 0xab then |x| + 64 else if |x| < 64 then 64 else |x|;
            Does(c, HashTop(ctx, c, op), 16 + |x| + price + |h|, 0, base + [h])
  {
    hide StackCost, Pop;
    TopPops(c, base, x);
  }

  /** SHA256, SHA3 and HASH160 replace the item on top by its hash. */
  lemma HashesExactly(env: Env, c: Core, data: Bytes, base: seq<Bytes>, x: Bytes)
    requires c.data == base + [x]
    ensures var h, price := env.ctx.sha256(x), 16 + |x| + if |x| < 64 then 64 else |x|;
            Does(c, ExecPlain(env, c, 0xa8, data), price + |h|, 0, base + [h])
    ensures var h, price := env.ctx.sha3(x), 16 + |x| + if |x| < 64 then 64 else |x|;
            Does(c, ExecPlain(env, c, 0xaa, data), price + |h|, 0, base + [h])
    ensures var h := env.ctx.ripemd160(x); Does(c, ExecPlain(env, c, 0xab, data), 80 + 2 * |x| + |h|, 0, base + [h])
  {
    hide ExecPlain, HashTop, Does;
    forall op: Byte | 0xa8 <= op <= 0xab
      ensures ExecPlain(env, c, op, data) == HashTop(env.ctx, c, op)
    {
      CryptoDispatch(env, c, op, data);
    }
    HashTopDoes(env.ctx, c, 0xa8, base, x);
    HashTopDoes(env.ctx, c, 0xaa, base, x);
    HashTopDoes(env.ctx, c, 0xab, base, x);
  }

  lemma CheckSigDoes(ctx: Context, c: Core, base: seq<Bytes>, sig: Bytes, msg: Bytes, key: Bytes)
    requires c.data == base + [sig, msg, key]
    ensures var z := Answer(|key| == 32 && ctx.verifySig(key, msg, sig));
            if |msg| != 32 then Fails(c, CheckSig(ctx, c), 1024, BadValue)
            else Does(c, CheckSig(ctx, c), 1024, 32 + |sig| + |msg| + |key| + |z|, base + [z])
  {
    hide StackCost, PopTwo, Pop;
    var c1 := ApplyCost(c, 1024).core;
    assert c.data == base + [sig] + [msg, key];
    TwoPop(c1, base + [sig], msg, key);
    TopPops(PopTwo(c1).core, base, sig);
  }

  /** CHECKSIG: true exactly if the key has 32 bytes and the signature is valid for it and the message; a message that
      does not have 32 bytes is an error. */
  lemma CheckSigExactly(env: Env, c: Core, data: Bytes, base: seq<Bytes>, sig: Bytes, msg: Bytes, key: Bytes)
    requires c.data == base + [sig, msg, key]
    ensures var r, z := ExecPlain(env, c, 0xac, data), Answer(|key| == 32 && env.ctx.verifySig(key, msg, sig));
            if |msg| != 32 then Fails(c, r, 1024, BadValue)
            else Does(c, r, 1024, 32 + |sig| + |msg| + |key| + |z|, base + [z])
  {
    hide ExecPlain, CheckSig, Does, Fails;
    CryptoDispatch(env, c, 0xac, data);
    CheckSigDoes(env.ctx, c, base, sig, msg, key);
  }

  lemma TxSigHashExactly(env: Env, c: Core, data: Bytes)
    ensures var r := ExecPlain(env, c, 0xae, data);
            match env.ctx.txSigHash
            case None => Fails(c, r, 256, ContextMissing)
            case Some(h) => Does(c, r, 264 + |h|, 0, c.data + [h])
  {
    hide ExecPlain, StackCost;
    CryptoDispatch(env, c, 0xae, data);
  }

  // ------------------------------------------------------------------ the transaction

  lemma ContextDispatch(env: Env, c: Core, op: Byte, data: Bytes)
    requires 0xc1 <= op <= 0xe5
    ensures ExecPlain(env, c, op, data) == ExecContext(env, c, op)
  {
    hide ExecContext;
  }

  /** An instruction that shows a field of the context, if it is there. */
  predicate Shows(c: Core, r: Res<()>, field: Option<Bytes>) {
    match field
    case None => Fails(c, r, 1, ContextMissing)
    case Some(x) => Does(c, r, 1, 8 + |x|, c.data + [x])
  }

  predicate ShowsNumber(c: Core, r: Res<()>, field: Option<nat>) {
    Shows(c, r, if field.None? then None else Some(Int64Bytes(field.value)))
  }

  lemma PushFieldShows(ctx: Context, c: Core, op: Byte)
    ensures Shows(c, PushField(ctx, c, op), Field(ctx, op))
  {
    hide StackCost, Field;
  }

  /** ASSET, AMOUNT, PROGRAM, TXDATA, ENTRYDATA, INDEX, ENTRYID, OUTPUTID and BLOCKHEIGHT. */
  lemma FieldsExactly(env: Env, c: Core, data: Bytes)
    ensures Shows(c, ExecPlain(env, c, 0xc2, data), env.ctx.assetId)
    ensures ShowsNumber(c, ExecPlain(env, c, 0xc3, data), env.ctx.amount)
    ensures Shows(c, ExecPlain(env, c, 0xc4, data), Some(env.ctx.code))
    ensures Shows(c, ExecPlain(env, c, 0xc7, data), env.ctx.txData)
    ensures Shows(c, ExecPlain(env, c, 0xc8, data), env.ctx.entryData)
    ensures ShowsNumber(c, ExecPlain(env, c, 0xc9, data), env.ctx.destPos)
    ensures Shows(c, ExecPlain(env, c, 0xca, data), Some(env.ctx.entryId))
    ensures Shows(c, ExecPlain(env, c, 0xcb, data), env.ctx.spentOutputId)
    ensures ShowsNumber(c, ExecPlain(env, c, 0xcd, data), env.ctx.blockHeight)
  {
    hide ExecPlain, PushField, Shows, Int64Bytes;
    forall op: Byte | 0xc2 <= op <= 0xcd
      ensures Shows(c, ExecPlain(env, c, op, data), Field(env.ctx, op))
    {
      ContextDispatch(env, c, op, data);
      PushFieldShows(env.ctx, c, op);
    }
  }

  lemma NatPops(c: Core, base: seq<Bytes>, x: Bytes, n: nat)
    requires c.data == base + [x] && AsInt64(x) == Ok(n)
    ensures PopNat(c) == Good(c.(deferred := c.deferred + 8 + |x|, data := base), n)
  {
    hide StackCost, AsInt64, PopInt;
    TopPopsInt(c, base, x, n);
  }

  /** The operands of CHECKOUTPUT: the position, the amount, the asset, the version and the program of an output. */
  datatype OutputItems = OutputItems(index: Bytes, amount: Bytes, asset: Bytes, version: Bytes, code: Bytes) {
    function Below(base: seq<Bytes>, n: nat): seq<Bytes>
      requires n <= 5
    {
      base + [index, amount, asset, version, code][..n]
    }

    function Cost(): nat {
      40 + |index| + |amount| + |asset| + |version| + |code|
    }
  }

  lemma ItemsBelow(o: OutputItems, base: seq<Bytes>)
    ensures o.Below(base, 5) == o.Below(base, 4) + [o.code] && o.Below(base, 4) == o.Below(base, 3) + [o.version]
    ensures o.Below(base, 3) == o.Below(base, 2) + [o.asset] && o.Below(base, 2) == o.Below(base, 1) + [o.amount]
    ensures o.Below(base, 1) == base + [o.index]
  {
  }

  lemma CheckOutputDoes(ctx: Context, reserved: bool, c: Core, base: seq<Bytes>, o: OutputItems, index: nat,
                        amount: nat, version: nat)
    requires c.data == o.Below(base, 5)
    requires AsInt64(o.index) == Ok(index) && AsInt64(o.amount) == Ok(amount) && AsInt64(o.version) == Ok(version)
    ensures var r := CheckOutput(ctx, reserved, c);
            if ctx.checkOutput.None? then Fails(c, r, 16, ContextMissing)
            else
              match ctx.checkOutput.value(index, amount, o.asset, version, o.code, reserved)
              case None => Fails(c, r, 16, External)
              case Some(b) => Does(c, r, 16, o.Cost() + 8 + |Answer(b)|, base + [Answer(b)])
  {
    hide StackCost, AsInt64, Pop, PopNat, OutputItems.Below;
    ItemsBelow(o, base);
    var c1 := ApplyCost(c, 16).core;
    TopPops(c1, o.Below(base, 4), o.code);
    var c2 := Pop(c1, true).core;
    NatPops(c2, o.Below(base, 3), o.version, version);
    var c3 := PopNat(c2).core;
    TopPops(c3, o.Below(base, 2), o.asset);
    var c4 := Pop(c3, true).core;
    NatPops(c4, o.Below(base, 1), o.amount, amount);
    NatPops(PopNat(c4).core, base, o.index, index);
  }

  /** CHECKOUTPUT asks the context about an output. */
  lemma CheckOutputExactly(env: Env, c: Core, data: Bytes, base: seq<Bytes>, o: OutputItems, index: nat, amount: nat,
                           version: nat)
    requires c.data == base + [o.index, o.amount, o.asset, o.version, o.code]
    requires AsInt64(o.index) == Ok(index) && AsInt64(o.amount) == Ok(amount) && AsInt64(o.version) == Ok(version)
    ensures var r := ExecPlain(env, c, 0xc1, data);
            if env.ctx.checkOutput.None? then Fails(c, r, 16, ContextMissing)
            else
              match env.ctx.checkOutput.value(index, amount, o.asset, version, o.code, env.reserved)
              case None => Fails(c, r, 16, External)
              case Some(b) => Does(c, r, 16, o.Cost() + 8 + |Answer(b)|, base + [Answer(b)])
  {
    hide ExecPlain, CheckOutput, AsInt64, Does, Fails;
    ContextDispatch(env, c, 0xc1, data);
    assert [o.index, o.amount, o.asset, o.version, o.code][..5] == [o.index, o.amount, o.asset, o.version, o.code];
    CheckOutputDoes(env.ctx, env.reserved, c, base, o, index, amount, version);
  }

  lemma TransferDoes(ctx: Context, c: Core, op: Byte, base: seq<Bytes>, version: Bytes, vmType: Bytes, address: Bytes)
    requires c.data == base + [version] + [vmType] + [address]
    requires ctx.assetId.Some? && ctx.amount.Some? && !NonZeroLow(version) && !NonZeroLow(vmType)
    requires c.runLimit >= 33 + |version| + |vmType| + |address|
    ensures var (world, done) := ctx.transfer(c.world, op, address);
            var r := Transfer(ctx, c, op);
            var left := c.runLimit - 24 - |version| - |vmType| - |address|;
            r == if done then Good(c.(runLimit := left - 9, data := base + [[1]], world := world), ())
                 else Bad(c.(runLimit := left, data := base, world := world), External)
  {
    hide StackCost, Pop, NonZeroLow;
    TopPops(c, base + [version] + [vmType], address);
    var c1 := Pop(c, false).core;
    TopPops(c1, base + [version], vmType);
    TopPops(Pop(c1, false).core, base, version);
  }

  /** DEPOSIT and WITHDRAW hand the address to the account state and take it over, whether the transfer is done or not;
      without an asset or an amount the machine panics. */
  lemma TransfersExactly(env: Env, c: Core, op: Byte, data: Bytes, base: seq<Bytes>, version: Bytes, vmType: Bytes,
                         address: Bytes)
    requires c.data == base + [version] + [vmType] + [address] && (op == 0xe4 || op == 0xe5)
    requires !NonZeroLow(version) && !NonZeroLow(vmType) && c.runLimit >= 33 + |version| + |vmType| + |address|
    ensures var (world, done) := env.ctx.transfer(c.world, op, address);
            var r := ExecPlain(env, c, op, data);
            var left := c.runLimit - 24 - |version| - |vmType| - |address|;
            r == if env.ctx.assetId.None? || env.ctx.amount.None? then Bad(c, Panic)
                 else if done then Good(c.(runLimit := left - 9, data := base + [[1]], world := world), ())
                 else Bad(c.(runLimit := left, data := base, world := world), External)
  {
    hide ExecPlain, NonZeroLow, Pop;
    ContextDispatch(env, c, op, data);
    if env.ctx.assetId.Some? && env.ctx.amount.Some? {
      TransferDoes(env.ctx, c, op, base, version, vmType, address);
    }
  }

  lemma {:induction false} PaidPops(c: Core, base: seq<Bytes>, items: seq<Bytes>, n: nat)
    requires c.data == base + items && n <= |items| && c.runLimit >= StackCost(items)
    ensures StackCost(items[..|items| - n]) <= StackCost(items)
    ensures PopMany(c, n, false) ==
            Good(c.(runLimit := c.runLimit - StackCost(items) + StackCost(items[..|items| - n]),
                    data := base + items[..|items| - n]),
                 seq(n, i requires 0 <= i < n => items[|items| - 1 - i]))
  {
    hide Pop, StackCost;
    if n == 0 {
      assert items[..|items|] == items;
    } else {
      PaidPops(c, base, items, n - 1);
      var k, r := |items| - n, PopMany(c, n - 1, false);
      assert items[..k + 1] == items[..k] + [items[k]];
      StackCostSnoc(items[..k], items[k]);
      assert base + items[..k + 1] == base + items[..k] + [items[k]];
      TopPops(r.core, base + items[..k], items[k]);
      assert r.val + [items[k]] == seq(n, i requires 0 <= i < n => items[|items| - 1 - i]);
    }
  }

  /** What a contract instruction finds on the stack: the sender, the nonce, the address except for CREATE, and above
      them the version and the code. */
  lemma PopMessageDoes(c: Core, op: Byte, base: seq<Bytes>, items: seq<Bytes>, version: Bytes, code: Bytes)
    requires c.data == base + items + [version] + [code] && |items| == (if op == 0xe1 then 2 else 3)
    requires !NonZeroLow(version) && c.runLimit >= 16 + |version| + |code| + StackCost(items)
    ensures var n := |items|;
            PopMessage(c, op) ==
            Good(c.(runLimit := c.runLimit - 16 - |version| - |code| - StackCost(items), data := base),
                 [code] + seq(n, i requires 0 <= i < n => items[n - 1 - i]))
  {
    hide Pop, PopMany, StackCost, NonZeroLow;
    TopPops(c, base + items + [version], code);
    var c1 := Pop(c, false).core;
    TopPops(c1, base + items, version);
    var c2 := Pop(c1, false).core;
    PaidPops(c2, base, items, |items|);
    assert items[..0] == [] && base + [] == base;
    CostOfNone();
  }

  /** CREATE, CALL and CONTRACT hand their operands, topmost first, and all the gas that is left to the contract
      machine, take over the account state, pay what it asks for and push its result. */
  lemma ContractsExactly(env: Env, c: Core, op: Byte, data: Bytes, base: seq<Bytes>, items: seq<Bytes>, version: Bytes,
                         code: Bytes)
    requires 0xe1 <= op <= 0xe3 && env.ctx.assetId.Some? && env.ctx.amount.Some?
    requires c.data == base + items + [version] + [code] && |items| == (if op == 0xe1 then 2 else 3)
    requires !NonZeroLow(version) && c.runLimit >= 16 + |version| + |code| + StackCost(items)
    ensures var n, left := |items|, c.runLimit - 16 - |version| - |code| - StackCost(items);
            var message := [code] + seq(n, i requires 0 <= i < n => items[n - 1 - i]);
            var (world, outcome) := env.ctx.evm(c.world, op, message, left);
            var d, r := c.(runLimit := left, data := base, world := world), ExecPlain(env, c, op, data);
            match outcome
            case None => r == Bad(d, External)
            case Some(done) => Does(d, r, done.0 + 8 + |done.1|, 0, base + [done.1])
  {
    hide ExecPlain, PopMessage, StackCost, NonZeroLow;
    ContextDispatch(env, c, op, data);
    PopMessageDoes(c, op, base, items, version, code);
  }
}
