// protocol/vm/crypto.go: hashes and signatures.  The hash functions and the
// signature scheme are parameters of the context.
module CryptoOps {
  import opened Bytes
  import opened VmTypes
  import opened Ops
  import opened Machine

  const PUBLIC_KEY_SIZE: nat := 32
  const MESSAGE_SIZE: nat := 32

  function Max(m: nat, n: nat): nat {
    if m < n then n else m
  }

  /** SHA256 and SHA3 cost the size of their input, at least 64; HASH160 costs 64 more than the size. */
  function HashTop(ctx: Context, c: Core, op: Byte): (r: Res<()>)
    ensures Pays(c, r)
  {
    var (c, x) :- Pop(c, false);
    var (c, _) :- ApplyCost(c, if op == OP_HASH160 then |x| + 64 else Max(|x|, 64));
    Push(c, if op == OP_SHA256 then ctx.sha256(x) else if op == OP_SHA3 then ctx.sha3(x) else ctx.ripemd160(x), false)
  }

  function TxSigHash(ctx: Context, c: Core): (r: Res<()>)
    ensures Pays(c, r)
  {
    var (c, _) :- ApplyCost(c, 256);
    if ctx.txSigHash.None? then Bad(c, ContextMissing) else Push(c, ctx.txSigHash.value, false)
  }

  function CheckSig(ctx: Context, c: Core): (r: Res<()>)
    ensures Pays(c, r)
  {
    hide ApplyCost, PopTwo, Pop, Net;
    var (c, _) :- ApplyCost(c, 1024);
    var (c, two) :- PopTwo(c);
    var (msg, key) := two;
    var (c, sig) :- Pop(c, true);
    if |msg| != MESSAGE_SIZE then Bad(c, BadValue)
    else Push(c, BoolBytes(|key| == PUBLIC_KEY_SIZE && ctx.verifySig(key, msg, sig)), true)
  }

  // ------------------------------------------------------- many signatures at once

  predicate KeysWellFormed(keys: seq<Bytes>) {
    forall i :: 0 <= i < |keys| ==> |keys[i]| == PUBLIC_KEY_SIZE
  }

  /** Goes through the keys once, using up a signature whenever it fits the key at hand. */
  predicate AllUsedUp(ctx: Context, keys: seq<Bytes>, msg: Bytes, sigs: seq<Bytes>) {
    if sigs == [] || keys == [] then sigs == []
    else AllUsedUp(ctx, keys[1..], msg, if ctx.verifySig(keys[0], msg, sigs[0]) then sigs[1..] else sigs)
  }

  method ComputeAllUsedUp(ctx: Context, keys: seq<Bytes>, msg: Bytes, sigs: seq<Bytes>) returns (r: bool)
    ensures r == AllUsedUp(ctx, keys, msg, sigs)
  {
    var left, unused := keys, sigs;
    while |unused| > 0 && |left| > 0
      invariant AllUsedUp(ctx, left, msg, unused) == AllUsedUp(ctx, keys, msg, sigs)
      decreases |left|
    {
      if ctx.verifySig(left[0], msg, unused[0]) {
        unused := unused[1..];
      }
      left := left[1..];
    }
    return |unused| == 0;
  }

  /** at assigns to every signature a key it is valid for; different signatures get different keys, in key order. */
  predicate Matching(ctx: Context, keys: seq<Bytes>, msg: Bytes, sigs: seq<Bytes>, at: seq<nat>) {
    && |at| == |sigs|
    && (forall i :: 0 <= i < |at| ==> at[i] < |keys| && ctx.verifySig(keys[at[i]], msg, sigs[i]))
    && (forall i, j :: 0 <= i < j < |at| ==> at[i] < at[j])
  }

  /** The single pass finds an order-preserving one-to-one matching whenever there is one. */
  lemma {:induction false} MatchingIsFound(ctx: Context, keys: seq<Bytes>, msg: Bytes, sigs: seq<Bytes>, at: seq<nat>)
    requires Matching(ctx, keys, msg, sigs, at)
    ensures AllUsedUp(ctx, keys, msg, sigs)
    decreases |keys|
  {
    if sigs != [] {
      assert at[0] < |keys|;
      var fits := ctx.verifySig(keys[0], msg, sigs[0]);
      if fits {
        LaterMatching(ctx, keys, msg, sigs, at);
        var rest := LowerMatching(ctx, keys, msg, sigs[1..], at[1..]);
        MatchingIsFound(ctx, keys[1..], msg, sigs[1..], rest);
      } else {
        assert at[0] > 0;
        var rest := LowerMatching(ctx, keys, msg, sigs, at);
        MatchingIsFound(ctx, keys[1..], msg, sigs, rest);
      }
    }
  }

  lemma LaterMatching(ctx: Context, keys: seq<Bytes>, msg: Bytes, sigs: seq<Bytes>, at: seq<nat>)
    requires Matching(ctx, keys, msg, sigs, at) && sigs != []
    ensures Matching(ctx, keys, msg, sigs[1..], at[1..]) && (|at| > 1 ==> at[1] > 0)
  {
    var later, rest := sigs[1..], at[1..];
    if |at| > 1 {
      assert at[0] < at[1];
    }
    assert forall i :: 0 <= i < |rest| ==> rest[i] == at[i + 1] && later[i] == sigs[i + 1];
  }

  /** A matching that does not use the first key. */
  lemma LowerMatching(ctx: Context, keys: seq<Bytes>, msg: Bytes, sigs: seq<Bytes>, at: seq<nat>)
    returns (rest: seq<nat>)
    requires keys != [] && Matching(ctx, keys, msg, sigs, at) && (at != [] ==> at[0] > 0)
    ensures Matching(ctx, keys[1..], msg, sigs, rest)
  {
    assert forall i :: 0 <= i < |at| ==> at[i] > 0;
    rest := seq(|at|, i requires 0 <= i < |at| => (at[i] - 1) as nat);
    var tail := keys[1..];
    assert forall i :: 0 <= i < |rest| ==> tail[rest[i]] == keys[at[i]];
  }

  lemma {:induction false} FoundIsMatching(ctx: Context, keys: seq<Bytes>, msg: Bytes, sigs: seq<Bytes>)
    returns (at: seq<nat>)
    requires AllUsedUp(ctx, keys, msg, sigs)
    ensures Matching(ctx, keys, msg, sigs, at)
    decreases |keys|
  {
    if sigs == [] {
      at := [];
    } else {
      var fits := ctx.verifySig(keys[0], msg, sigs[0]);
      var unused := if fits then sigs[1..] else sigs;
      var rest := FoundIsMatching(ctx, keys[1..], msg, unused);
      var shifted := ShiftMatching(ctx, keys, msg, unused, rest);
      if fits {
        at := [0] + shifted;
        FirstMatched(ctx, keys, msg, sigs, shifted);
      } else {
        at := shifted;
      }
    }
  }

  lemma FirstMatched(ctx: Context, keys: seq<Bytes>, msg: Bytes, sigs: seq<Bytes>, at: seq<nat>)
    requires keys != [] && sigs != [] && ctx.verifySig(keys[0], msg, sigs[0])
    requires Matching(ctx, keys, msg, sigs[1..], at) && forall i :: 0 <= i < |at| ==> at[i] > 0
    ensures Matching(ctx, keys, msg, sigs, [0] + at)
  {
    var all, later := [0] + at, sigs[1..];
    assert forall i :: 0 < i < |all| ==> all[i] == at[i - 1] && sigs[i] == later[i - 1];
  }

  lemma ShiftMatching(ctx: Context, keys: seq<Bytes>, msg: Bytes, sigs: seq<Bytes>, rest: seq<nat>)
    returns (at: seq<nat>)
    requires keys != [] && Matching(ctx, keys[1..], msg, sigs, rest)
    ensures Matching(ctx, keys, msg, sigs, at) && forall i :: 0 <= i < |at| ==> at[i] > 0
  {
    at := seq(|rest|, i requires 0 <= i < |rest| => rest[i] + 1);
    assert forall i :: 0 <= i < |rest| ==> keys[at[i]] == keys[1..][rest[i]];
  }

  /** CHECKMULTISIG answers true exactly when all signatures can be matched to the keys in order. */
  lemma GreedyIsExact(ctx: Context, keys: seq<Bytes>, msg: Bytes, sigs: seq<Bytes>)
    ensures AllUsedUp(ctx, keys, msg, sigs) <==> exists at :: Matching(ctx, keys, msg, sigs, at)
  {
    if AllUsedUp(ctx, keys, msg, sigs) {
      var at := FoundIsMatching(ctx, keys, msg, sigs);
    }
    if at :| Matching(ctx, keys, msg, sigs, at) {
      MatchingIsFound(ctx, keys, msg, sigs, at);
    }
  }

  predicate BadCounts(keys: int, sigs: int) {
    sigs < 0 || sigs > keys || (keys > 0 && sigs == 0)
  }

  /** Keys, message and signatures as CHECKMULTISIG takes them from the stack. */
  datatype MultiSig = MultiSig(keys: seq<Bytes>, msg: Bytes, sigs: seq<Bytes>)

  function PopCounts(c: Core): (r: Res<(nat, nat)>)
    ensures Takes(c, r, 16)
  {
    hide ApplyCost, PopInt, Net;
    var (c, keys) :- PopInt(c, true);
    if keys < 0 || keys * 1024 > MAX_INT64 then Bad(c, BadValue)
    else
      var (c, _) :- ApplyCost(c, keys * 1024);
      var (c, sigs) :- PopInt(c, true);
      if BadCounts(keys, sigs) then Bad(c, BadValue) else Good(c, (keys, sigs))
  }

  function PopMultiSig(c: Core): (r: Res<MultiSig>)
    ensures Takes(c, r, 16)
  {
    hide PopCounts, PopMany, Pop, Net;
    var (c, counts) :- PopCounts(c);
    var (c, keys) :- PopMany(c, counts.0, true);
    var (c, msg) :- Pop(c, true);
    if |msg| != MESSAGE_SIZE then Bad(c, BadValue)
    else
      var (c, sigs) :- PopMany(c, counts.1, true);
      Good(c, MultiSig(keys, msg, sigs))
  }

  function CheckMultiSig(ctx: Context, c: Core): (r: Res<()>)
    ensures Pays(c, r)
  {
    var (c, m) :- PopMultiSig(c);
    Push(c, BoolBytes(KeysWellFormed(m.keys) && AllUsedUp(ctx, m.keys, m.msg, m.sigs)), true)
  }
}
