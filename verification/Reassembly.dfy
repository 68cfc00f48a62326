// Assembling what a program disassembles to: when it succeeds, and that the new
// program then runs in lock step with the old one although its offsets differ.
module Reassembly {
  import opened Wrappers
  import opened Bytes
  import opened Ops
  import opened Pushdata
  import opened Layout
  import opened ProgramBuilder
  import opened Machine
  import opened Interpreter
  import opened Assembler

  /** The item an instruction turns into: pushes in their shortest form, jumps to labels. */
  function Rewrite(inst: Instruction, labels: map<nat, nat>): Item {
    if IsJump(inst.op) then Jump(inst.op, if Target(inst) in labels then labels[Target(inst)] else 0, [0, 0, 0, 0])
    else if inst.data != [] then Chunk(PushdataBytes(inst.data))
    else Chunk([inst.op])
  }

  function Rewritten(insts: seq<Instruction>, labels: map<nat, nat>): (r: seq<Item>)
    ensures |r| == |insts|
  {
    seq(|insts|, i requires 0 <= i < |insts| => Rewrite(insts[i], labels))
  }

  predicate Assemblable(inst: Instruction) {
    IsJump(inst.op) || inst.data != [] || Nameable(inst.op)
  }

  lemma TokenAssembles(d: Draft, inst: Instruction, labels: map<nat, nat>)
    ensures AssembleToken(d, TokenOf(inst, labels)) ==
            if Assemblable(inst) then Ok(Append(d, Rewrite(inst, labels))) else Err(BadToken)
  {
    hide PushdataBytes, Target, Nameable;
  }

  /** Of the instructions a program parses into, exactly the expansion opcodes and the empty pushes that carry a
      length cannot be assembled. */
  lemma WhatAssembles(prog: Bytes, pc: nat)
    requires ParseOp(prog, pc).Ok?
    ensures var inst := ParseOp(prog, pc).value;
            Assemblable(inst) <==>
              !IsExpansion(inst.op) && !(OP_PUSHDATA1 <= inst.op <= OP_PUSHDATA4 && inst.data == [])
  {
    hide FromLittleEndian;
  }

  // --------------------------------------------------------------- label locations

  /** Where the labels of the first m positions end up; position k is where instruction k starts. */
  function LocationsUpTo(insts: seq<Instruction>, labels: map<nat, nat>, m: nat): map<nat, nat>
    requires m <= |insts| + 1
  {
    if m == 0 then map[]
    else
      var before, loc := LocationsUpTo(insts, labels, m - 1), Offset(insts, m - 1);
      if loc in labels then before[labels[loc] := Start(Rewritten(insts, labels), m - 1)] else before
  }

  predicate Advancing(insts: seq<Instruction>) {
    forall i :: 0 <= i < |insts| ==> insts[i].len > 0
  }

  lemma {:induction false} OffsetGrows(insts: seq<Instruction>, i: nat, j: nat)
    requires Advancing(insts) && i < j <= |insts|
    ensures Offset(insts, i) < Offset(insts, j)
  {
    if i < j - 1 {
      OffsetGrows(insts, i, j - 1);
    }
  }

  /** No label is placed twice. */
  lemma {:induction false} NotPlacedYet(insts: seq<Instruction>, labels: map<nat, nat>, m: nat, j: nat)
    requires Advancing(insts) && Numbering(labels) && m <= j <= |insts| && Offset(insts, j) in labels
    ensures labels[Offset(insts, j)] !in LocationsUpTo(insts, labels, m)
  {
    hide Rewritten, Start;
    if m > 0 {
      NotPlacedYet(insts, labels, m - 1, j);
      OffsetGrows(insts, m - 1, j);
    }
  }

  lemma {:induction false} PlacedAt(insts: seq<Instruction>, labels: map<nat, nat>, m: nat, k: nat)
    requires Advancing(insts) && Numbering(labels) && k < m <= |insts| + 1 && Offset(insts, k) in labels
    ensures var name := labels[Offset(insts, k)];
            && name in LocationsUpTo(insts, labels, m)
            && LocationsUpTo(insts, labels, m)[name] == Start(Rewritten(insts, labels), k)
  {
    hide Rewritten, Start;
    if k < m - 1 {
      PlacedAt(insts, labels, m - 1, k);
      OffsetGrows(insts, k, m - 1);
    }
  }

  lemma {:induction false} PlacedFrom(insts: seq<Instruction>, labels: map<nat, nat>, m: nat, name: nat)
    returns (k: nat)
    requires m <= |insts| + 1 && name in LocationsUpTo(insts, labels, m)
    ensures k < m && Offset(insts, k) in labels && labels[Offset(insts, k)] == name
  {
    hide Rewritten, Start;
    var loc := Offset(insts, m - 1);
    if loc in labels && labels[loc] == name {
      k := m - 1;
    } else {
      k := PlacedFrom(insts, labels, m - 1, name);
    }
  }

  // -------------------------------------------------------------- assembling again

  lemma {:induction false} TokensStay(tokens: seq<Token>, more: seq<Token>, n: nat)
    requires n <= |tokens|
    ensures AssembleUpTo(tokens + more, n) == AssembleUpTo(tokens, n)
  {
    hide AssembleToken;
    if n > 0 {
      TokensStay(tokens, more, n - 1);
    }
  }

  lemma OneMoreToken(tokens: seq<Token>, t: Token)
    ensures var r := AssembleUpTo(tokens, |tokens|);
            AssembleUpTo(tokens + [t], |tokens| + 1) == if r.Ok? then AssembleToken(r.value, t) else Err(r.error)
  {
    hide AssembleToken;
    TokensStay(tokens, [t], |tokens|);
  }

  lemma {:induction false} PrefixLength(items: seq<Item>, n: nat, k: nat)
    requires k <= n <= |items|
    ensures Start(items[..n], k) == Start(items, k)
  {
    if k > 0 {
      PrefixLength(items, n, k - 1);
    }
  }

  /** After the tokens of the first n instructions. */
  ghost predicate Drafted(insts: seq<Instruction>, labels: map<nat, nat>, n: nat, m: nat, r: Result<Draft, AsmError>)
    requires n <= |insts| && m <= |insts| + 1
  {
    r == Ok(Draft(Rewritten(insts, labels)[..n], LocationsUpTo(insts, labels, m)))
  }

  lemma LabelDrafted(insts: seq<Instruction>, labels: map<nat, nat>, n: nat, tokens: seq<Token>)
    requires Advancing(insts) && Numbering(labels) && n <= |insts| && Length(Rewritten(insts, labels)) <= MAX_INT32
    requires Drafted(insts, labels, n, n, AssembleUpTo(tokens, |tokens|))
    ensures var more := tokens + LabelAt(labels, Offset(insts, n));
            Drafted(insts, labels, n, n + 1, AssembleUpTo(more, |more|))
  {
    hide Rewritten, Numbering;
    var loc := Offset(insts, n);
    if loc in labels {
      OneMoreToken(tokens, Label(labels[loc]));
      NotPlacedYet(insts, labels, n, n);
      PrefixLength(Rewritten(insts, labels), n, n);
      StartMonotone(Rewritten(insts, labels), n, |insts|);
    } else {
      assert tokens + [] == tokens;
    }
  }

  lemma InstructionDrafted(insts: seq<Instruction>, labels: map<nat, nat>, n: nat, tokens: seq<Token>)
    requires n < |insts| && Drafted(insts, labels, n, n + 1, AssembleUpTo(tokens, |tokens|))
    ensures var r := AssembleUpTo(tokens + [TokenOf(insts[n], labels)], |tokens| + 1);
            if Assemblable(insts[n]) then Drafted(insts, labels, n + 1, n + 1, r) else r.Err?
  {
    hide AssembleToken, TokenOf, Assemblable, Rewrite;
    OneMoreToken(tokens, TokenOf(insts[n], labels));
    TokenAssembles(AssembleUpTo(tokens, |tokens|).value, insts[n], labels);
    var items := Rewritten(insts, labels);
    assert items[..n] + [items[n]] == items[..n + 1];
  }

  predicate AllAssemblable(insts: seq<Instruction>, n: nat)
    requires n <= |insts|
  {
    forall i :: 0 <= i < n ==> Assemblable(insts[i])
  }

  lemma {:induction false} TokensDrafted(insts: seq<Instruction>, labels: map<nat, nat>, n: nat)
    requires Advancing(insts) && Numbering(labels) && n <= |insts| && Length(Rewritten(insts, labels)) <= MAX_INT32
    ensures var tokens := TokensUpTo(insts, labels, n);
            var r := AssembleUpTo(tokens, |tokens|);
            if AllAssemblable(insts, n) then Drafted(insts, labels, n, n, r) else r.Err?
  {
    hide Numbering, Assemblable, Rewritten, TokenOf, LabelAt, AssembleToken;
    if n > 0 {
      TokensDrafted(insts, labels, n - 1);
      var tokens := TokensUpTo(insts, labels, n - 1);
      var more := tokens + LabelAt(labels, Offset(insts, n - 1));
      if AllAssemblable(insts, n - 1) {
        LabelDrafted(insts, labels, n - 1, tokens);
        InstructionDrafted(insts, labels, n - 1, more);
      } else {
        StillFailed(tokens, LabelAt(labels, Offset(insts, n - 1)));
        StillFailed(more, [TokenOf(insts[n - 1], labels)]);
      }
    }
  }

  lemma {:induction false} StillFailed(tokens: seq<Token>, more: seq<Token>)
    requires AssembleUpTo(tokens, |tokens|).Err?
    ensures AssembleUpTo(tokens + more, |tokens + more|).Err?
    decreases |more|
  {
    hide AssembleToken;
    if more == [] {
      assert tokens + more == tokens;
    } else {
      var init := more[..|more| - 1];
      StillFailed(tokens, init);
      assert tokens + more == tokens + init + [more[|more| - 1]];
      OneMoreToken(tokens + init, more[|more| - 1]);
    }
  }

  /** Every jump goes to the start of an instruction or to the end. */
  ghost predicate OnTargets(insts: seq<Instruction>) {
    forall i :: 0 <= i < |insts| && IsJump(insts[i].op) ==> LandsInside(insts, insts[i])
  }

  ghost predicate LandsInside(insts: seq<Instruction>, inst: Instruction) {
    exists k :: 0 <= k <= |insts| && Target(inst) == Offset(insts, k)
  }

  function Locations(insts: seq<Instruction>): map<nat, nat> {
    LocationsUpTo(insts, LabelsUpTo(insts, |insts|), |insts| + 1)
  }

  /** The items of the program that comes out. */
  function Reassembled(insts: seq<Instruction>): seq<Item> {
    Resolve(Rewritten(insts, LabelsUpTo(insts, |insts|)), Words(Locations(insts)))
  }

  lemma JumpDefined(insts: seq<Instruction>, i: nat)
    requires Advancing(insts) && i < |insts| && IsJump(insts[i].op)
    ensures var labels := LabelsUpTo(insts, |insts|);
            && Target(insts[i]) in labels
            && (labels[Target(insts[i])] in Locations(insts) <==> LandsInside(insts, insts[i]))
  {
    hide Target, LocationsUpTo, Numbering;
    var labels, n := LabelsUpTo(insts, |insts|), |insts|;
    LabelsDiffer(insts, n);
    TargetsLabelled(insts, n, i);
    if k :| 0 <= k <= n && Target(insts[i]) == Offset(insts, k) {
      PlacedAt(insts, labels, n + 1, k);
    }
    if labels[Target(insts[i])] in Locations(insts) {
      var k := PlacedFrom(insts, labels, n + 1, labels[Target(insts[i])]);
      SameNumber(labels, Offset(insts, k), Target(insts[i]));
    }
  }

  lemma SameNumber(labels: map<nat, nat>, a: nat, b: nat)
    requires Numbering(labels) && a in labels && b in labels && labels[a] == labels[b]
    ensures a == b
  {
  }

  lemma AllJumpsDefined(insts: seq<Instruction>)
    requires Advancing(insts)
    ensures AllDefined(Draft(Rewritten(insts, LabelsUpTo(insts, |insts|)), Locations(insts))) <==> OnTargets(insts)
  {
    hide Target, Locations, LabelsUpTo, LandsInside;
    var items := Rewritten(insts, LabelsUpTo(insts, |insts|));
    forall i | 0 <= i < |insts|
      ensures items[i].Jump? <==> IsJump(insts[i].op)
      ensures IsJump(insts[i].op) ==> (items[i].target in Locations(insts) <==> LandsInside(insts, insts[i]))
    {
      if IsJump(insts[i].op) {
        JumpDefined(insts, i);
      }
    }
    var d := Draft(items, Locations(insts));
    if OnTargets(insts) {
      assert AllDefined(d);
    }
    if AllDefined(d) {
      forall i | 0 <= i < |insts| && IsJump(insts[i].op)
        ensures LandsInside(insts, insts[i])
      {
        assert d.items[i].Jump?;
      }
    }
  }

  /** Within the size limit, assembling the disassembly succeeds exactly when no instruction is an expansion opcode or
      an empty push with a length, and all jumps land on instructions or the end. */
  lemma ReassemblesExactly(insts: seq<Instruction>)
    requires Advancing(insts) && Length(Rewritten(insts, LabelsUpTo(insts, |insts|))) <= MAX_INT32
    ensures var r := Assemble(Tokens(insts));
            && (r.Ok? <==> AllAssemblable(insts, |insts|) && OnTargets(insts))
            && (r.Ok? ==> r.value == Emit(Reassembled(insts)))
  {
    hide Numbering, AllAssemblable, TokensUpTo, LabelAt, Rewritten, AssembleUpTo, OnTargets, AllDefined, LabelsUpTo,
      LocationsUpTo, Emit, Resolve, Length;
    var labels, n := LabelsUpTo(insts, |insts|), |insts|;
    LabelsDiffer(insts, n);
    TokensDrafted(insts, labels, n);
    var tokens := TokensUpTo(insts, labels, n);
    if AllAssemblable(insts, n) {
      LabelDrafted(insts, labels, n, tokens);
      AllJumpsDefined(insts);
      assert Rewritten(insts, labels)[..n] == Rewritten(insts, labels);
    } else {
      StillFailed(tokens, LabelAt(labels, Offset(insts, n)));
    }
  }

  // ------------------------------------------------------------------- lock step

  /** Instructions with the same effect, apart from where a jump goes. */
  predicate Corresponds(a: Instruction, b: Instruction) {
    if IsJump(a.op) then b.op == a.op
    else b.data == a.data && (b.op == a.op || (PushesData(a.op) && PushesData(b.op)))
  }

  /** Two jumps go to the same instruction of their programs. */
  ghost predicate GoTogether(p: seq<Instruction>, q: seq<Instruction>, a: Instruction, b: Instruction)
    requires |p| == |q|
  {
    exists k :: 0 <= k <= |p| && Target(a) == Offset(p, k) && Target(b) == Offset(q, k)
  }

  ghost predicate Tied(prog: Bytes, insts: seq<Instruction>, prog': Bytes, insts': seq<Instruction>) {
    && LaidOut(prog, insts) && LaidOut(prog', insts') && |insts| == |insts'|
    && (forall i :: 0 <= i < |insts| ==> Corresponds(insts[i], insts'[i]))
    && (forall i :: 0 <= i < |insts| && IsJump(insts[i].op) ==> GoTogether(insts, insts', insts[i], insts'[i]))
  }

  lemma SamePlain(env: Env, c: Core, a: Instruction, b: Instruction, fuel: nat)
    requires !IsJump(a.op) && Corresponds(a, b)
    ensures Perform(env, c, a.op, a.data, fuel) == Perform(env, c, b.op, b.data, fuel)
    ensures Perform(env, c, a.op, a.data, fuel).Good? ==> Perform(env, c, a.op, a.data, fuel).val.None?
  {
    hide ExecPlain, CheckPredicate, Settle, ApplyCost;
    if a.op != b.op {
      SamePush(env, c.(deferred := 0), a.op, b.op, a.data);
      assert Exec(env, c.(deferred := 0), a.op, a.data, fuel) == Exec(env, c.(deferred := 0), b.op, b.data, fuel);
    }
  }

  lemma SamePush(env: Env, c: Core, a: Byte, b: Byte, data: Bytes)
    requires PushesData(a) && PushesData(b)
    ensures ExecPlain(env, c, a, data) == ExecPlain(env, c, b, data)
  {
  }

  /** Jumps that go together are taken together, with the same effect on the machine. */
  lemma SameJump(env: Env, c: Core, a: Instruction, b: Instruction, fuel: nat)
    requires IsJump(a.op) && b.op == a.op
    ensures var x, y := Perform(env, c, a.op, a.data, fuel), Perform(env, c, b.op, b.data, fuel);
            && x.core == y.core && (x.Good? <==> y.Good?) && (x.Bad? ==> y == Bad(x.core, x.err)) && !x.Out? && !y.Out?
            && (x.Good? ==> (x.val.Some? <==> y.val.Some?))
            && (x.Good? && x.val.Some? ==> x.val.value == Target(a) && y.val.value == Target(b))
  {
    hide ExecJump, ExecPlain, CheckPredicate, Target;
    var c0 := c.(deferred := 0);
    JumpData(c0, a.op, a.data, b.data);
    assert Exec(env, c0, a.op, a.data, fuel) == ExecJump(c0, a.op, a.data);
    assert Exec(env, c0, a.op, b.data, fuel) == ExecJump(c0, a.op, b.data);
    TargetOf(a);
    TargetOf(b);
  }

  lemma TargetOf(inst: Instruction)
    ensures Target(inst) == FromLittleEndian(inst.data)
  {
  }

  lemma JumpData(c: Core, op: Byte, x: Bytes, y: Bytes)
    ensures var r, s := ExecJump(c, op, x), ExecJump(c, op, y);
            && r.core == s.core && (r.Good? <==> s.Good?) && (r.Bad? ==> s == Bad(r.core, r.err)) && !r.Out? && !s.Out?
            && (r.Good? ==> (r.val.Some? <==> s.val.Some?))
            && (r.Good? && r.val.Some? ==> r.val.value == FromLittleEndian(x) && s.val.value == FromLittleEndian(y))
  {
    hide FromLittleEndian, StackCost, Pop;
  }

  /** One step from the same instruction and the same state: both fail alike, or both go on at the same instruction
      in the same state. */
  lemma StepsInLock(env: Env, prog: Bytes, insts: seq<Instruction>, prog': Bytes, insts': seq<Instruction>,
                    i: nat, c: Core, fuel: nat)
    returns (j: nat)
    requires Tied(prog, insts, prog', insts') && i < |insts|
    ensures var x, y := Step(env, prog, Offset(insts, i), c, fuel), Step(env, prog', Offset(insts', i), c, fuel);
            && (!x.Good? ==> y == x)
            && (x.Good? ==> y.Good? && y.core == x.core && j <= |insts|
                            && x.val == Offset(insts, j) && y.val == Offset(insts', j))
  {
    hide Perform, ParseOp, Target, Corresponds;
    var a, b := insts[i], insts'[i];
    assert Placed(prog, insts, i) && Placed(prog', insts', i) && Corresponds(a, b);
    j := i + 1;
    if IsJump(a.op) {
      CorrespondingJump(a, b);
      SameJump(env, c, a, b, fuel);
      var x := Perform(env, c, a.op, a.data, fuel);
      if x.Good? && x.val.Some? {
        assert GoTogether(insts, insts', a, b);
        j :| 0 <= j <= |insts| && Target(a) == Offset(insts, j) && Target(b) == Offset(insts', j);
      }
    } else {
      SamePlain(env, c, a, b, fuel);
    }
  }

  lemma CorrespondingJump(a: Instruction, b: Instruction)
    requires Corresponds(a, b) && IsJump(a.op)
    ensures b.op == a.op
  {
  }

  lemma {:induction false} RunsInLock(env: Env, prog: Bytes, insts: seq<Instruction>, prog': Bytes,
                                      insts': seq<Instruction>, i: nat, c: Core, fuel: nat)
    requires Tied(prog, insts, prog', insts') && Advancing(insts) && Advancing(insts') && i <= |insts|
    ensures Run(env, prog, Offset(insts, i), c, fuel) == Run(env, prog', Offset(insts', i), c, fuel)
    decreases fuel
  {
    hide Tied, Step;
    TiedSizes(prog, insts, prog', insts');
    if i < |insts| {
      OffsetGrows(insts, i, |insts|);
      OffsetGrows(insts', i, |insts|);
      if fuel > 0 {
        var j := StepsInLock(env, prog, insts, prog', insts', i, c, fuel - 1);
        var x := Step(env, prog, Offset(insts, i), c, fuel - 1);
        if x.Good? {
          RunsInLock(env, prog, insts, prog', insts', j, x.core, fuel - 1);
        }
      }
    }
  }

  lemma TiedSizes(prog: Bytes, insts: seq<Instruction>, prog': Bytes, insts': seq<Instruction>)
    requires Tied(prog, insts, prog', insts')
    ensures |prog| == Offset(insts, |insts|) <= MAX_INT32 && |prog'| == Offset(insts', |insts'|) <= MAX_INT32
    ensures |insts| == |insts'|
  {
  }

  // --------------------------------------------------------- the two programs are tied

  /** What parsing guarantees about the instructions it returns. */
  predicate Parsed(inst: Instruction) {
    inst.len > 0 && (inst.data != [] && !IsJump(inst.op) ==> PushesData(inst.op))
    && (inst.data == [] && Nameable(inst.op) ==> StandsAlone(inst.op) && !(OP_1 <= inst.op <= OP_16))
  }

  lemma ParsedOp(prog: Bytes, pc: nat)
    requires ParseOp(prog, pc).Ok?
    ensures Parsed(ParseOp(prog, pc).value)
  {
    hide FromLittleEndian;
  }

  lemma LaidOutIsParsed(prog: Bytes, insts: seq<Instruction>)
    requires LaidOut(prog, insts)
    ensures Advancing(insts) && forall i :: 0 <= i < |insts| ==> Parsed(insts[i])
  {
    hide ParseOp, Parsed, Nameable;
    forall i | 0 <= i < |insts|
      ensures insts[i].len > 0 && Parsed(insts[i])
    {
      assert Placed(prog, insts, i);
      ParsedOp(prog, Offset(insts, i));
    }
  }

  lemma RewriteCorresponds(inst: Instruction, labels: map<nat, nat>)
    requires Parsed(inst) && Assemblable(inst) && Size(Rewrite(inst, labels)) <= MAX_INT32
    ensures IsInstruction(Rewrite(inst, labels)) && Corresponds(inst, InstOf(Rewrite(inst, labels)))
    ensures Rewrite(inst, labels).Jump? <==> IsJump(inst.op)
  {
    hide Target, PushdataBytes, ParseOp, Nameable;
    if IsJump(inst.op) {
    } else if inst.data != [] {
      PushIsInstruction(inst.data);
      PushesInst(inst.data);
    } else {
      OpInstruction(inst.op);
    }
  }

  lemma PushesInst(d: Bytes)
    requires d != []
    ensures PushesData(PushInst(d).op)
  {
    hide LittleEndian;
  }

  lemma OpInstruction(op: Byte)
    requires StandsAlone(op) && !(OP_1 <= op <= OP_16)
    ensures IsInstruction(Chunk([op])) && InstOf(Chunk([op])) == Instruction(op, 1, [])
  {
  }

  lemma {:induction false} ItemSize(items: seq<Item>, n: nat, i: nat)
    requires i < n <= |items|
    ensures Size(items[i]) <= Start(items, n)
  {
    if i < n - 1 {
      ItemSize(items, n - 1, i);
    }
  }

  /** The reassembled program, in the size limit, consists of instructions that correspond one for one. */
  lemma ReassembledInsts(insts: seq<Instruction>, i: nat)
    requires i < |insts| && Parsed(insts[i]) && Assemblable(insts[i])
    requires Length(Rewritten(insts, LabelsUpTo(insts, |insts|))) <= MAX_INT32
    ensures |Reassembled(insts)| == |insts| && IsInstruction(Reassembled(insts)[i])
    ensures Corresponds(insts[i], InstOf(Reassembled(insts)[i]))
  {
    hide Parsed, Assemblable, IsInstruction, LabelsUpTo, Locations, LittleEndian, Rewrite;
    var labels := LabelsUpTo(insts, |insts|);
    ItemSize(Rewritten(insts, labels), |insts|, i);
    RewriteCorresponds(insts[i], labels);
    ResolvedCorresponds(insts[i], Rewrite(insts[i], labels), Words(Locations(insts)));
  }

  lemma ResolvedCorresponds(inst: Instruction, item: Item, addrs: Addresses)
    requires IsInstruction(item) && Corresponds(inst, InstOf(item))
    requires item.Jump? ==> IsJump(inst.op)
    ensures IsInstruction(ResolveOne(item, addrs)) && Corresponds(inst, InstOf(ResolveOne(item, addrs)))
  {
    hide ParseOp;
  }

  lemma {:induction false} ReassembledStart(insts: seq<Instruction>, k: nat)
    requires k <= |insts|
    ensures Start(Reassembled(insts), k) == Start(Rewritten(insts, LabelsUpTo(insts, |insts|)), k)
  {
    ResolveKeepsStart(Rewritten(insts, LabelsUpTo(insts, |insts|)), Words(Locations(insts)), k);
  }

  /** A jump of the new program goes to the instruction the old jump goes to. */
  lemma ReassembledTarget(insts: seq<Instruction>, i: nat, k: nat)
    requires Advancing(insts) && i < |insts| && IsJump(insts[i].op) && k <= |insts|
             && Target(insts[i]) == Offset(insts, k)
    requires Length(Rewritten(insts, LabelsUpTo(insts, |insts|))) <= MAX_INT32
    ensures var item := Reassembled(insts)[i];
            item.Jump? && FromLittleEndian(item.word) == Start(Reassembled(insts), k)
  {
    hide Target, LabelsUpTo, LocationsUpTo, FromLittleEndian, LittleEndian, Start;
    var labels, n := LabelsUpTo(insts, |insts|), |insts|;
    LabelsDiffer(insts, n);
    TargetsLabelled(insts, n, i);
    PlacedAt(insts, labels, n + 1, k);
    var loc := Start(Rewritten(insts, labels), k);
    StartMonotone(Rewritten(insts, labels), k, n);
    Powers();
    LittleEndianRoundTrip(loc, 4);
    ReassembledStart(insts, k);
  }

  lemma ReassembledTied(prog: Bytes, insts: seq<Instruction>)
    requires LaidOut(prog, insts) && AllAssemblable(insts, |insts|) && OnTargets(insts)
    requires Length(Rewritten(insts, LabelsUpTo(insts, |insts|))) <= MAX_INT32
    ensures AllInstructions(Reassembled(insts))
    ensures Tied(prog, insts, Emit(Reassembled(insts)), InstsOf(Reassembled(insts)))
  {
    hide LaidOut, Assemblable, Parsed, IsInstruction, InstOf, Corresponds, LabelsUpTo, Rewritten, Locations,
      Reassembled, Start, Emit;
    var items := Reassembled(insts);
    LaidOutIsParsed(prog, insts);
    forall i | 0 <= i < |insts|
      ensures |items| == |insts| && IsInstruction(items[i]) && Corresponds(insts[i], InstOf(items[i]))
    {
      ReassembledInsts(insts, i);
    }
    ReassembledSize(insts);
    ReassembledStart(insts, |insts|);
    EmittedIsLaidOut(items);
    forall i | 0 <= i < |insts| && IsJump(insts[i].op)
      ensures GoTogether(insts, InstsOf(items), insts[i], InstsOf(items)[i])
    {
      assert LandsInside(insts, insts[i]);
      var k :| 0 <= k <= |insts| && Target(insts[i]) == Offset(insts, k);
      ReassembledTarget(insts, i, k);
      OffsetIsStart(items, k);
      JumpTarget(items[i]);
      assert Target(InstsOf(items)[i]) == Offset(InstsOf(items), k);
    }
  }

  lemma ReassembledSize(insts: seq<Instruction>)
    ensures |Reassembled(insts)| == |insts|
  {
  }

  lemma JumpTarget(item: Item)
    requires item.Jump? && IsInstruction(item)
    ensures Target(InstOf(item)) == FromLittleEndian(item.word)
  {
  }

  /** Assembling the disassembly of a program without expansion opcodes and without empty pushes that carry a length,
      whose jumps all land on instructions or the end, gives a program that runs in lock step with it: from every
      instruction and every state, with the same states, the same errors and the same outcome, as long as both are run
      in the same context.  The context's own copy of the code is the subject of Recoding. */
  lemma ReassembledRunsAlike(prog: Bytes, insts: seq<Instruction>, env: Env, i: nat, c: Core, fuel: nat)
    requires |prog| <= MAX_INT32 && ParseProgram(prog) == Ok(insts) && i <= |insts|
    requires AllAssemblable(insts, |insts|) && OnTargets(insts)
    requires Length(Rewritten(insts, LabelsUpTo(insts, |insts|))) <= MAX_INT32
    ensures Disassemble(prog).Ok? && Assemble(Disassemble(prog).value).Ok? && AllInstructions(Reassembled(insts))
    ensures var prog' := Assemble(Disassemble(prog).value).value;
            var insts' := InstsOf(Reassembled(insts));
            && ParseProgram(prog') == Ok(insts') && |insts'| == |insts|
            && Run(env, prog', Offset(insts', i), c, fuel) == Run(env, prog, Offset(insts, i), c, fuel)
  {
    hide LaidOut, AllAssemblable, OnTargets, Rewritten, LabelsUpTo, Tokens, Reassembled, Tied, Run, Assemble, Emit,
      Length, InstsOf, AllInstructions;
    ParseProgramExactly(prog, insts);
    LaidOutIsParsed(prog, insts);
    ReassemblesExactly(insts);
    ReassembledTied(prog, insts);
    var prog', insts' := Emit(Reassembled(insts)), InstsOf(Reassembled(insts));
    TiedParts(prog, insts, prog', insts');
    LaidOutIsParsed(prog', insts');
    ParseProgramExactly(prog', insts');
    RunsInLock(env, prog, insts, prog', insts', i, c, fuel);
  }

  lemma TiedParts(prog: Bytes, insts: seq<Instruction>, prog': Bytes, insts': seq<Instruction>)
    requires Tied(prog, insts, prog', insts')
    ensures LaidOut(prog', insts') && |prog'| <= MAX_INT32 && |insts'| == |insts|
  {
  }
}
