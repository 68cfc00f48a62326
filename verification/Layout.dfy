// Programs under construction: items that are appended one by one, with jump
// addresses that are filled in once they are known.  Shared by the program
// builder (protocol/vmutil/builder.go) and the assembler (protocol/vm/assemble.go).
module Layout {
  import opened Wrappers
  import opened Bytes
  import opened Ops

  /** An address as it stands in the program: four bytes, least significant first. */
  type Word = b: Bytes | |b| == 4 witness [0, 0, 0, 0]

  type Addresses = map<nat, Word>

  /** A finished piece of text, or a jump to a numbered target with the address it currently carries. */
  datatype Item = Chunk(bytes: Bytes) | Jump(op: Byte, target: nat, word: Word)

  function Size(item: Item): nat {
    if item.Chunk? then |item.bytes| else 5
  }

  function Text(item: Item): (r: Bytes)
    ensures |r| == Size(item)
  {
    match item
    case Chunk(bytes) => bytes
    case Jump(op, _, word) => [op] + word
  }

  /** The bytes of the first n items. */
  function EmitUpTo(items: seq<Item>, n: nat): Bytes
    requires n <= |items|
  {
    if n == 0 then [] else EmitUpTo(items, n - 1) + Text(items[n - 1])
  }

  function Emit(items: seq<Item>): Bytes {
    EmitUpTo(items, |items|)
  }

  /** Where the n-th item starts. */
  function Start(items: seq<Item>, n: nat): nat
    requires n <= |items|
  {
    if n == 0 then 0 else Start(items, n - 1) + Size(items[n - 1])
  }

  function Length(items: seq<Item>): nat {
    Start(items, |items|)
  }

  lemma {:induction false} EmitLength(items: seq<Item>, n: nat)
    requires n <= |items|
    ensures |EmitUpTo(items, n)| == Start(items, n)
  {
    if n > 0 {
      EmitLength(items, n - 1);
    }
  }

  lemma {:induction false} PrefixStays(items: seq<Item>, item: Item, n: nat)
    requires n <= |items|
    ensures EmitUpTo(items + [item], n) == EmitUpTo(items, n)
    ensures Start(items + [item], n) == Start(items, n)
  {
    if n > 0 {
      PrefixStays(items, item, n - 1);
    }
  }

  lemma EmitOneMore(items: seq<Item>, item: Item)
    ensures Emit(items + [item]) == Emit(items) + Text(item)
    ensures Length(items + [item]) == Length(items) + Size(item)
  {
    PrefixStays(items, item, |items|);
  }

  /** b stands at position pos. */
  predicate At(prog: Bytes, pos: nat, b: Bytes) {
    pos + |b| <= |prog| && prog[pos..pos + |b|] == b
  }

  lemma AtStays(prog: Bytes, rest: Bytes, pos: nat, b: Bytes)
    requires At(prog, pos, b)
    ensures At(prog + rest, pos, b)
  {
    assert (prog + rest)[pos..pos + |b|] == prog[pos..pos + |b|];
  }

  lemma AtEnd(prog: Bytes, b: Bytes)
    ensures At(prog + b, |prog|, b)
  {
  }

  /** Each item's bytes stand at its offset. */
  lemma {:induction false} ItemInPlace(items: seq<Item>, n: nat, i: nat)
    requires i < n <= |items|
    ensures At(EmitUpTo(items, n), Start(items, i), Text(items[i]))
  {
    var prog := EmitUpTo(items, n - 1);
    if i < n - 1 {
      ItemInPlace(items, n - 1, i);
      AtStays(prog, Text(items[n - 1]), Start(items, i), Text(items[i]));
    } else {
      EmitLength(items, i);
      AtEnd(prog, Text(items[i]));
    }
  }

  // ----------------------------------------------------------- jump placeholders

  /** Where an item that starts at pos holds the address of the target. */
  function UseOf(item: Item, target: nat, pos: nat): seq<nat> {
    if item.Jump? && item.target == target then [pos + 1] else []
  }

  /** The positions of the address bytes of all jumps to the target among the first n items. */
  function UsesUpTo(items: seq<Item>, n: nat, target: nat): seq<nat>
    requires n <= |items|
  {
    if n == 0 then []
    else UsesUpTo(items, n - 1, target) + UseOf(items[n - 1], target, Start(items, n - 1))
  }

  function Uses(items: seq<Item>, target: nat): seq<nat> {
    UsesUpTo(items, |items|, target)
  }

  lemma {:induction false} UsesStay(items: seq<Item>, item: Item, n: nat, target: nat)
    requires n <= |items|
    ensures UsesUpTo(items + [item], n, target) == UsesUpTo(items, n, target)
  {
    if n > 0 {
      UsesStay(items, item, n - 1, target);
      PrefixStays(items, item, n - 1);
    }
  }

  lemma UsesOneMore(items: seq<Item>, item: Item, target: nat)
    ensures Uses(items + [item], target) ==
            Uses(items, target) + UseOf(item, target, Length(items))
  {
    UsesStay(items, item, |items|, target);
    PrefixStays(items, item, |items|);
  }

  function Patch(prog: Bytes, pos: nat, addr: Word): (r: Bytes)
    requires pos + 4 <= |prog|
    ensures |r| == |prog|
  {
    prog[..pos] + addr + prog[pos + 4..]
  }

  predicate Within(uses: seq<nat>, n: nat) {
    forall k :: 0 <= k < |uses| ==> uses[k] + 4 <= n
  }

  function PatchAll(prog: Bytes, uses: seq<nat>, addr: Word): (r: Bytes)
    requires Within(uses, |prog|)
    ensures |r| == |prog|
  {
    if uses == [] then prog
    else Patch(PatchAll(prog, uses[..|uses| - 1], addr), uses[|uses| - 1], addr)
  }

  lemma {:induction false} PatchPrefix(prog: Bytes, rest: Bytes, uses: seq<nat>, addr: Word)
    requires Within(uses, |prog|)
    ensures PatchAll(prog + rest, uses, addr) == PatchAll(prog, uses, addr) + rest
  {
    if uses != [] {
      PatchPrefix(prog, rest, uses[..|uses| - 1], addr);
      PatchOnePrefix(PatchAll(prog, uses[..|uses| - 1], addr), rest, uses[|uses| - 1], addr);
    }
  }

  lemma PatchOnePrefix(prog: Bytes, rest: Bytes, pos: nat, addr: Word)
    requires pos + 4 <= |prog|
    ensures Patch(prog + rest, pos, addr) == Patch(prog, pos, addr) + rest
  {
    assert (prog + rest)[pos + 4..] == prog[pos + 4..] + rest;
  }

  lemma PatchOneMore(prog: Bytes, uses: seq<nat>, pos: nat, addr: Word)
    requires Within(uses, |prog|) && pos + 4 <= |prog|
    ensures PatchAll(prog, uses + [pos], addr) == Patch(PatchAll(prog, uses, addr), pos, addr)
  {
    assert (uses + [pos])[..|uses|] == uses;
  }

  lemma PatchLast(prog: Bytes, op: Byte, x: Word, addr: Word)
    ensures Patch(prog + ([op] + x), |prog| + 1, addr) == prog + ([op] + addr)
  {
    var whole := prog + ([op] + x);
    assert whole[..|prog| + 1] == prog + [op];
    assert whole[|prog| + 5..] == [];
  }

  function FillOne(item: Item, target: nat, addr: Word): Item {
    if item.Jump? && item.target == target then item.(word := addr) else item
  }

  /** The items after the target's address has become known. */
  function Fill(items: seq<Item>, target: nat, addr: Word): (r: seq<Item>)
    ensures |r| == |items|
  {
    seq(|items|, i requires 0 <= i < |items| => FillOne(items[i], target, addr))
  }

  /** Writing an address at all uses of its target is emitting the filled items. */
  lemma {:induction false} PatchingFills(items: seq<Item>, n: nat, target: nat, addr: Word)
    requires n <= |items|
    ensures Within(UsesUpTo(items, n, target), |EmitUpTo(items, n)|)
    ensures PatchAll(EmitUpTo(items, n), UsesUpTo(items, n, target), addr) == EmitUpTo(Fill(items, target, addr), n)
  {
    hide PatchAll, Text, UseOf;
    if n > 0 {
      EmitLength(items, n - 1);
      PatchingFills(items, n - 1, target, addr);
      var prog, uses, item := EmitUpTo(items, n - 1), UsesUpTo(items, n - 1, target), items[n - 1];
      PatchingFillsOne(prog, uses, item, target, addr);
      assert EmitUpTo(items, n) == prog + Text(item);
      assert UsesUpTo(items, n, target) == uses + UseOf(item, target, |prog|);
    }
  }

  lemma PatchingFillsOne(prog: Bytes, uses: seq<nat>, item: Item, target: nat, addr: Word)
    requires Within(uses, |prog|)
    ensures var more := uses + UseOf(item, target, |prog|);
            && Within(more, |prog + Text(item)|)
            && PatchAll(prog + Text(item), more, addr) == PatchAll(prog, uses, addr) + Text(FillOne(item, target, addr))
  {
    if item.Jump? && item.target == target {
      PatchingJump(prog, uses, item.op, item.word, addr);
    } else {
      PatchPrefix(prog, Text(item), uses, addr);
      assert uses + [] == uses;
    }
  }

  lemma {:induction false} FillKeepsUses(items: seq<Item>, n: nat, target: nat, addr: Word, other: nat)
    requires n <= |items|
    ensures Start(Fill(items, target, addr), n) == Start(items, n)
    ensures UsesUpTo(Fill(items, target, addr), n, other) == UsesUpTo(items, n, other)
  {
    if n > 0 {
      FillKeepsUses(items, n - 1, target, addr, other);
    }
  }

  lemma PatchingJump(prog: Bytes, uses: seq<nat>, op: Byte, x: Word, addr: Word)
    requires Within(uses, |prog|)
    ensures PatchAll(prog + ([op] + x), uses + [|prog| + 1], addr) == PatchAll(prog, uses, addr) + ([op] + addr)
  {
    PatchPrefix(prog, [op] + x, uses, addr);
    PatchOneMore(prog + ([op] + x), uses, |prog| + 1, addr);
    PatchLast(PatchAll(prog, uses, addr), op, x, addr);
  }

  lemma {:induction false} UsedSomewhere(items: seq<Item>, n: nat, i: nat)
    requires i < n <= |items| && items[i].Jump?
    ensures UsesUpTo(items, n, items[i].target) != []
  {
    if i < n - 1 {
      UsedSomewhere(items, n - 1, i);
    }
  }

  lemma {:induction false} UsedBySome(items: seq<Item>, n: nat, target: nat) returns (i: nat)
    requires n <= |items| && UsesUpTo(items, n, target) != []
    ensures i < n && items[i].Jump? && items[i].target == target
  {
    if items[n - 1].Jump? && items[n - 1].target == target {
      i := n - 1;
    } else {
      i := UsedBySome(items, n - 1, target);
    }
  }

  // ------------------------------------------------------------- resolved items

  function ResolveOne(item: Item, addrs: Addresses): Item {
    if item.Jump? && item.target in addrs then item.(word := addrs[item.target]) else item
  }

  /** The items with all known addresses filled in. */
  function Resolve(items: seq<Item>, addrs: Addresses): (r: seq<Item>)
    ensures |r| == |items|
  {
    seq(|items|, i requires 0 <= i < |items| => ResolveOne(items[i], addrs))
  }

  lemma {:induction false} ResolveKeepsStart(items: seq<Item>, addrs: Addresses, n: nat)
    requires n <= |items|
    ensures Start(Resolve(items, addrs), n) == Start(items, n)
  {
    if n > 0 {
      ResolveKeepsStart(items, addrs, n - 1);
    }
  }

  // ------------------------------------------------------------------ instructions

  /** Items that are exactly one instruction. */
  predicate IsInstruction(item: Item) {
    match item
    case Chunk(b) => ParseOp(b, 0).Ok? && Encodes(b, ParseOp(b, 0).value)
    case Jump(op, _, _) => IsJump(op)
  }

  function InstOf(item: Item): Instruction
    requires IsInstruction(item)
  {
    match item
    case Chunk(b) => ParseOp(b, 0).value
    case Jump(op, _, word) => Instruction(op, 5, word)
  }

  predicate AllInstructions(items: seq<Item>) {
    forall i :: 0 <= i < |items| ==> IsInstruction(items[i])
  }

  function InstsOf(items: seq<Item>): (r: seq<Instruction>)
    requires AllInstructions(items)
    ensures |r| == |items|
  {
    seq(|items|, i requires 0 <= i < |items| => InstOf(items[i]))
  }

  lemma ItemParses(item: Item)
    requires IsInstruction(item)
    ensures Encodes(Text(item), InstOf(item))
  {
    if item.Jump? {
      var b := Text(item);
      assert b[1..5] == item.word;
    }
  }

  lemma {:induction false} OffsetIsStart(items: seq<Item>, i: nat)
    requires AllInstructions(items) && i <= |items|
    ensures Offset(InstsOf(items), i) == Start(items, i)
  {
    if i > 0 {
      OffsetIsStart(items, i - 1);
    }
  }

  lemma {:induction false} StartMonotone(items: seq<Item>, i: nat, j: nat)
    requires i <= j <= |items|
    ensures Start(items, i) <= Start(items, j)
  {
    if i < j {
      StartMonotone(items, i, j - 1);
    }
  }

  /** Emitted instructions are read back one for one. */
  lemma EmittedIsLaidOut(items: seq<Item>)
    requires AllInstructions(items) && Length(items) <= MAX_INT32
    ensures LaidOut(Emit(items), InstsOf(items))
  {
    hide ParseOp;
    var prog, insts := Emit(items), InstsOf(items);
    EmitLength(items, |items|);
    OffsetIsStart(items, |items|);
    forall i | 0 <= i < |items|
      ensures Placed(prog, insts, i)
    {
      OffsetIsStart(items, i);
      StartMonotone(items, i + 1, |items|);
      ItemInPlace(items, |items|, i);
      ItemParses(items[i]);
      ParseAnywhere(prog, Start(items, i), Text(items[i]), insts[i]);
    }
  }

  /** ParseProgram inverts Emit on instructions. */
  lemma EmittedParses(items: seq<Item>)
    requires AllInstructions(items) && Length(items) <= MAX_INT32
    ensures ParseProgram(Emit(items)) == Ok(InstsOf(items))
  {
    EmittedIsLaidOut(items);
    EmitLength(items, |items|);
    ParseProgramExactly(Emit(items), InstsOf(items));
  }
}
