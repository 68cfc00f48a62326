// protocol/vmutil/builder.go: building programs from pushes, opcodes and jumps
// to targets that may be placed later.
module ProgramBuilder {
  import opened Wrappers
  import opened Bytes
  import opened Ops
  import opened Pushdata
  import opened Layout

  function Words(jumpAddr: map<nat, nat>): Addresses {
    map t | t in jumpAddr :: LittleEndian(jumpAddr[t], 4)
  }

  /** Every placed target is the start of an item, or the end of the program. */
  ghost predicate OnBoundaries(items: seq<Item>, jumpAddr: map<nat, nat>) {
    forall t :: t in jumpAddr ==> IsBoundary(items, jumpAddr[t])
  }

  ghost predicate IsBoundary(items: seq<Item>, addr: nat) {
    exists k :: 0 <= k <= |items| && addr == Start(items, k) % TWO_32
  }

  function PlaceholdersOf(placeholders: map<nat, seq<nat>>, target: nat): seq<nat> {
    if target in placeholders then placeholders[target] else []
  }

  ghost predicate ListsUses(items: seq<Item>, placeholders: map<nat, seq<nat>>) {
    && (forall t :: PlaceholdersOf(placeholders, t) == Uses(items, t))
    && (forall t :: t in placeholders ==> Uses(items, t) != [])
  }

  lemma ListsOneMore(items: seq<Item>, placeholders: map<nat, seq<nat>>, bytes: Bytes)
    requires ListsUses(items, placeholders)
    ensures ListsUses(items + [Chunk(bytes)], placeholders)
  {
    forall t
      ensures Uses(items + [Chunk(bytes)], t) == Uses(items, t)
    {
      UsesOneMore(items, Chunk(bytes), t);
    }
  }

  lemma ListsJump(items: seq<Item>, placeholders: map<nat, seq<nat>>, item: Item)
    requires ListsUses(items, placeholders) && item.Jump?
    ensures ListsUses(items + [item],
                      placeholders[item.target := PlaceholdersOf(placeholders, item.target) + [Length(items) + 1]])
  {
    hide Uses, Length;
    var after := placeholders[item.target := PlaceholdersOf(placeholders, item.target) + [Length(items) + 1]];
    forall t
      ensures PlaceholdersOf(after, t) == Uses(items + [item], t)
      ensures t in after ==> Uses(items + [item], t) != []
    {
      UsesOneMore(items, item, t);
      assert PlaceholdersOf(placeholders, t) == Uses(items, t);
    }
  }

  lemma ListsFilled(items: seq<Item>, placeholders: map<nat, seq<nat>>, target: nat, addr: Word)
    requires ListsUses(items, placeholders)
    ensures ListsUses(Fill(items, target, addr), placeholders)
  {
    forall t
      ensures Uses(Fill(items, target, addr), t) == Uses(items, t)
    {
      FillKeepsUses(items, |items|, target, addr, t);
    }
  }

  lemma BoundariesFilled(items: seq<Item>, jumpAddr: map<nat, nat>, target: nat, addr: Word)
    requires OnBoundaries(items, jumpAddr)
    ensures OnBoundaries(Fill(items, target, addr), jumpAddr)
  {
    forall t | t in jumpAddr
      ensures IsBoundary(Fill(items, target, addr), jumpAddr[t])
    {
      var k :| 0 <= k <= |items| && jumpAddr[t] == Start(items, k) % TWO_32;
      FillKeepsUses(items, k, target, addr, t);
    }
  }

  lemma BoundariesStay(items: seq<Item>, item: Item, jumpAddr: map<nat, nat>)
    requires OnBoundaries(items, jumpAddr)
    ensures OnBoundaries(items + [item], jumpAddr)
  {
    forall t | t in jumpAddr
      ensures IsBoundary(items + [item], jumpAddr[t])
    {
      var k :| 0 <= k <= |items| && jumpAddr[t] == Start(items, k) % TWO_32;
      PrefixStays(items, item, k);
    }
  }

  method PatchUses(prog: Bytes, uses: seq<nat>, addr: Word) returns (r: Bytes)
    requires Within(uses, |prog|)
    ensures r == PatchAll(prog, uses, addr)
  {
    r := prog;
    for i := 0 to |uses|
      invariant r == PatchAll(prog, uses[..i], addr)
    {
      PatchNext(prog, uses, i, addr);
      r := r[..uses[i]] + addr + r[uses[i] + 4..];
    }
    assert uses[..|uses|] == uses;
  }

  lemma JumpText(items: seq<Item>, op: Byte, target: nat)
    ensures Emit(items + [Jump(op, target, [0, 0, 0, 0])]) == Emit(items) + [op] + [0, 0, 0, 0]
    ensures |Emit(items) + [op]| == Length(items) + 1
  {
    var item := Jump(op, target, [0, 0, 0, 0]);
    EmitOneMore(items, item);
    EmitLength(items, |items|);
    assert Emit(items) + Text(item) == Emit(items) + [op] + [0, 0, 0, 0];
  }

  class Builder {
    var program: Bytes
    var jumpCounter: nat
    var jumpAddr: map<nat, nat>
    var jumpPlaceholders: map<nat, seq<nat>>
    ghost var items: seq<Item>

    ghost predicate Valid()
      reads this
    {
      && program == Emit(items)
      && ListsUses(items, jumpPlaceholders)
      && OnBoundaries(items, jumpAddr)
    }

    constructor ()
      ensures Valid() && items == [] && jumpAddr == map[] && jumpCounter == 0
    {
      program, jumpCounter, jumpAddr, jumpPlaceholders := [], 0, map[], map[];
      items := [];
    }

    method AddRawBytes(data: Bytes)
      requires Valid()
      modifies this`program, this`items
      ensures Valid() && items == old(items) + [Chunk(data)]
    {
      EmitOneMore(items, Chunk(data));
      ListsOneMore(items, jumpPlaceholders, data);
      BoundariesStay(items, Chunk(data), jumpAddr);
      program := program + data;
      items := items + [Chunk(data)];
    }

    method AddInt64(n: int)
      requires Valid()
      modifies this`program, this`items
      ensures Valid() && items == old(items) + [Chunk(PushdataInt64(n))]
    {
      AddRawBytes(PushdataInt64(n));
    }

    method AddData(data: Bytes)
      requires Valid()
      modifies this`program, this`items
      ensures Valid() && items == old(items) + [Chunk(PushdataBytes(data))]
    {
      AddRawBytes(PushdataBytes(data));
    }

    method AddOp(op: Byte)
      requires Valid()
      modifies this`program, this`items
      ensures Valid() && items == old(items) + [Chunk([op])]
    {
      AddRawBytes([op]);
    }

    method NewJumpTarget() returns (target: nat)
      requires Valid()
      modifies this`jumpCounter
      ensures Valid() && target == jumpCounter == old(jumpCounter) + 1
    {
      jumpCounter := jumpCounter + 1;
      return jumpCounter;
    }

    method AddJump(op: Byte, target: nat)
      requires Valid()
      modifies this`program, this`items, this`jumpPlaceholders
      ensures Valid() && items == old(items) + [Jump(op, target, [0, 0, 0, 0])]
    {
      hide ListsUses, OnBoundaries, Emit, Length;
      ghost var item := Jump(op, target, [0, 0, 0, 0]);
      JumpText(items, op, target);
      ListsJump(items, jumpPlaceholders, item);
      BoundariesStay(items, item, jumpAddr);
      var text := program + [op];
      jumpPlaceholders := jumpPlaceholders[target := PlaceholdersOf(jumpPlaceholders, target) + [|text|]];
      program := text + [0, 0, 0, 0];
      items := items + [item];
    }

    method SetJumpTarget(target: nat)
      requires Valid()
      modifies this`jumpAddr
      ensures Valid() && jumpAddr == old(jumpAddr)[target := Length(items) % TWO_32]
    {
      EmitLength(items, |items|);
      jumpAddr := jumpAddr[target := |program| % TWO_32];
      assert IsBoundary(items, jumpAddr[target]);
    }

    method FillIn(target: nat, addr: Word)
      requires Valid() && target in jumpPlaceholders
      modifies this`program, this`items
      ensures Valid() && items == Fill(old(items), target, addr)
    {
      hide Fill;
      assert PlaceholdersOf(jumpPlaceholders, target) == Uses(items, target);
      PatchingFills(items, |items|, target, addr);
      ListsFilled(items, jumpPlaceholders, target, addr);
      BoundariesFilled(items, jumpAddr, target, addr);
      program := PatchUses(program, jumpPlaceholders[target], addr);
      items := Fill(items, target, addr);
    }

    /** Succeeds exactly when every target jumped to has been placed.  All jumps then carry the placed addresses, and if
        all items are instructions the program parses back into exactly those. */
    method Build() returns (r: Result<Bytes, nat>)
      requires Valid()
      modifies this`program, this`items
      ensures Valid()
      ensures r.Ok? <==> forall i :: 0 <= i < |old(items)| && old(items)[i].Jump? ==> old(items)[i].target in jumpAddr
      ensures r.Ok? ==> items == Resolve(old(items), Words(jumpAddr)) && r.value == program
      ensures r.Ok? && AllInstructions(items) && Length(items) <= MAX_INT32 ==>
                ParseProgram(r.value) == Ok(InstsOf(items))
    {
      hide Length, ListsUses, OnBoundaries, AllInstructions, Fill, ResolvedFor, Resolve, InstsOf, LittleEndian;
      var placeholders := jumpPlaceholders;
      var todo := placeholders.Keys;
      ghost var start := items;
      ghost var done: set<nat> := {};
      UsedAreListed(items, jumpPlaceholders);
      ResolveNone(items, jumpAddr);
      while todo != {}
        invariant Valid() && ListsUses(start, placeholders) && jumpPlaceholders == placeholders
                  && done == placeholders.Keys - todo && todo <= placeholders.Keys
        invariant done <= jumpAddr.Keys && items == ResolvedFor(start, jumpAddr, done)
        decreases |todo|
      {
        var target :| target in todo;
        if target !in jumpAddr {
          ListedIsUsed(start, placeholders, target);
          return Err(target);
        }
        FillIn(target, LittleEndian(jumpAddr[target], 4));
        ResolveOneMore(start, jumpAddr, done, target);
        todo, done := todo - {target}, done + {target};
      }
      ResolvedAll(start, jumpAddr, done);
      if AllInstructions(items) && Length(items) <= MAX_INT32 {
        EmittedParses(items);
      }
      return Ok(program);
    }
  }

  lemma PatchNext(prog: Bytes, uses: seq<nat>, i: nat, addr: Word)
    requires i < |uses| && Within(uses, |prog|)
    ensures Within(uses[..i], |prog|) && Within(uses[..i + 1], |prog|)
    ensures PatchAll(prog, uses[..i + 1], addr) == Patch(PatchAll(prog, uses[..i], addr), uses[i], addr)
  {
    assert uses[..i + 1] == uses[..i] + [uses[i]];
    PatchOneMore(prog, uses[..i], uses[i], addr);
  }

  lemma UsedAreListed(items: seq<Item>, placeholders: map<nat, seq<nat>>)
    requires ListsUses(items, placeholders)
    ensures forall i :: 0 <= i < |items| && items[i].Jump? ==> items[i].target in placeholders
  {
    forall i | 0 <= i < |items| && items[i].Jump?
      ensures items[i].target in placeholders
    {
      UsedSomewhere(items, |items|, i);
      assert PlaceholdersOf(placeholders, items[i].target) != [];
    }
  }

  lemma ListedIsUsed(items: seq<Item>, placeholders: map<nat, seq<nat>>, target: nat)
    requires ListsUses(items, placeholders) && target in placeholders
    ensures exists i :: 0 <= i < |items| && items[i].Jump? && items[i].target == target
  {
    var i := UsedBySome(items, |items|, target);
  }

  /** The items with the addresses of some targets filled in. */
  ghost function ResolvedFor(items: seq<Item>, jumpAddr: map<nat, nat>, done: set<nat>): seq<Item> {
    Resolve(items, Words(map t | t in jumpAddr && t in done :: jumpAddr[t]))
  }

  lemma ResolveNone(items: seq<Item>, jumpAddr: map<nat, nat>)
    ensures ResolvedFor(items, jumpAddr, {}) == items
  {
  }

  lemma ResolveOneMore(items: seq<Item>, jumpAddr: map<nat, nat>, done: set<nat>, target: nat)
    requires target in jumpAddr
    ensures Fill(ResolvedFor(items, jumpAddr, done), target, LittleEndian(jumpAddr[target], 4)) ==
            ResolvedFor(items, jumpAddr, done + {target})
  {
  }

  lemma ResolvedAll(items: seq<Item>, jumpAddr: map<nat, nat>, done: set<nat>)
    requires forall i :: 0 <= i < |items| && items[i].Jump? ==> items[i].target in done
    ensures ResolvedFor(items, jumpAddr, done) == Resolve(items, Words(jumpAddr))
  {
  }

  /** In a built program each jump lands on an instruction or on the end. */
  lemma JumpsLandOnInstructions(items: seq<Item>, jumpAddr: map<nat, nat>, i: nat)
    requires OnBoundaries(items, jumpAddr) && Length(items) <= MAX_INT32
    requires i < |items| && items[i].Jump? && items[i].target in jumpAddr
    requires AllInstructions(Resolve(items, Words(jumpAddr)))
    ensures var insts := InstsOf(Resolve(items, Words(jumpAddr)));
            exists k :: 0 <= k <= |insts| && FromLittleEndian(insts[i].data) == Offset(insts, k)
  {
    hide ParseOp, LittleEndian, FromLittleEndian, Power;
    var resolved, addr := Resolve(items, Words(jumpAddr)), jumpAddr[items[i].target];
    var insts := InstsOf(resolved);
    var k :| 0 <= k <= |items| && addr == Start(items, k) % TWO_32;
    StartMonotone(items, k, |items|);
    ResolveKeepsStart(items, Words(jumpAddr), k);
    OffsetIsStart(resolved, k);
    Powers();
    LittleEndianRoundTrip(addr, 4);
    assert FromLittleEndian(insts[i].data) == Offset(insts, k);
  }

  // ------------------------------------------------------- what the items parse to

  /** A push of data is one instruction. */
  lemma PushIsInstruction(data: Bytes)
    requires |PushdataBytes(data)| <= MAX_INT32
    ensures IsInstruction(Chunk(PushdataBytes(data))) && InstOf(Chunk(PushdataBytes(data))) == PushInst(data)
  {
    PushdataParses(data);
  }
}
