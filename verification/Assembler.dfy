// protocol/vm/assemble.go: assembling tokens into a program and disassembling a
// program into tokens.  Tokens are taken after scanning, labels are numbers.
module Assembler {
  import opened Wrappers
  import opened Bytes
  import opened VmTypes
  import opened Ops
  import opened Pushdata
  import opened Layout
  import opened ProgramBuilder

  datatype Token =
    | OpName(op: Byte)
    | JumpLabel(op: Byte, name: nat)
    | JumpAddress(op: Byte, addr: nat)
    | Label(name: nat)
    | Data(bytes: Bytes)
    | Number(n: int)

  datatype AsmError = BadToken | Redefined | TooLong | Undefined | BadProgram(error: VmError)

  // ------------------------------------------------------------------- assembling

  /** Opcodes whose names may be written: pushes with a length and jumps are inferred, and expansion opcodes have no
      name the assembler knows. */
  predicate Nameable(op: Byte) {
    !IsExpansion(op) && !IsJump(op) && !(OP_PUSHDATA1 <= op <= OP_PUSHDATA4)
  }

  /** What has been assembled so far, and where the labels seen are. */
  datatype Draft = Draft(items: seq<Item>, locations: map<nat, nat>)

  function Append(d: Draft, item: Item): Draft {
    d.(items := d.items + [item])
  }

  function AssembleToken(d: Draft, t: Token): Result<Draft, AsmError> {
    match t
    case OpName(op) => if Nameable(op) then Ok(Append(d, Chunk([op]))) else Err(BadToken)
    case JumpLabel(op, name) => Ok(Append(d, Jump(op, name, [0, 0, 0, 0])))
    case JumpAddress(op, addr) =>
      if addr < TWO_32 then Ok(Append(d, Chunk([op] + LittleEndian(addr, 4)))) else Err(BadToken)
    case Label(name) =>
      if name in d.locations then Err(Redefined)
      else if Length(d.items) > MAX_INT32 then Err(TooLong)
      else Ok(d.(locations := d.locations[name := Length(d.items)]))
    case Data(bytes) => Ok(Append(d, Chunk(PushdataBytes(bytes))))
    case Number(n) => if FitsInt64(n) then Ok(Append(d, Chunk(PushdataInt64(n)))) else Err(BadToken)
  }

  function AssembleUpTo(tokens: seq<Token>, n: nat): Result<Draft, AsmError>
    requires n <= |tokens|
  {
    if n == 0 then Ok(Draft([], map[]))
    else
      var d :- AssembleUpTo(tokens, n - 1);
      AssembleToken(d, tokens[n - 1])
  }

  predicate AllDefined(d: Draft) {
    forall i :: 0 <= i < |d.items| && d.items[i].Jump? ==> d.items[i].target in d.locations
  }

  function Assemble(tokens: seq<Token>): Result<Bytes, AsmError> {
    var d :- AssembleUpTo(tokens, |tokens|);
    if AllDefined(d) then Ok(Emit(Resolve(d.items, Words(d.locations)))) else Err(Undefined)
  }

  /** The bytes written and the places left open, as the assembler's loop keeps them. */
  ghost predicate Written(d: Draft, res: Bytes, unresolved: map<nat, seq<nat>>) {
    res == Emit(d.items) && ListsUses(d.items, unresolved)
  }

  lemma WrittenChunk(d: Draft, res: Bytes, unresolved: map<nat, seq<nat>>, bytes: Bytes)
    requires Written(d, res, unresolved)
    ensures Written(Append(d, Chunk(bytes)), res + bytes, unresolved)
  {
    hide Emit, ListsUses;
    EmitOneMore(d.items, Chunk(bytes));
    ListsOneMore(d.items, unresolved, bytes);
  }

  lemma WrittenJump(d: Draft, res: Bytes, unresolved: map<nat, seq<nat>>, op: Byte, name: nat)
    requires Written(d, res, unresolved)
    ensures Written(Append(d, Jump(op, name, [0, 0, 0, 0])), res + [op] + [0, 0, 0, 0],
                    unresolved[name := PlaceholdersOf(unresolved, name) + [|res + [op]|]])
  {
    hide Emit, ListsUses, Length;
    JumpText(d.items, op, name);
    ListsJump(d.items, unresolved, Jump(op, name, [0, 0, 0, 0]));
  }

  lemma WrittenLength(d: Draft, res: Bytes, unresolved: map<nat, seq<nat>>)
    requires Written(d, res, unresolved)
    ensures |res| == Length(d.items)
  {
    EmitLength(d.items, |d.items|);
  }

  method ComputeAssemble(tokens: seq<Token>) returns (r: Result<Bytes, AsmError>)
    ensures r == Assemble(tokens)
  {
    hide Written, Emit, Length, PushdataBytes, PushdataInt64, LittleEndian, Resolve, Nameable;
    var res: Bytes, locations: map<nat, nat>, unresolved: map<nat, seq<nat>> := [], map[], map[];
    ghost var d := Draft([], map[]);
    WrittenNone();
    for i := 0 to |tokens|
      invariant AssembleUpTo(tokens, i) == Ok(d) && d.locations == locations && Written(d, res, unresolved)
    {
      var t := tokens[i];
      ghost var next := AssembleToken(d, t);
      WrittenLength(d, res, unresolved);
      var bad := match t
        case OpName(op) => !Nameable(op)
        case JumpAddress(_, addr) => addr >= TWO_32
        case Number(n) => !FitsInt64(n)
        case _ => false;
      if bad {
        Failed(tokens, i + 1);
        return Err(BadToken);
      }
      if t.Label? {
        if t.name in locations {
          Failed(tokens, i + 1);
          return Err(Redefined);
        }
        if |res| > MAX_INT32 {
          Failed(tokens, i + 1);
          return Err(TooLong);
        }
        WrittenStays(d, res, unresolved, t.name);
        locations := locations[t.name := |res|];
      } else if t.JumpLabel? {
        WrittenJump(d, res, unresolved, t.op, t.name);
        res := res + [t.op];
        unresolved := unresolved[t.name := PlaceholdersOf(unresolved, t.name) + [|res|]];
        res := res + [0, 0, 0, 0];
      } else {
        var bytes := match t
          case OpName(op) => [op]
          case JumpAddress(op, addr) => [op] + LittleEndian(addr, 4)
          case Data(b) => PushdataBytes(b)
          case Number(n) => PushdataInt64(n)
          case _ => [];
        WrittenChunk(d, res, unresolved, bytes);
        res := res + bytes;
      }
      d := next.value;
    }
    r := ResolveLabels(d, res, locations, unresolved);
  }

  lemma WrittenNone()
    ensures Written(Draft([], map[]), [], map[])
  {
  }

  lemma WrittenStays(d: Draft, res: Bytes, unresolved: map<nat, seq<nat>>, name: nat)
    requires Written(d, res, unresolved)
    ensures Written(d.(locations := d.locations[name := |res|]), res, unresolved)
  {
  }

  /** An error at one token is the result. */
  lemma {:induction false} Failed(tokens: seq<Token>, n: nat)
    requires n <= |tokens| && AssembleUpTo(tokens, n).Err?
    ensures Assemble(tokens) == Err(AssembleUpTo(tokens, n).error)
    decreases |tokens| - n
  {
    if n < |tokens| {
      Failed(tokens, n + 1);
    }
  }

  method ResolveLabels(ghost d: Draft, text: Bytes, locations: map<nat, nat>, unresolved: map<nat, seq<nat>>)
    returns (r: Result<Bytes, AsmError>)
    requires Written(d, text, unresolved) && d.locations == locations
    ensures r == if AllDefined(d) then Ok(Emit(Resolve(d.items, Words(d.locations)))) else Err(Undefined)
  {
    hide Emit, ListsUses, Fill, ResolvedFor, Resolve, LittleEndian;
    var res, todo := text, unresolved.Keys;
    ghost var items, done: set<nat> := d.items, {};
    UsedAreListed(items, unresolved);
    ResolveNone(items, d.locations);
    while todo != {}
      invariant done == unresolved.Keys - todo && todo <= unresolved.Keys && done <= d.locations.Keys
      invariant res == Emit(items) && ListsUses(items, unresolved) && items == ResolvedFor(d.items, d.locations, done)
      decreases |todo|
    {
      var name :| name in todo;
      if name !in locations {
        ListedIsUsed(d.items, unresolved, name);
        return Err(Undefined);
      }
      res := FillTarget(res, items, unresolved, name, LittleEndian(locations[name], 4));
      items := Fill(items, name, LittleEndian(locations[name], 4));
      ResolveOneMore(d.items, d.locations, done, name);
      todo, done := todo - {name}, done + {name};
    }
    ResolvedAll(d.items, d.locations, done);
    return Ok(res);
  }

  method FillTarget(text: Bytes, ghost items: seq<Item>, unresolved: map<nat, seq<nat>>, name: nat, addr: Word)
    returns (r: Bytes)
    requires text == Emit(items) && ListsUses(items, unresolved) && name in unresolved
    ensures r == Emit(Fill(items, name, addr)) && ListsUses(Fill(items, name, addr), unresolved)
  {
    hide Fill;
    assert PlaceholdersOf(unresolved, name) == Uses(items, name);
    PatchingFills(items, |items|, name, addr);
    ListsFilled(items, unresolved, name, addr);
    r := PatchUses(text, unresolved[name], addr);
  }

  // ---------------------------------------------------------------- disassembling

  function Target(inst: Instruction): nat {
    FromLittleEndian(inst.data)
  }

  /** Numbers the jump targets in the order in which they are first used. */
  function LabelsUpTo(insts: seq<Instruction>, n: nat): map<nat, nat>
    requires n <= |insts|
  {
    if n == 0 then map[]
    else
      var labels := LabelsUpTo(insts, n - 1);
      var inst := insts[n - 1];
      if IsJump(inst.op) && Target(inst) !in labels then labels[Target(inst) := |labels|] else labels
  }

  /** Different addresses have different numbers, counted up from zero. */
  predicate Numbering(m: map<nat, nat>) {
    (forall a :: a in m ==> m[a] < |m|) && (forall a, b :: a in m && b in m && m[a] == m[b] ==> a == b)
  }

  lemma NumberingGrows(m: map<nat, nat>, k: nat)
    requires Numbering(m) && k !in m
    ensures Numbering(m[k := |m|])
  {
    var r := m[k := |m|];
    assert r.Keys == m.Keys + {k};
    assert |r| == |r.Keys| == |m.Keys| + 1 == |m| + 1;
  }

  lemma {:induction false} LabelsDiffer(insts: seq<Instruction>, n: nat)
    requires n <= |insts|
    ensures Numbering(LabelsUpTo(insts, n))
  {
    hide Target, Numbering;
    if n == 0 {
      NumberingNone();
    } else {
      LabelsDiffer(insts, n - 1);
      if Target(insts[n - 1]) !in LabelsUpTo(insts, n - 1) {
        NumberingGrows(LabelsUpTo(insts, n - 1), Target(insts[n - 1]));
      }
    }
  }

  lemma NumberingNone()
    ensures Numbering(map[])
  {
  }

  lemma {:induction false} TargetsLabelled(insts: seq<Instruction>, n: nat, i: nat)
    requires i < n <= |insts| && IsJump(insts[i].op)
    ensures Target(insts[i]) in LabelsUpTo(insts, n)
  {
    hide Target;
    if i < n - 1 {
      TargetsLabelled(insts, n - 1, i);
    }
  }

  lemma {:induction false} LabelledAreTargets(insts: seq<Instruction>, n: nat, addr: nat) returns (i: nat)
    requires n <= |insts| && addr in LabelsUpTo(insts, n)
    ensures i < n && IsJump(insts[i].op) && Target(insts[i]) == addr
  {
    hide Target;
    if IsJump(insts[n - 1].op) && Target(insts[n - 1]) == addr {
      i := n - 1;
    } else {
      i := LabelledAreTargets(insts, n - 1, addr);
    }
  }

  function LabelAt(labels: map<nat, nat>, loc: nat): seq<Token> {
    if loc in labels then [Label(labels[loc])] else []
  }

  function TokenOf(inst: Instruction, labels: map<nat, nat>): Token {
    if IsJump(inst.op) then JumpLabel(inst.op, if Target(inst) in labels then labels[Target(inst)] else 0)
    else if inst.data != [] then Data(inst.data)
    else OpName(inst.op)
  }

  function TokensUpTo(insts: seq<Instruction>, labels: map<nat, nat>, n: nat): seq<Token>
    requires n <= |insts|
  {
    if n == 0 then []
    else TokensUpTo(insts, labels, n - 1) + LabelAt(labels, Offset(insts, n - 1)) + [TokenOf(insts[n - 1], labels)]
  }

  function Tokens(insts: seq<Instruction>): seq<Token> {
    var labels := LabelsUpTo(insts, |insts|);
    TokensUpTo(insts, labels, |insts|) + LabelAt(labels, Offset(insts, |insts|))
  }

  function Disassemble(prog: Bytes): Result<seq<Token>, VmError> {
    var insts :- ParseProgram(prog);
    Ok(Tokens(insts))
  }

  method ComputeDisassemble(prog: Bytes) returns (r: Result<seq<Token>, VmError>)
    ensures r == Disassemble(prog)
  {
    hide ParseOp, Target, Tokens;
    var insts, labels, pc := [], map[], 0;
    PrependNone(ParseProgram(prog));
    while pc < |prog| % TWO_32
      invariant Prepend(insts, ParseFrom(prog, pc)) == ParseProgram(prog)
      invariant labels == LabelsUpTo(insts, |insts|)
      decreases |prog| - pc
    {
      var inst := ParseOp(prog, pc);
      if inst.Err? {
        return Err(inst.error);
      }
      PrependOne(insts, inst.value, ParseFrom(prog, pc + inst.value.len));
      LabelsStay(insts, inst.value, |insts|);
      if IsJump(inst.value.op) && Target(inst.value) !in labels {
        labels := labels[Target(inst.value) := |labels|];
      }
      insts := insts + [inst.value];
      pc := pc + inst.value.len;
    }
    assert insts + [] == insts;
    var tokens := WriteTokens(insts, labels);
    return Ok(tokens);
  }

  lemma {:induction false} LabelsStay(insts: seq<Instruction>, inst: Instruction, n: nat)
    requires n <= |insts|
    ensures LabelsUpTo(insts + [inst], n) == LabelsUpTo(insts, n)
  {
    hide Target;
    if n > 0 {
      LabelsStay(insts, inst, n - 1);
    }
  }

  method WriteTokens(insts: seq<Instruction>, labels: map<nat, nat>) returns (tokens: seq<Token>)
    requires labels == LabelsUpTo(insts, |insts|)
    ensures tokens == Tokens(insts)
  {
    hide TokenOf;
    var loc := 0;
    tokens := [];
    for i := 0 to |insts|
      invariant loc == Offset(insts, i) && tokens == TokensUpTo(insts, labels, i)
    {
      if loc in labels {
        tokens := tokens + [Label(labels[loc])];
      }
      tokens := tokens + [TokenOf(insts[i], labels)];
      loc := loc + insts[i].len;
    }
    if loc in labels {
      tokens := tokens + [Label(labels[loc])];
    }
  }
}
