// What an assembled program is, read off its tokens: one piece of text for each
// token, in order, with every jump carrying the place of its label; and exactly
// which lists of tokens can be assembled.
module AssembledText {
  import opened Bytes
  import opened VmTypes
  import opened Pushdata
  import opened Layout
  import opened ProgramBuilder
  import opened Assembler

  function SizeOf(t: Token): nat {
    match t
    case OpName(_) => 1
    case JumpLabel(_, _) => 5
    case JumpAddress(_, _) => 5
    case Label(_) => 0
    case Data(bytes) => |PushdataBytes(bytes)|
    case Number(n) => if FitsInt64(n) then |PushdataInt64(n)| else 0
  }

  /** The number of bytes before the n-th token. */
  function Place(tokens: seq<Token>, n: nat): nat
    requires n <= |tokens|
  {
    if n == 0 then 0 else Place(tokens, n - 1) + SizeOf(tokens[n - 1])
  }

  /** Names of opcodes that may be written, addresses of 32 bits and numbers of 64. */
  predicate Writable(t: Token) {
    match t
    case OpName(op) => Nameable(op)
    case JumpAddress(_, addr) => addr < 0x1_0000_0000
    case Number(n) => FitsInt64(n)
    case _ => true
  }

  /** The first n tokens can be written, no label stands twice, and none stands beyond 2^31 bytes. */
  predicate Legible(tokens: seq<Token>, n: nat)
    requires n <= |tokens|
  {
    && (forall i :: 0 <= i < n ==> Writable(tokens[i]))
    && (forall i, j :: 0 <= i < j < n && tokens[i].Label? && tokens[j].Label? ==> tokens[i].name != tokens[j].name)
    && (forall i :: 0 <= i < n && tokens[i].Label? ==> Place(tokens, i) <= 0x7FFF_FFFF)
  }

  /** Label `name` stands among the first n tokens, at this place. */
  predicate Stands(tokens: seq<Token>, n: nat, name: nat, place: nat)
    requires n <= |tokens|
  {
    exists k :: 0 <= k < n && tokens[k] == Label(name) && Place(tokens, k) == place
  }

  ghost predicate Locates(tokens: seq<Token>, n: nat, locations: map<nat, nat>)
    requires n <= |tokens|
  {
    && (forall k :: 0 <= k < n && tokens[k].Label? ==> tokens[k].name in locations)
    && (forall name :: name in locations ==> Stands(tokens, n, name, locations[name]))
  }

  lemma LocatesMore(tokens: seq<Token>, n: nat, locations: map<nat, nat>)
    requires n < |tokens| && Locates(tokens, n, locations)
    ensures !tokens[n].Label? ==> Locates(tokens, n + 1, locations)
    ensures tokens[n].Label? && tokens[n].name !in locations ==>
              Locates(tokens, n + 1, locations[tokens[n].name := Place(tokens, n)])
  {
    forall name | name in locations
      ensures Stands(tokens, n + 1, name, locations[name])
    {
      var k :| 0 <= k < n && tokens[k] == Label(name) && Place(tokens, k) == locations[name];
      assert tokens[k] == Label(name);
    }
    if tokens[n].Label? {
      assert tokens[n] == Label(tokens[n].name);
      assert Stands(tokens, n + 1, tokens[n].name, Place(tokens, n));
    }
  }

  lemma LegibleMore(tokens: seq<Token>, n: nat, locations: map<nat, nat>)
    requires n < |tokens| && Locates(tokens, n, locations)
    ensures Legible(tokens, n + 1) <==>
            && Legible(tokens, n) && Writable(tokens[n])
            && (tokens[n].Label? ==> tokens[n].name !in locations && Place(tokens, n) <= 0x7FFF_FFFF)
  {
    hide Place, Writable;
    if tokens[n].Label? && tokens[n].name in locations {
      assert Stands(tokens, n, tokens[n].name, locations[tokens[n].name]);
      var k :| 0 <= k < n && tokens[k] == Label(tokens[n].name);
      assert !Legible(tokens, n + 1);
    }
    if Legible(tokens, n) && (tokens[n].Label? ==> tokens[n].name !in locations) {
      forall i, j | 0 <= i < j < n + 1 && tokens[i].Label? && tokens[j].Label?
        ensures tokens[i].name != tokens[j].name
      {
        assert tokens[i].name in locations;
      }
    }
  }

  /** A draft exists exactly if the tokens are legible; it has their length and knows where their labels are. */
  lemma {:induction false} DraftExactly(tokens: seq<Token>, n: nat)
    requires n <= |tokens|
    ensures var r := AssembleUpTo(tokens, n);
            && (r.Ok? <==> Legible(tokens, n))
            && (r.Ok? ==> Length(r.value.items) == Place(tokens, n) && Locates(tokens, n, r.value.locations))
  {
    hide Legible, Locates, PushdataBytes, PushdataInt64, LittleEndian, Nameable;
    if n == 0 {
      NothingDrafted(tokens);
    } else {
      DraftExactly(tokens, n - 1);
      var r, t := AssembleUpTo(tokens, n - 1), tokens[n - 1];
      if r.Ok? {
        LegibleMore(tokens, n - 1, r.value.locations);
        LocatesMore(tokens, n - 1, r.value.locations);
        OneToken(r.value, t);
      } else {
        LegibleBefore(tokens, n);
      }
    }
  }

  lemma NothingDrafted(tokens: seq<Token>)
    ensures Legible(tokens, 0) && Locates(tokens, 0, map[])
  {
  }

  lemma LegibleBefore(tokens: seq<Token>, n: nat)
    requires 0 < n <= |tokens|
    ensures Legible(tokens, n) ==> Legible(tokens, n - 1)
  {
  }

  lemma OneToken(d: Draft, t: Token)
    ensures var r := AssembleToken(d, t);
            && (r.Ok? <==>
                Writable(t) && (t.Label? ==> t.name !in d.locations && Length(d.items) <= 0x7FFF_FFFF))
            && (r.Ok? ==>
                  && Length(r.value.items) == Length(d.items) + SizeOf(t)
                  && r.value.locations == if t.Label? then d.locations[t.name := Length(d.items)] else d.locations)
  {
    hide Length, PushdataBytes, PushdataInt64, LittleEndian, Nameable;
    var r := AssembleToken(d, t);
    if r.Ok? && !t.Label? {
      EmitOneMore(d.items, r.value.items[|d.items|]);
    }
  }

  // --------------------------------------------------------------------------- the text

  /** The bytes of a token, given where the labels are. */
  function TextOf(t: Token, locations: map<nat, nat>): Bytes {
    match t
    case OpName(op) => [op]
    case JumpLabel(op, name) => [op] + if name in locations then LittleEndian(locations[name], 4) else [0, 0, 0, 0]
    case JumpAddress(op, addr) => [op] + LittleEndian(addr, 4)
    case Label(_) => []
    case Data(bytes) => PushdataBytes(bytes)
    case Number(n) => if FitsInt64(n) then PushdataInt64(n) else []
  }

  function TextUpTo(tokens: seq<Token>, locations: map<nat, nat>, n: nat): Bytes
    requires n <= |tokens|
  {
    if n == 0 then [] else TextUpTo(tokens, locations, n - 1) + TextOf(tokens[n - 1], locations)
  }

  lemma ResolveMore(items: seq<Item>, item: Item, addrs: Addresses)
    ensures Emit(Resolve(items + [item], addrs)) == Emit(Resolve(items, addrs)) + Text(ResolveOne(item, addrs))
  {
    hide Emit;
    EmitOneMore(Resolve(items, addrs), ResolveOne(item, addrs));
    assert Resolve(items + [item], addrs) == Resolve(items, addrs) + [ResolveOne(item, addrs)];
  }

  lemma {:induction false} DraftedText(tokens: seq<Token>, locations: map<nat, nat>, n: nat)
    requires n <= |tokens| && AssembleUpTo(tokens, n).Ok?
    ensures Emit(Resolve(AssembleUpTo(tokens, n).value.items, Words(locations))) == TextUpTo(tokens, locations, n)
  {
    hide PushdataBytes, PushdataInt64, LittleEndian, Nameable, Resolve, Emit;
    if n == 0 {
      NoText(Words(locations));
    } else {
      DraftedText(tokens, locations, n - 1);
      var d, t := AssembleUpTo(tokens, n - 1).value, tokens[n - 1];
      if !t.Label? {
        var item := AssembleToken(d, t).value.items[|d.items|];
        ResolveMore(d.items, item, Words(locations));
      }
    }
  }

  lemma NoText(addrs: Addresses)
    ensures Emit(Resolve([], addrs)) == []
  {
  }

  lemma {:induction false} TextInPlace(tokens: seq<Token>, locations: map<nat, nat>, n: nat, i: nat)
    requires i < n <= |tokens| && Legible(tokens, n)
    ensures At(TextUpTo(tokens, locations, n), Place(tokens, i), TextOf(tokens[i], locations))
    ensures |TextUpTo(tokens, locations, n)| == Place(tokens, n)
  {
    hide PushdataBytes, PushdataInt64, LittleEndian, At;
    TextSize(tokens, locations, n - 1);
    TextSize(tokens, locations, n);
    var prog, last := TextUpTo(tokens, locations, n - 1), TextOf(tokens[n - 1], locations);
    if i < n - 1 {
      TextInPlace(tokens, locations, n - 1, i);
      AtStays(prog, last, Place(tokens, i), TextOf(tokens[i], locations));
    } else {
      AtEnd(prog, last);
    }
  }

  lemma {:induction false} TextSize(tokens: seq<Token>, locations: map<nat, nat>, n: nat)
    requires n <= |tokens|
    ensures |TextUpTo(tokens, locations, n)| == Place(tokens, n)
  {
    hide PushdataBytes, PushdataInt64;
    if n > 0 {
      TextSize(tokens, locations, n - 1);
    }
  }

  /** Every jump names a label that stands somewhere. */
  predicate LabelsStand(tokens: seq<Token>) {
    forall i :: 0 <= i < |tokens| && tokens[i].JumpLabel? ==> Label(tokens[i].name) in tokens
  }

  predicate JumpsTo(items: seq<Item>, name: nat) {
    exists i :: 0 <= i < |items| && items[i].Jump? && items[i].target == name
  }

  predicate Names(tokens: seq<Token>, n: nat, name: nat)
    requires n <= |tokens|
  {
    exists j :: 0 <= j < n && tokens[j].JumpLabel? && tokens[j].name == name
  }

  lemma {:induction false} DraftedJumps(tokens: seq<Token>, n: nat, name: nat)
    requires n <= |tokens| && AssembleUpTo(tokens, n).Ok?
    ensures JumpsTo(AssembleUpTo(tokens, n).value.items, name) <==> Names(tokens, n, name)
  {
    hide PushdataBytes, PushdataInt64, LittleEndian, Nameable;
    if n > 0 {
      DraftedJumps(tokens, n - 1, name);
      var d, t := AssembleUpTo(tokens, n - 1).value, tokens[n - 1];
      var items := AssembleUpTo(tokens, n).value.items;
      assert d.items <= items;
      if JumpsTo(d.items, name) {
        var i :| 0 <= i < |d.items| && d.items[i].Jump? && d.items[i].target == name;
        assert items[i] == d.items[i];
      }
      if JumpsTo(items, name) {
        var i :| 0 <= i < |items| && items[i].Jump? && items[i].target == name;
        assert i < |d.items| ==> items[i] == d.items[i];
      }
      if t.JumpLabel? {
        assert items[|d.items|].Jump?;
      }
    }
  }

  lemma DefinedExactly(tokens: seq<Token>)
    requires AssembleUpTo(tokens, |tokens|).Ok?
    ensures AllDefined(AssembleUpTo(tokens, |tokens|).value) <==> LabelsStand(tokens)
  {
    hide AssembleUpTo;
    var n, d := |tokens|, AssembleUpTo(tokens, |tokens|).value;
    DraftExactly(tokens, n);
    forall name {
      DraftedJumps(tokens, n, name);
    }
    forall name
      ensures name in d.locations <==> Label(name) in tokens
    {
      if name in d.locations {
        assert Stands(tokens, n, name, d.locations[name]);
      }
    }
    if AllDefined(d) {
      forall i | 0 <= i < n && tokens[i].JumpLabel?
        ensures Label(tokens[i].name) in tokens
      {
        assert Names(tokens, n, tokens[i].name);
        assert JumpsTo(d.items, tokens[i].name);
      }
    }
    if LabelsStand(tokens) {
      forall i | 0 <= i < |d.items| && d.items[i].Jump?
        ensures d.items[i].target in d.locations
      {
        assert JumpsTo(d.items, d.items[i].target);
        assert Names(tokens, n, d.items[i].target);
      }
    }
  }

  /** Tokens are assembled exactly if they are legible and all labels that are used stand somewhere.  The program is
      then as long as its tokens, each has its text at its place, and a jump to a label carries the place of the
      label. */
  lemma AssembleExactly(tokens: seq<Token>)
    ensures Assemble(tokens).Ok? <==> Legible(tokens, |tokens|) && LabelsStand(tokens)
    ensures Assemble(tokens).Ok? ==>
              var prog := Assemble(tokens).value;
              && |prog| == Place(tokens, |tokens|)
              && (forall i :: 0 <= i < |tokens| && !tokens[i].JumpLabel? ==>
                    At(prog, Place(tokens, i), TextOf(tokens[i], map[])))
              && (forall i, k :: 0 <= i < |tokens| && 0 <= k < |tokens| && tokens[i].JumpLabel?
                                 && tokens[k] == Label(tokens[i].name) ==>
                    At(prog, Place(tokens, i), [tokens[i].op] + LittleEndian(Place(tokens, k), 4)))
  {
    hide AssembleUpTo, Legible, PushdataBytes, PushdataInt64, LittleEndian, AllDefined, LabelsStand, At, Emit, Resolve;
    var n := |tokens|;
    DraftExactly(tokens, n);
    if AssembleUpTo(tokens, n).Ok? {
      DefinedExactly(tokens);
      var d := AssembleUpTo(tokens, n).value;
      DraftedText(tokens, d.locations, n);
      TextSize(tokens, d.locations, n);
      forall i | 0 <= i < n
        ensures At(TextUpTo(tokens, d.locations, n), Place(tokens, i), TextOf(tokens[i], d.locations))
      {
        TextInPlace(tokens, d.locations, n, i);
      }
      forall k | 0 <= k < n && tokens[k].Label?
        ensures tokens[k].name in d.locations && d.locations[tokens[k].name] == Place(tokens, k)
      {
        LabelLocated(tokens, d.locations, k);
      }
    }
  }

  lemma LabelLocated(tokens: seq<Token>, locations: map<nat, nat>, k: nat)
    requires Legible(tokens, |tokens|) && Locates(tokens, |tokens|, locations) && k < |tokens| && tokens[k].Label?
    ensures tokens[k].name in locations && locations[tokens[k].name] == Place(tokens, k)
  {
    var name := tokens[k].name;
    assert Stands(tokens, |tokens|, name, locations[name]);
    var j :| 0 <= j < |tokens| && tokens[j] == Label(name) && Place(tokens, j) == locations[name];
    assert j == k;
  }
}
