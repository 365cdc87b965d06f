/** A packet of instructions that take effect at once, run one after the other. */
module Packet {
  import opened Dependencies
  import opened Machine
  import opened Words

  /** What a packet means: every instruction reads its operands as they were before the packet. */
  function OnCopy(packet: seq<Instruction>, m: State, copy: Registers, cc: bv32): State
    decreases |packet|
  {
    if packet == [] then m else
      var n := |packet| - 1;
      packet[n].run(OnCopy(packet[..n], m, copy, cc), copy, cc)
  }

  /** What the interpreter does when it does not make a copy: operands come from the live registers. */
  function InPlace(packet: seq<Instruction>, m: State, cc: bv32): State
    decreases |packet|
  {
    if packet == [] then m else
      var n, before := |packet| - 1, InPlace(packet[..|packet| - 1], m, cc);
      packet[n].run(before, before.regs, cc)
  }

  function And(x: bv32, y: bv32): bv32 { x & y }

  predicate Both(x: bv32, y: bv32) { And(x, y) != 0 }

  /** An instruction writes something that a later one reads. */
  predicate Feeds(first: Masks, later: Masks) {
    Both(first.scalarOut, later.scalarIn) || Both(first.miscOut, later.miscIn)
  }

  ghost predicate DependencyPresent(packet: seq<Instruction>) {
    exists j, k :: 0 <= j < k < |packet| && Feeds(packet[j].masks, packet[k].masks)
  }

  ghost predicate AllSound(packet: seq<Instruction>) { forall i :: 0 <= i < |packet| ==> Sound(packet[i]) }

  // ---- Finding dependencies ----

  lemma AndDistributes(x: bv32, y: bv32, z: bv32)
    ensures And(Or(x, y), z) == Or(And(x, z), And(y, z))
  {
  }

  lemma BothEither(x: bv32, y: bv32, z: bv32)
    ensures Both(Or(x, y), z) <==> Both(x, z) || Both(y, z)
  {
    hide And, Or;
    AndDistributes(x, y, z);
    SomeOr(And(x, z), And(y, z));
  }

  lemma NothingBoth(z: bv32)
    ensures !Both(0, z)
  {
  }

  lemma SomeOr(x: bv32, y: bv32)
    ensures Or(x, y) != 0 <==> x != 0 || y != 0
  {
  }

  lemma BothIsAnd(x: bv32, y: bv32)
    ensures And(y, x) != 0 <==> Both(x, y)
  {
  }

  /** All that the instructions of a packet write. */
  function ScalarOuts(packet: seq<Instruction>): bv32 {
    if packet == [] then 0 else Or(ScalarOuts(packet[..|packet| - 1]), packet[|packet| - 1].masks.scalarOut)
  }

  function MiscOuts(packet: seq<Instruction>): bv32 {
    if packet == [] then 0 else Or(MiscOuts(packet[..|packet| - 1]), packet[|packet| - 1].masks.miscOut)
  }

  ghost predicate SomeFeeds(packet: seq<Instruction>, later: Masks) {
    exists j :: 0 <= j < |packet| && Feeds(packet[j].masks, later)
  }

  lemma {:induction false} OutsFeed(packet: seq<Instruction>, later: Masks)
    ensures SomeFeeds(packet, later) <==> Both(ScalarOuts(packet), later.scalarIn) || Both(MiscOuts(packet), later.miscIn)
    decreases |packet|
  {
    hide Or, And, Both;
    if packet == [] {
      NothingBoth(later.scalarIn);
      NothingBoth(later.miscIn);
    } else {
      var n := |packet| - 1;
      OutsFeed(packet[..n], later);
      BothEither(ScalarOuts(packet[..n]), packet[n].masks.scalarOut, later.scalarIn);
      BothEither(MiscOuts(packet[..n]), packet[n].masks.miscOut, later.miscIn);
      SomeFeedsGrows(packet, later);
    }
  }

  lemma SomeFeedsGrows(packet: seq<Instruction>, later: Masks)
    requires packet != []
    ensures SomeFeeds(packet, later)
            <==> SomeFeeds(packet[..|packet| - 1], later) || Feeds(packet[|packet| - 1].masks, later)
  {
    hide Feeds;
    var front := packet[..|packet| - 1];
    if SomeFeeds(packet, later) {
      var j :| 0 <= j < |packet| && Feeds(packet[j].masks, later);
      if j < |front| { assert Feeds(front[j].masks, later); }
    }
    if SomeFeeds(front, later) {
      var j :| 0 <= j < |front| && Feeds(front[j].masks, later);
      assert Feeds(packet[j].masks, later);
    }
  }

  lemma DependencyGrows(packet: seq<Instruction>)
    requires packet != []
    ensures var n := |packet| - 1;
            DependencyPresent(packet) <==> DependencyPresent(packet[..n]) || SomeFeeds(packet[..n], packet[n].masks)
  {
    hide Feeds;
    var n := |packet| - 1;
    var front := packet[..n];
    if DependencyPresent(packet) {
      var j, k :| 0 <= j < k < |packet| && Feeds(packet[j].masks, packet[k].masks);
      if k < n { assert Feeds(front[j].masks, front[k].masks); } else { assert Feeds(front[j].masks, packet[n].masks); }
    }
    if DependencyPresent(front) {
      var j, k :| 0 <= j < k < |front| && Feeds(front[j].masks, front[k].masks);
      assert Feeds(packet[j].masks, packet[k].masks);
    }
    if SomeFeeds(front, packet[n].masks) {
      var j :| 0 <= j < |front| && Feeds(front[j].masks, packet[n].masks);
      assert Feeds(packet[j].masks, packet[n].masks);
    }
  }

  /** The combined words: what instructions read of what earlier ones in the packet write. */
  method FindDependencies(packet: seq<Instruction>) returns (present: bool)
    ensures present <==> DependencyPresent(packet)
  {
    hide Or, And, Both, DependencyPresent, SomeFeeds, Feeds;
    var n := |packet|;
    var scalarIn: bv32, miscIn: bv32 := 0, 0;
    var scalarOut := if n > 0 then packet[0].masks.scalarOut else 0;
    var miscOut := if n > 0 then packet[0].masks.miscOut else 0;
    FirstOuts(packet);
    SomeOr(scalarIn, miscIn);
    var i := 1;
    while i < n
      invariant 1 <= i && (n > 0 ==> i <= n)
      invariant n > 0 ==> scalarOut == ScalarOuts(packet[..i]) && miscOut == MiscOuts(packet[..i])
      invariant Or(scalarIn, miscIn) != 0 <==> n > 0 && DependencyPresent(packet[..i])
    {
      assert packet[..i + 1][..i] == packet[..i];
      var next := packet[i].masks;
      DependencyGrows(packet[..i + 1]);
      OutsFeed(packet[..i], next);
      BothIsAnd(scalarOut, next.scalarIn);
      BothIsAnd(miscOut, next.miscIn);
      SomeOr(scalarIn, miscIn);
      SomeOr(scalarIn, And(next.scalarIn, scalarOut));
      SomeOr(miscIn, And(next.miscIn, miscOut));
      scalarIn := Or(scalarIn, And(next.scalarIn, scalarOut));
      miscIn := Or(miscIn, And(next.miscIn, miscOut));
      SomeOr(scalarIn, miscIn);
      scalarOut := Or(scalarOut, next.scalarOut);
      miscOut := Or(miscOut, next.miscOut);
      i := i + 1;
    }
    assert n > 0 ==> packet[..i] == packet;
    present := Or(scalarIn, miscIn) != 0;
  }

  lemma FirstOuts(packet: seq<Instruction>)
    ensures !DependencyPresent([])
    ensures packet != [] ==> !DependencyPresent(packet[..1])
    ensures packet != [] ==> ScalarOuts(packet[..1]) == packet[0].masks.scalarOut
    ensures packet != [] ==> MiscOuts(packet[..1]) == packet[0].masks.miscOut
  {
    if packet != [] {
      assert packet[..1][..0] == [];
    }
  }

  // ---- Without dependencies the copy is not needed ----

  lemma NotBoth(x: bv32, y: bv32, r: bv32)
    requires !Both(x, y)
    ensures !(Has(x, r) && Has(y, r))
  {
  }

  lemma NotFed(first: Masks, later: Masks, r: bv32)
    requires !Feeds(first, later) && Covered(later.scalarIn, later.miscIn, r)
    ensures r != CC && !Covered(first.scalarOut, first.miscOut, r)
  {
    hide Has, Both;
    NotBoth(first.scalarOut, later.scalarIn, r);
    NotBoth(first.miscOut, later.miscIn, r - 33);
  }

  lemma StillAgrees(p: Registers, q: Registers, copy: Registers, first: Masks, later: Masks)
    requires Agree(p, copy, later) && KeepsOthers(p, q, first) && !Feeds(first, later)
    ensures Agree(q, copy, later)
  {
    hide Reg, Covered, Feeds;
    forall r | Covered(later.scalarIn, later.miscIn, r) ensures Reg(q, r) == Reg(copy, r) { NotFed(first, later, r); }
  }

  /** What an instruction reads is still what it was before the packet. */
  lemma {:induction false} OperandsUntouched(packet: seq<Instruction>, m: State, cc: bv32, later: Masks)
    requires AllSound(packet) && forall j :: 0 <= j < |packet| ==> !Feeds(packet[j].masks, later)
    ensures Agree(InPlace(packet, m, cc).regs, m.regs, later)
    decreases |packet|
  {
    hide Agree, KeepsOthers, KeepsFlags, Feeds;
    if packet == [] {
      SameAgrees(m.regs, later);
    } else {
      var n := |packet| - 1;
      OperandsUntouched(packet[..n], m, cc, later);
      var before := InPlace(packet[..n], m, cc);
      StillAgrees(before.regs, packet[n].run(before, before.regs, cc).regs, m.regs, packet[n].masks, later);
    }
  }

  lemma SameAgrees(p: Registers, masks: Masks)
    ensures Agree(p, p, masks)
  {
  }

  lemma FrontIndependent(packet: seq<Instruction>)
    requires AllSound(packet) && !DependencyPresent(packet) && packet != []
    ensures var n := |packet| - 1;
            && AllSound(packet[..n]) && !DependencyPresent(packet[..n]) && Sound(packet[n])
            && forall j :: 0 <= j < |packet[..n]| ==> !Feeds(packet[..n][j].masks, packet[n].masks)
  {
    hide Sound, Feeds;
    var n := |packet| - 1;
    var front := packet[..n];
    forall j, k | 0 <= j < k < |front| ensures !Feeds(front[j].masks, front[k].masks) {
      assert !Feeds(packet[j].masks, packet[k].masks);
    }
  }

  lemma RunsAlike(i: Instruction, m: State, p: Registers, q: Registers, cc: bv32)
    requires Sound(i) && Agree(p, q, i.masks)
    ensures i.run(m, p, cc) == i.run(m, q, cc)
  {
    hide Agree, KeepsOthers, KeepsFlags;
  }

  /** A packet without dependencies may run on the live registers. */
  lemma {:induction false} InPlaceIsOnCopy(packet: seq<Instruction>, m: State, cc: bv32)
    requires AllSound(packet) && !DependencyPresent(packet)
    ensures InPlace(packet, m, cc) == OnCopy(packet, m, m.regs, cc)
    decreases |packet|
  {
    hide Agree, Sound, AllSound, DependencyPresent, Feeds;
    if packet != [] {
      var n := |packet| - 1;
      FrontIndependent(packet);
      InPlaceIsOnCopy(packet[..n], m, cc);
      OperandsUntouched(packet[..n], m, cc, packet[n].masks);
      var before := InPlace(packet[..n], m, cc);
      RunsAlike(packet[n], before, before.regs, m.regs, cc);
    }
  }

  /** The interpreter copies the registers only when it found a dependency; the packet always means the same. */
  method Run(packet: seq<Instruction>, m: State) returns (after: State)
    requires AllSound(packet)
    ensures after == OnCopy(packet, m, m.regs, Reg(m.regs, CC))
  {
    var present := FindDependencies(packet);
    var copy, cc := m.regs, Reg(m.regs, CC);
    after := m;
    for i := 0 to |packet|
      invariant after == if present then OnCopy(packet[..i], m, copy, cc) else InPlace(packet[..i], m, cc)
    {
      assert packet[..i + 1][..i] == packet[..i];
      after := packet[i].run(after, if present then copy else after.regs, cc);
    }
    assert packet[..|packet|] == packet;
    if !present { InPlaceIsOnCopy(packet, m, cc); }
  }
}
