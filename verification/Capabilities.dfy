/**
  Dropping the launcher's capabilities: two words each of effective, permitted and
  inheritable bits, edited in place, and the thread's bounding set in the kernel.
*/
module Capabilities {
  import opened Common

  datatype CapSet = CapSet(effective: bv32, permitted: bv32, inheritable: bv32)

  /** The number of a capability; only numbers below 64 have a place in the two words. */
  type Cap = c: bv32 | c < 64

  const CAP_SETPCAP: Cap := 8
  const CAP_SYS_PTRACE: Cap := 19
  const ALLOWED: seq<Cap> := [CAP_SYS_PTRACE, CAP_SETPCAP]

  function Word(c: Cap): nat {
    if c < 32 then 0 else 1
  }

  function Bit(c: Cap): bv32 {
    1 << (c & 31)
  }

  /** The bit of a capability in a word that has room for it. */
  predicate On(x: bv32, c: Cap) {
    Meets(x, Bit(c))
  }

  predicate Meets(x: bv32, y: bv32) {
    x & y != 0
  }

  function Without(x: bv32, mask: bv32): bv32 {
    x & !mask
  }

  /** The capability is in one of the three sets. */
  predicate Has(words: seq<CapSet>, c: Cap)
    requires |words| == 2
  {
    var w := words[Word(c)];
    On(w.effective, c) || On(w.permitted, c) || On(w.inheritable, c)
  }

  predicate IsEffective(words: seq<CapSet>, c: Cap)
    requires |words| == 2
  {
    On(words[Word(c)].effective, c)
  }

  function Union(x: bv32, y: bv32): bv32 {
    x | y
  }

  /** The bits of one word that a list of capabilities names. */
  function Mask(allowed: seq<Cap>, word: nat): bv32 {
    if allowed == [] then 0
    else
      var rest, c := Mask(allowed[..|allowed| - 1], word), allowed[|allowed| - 1];
      if Word(c) == word then Union(rest, Bit(c)) else rest
  }

  predicate Covered(w: CapSet, mask: bv32) {
    Without(w.effective, mask) == 0 && Without(w.permitted, mask) == 0 && Without(w.inheritable, mask) == 0
  }

  /** As the program tests it, with masks. */
  predicate OnlyAllow(words: seq<CapSet>, allowed: seq<Cap>)
    requires |words| == 2
  {
    Covered(words[0], Mask(allowed, 0)) && Covered(words[1], Mask(allowed, 1))
  }

  predicate Empty(words: seq<CapSet>)
    requires |words| == 2
  {
    words[0] == CapSet(0, 0, 0) && words[1] == CapSet(0, 0, 0)
  }

  function ClearBits(w: CapSet, mask: bv32): CapSet {
    CapSet(Without(w.effective, mask), Without(w.permitted, mask), Without(w.inheritable, mask))
  }

  function Cleared(words: seq<CapSet>, c: Cap): (r: seq<CapSet>)
    requires |words| == 2
    ensures |r| == 2
  {
    words[Word(c) := ClearBits(words[Word(c)], Bit(c))]
  }

  /** Clearing one capability after the other, from the first on. */
  function ClearedAll(words: seq<CapSet>, list: seq<Cap>): (r: seq<CapSet>)
    requires |words| == 2
    ensures |r| == 2
  {
    if list == [] then words else Cleared(ClearedAll(words, list[..|list| - 1]), list[|list| - 1])
  }

  method ClearCapability(data: array<CapSet>, c: Cap)
    requires data.Length == 2
    modifies data
    ensures data[..] == Cleared(old(data[..]), c)
  {
    data[Word(c)] := ClearBits(data[Word(c)], Bit(c));
  }

  // ----- what the masks mean -----

  /** A number with one bit takes all or nothing of itself out of a word. */
  lemma AllOrNothing(x: bv32, b: bv32)
    requires b & (b - 1) == 0
    ensures x & b == 0 || x & b == b
  {
  }

  lemma BitIsOne(c: Cap)
    ensures Bit(c) != 0 && Bit(c) & (Bit(c) - 1) == 0
  {
  }

  lemma WithoutSplits(x: bv32, m: bv32, b: bv32)
    ensures Without(x, m) & b == (x & b) & !(m & b)
  {
  }

  lemma WithoutBit(x: bv32, m: bv32, b: bv32)
    requires b != 0 && b & (b - 1) == 0
    ensures Meets(Without(x, m), b) <==> Meets(x, b) && !Meets(m, b)
  {
    AllOrNothing(x, b);
    AllOrNothing(m, b);
    WithoutSplits(x, m, b);
  }

  lemma WithoutOn(x: bv32, m: bv32, c: Cap)
    ensures On(Without(x, m), c) <==> On(x, c) && !On(m, c)
  {
    hide Bit, Meets, Without;
    BitIsOne(c);
    WithoutBit(x, m, Bit(c));
  }

  lemma UnionBit(x: bv32, y: bv32, b: bv32)
    ensures Meets(Union(x, y), b) <==> Meets(x, b) || Meets(y, b)
  {
    UnionSplits(x, y, b);
    EitherNonzero(x & b, y & b);
  }

  lemma UnionSplits(x: bv32, y: bv32, b: bv32)
    ensures Union(x, y) & b == (x & b) | (y & b)
  {
  }

  lemma EitherNonzero(x: bv32, y: bv32)
    ensures x | y != 0 <==> x != 0 || y != 0
  {
  }

  lemma UnionOn(x: bv32, y: bv32, c: Cap)
    ensures On(Union(x, y), c) <==> On(x, c) || On(y, c)
  {
    hide Bit, Meets, Union;
    UnionBit(x, y, Bit(c));
  }

  lemma BitOn(d: Cap, c: Cap)
    requires Word(c) == Word(d)
    ensures On(Bit(d), c) <==> c == d
  {
  }

  predicate BitAt(x: bv32, i: bv32)
    requires i < 32
  {
    x & (1 << i) != 0
  }

  lemma ShiftUp(x: bv32, j: bv32)
    requires j < 32 && BitAt(x >> 1, j)
    ensures j < 31 && BitAt(x, j + 1)
  {
  }

  lemma Halved(x: bv32)
    requires x != 0 && !BitAt(x, 0)
    ensures x >> 1 != 0 && x >> 1 < x
  {
  }

  /** A word that is not zero has a bit. */
  lemma {:induction false} SomeBit(x: bv32) returns (i: bv32)
    requires x != 0
    ensures i < 32 && BitAt(x, i)
    decreases x
  {
    hide BitAt;
    if BitAt(x, 0) {
      i := 0;
    } else {
      Halved(x);
      var j := SomeBit(x >> 1);
      ShiftUp(x, j);
      i := j + 1;
    }
  }

  lemma InWord(i: bv32, word: nat) returns (c: Cap)
    requires i < 32 && word < 2
    ensures Word(c) == word && Bit(c) == 1 << i
  {
    c := if word == 0 then i else i + 32;
    assert c & 31 == i;
  }

  lemma SomeCap(x: bv32, word: nat) returns (c: Cap)
    requires x != 0 && word < 2
    ensures Word(c) == word && On(x, c)
  {
    var i := SomeBit(x);
    c := InWord(i, word);
  }

  lemma {:induction false} MaskNames(list: seq<Cap>, c: Cap)
    ensures On(Mask(list, Word(c)), c) <==> c in list
  {
    hide Bit, On;
    ZeroOn(c);
    if list != [] {
      var last, rest := list[|list| - 1], list[..|list| - 1];
      assert list == rest + [last];
      MaskNames(rest, c);
      UnionOn(Mask(rest, Word(c)), Bit(last), c);
      if Word(last) == Word(c) { BitOn(last, c); }
    }
  }

  lemma ZeroOn(c: Cap)
    ensures !On(0, c)
  {
  }

  /** The test with masks says: every capability that is present is on the list. */
  lemma OnlyAllowExactly(words: seq<CapSet>, allowed: seq<Cap>)
    requires |words| == 2
    ensures OnlyAllow(words, allowed) <==> forall c: Cap :: Has(words, c) ==> c in allowed
  {
    hide On, Bit, Mask, Covered;
    forall c: Cap | OnlyAllow(words, allowed) && Has(words, c) ensures c in allowed {
      CoveredOn(words[Word(c)], Mask(allowed, Word(c)), c);
      MaskNames(allowed, c);
    }
    if !OnlyAllow(words, allowed) {
      var word := if Covered(words[0], Mask(allowed, 0)) then 1 else 0;
      var c := UncoveredCap(words[word], Mask(allowed, word), word);
      MaskNames(allowed, c);
      assert Has(words, c) && c !in allowed;
    }
  }

  lemma CoveredOn(w: CapSet, mask: bv32, c: Cap)
    requires Covered(w, mask) && (On(w.effective, c) || On(w.permitted, c) || On(w.inheritable, c))
    ensures On(mask, c)
  {
    hide On, Bit, Without, Union;
    WithoutOn(w.effective, mask, c);
    WithoutOn(w.permitted, mask, c);
    WithoutOn(w.inheritable, mask, c);
    ZeroOn(c);
  }

  lemma UncoveredCap(w: CapSet, mask: bv32, word: nat) returns (c: Cap)
    requires !Covered(w, mask) && word < 2
    ensures Word(c) == word && (On(w.effective, c) || On(w.permitted, c) || On(w.inheritable, c)) && !On(mask, c)
  {
    hide On, Bit, Without, Union;
    if Without(w.effective, mask) != 0 {
      c := OutsideMask(w.effective, mask, word);
    } else if Without(w.permitted, mask) != 0 {
      c := OutsideMask(w.permitted, mask, word);
    } else {
      c := OutsideMask(w.inheritable, mask, word);
    }
  }

  lemma OutsideMask(x: bv32, mask: bv32, word: nat) returns (c: Cap)
    requires Without(x, mask) != 0 && word < 2
    ensures Word(c) == word && On(x, c) && !On(mask, c)
  {
    hide On, Bit, Without, Union;
    c := SomeCap(Without(x, mask), word);
    WithoutOn(x, mask, c);
  }

  ghost predicate AnyOn(w: CapSet, c: Cap) {
    On(w.effective, c) || On(w.permitted, c) || On(w.inheritable, c)
  }

  lemma ClearBitsOn(w: CapSet, d: Cap, c: Cap)
    requires Word(c) == Word(d)
    ensures AnyOn(ClearBits(w, Bit(d)), c) <==> AnyOn(w, c) && c != d
  {
    hide On, Bit, Without, Union;
    WithoutOn(w.effective, Bit(d), c);
    WithoutOn(w.permitted, Bit(d), c);
    WithoutOn(w.inheritable, Bit(d), c);
    BitOn(d, c);
  }

  lemma {:induction false} ClearedHas(words: seq<CapSet>, list: seq<Cap>, c: Cap)
    requires |words| == 2
    ensures Has(ClearedAll(words, list), c) <==> Has(words, c) && c !in list
  {
    if list != [] {
      hide On, Bit, Without, ClearBits;
      var last, rest := list[|list| - 1], list[..|list| - 1];
      assert list == rest + [last];
      ClearedHas(words, rest, c);
      var w := ClearedAll(words, rest)[Word(c)];
      if Word(last) == Word(c) {
        ClearBitsOn(w, last, c);
        assert ClearedAll(words, list)[Word(c)] == ClearBits(w, Bit(last));
      } else {
        assert ClearedAll(words, list)[Word(c)] == w;
      }
    }
  }

  lemma EmptyExactly(words: seq<CapSet>)
    requires |words| == 2
    ensures Empty(words) <==> forall c: Cap :: !Has(words, c)
  {
    hide On, Bit, Without, Union;
    if Empty(words) {
      forall c: Cap ensures !Has(words, c) { ZeroOn(c); }
    } else {
      var word := if words[0] == CapSet(0, 0, 0) then 1 else 0;
      var w := words[word];
      var x := if w.effective != 0 then w.effective else if w.permitted != 0 then w.permitted else w.inheritable;
      var c := SomeCap(x, word);
      assert Has(words, c);
    }
  }

  /** Clearing a whole list empties the sets exactly when they allow nothing but the list. */
  lemma ClearingEmpties(words: seq<CapSet>, list: seq<Cap>)
    requires |words| == 2
    ensures Empty(ClearedAll(words, list)) <==> OnlyAllow(words, list)
  {
    hide Has, Empty, OnlyAllow, ClearedAll;
    EmptyExactly(ClearedAll(words, list));
    OnlyAllowExactly(words, list);
    forall c: Cap ensures Has(ClearedAll(words, list), c) <==> Has(words, c) && c !in list { ClearedHas(words, list, c); }
  }

  // ----- the drop sequence -----

  /** What the kernel holds for the thread; the first unknown number ends the bounding set. */
  class Thread {
    var sets: seq<CapSet>
    var bounding: set<Cap>
    const known: bv32
    const faults: nat -> bool
    var calls: nat

    constructor (sets: seq<CapSet>, bounding: set<Cap>, known: bv32, faults: nat -> bool)
      requires |sets| == 2 && forall c | c in bounding :: c < known
      ensures Valid() && this.sets == sets && this.bounding == bounding && this.known == known && this.faults == faults
    {
      this.sets, this.bounding, this.known, this.faults := sets, bounding, known, faults;
      calls := 0;
    }

    ghost predicate Valid()
      reads this
    {
      |sets| == 2 && forall c | c in bounding :: c < known
    }

    ghost predicate Faultless() {
      forall i :: !faults(i)
    }

    method Call() returns (failed: bool)
      modifies this`calls
      ensures failed == faults(old(calls))
    {
      failed := faults(calls);
      calls := calls + 1;
    }

    /** Only a thread with SETPCAP effective may shrink its bounding set. */
    method DropBounding(c: Cap) returns (ok: bool)
      requires Valid() && IsEffective(sets, CAP_SETPCAP)
      modifies this`bounding, this`calls
      ensures Valid() && bounding == if ok then old(bounding) - {c} else old(bounding)
      ensures Faultless() ==> ok
    {
      var failed := Call();
      ok := !failed;
      if ok { bounding := bounding - {c}; }
    }

    /** Asks for one number after the other until the kernel knows no more. */
    method ReadBounding() returns (r: Option<set<Cap>>)
      requires Valid()
      modifies this`calls
      ensures r.Some? ==> r.value == bounding && known < 64
      ensures Faultless() && known < 64 ==> r.Some?
    {
      var seen: set<Cap> := {};
      var c: bv32 := 0;
      while c < 64
        invariant forall d: Cap :: d in seen <==> d in bounding && d < c
        invariant c <= 64 && c <= known
        decreases 64 - c
      {
        var failed := Call();
        if c == known {
          assert seen == bounding;
          return Some(seen);
        }
        if failed { return None; }
        if c in bounding { seen := seen + {c}; }
        c := c + 1;
      }
      r := None;
    }

    method Capset(data: array<CapSet>) returns (ok: bool)
      requires Valid() && data.Length == 2
      modifies this`sets, this`calls
      ensures Valid() && sets == if ok then data[..] else old(sets)
      ensures Faultless() ==> ok
    {
      var failed := Call();
      ok := !failed;
      if ok { sets := data[..]; }
    }

    /** One capability after the other, from the bounding set and from the copy of the sets. */
    method DropEach(data: array<CapSet>, present: set<Cap>, list: seq<Cap>) returns (ok: bool)
      requires Valid() && data.Length == 2 && data[..] == sets && present == bounding
      requires present != {} ==> IsEffective(sets, CAP_SETPCAP)
      modifies this`bounding, this`calls, data
      ensures Valid() && bounding <= old(bounding)
      ensures ok ==> data[..] == ClearedAll(sets, list) && forall c :: c in bounding <==> c in old(bounding) && c !in list
      ensures Faultless() ==> ok
    {
      for i := 0 to |list|
        invariant Valid() && bounding <= old(bounding)
        invariant forall c :: c in bounding <==> c in old(bounding) && c !in list[..i]
        invariant data[..] == ClearedAll(sets, list[..i])
      {
        assert list[..i + 1] == list[..i] + [list[i]] && list[..i + 1][..i] == list[..i];
        if list[i] in present {
          var dropped := DropBounding(list[i]);
          if !dropped { return false; }
        }
        ClearCapability(data, list[i]);
      }
      assert list[..|list|] == list;
      ok := true;
    }

    method Capget() returns (data: Option<array<CapSet>>)
      requires Valid()
      modifies this`calls
      ensures data.Some? ==> fresh(data.value) && data.value.Length == 2 && data.value[..] == sets
      ensures Faultless() ==> data.Some?
    {
      var failed := Call();
      if failed { return None; }
      var copy := new CapSet[2];
      copy[0], copy[1] := sets[0], sets[1];
      data := Some(copy);
    }

    /**
      The whole sequence. Success leaves nothing in any set; when no call fails it succeeds
      exactly for a thread that holds no more than the two capabilities it is meant to hold
      and is able to drop them.
    */
    method DropPeerInspection() returns (ok: bool)
      requires Valid()
      modifies this
      ensures Valid() && bounding <= old(bounding)
      ensures ok ==> Empty(sets) && bounding == {}
      ensures ok ==> Droppable(old(sets), old(bounding), known)
      ensures Faultless() && Droppable(old(sets), old(bounding), known) ==> ok
      ensures !ok ==> sets == old(sets) || Empty(sets)
    {
      hide Has, Empty, OnlyAllow, ClearedAll, IsEffective;
      var data := Capget();
      if data == None { return false; }
      OnlyAllowExactly(sets, ALLOWED);
      if !OnlyAllow(sets, ALLOWED) { return false; }
      var present := ReadBounding();
      if present == None || (exists c | c in present.value :: c !in ALLOWED) { return false; }
      if present.value != {} && !IsEffective(sets, CAP_SETPCAP) { return false; }
      ok := DropEach(data.value, present.value, ALLOWED);
      if !ok { return; }
      ClearingEmpties(sets, ALLOWED);
      ok := Capset(data.value);
      if !ok { return; }
      var left := Capget();
      if left == None || !Empty(left.value[..]) { return false; }
      assert bounding == {};
      var rest := ReadBounding();
      ok := rest == Some({});
    }
  }

  /** Nothing but the two expected capabilities anywhere, and SETPCAP effective if there is something to drop. */
  ghost predicate Droppable(sets: seq<CapSet>, bounding: set<Cap>, known: bv32)
    requires |sets| == 2
  {
    && known < 64 && (forall c: Cap :: Has(sets, c) ==> c in ALLOWED)
    && (forall c | c in bounding :: c in ALLOWED)
    && (bounding != {} ==> IsEffective(sets, CAP_SETPCAP))
  }
}
