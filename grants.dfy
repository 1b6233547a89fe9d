/** The kvdi `RoleGrant` capability mask (pkg/util/grants/grants.go): eight
    named single-bit grants, their union `All`, the any-bit test `Has`, and
    `Names`, the names of the set bits in bit order.

    Go's `int` is 64 bits wide on the platforms kvdi targets; the bits of a
    negative value are its two's complement, which is what `bv64` holds. */
module Grants {

  type RoleGrant = bv64

  const ReadUsers: RoleGrant := 1 << 0
  const WriteUsers: RoleGrant := 1 << 1
  const ReadRoles: RoleGrant := 1 << 2
  const WriteRoles: RoleGrant := 1 << 3
  const ReadTemplates: RoleGrant := 1 << 4
  const WriteTemplates: RoleGrant := 1 << 5
  const LaunchTemplates: RoleGrant := 1 << 6
  const ReadDesktopSessions: RoleGrant := 1 << 7

  const All: RoleGrant :=
    ReadUsers | WriteUsers |
    ReadRoles | WriteRoles |
    ReadTemplates | WriteTemplates |
    LaunchTemplates | ReadDesktopSessions

  /** The named grants in declaration order. */
  const Declared: seq<RoleGrant> := [
    ReadUsers, WriteUsers, ReadRoles, WriteRoles,
    ReadTemplates, WriteTemplates, LaunchTemplates, ReadDesktopSessions]

  /** The name of bit i, for i in 0..7. */
  const GrantNames: seq<string> := [
    "ReadUsers",
    "WriteUsers",
    "ReadRoles",
    "WriteRoles",
    "ReadTemplates",
    "WriteTemplates",
    "LaunchTemplates",
    "ReadDesktopSessions"]

  /** Some bit of `grant` is also set in `r`; for a mask of several grants
      this is "any of them", not "all of them". */
  predicate Has(r: RoleGrant, grant: RoleGrant): (b: bool)
    ensures b ==> r != 0 && grant != 0
    ensures grant != 0 && (r & grant) == grant ==> b
  {
    (r & grant) != 0
  }

  /** Bits 0..7 of `r`, lowest first: entry i says whether the i-th grant is set. */
  function Flags(r: RoleGrant): (flags: seq<bool>)
    ensures |flags| == |GrantNames|
  {
    seq(|Declared|, i requires 0 <= i < |Declared| => (r & Declared[i]) != 0)
  }

  /** The names of the entries among 0 .. n-1 that are set in `flags`, lowest first. */
  function Selected(flags: seq<bool>, n: nat): seq<string>
    requires n <= |flags| == |GrantNames|
  {
    if n == 0 then []
    else Selected(flags, n - 1) + (if flags[n - 1] then [GrantNames[n - 1]] else [])
  }

  /** The positions among 0 .. n-1 that are set in `flags`. */
  function SetPositions(flags: seq<bool>, n: nat): set<nat>
    requires n <= |flags|
  {
    set i: nat | i < n && flags[i]
  }

  /** The value of `r.Names()`, for use in lemmas. */
  function NamesOf(r: RoleGrant): seq<string>
  {
    Selected(Flags(r), |GrantNames|)
  }

  method Names(r: RoleGrant) returns (result: seq<string>)
    ensures result == NamesOf(r)
    ensures forall i :: 0 <= i < |GrantNames| ==> (GrantNames[i] in result <==> Has(r, Declared[i]))
    ensures |result| == |SetPositions(Flags(r), |GrantNames|)|
  {
    var flags := Flags(r);
    FlagsAreShiftTests(r);
    result := [];
    for i := 0 to |GrantNames|
      invariant result == Selected(flags, i)
    {
      assert flags[i] <==> (r & (1 << i)) != 0;
      if (r & (1 << i)) != 0 {
        result := result + [GrantNames[i]];
      }
    }
    NamesOfListsHadGrants(r);
  }

  // ---------------------------------------------------------------------
  // The constants

  /** The i-th declared grant is bit i. */
  lemma DeclaredAreBits()
    ensures |Declared| == |GrantNames| == 8
    ensures forall i :: 0 <= i < 8 ==> Declared[i] == 1 << i
  {
  }

  /** No two declared grants share a bit. */
  lemma DeclaredDisjoint()
    ensures forall i, j :: 0 <= i < j < 8 ==> (Declared[i] & Declared[j]) == 0
  {
  }

  /** `All` is the union of the eight grants, the low eight bits. */
  lemma AllIsLowByte()
    ensures All == 0xFF
    ensures forall i :: 0 <= i < 8 ==> (All & Declared[i]) == Declared[i]
  {
  }

  // ---------------------------------------------------------------------
  // Has

  /** Adding grants never removes one: union is monotone for Has. */
  lemma HasMonotone(a: RoleGrant, b: RoleGrant, x: RoleGrant)
    requires Has(a, x)
    ensures Has(a | b, x) && Has(b | a, x)
  {
  }

  /** A named bit set in both masks makes them overlap on the named bits. */
  lemma BitInBoth(r: RoleGrant, g: RoleGrant, i: nat)
    requires i < 8 && (r & Declared[i]) != 0 && (g & Declared[i]) != 0
    ensures (r & (g & All)) != 0
  {
    if i == 0 { assert (r & 1) != 0 && (g & 1) != 0; }
    else if i == 1 { assert (r & 2) != 0 && (g & 2) != 0; }
    else if i == 2 { assert (r & 4) != 0 && (g & 4) != 0; }
    else if i == 3 { assert (r & 8) != 0 && (g & 8) != 0; }
    else if i == 4 { assert (r & 16) != 0 && (g & 16) != 0; }
    else if i == 5 { assert (r & 32) != 0 && (g & 32) != 0; }
    else if i == 6 { assert (r & 64) != 0 && (g & 64) != 0; }
    else { assert (r & 128) != 0 && (g & 128) != 0; }
  }

  /** An overlap on the named bits shows up in one declared grant. */
  lemma SharedGrantOfOverlap(r: RoleGrant, g: RoleGrant) returns (k: nat)
    requires Has(r, g & All)
    ensures k < 8 && Has(r, Declared[k]) && Has(g, Declared[k])
  {
    var x := r & (g & All);
    if (x & ReadUsers) != 0 { k := 0; }
    else if (x & WriteUsers) != 0 { k := 1; }
    else if (x & ReadRoles) != 0 { k := 2; }
    else if (x & WriteRoles) != 0 { k := 3; }
    else if (x & ReadTemplates) != 0 { k := 4; }
    else if (x & WriteTemplates) != 0 { k := 5; }
    else if (x & LaunchTemplates) != 0 { k := 6; }
    else { k := 7; }
    assert (x & Declared[k]) != 0;
  }

  /** Has, over the named bits, asks whether the two masks share at least
      one named grant. */
  lemma HasMeansSharedGrant(r: RoleGrant, g: RoleGrant)
    ensures Has(r, g & All) <==> exists i :: 0 <= i < 8 && Has(r, Declared[i]) && Has(g, Declared[i])
  {
    if Has(r, g & All) {
      var k := SharedGrantOfOverlap(r, g);
    }
    if exists i :: 0 <= i < 8 && Has(r, Declared[i]) && Has(g, Declared[i]) {
      var i :| 0 <= i < 8 && Has(r, Declared[i]) && Has(g, Declared[i]);
      BitInBoth(r, g, i);
    }
  }

  /** A single grant already "has" All, since Has asks for any overlap;
      and All has itself. */
  lemma SingleGrantHasAll(i: nat)
    requires i < 8
    ensures Has(Declared[i], All)
    ensures Has(All, All)
  {
  }

  /** Combining `ReadUsers | WriteUsers` has each of them, and skips the rest. */
  lemma CombinedGrants()
    ensures Has(ReadUsers | WriteUsers, ReadUsers) && Has(ReadUsers | WriteUsers, WriteUsers)
    ensures !Has(ReadUsers | WriteUsers, ReadRoles)
  {
  }

  // ---------------------------------------------------------------------
  // Names

  /** GrantNames holds eight different names. */
  lemma GrantNamesDistinct()
    ensures forall i, j :: 0 <= i < j < |GrantNames| ==> GrantNames[i] != GrantNames[j]
  {
  }

  /** Entry i of Flags(r) is the test `r&(1<<uint(i)) != 0` at grants.go:39. */
  lemma FlagsAreShiftTests(r: RoleGrant)
    ensures forall i :: 0 <= i < 8 ==> (Flags(r)[i] <==> (r & (1 << i)) != 0)
  {
    DeclaredAreBits();
  }

  /** Entry i of Flags(r) is `r.Has` of the i-th declared grant. */
  lemma FlagsAreHas(r: RoleGrant)
    ensures forall i :: 0 <= i < 8 ==> (Flags(r)[i] <==> Has(r, Declared[i]))
  {
  }

  /** `r.Names()` lists a name exactly when `r` has its grant, one name per set bit. */
  lemma NamesOfListsHadGrants(r: RoleGrant)
    ensures forall i :: 0 <= i < |GrantNames| ==> (GrantNames[i] in NamesOf(r) <==> Has(r, Declared[i]))
    ensures |NamesOf(r)| == |SetPositions(Flags(r), |GrantNames|)|
  {
    var flags := Flags(r);
    FlagsAreHas(r);
    forall i | 0 <= i < |GrantNames| ensures GrantNames[i] in NamesOf(r) <==> Has(r, Declared[i]) {
      SelectedMembership(flags, |GrantNames|, i);
    }
    SelectedLength(flags, |GrantNames|);
  }

  /** A name is listed exactly when its entry is set and below n. */
  lemma {:induction false} SelectedMembership(flags: seq<bool>, n: nat, i: nat)
    requires n <= |flags| == |GrantNames| && i < |GrantNames|
    ensures GrantNames[i] in Selected(flags, n) <==> i < n && flags[i]
  {
    if n > 0 {
      SelectedMembership(flags, n - 1, i);
      GrantNamesDistinct();
    }
  }

  /** One name per set entry. */
  lemma {:induction false} SelectedLength(flags: seq<bool>, n: nat)
    requires n <= |flags| == |GrantNames|
    ensures |Selected(flags, n)| == |SetPositions(flags, n)|
  {
    if n == 0 {
      assert SetPositions(flags, 0) == {};
    } else {
      SelectedLength(flags, n - 1);
      if flags[n - 1] {
        assert SetPositions(flags, n) == SetPositions(flags, n - 1) + {n - 1};
      } else {
        assert SetPositions(flags, n) == SetPositions(flags, n - 1);
      }
    }
  }

  /** The names selected below m are a prefix of those selected below n, for m <= n. */
  lemma {:induction false} SelectedPrefix(flags: seq<bool>, m: nat, n: nat)
    requires m <= n <= |flags| == |GrantNames|
    ensures Selected(flags, m) <= Selected(flags, n)
    decreases n - m
  {
    if m < n {
      SelectedPrefix(flags, m, n - 1);
    }
  }

  /** Names come in bit order: the name of a lower set bit precedes the
      name of a higher one. */
  lemma {:induction false} NamesInBitOrder(r: RoleGrant, i: nat, j: nat)
    requires i < j < |GrantNames|
    requires Has(r, Declared[i]) && Has(r, Declared[j])
    ensures exists p, q ::
      0 <= p < q < |NamesOf(r)| &&
      NamesOf(r)[p] == GrantNames[i] && NamesOf(r)[q] == GrantNames[j]
  {
    FlagsAreHas(r);
    var flags := Flags(r);
    var n := |GrantNames|;
    var upToI := Selected(flags, i + 1);
    var belowJ := Selected(flags, j);
    var upToJ := Selected(flags, j + 1);
    assert upToI == Selected(flags, i) + [GrantNames[i]];
    assert upToJ == belowJ + [GrantNames[j]];
    SelectedPrefix(flags, i + 1, j);
    SelectedPrefix(flags, j + 1, n);
    var p, q := |upToI| - 1, |belowJ|;
    assert NamesOf(r)[p] == upToJ[p] == belowJ[p] == upToI[p] == GrantNames[i];
    assert NamesOf(r)[q] == upToJ[q] == GrantNames[j];
  }

  /** Bits above the eighth play no part in Names. */
  lemma NamesIgnoreHighBits(r: RoleGrant)
    ensures NamesOf(r) == NamesOf(r & All)
  {
    assert Flags(r) == Flags(r & All);
  }

  /** Nothing selected from all-false entries; everything, in order, from all-true ones. */
  lemma {:induction false} SelectedNoneAndEvery(flags: seq<bool>, n: nat)
    requires n <= |flags| == |GrantNames|
    ensures (forall i :: 0 <= i < n ==> !flags[i]) ==> Selected(flags, n) == []
    ensures (forall i :: 0 <= i < n ==> flags[i]) ==> Selected(flags, n) == GrantNames[..n]
  {
    if n > 0 {
      SelectedNoneAndEvery(flags, n - 1);
      assert GrantNames[..n] == GrantNames[..n - 1] + [GrantNames[n - 1]];
    }
  }

  /** No grant, no names; all grants, every name in order. */
  lemma NamesOfNoneAndAll()
    ensures NamesOf(0) == []
    ensures NamesOf(All) == GrantNames
  {
    SelectedNoneAndEvery(Flags(0), |GrantNames|);
    SelectedNoneAndEvery(Flags(All), |GrantNames|);
    assert GrantNames[..|GrantNames|] == GrantNames;
  }

  /** The names depend on the mask alone, not on the order grants were
      combined in. */
  lemma NamesIgnoreUnionOrder(a: RoleGrant, b: RoleGrant)
    ensures NamesOf(a | b) == NamesOf(b | a)
  {
  }

  /** `ReadUsers | WriteUsers`, combined either way, is named
      `["ReadUsers", "WriteUsers"]`. */
  lemma NamesOfReadWriteUsers()
    ensures NamesOf(ReadUsers | WriteUsers) == ["ReadUsers", "WriteUsers"]
    ensures NamesOf(WriteUsers | ReadUsers) == ["ReadUsers", "WriteUsers"]
  {
    var flags := Flags(ReadUsers | WriteUsers);
    assert flags == [true, true, false, false, false, false, false, false];
    assert Selected(flags, 0) == [];
    assert Selected(flags, 1) == ["ReadUsers"];
    assert Selected(flags, 2) == ["ReadUsers", "WriteUsers"];
    assert Selected(flags, 8) == Selected(flags, 7) == Selected(flags, 6) == Selected(flags, 5);
    assert Selected(flags, 5) == Selected(flags, 4) == Selected(flags, 3) == Selected(flags, 2);
  }
}
