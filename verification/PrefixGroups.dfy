/** Which route group owns an address, backend/tools/update_return_route_bgp_rules.py.

A network is a bit string (prefix notation, section 3.1 of RFC 4632); an address goes to the longest
network that contains it (section 5.1 of RFC 4632).  Groups are named by the rank of their name in
alphabetical order. */
module PrefixGroups {

  type Group = nat
  type Bits = seq<bool>
  datatype Network = Network(version: nat, bits: Bits)
  type Groups = map<Group, set<Network>>

  datatype Result =
    | UnknownGroups
    | ManualOverlap(first: Network, second: Network)
    | Resolved(groups: Groups)

  // ---------- networks ----------

  /** Python's subnet_of. */
  predicate SubnetOf(n: Network, m: Network)
  {
    n.version == m.version && m.bits <= n.bits
  }

  predicate Overlaps(n: Network, m: Network)
  {
    SubnetOf(n, m) || SubnetOf(m, n)
  }

  predicate Contains(n: Network, address: Network)
  {
    SubnetOf(address, n)
  }

  /** Networks that share an address are nested. */
  lemma Nested(n: Network, m: Network, address: Network)
    requires Contains(n, address) && Contains(m, address)
    ensures |m.bits| <= |n.bits| ==> SubnetOf(n, m)
    ensures |m.bits| == |n.bits| ==> n == m
  {
    assert n.bits == address.bits[..|n.bits|] && m.bits == address.bits[..|m.bits|];
    assert |m.bits| <= |n.bits| ==> m.bits == n.bits[..|m.bits|];
  }

  // ---------- collapsing one group ----------

  function Branch(s: set<Bits>, b: bool): set<Bits>
  {
    set p | p in s && p != [] && p[0] == b :: p[1..]
  }

  function Under(b: bool, s: set<Bits>): set<Bits>
  {
    set p | p in s :: [b] + p
  }

  /** The least set of prefixes, none longer than `depth`, with the coverage of `s`. */
  function Collapse(s: set<Bits>, depth: nat): set<Bits>
    decreases depth
  {
    if [] in s then {[]}
    else if depth == 0 then {}
    else
      var zero, one := Collapse(Branch(s, false), depth - 1), Collapse(Branch(s, true), depth - 1);
      if [] in zero && [] in one then {[]} else Under(false, zero) + Under(true, one)
  }

  ghost predicate Covered(s: set<Bits>, address: Bits)
  {
    exists p :: p in s && p <= address
  }

  ghost predicate NoLongerThan(s: set<Bits>, depth: nat)
  {
    forall p :: p in s ==> |p| <= depth
  }

  /** Collapsing changes no address's membership of the group. */
  lemma {:induction false} CollapseKeepsCoverage(s: set<Bits>, depth: nat, address: Bits)
    requires NoLongerThan(s, depth) && |address| >= depth
    ensures Covered(Collapse(s, depth), address) <==> Covered(s, address)
    decreases depth
  {
    if [] in s {
      assert [] <= address;
    } else if depth > 0 {
      var b := address[0];
      CollapseKeepsCoverage(Branch(s, b), depth - 1, address[1..]);
      CoveredInBranch(s, address);
      var zero, one := Collapse(Branch(s, false), depth - 1), Collapse(Branch(s, true), depth - 1);
      if [] in zero && [] in one {
        assert [] <= address && [] <= address[1..];
      } else {
        var c := Under(false, zero) + Under(true, one);
        assert Branch(c, b) == if b then one else zero by {
          forall p | p in if b then one else zero
            ensures p in Branch(c, b)
          {
            assert ([b] + p)[1..] == p && [b] + p in c;
          }
          forall p | p in Branch(c, b)
            ensures p in if b then one else zero
          {
            assert ([b] + p)[1..] == p;
          }
        }
        CoveredInBranch(c, address);
      }
    }
  }

  lemma CoveredInBranch(s: set<Bits>, address: Bits)
    requires address != [] && [] !in s
    ensures Covered(s, address) <==> Covered(Branch(s, address[0]), address[1..])
  {
    if Covered(s, address) {
      var p :| p in s && p <= address;
      assert p[1..] in Branch(s, address[0]) && p[1..] <= address[1..];
    }
    if Covered(Branch(s, address[0]), address[1..]) {
      var q :| q in Branch(s, address[0]) && q <= address[1..];
      var p :| p in s && p != [] && p[0] == address[0] && p[1..] == q;
      assert p == [address[0]] + q;
    }
  }

  lemma UnderHolds(zero: set<Bits>, one: set<Bits>, p: Bits)
    ensures p in Under(false, zero) + Under(true, one) <==> p != [] && p[1..] in if p[0] then one else zero
  {
    if p != [] {
      assert p == [p[0]] + p[1..];
    }
    assert forall b: bool, r: Bits :: ([b] + r)[1..] == r;
  }

  /** What is left has no network inside another and no two halves of one network. */
  lemma {:induction false} CollapseIsMinimal(s: set<Bits>, depth: nat)
    ensures forall p, q :: p in Collapse(s, depth) && q in Collapse(s, depth) && p <= q ==> p == q
    ensures forall p :: p + [false] in Collapse(s, depth) ==> p + [true] !in Collapse(s, depth)
    decreases depth
  {
    hide Branch, Under;
    var c := Collapse(s, depth);
    if [] !in s && depth > 0 {
      CollapseIsMinimal(Branch(s, false), depth - 1);
      CollapseIsMinimal(Branch(s, true), depth - 1);
      var zero, one := Collapse(Branch(s, false), depth - 1), Collapse(Branch(s, true), depth - 1);
      if !([] in zero && [] in one) {
        assert c == Under(false, zero) + Under(true, one);
        forall p, q | p in c && q in c && p <= q
          ensures p == q
        {
          UnderHolds(zero, one, p);
          UnderHolds(zero, one, q);
          assert p[1..] <= q[1..];
          assert p == [p[0]] + p[1..] && q == [q[0]] + q[1..];
        }
        forall p | p + [false] in c
          ensures p + [true] !in c
        {
          UnderHolds(zero, one, p + [false]);
          UnderHolds(zero, one, p + [true]);
          HalvesBelow(p);
        }
      }
    }
  }

  lemma HalvesBelow(p: Bits)
    ensures p == [] ==> (p + [false])[1..] == [] && (p + [true])[1..] == []
    ensures p != [] ==> forall b :: (p + [b])[1..] == p[1..] + [b] && (p + [b])[0] == p[0]
  {
  }

  function Width(version: nat): nat
  {
    if version == 4 then 32 else 128
  }

  predicate IsNetwork(n: Network)
  {
    n.version in {4, 6} && |n.bits| <= Width(n.version)
  }

  /** A network has at most 32 bits under version 4 and at most 128 under version 6, and there is no other version. */
  lemma NetworkMeans(n: Network)
    ensures IsNetwork(n) <==> (n.version == 4 && |n.bits| <= 32) || (n.version == 6 && |n.bits| <= 128)
  {
  }

  function BitsOf(s: set<Network>, version: nat): set<Bits>
  {
    set n | n in s && n.version == version :: n.bits
  }

  function CollapseVersion(s: set<Network>, version: nat): set<Network>
  {
    set p | p in Collapse(BitsOf(s, version), Width(version)) :: Network(version, p)
  }

  function CollapseGroup(s: set<Network>): set<Network>
  {
    CollapseVersion(s, 4) + CollapseVersion(s, 6)
  }

  lemma CollapseGroupKeepsMembers(s: set<Network>, address: Network)
    requires (forall n :: n in s ==> IsNetwork(n)) && IsNetwork(address) && |address.bits| == Width(address.version)
    ensures (exists n :: n in CollapseGroup(s) && Contains(n, address)) <==> exists n :: n in s && Contains(n, address)
  {
    var v := address.version;
    var bits := BitsOf(s, v);
    CollapseKeepsCoverage(bits, Width(v), address.bits);
    if Covered(bits, address.bits) {
      var p :| p in bits && p <= address.bits;
      assert Network(v, p) in s && Contains(Network(v, p), address);
      var q :| q in Collapse(bits, Width(v)) && q <= address.bits;
      assert Network(v, q) in CollapseGroup(s) && Contains(Network(v, q), address);
    } else {
      forall n | Contains(n, address)
        ensures n !in s && n !in CollapseGroup(s)
      {
        assert n.version == v && n.bits <= address.bits;
        assert n in s ==> n.bits in bits;
      }
    }
  }

  // ---------- the automatic table ----------

  function FirstIndex(priority: seq<Group>, g: Group): nat
  {
    if priority == [] || priority[0] == g then 0 else 1 + FirstIndex(priority[1..], g)
  }

  /** `g` is asked before `h`: it is listed earlier, or neither is listed and its name sorts first. */
  predicate Precedes(priority: seq<Group>, g: Group, h: Group)
  {
    || FirstIndex(priority, g) < FirstIndex(priority, h)
    || (g !in priority && h !in priority && g < h)
  }

  /** Every group keeps the networks that no earlier group holds. */
  ghost function Prioritised(groups: Groups, priority: seq<Group>): Groups
  {
    map g | g in groups :: set n | n in groups[g] && forall h :: h in groups && n in groups[h] ==> h == g || Precedes(priority, g, h)
  }

  ghost function AutomaticTable(automatic: Groups, priority: seq<Group>): Groups
  {
    Prioritised(map g | g in automatic :: CollapseGroup(automatic[g]), priority)
  }

  // ---------- the maintained networks ----------

  ghost function Manual(automatic: Groups, overrides: Groups): Groups
  {
    map g | g in automatic :: if g in overrides then overrides[g] else {}
  }

  ghost predicate Clash(manual: Groups, g: Group, n: Network, h: Group, m: Network)
  {
    g in manual && n in manual[g] && h in manual && m in manual[h] && g != h && Overlaps(n, m)
  }

  ghost predicate Clashes(manual: Groups)
  {
    exists g, n, h, m :: Clash(manual, g, n, h, m)
  }

  ghost predicate Maintained(manual: Groups, g: Group, n: Network)
  {
    g in manual && n in manual[g]
  }

  /** No maintained network contains `n`. */
  ghost predicate Free(manual: Groups, n: Network)
  {
    forall g, m :: Maintained(manual, g, m) ==> !SubnetOf(n, m)
  }

  /** A maintained network owns its complete range. */
  ghost function Installed(table: Groups, manual: Groups): Groups
    requires manual.Keys == table.Keys
  {
    map g | g in table :: (set n | n in table[g] && Free(manual, n)) + manual[g]
  }

  // ---------- longest match ----------

  ghost predicate LongestMatch(groups: Groups, address: Network, g: Group, n: Network)
  {
    && g in groups && n in groups[g] && Contains(n, address)
    && forall h, m :: h in groups && m in groups[h] && Contains(m, address) ==> |m.bits| <= |n.bits|
  }

  ghost predicate Owns(groups: Groups, address: Network, g: Group)
  {
    exists n :: LongestMatch(groups, address, g, n)
  }

  ghost predicate OneHolder(groups: Groups)
  {
    forall g, h, n :: g in groups && h in groups && n in groups[g] && n in groups[h] ==> g == h
  }

  lemma OneOwner(groups: Groups, address: Network, g: Group, h: Group)
    requires OneHolder(groups) && Owns(groups, address, g) && Owns(groups, address, h)
    ensures g == h
  {
    var n :| LongestMatch(groups, address, g, n);
    var m :| LongestMatch(groups, address, h, m);
    Nested(n, m, address);
  }

  lemma FirstIndexIsUnique(priority: seq<Group>, g: Group, h: Group)
    ensures FirstIndex(priority, g) <= |priority|
    ensures FirstIndex(priority, g) == |priority| <==> g !in priority
    ensures g != h && FirstIndex(priority, g) == FirstIndex(priority, h) ==> g !in priority && h !in priority
  {
    if priority != [] && priority[0] != g && priority[0] != h {
      FirstIndexIsUnique(priority[1..], g, h);
    }
  }

  lemma PrioritisedHasOneHolder(groups: Groups, priority: seq<Group>)
    ensures OneHolder(Prioritised(groups, priority))
  {
    var table := Prioritised(groups, priority);
    forall g, h, n | g in table && h in table && n in table[g] && n in table[h]
      ensures g == h
    {
      FirstIndexIsUnique(priority, g, h);
      FirstIndexIsUnique(priority, h, g);
    }
  }

  /** No network ends up with two groups. */
  lemma InstalledHasOneHolder(table: Groups, manual: Groups)
    requires manual.Keys == table.Keys && OneHolder(table) && !Clashes(manual)
    ensures OneHolder(Installed(table, manual))
  {
    var out := Installed(table, manual);
    forall g, h, n | g in out && h in out && n in out[g] && n in out[h]
      ensures g == h
    {
      if n in manual[g] && n in manual[h] && g != h {
        assert Clash(manual, g, n, h, n);
      }
      assert n in manual[g] ==> Maintained(manual, g, n);
      assert n in manual[h] ==> Maintained(manual, h, n);
    }
  }

  /** An address inside a maintained network belongs to that network's group. */
  lemma MaintainedOwns(table: Groups, manual: Groups, address: Network, g: Group, n: Network)
    requires manual.Keys == table.Keys && !Clashes(manual)
    requires Maintained(manual, g, n) && Contains(n, address)
    ensures Owns(Installed(table, manual), address, g)
    decreases |address.bits| - |n.bits|
  {
    var out := Installed(table, manual);
    if h, m :| h in out && m in out[h] && Contains(m, address) && |m.bits| > |n.bits| {
      Nested(m, n, address);
      assert Maintained(manual, h, m);
      if h != g {
        assert Clash(manual, h, m, g, n);
      }
      MaintainedOwns(table, manual, address, g, m);
    } else {
      assert LongestMatch(out, address, g, n);
    }
  }

  /** The result of the whole resolution: a maintained network decides every address it contains, and
      every other address keeps the owner of the automatic table. */
  lemma OwnerAfterResolution(table: Groups, manual: Groups, address: Network, g: Group)
    requires manual.Keys == table.Keys && OneHolder(table) && !Clashes(manual)
    ensures (exists h, n :: Maintained(manual, h, n) && Contains(n, address)) ==>
              (Owns(Installed(table, manual), address, g) <==>
               exists n :: Maintained(manual, g, n) && Contains(n, address))
    ensures !(exists h, n :: Maintained(manual, h, n) && Contains(n, address)) ==>
              (Owns(Installed(table, manual), address, g) <==> Owns(table, address, g))
  {
    var out := Installed(table, manual);
    if h, n :| Maintained(manual, h, n) && Contains(n, address) {
      MaintainedOwns(table, manual, address, h, n);
      InstalledHasOneHolder(table, manual);
      if Owns(out, address, g) {
        OneOwner(out, address, g, h);
      }
      if m :| Maintained(manual, g, m) && Contains(m, address) {
        MaintainedOwns(table, manual, address, g, m);
      }
    } else {
      forall k, n | k in table && Contains(n, address)
        ensures n in out[k] <==> n in table[k]
      {
        assert !Maintained(manual, k, n);
        forall h, m | Maintained(manual, h, m)
          ensures !SubnetOf(n, m)
        {
          if SubnetOf(n, m) {
            assert m.bits <= n.bits <= address.bits;
            assert Contains(m, address);
          }
        }
      }
      forall n
        ensures LongestMatch(out, address, g, n) <==> LongestMatch(table, address, g, n)
      {
      }
    }
  }

  /** In the automatic table an address goes to the earliest group that holds its longest network. */
  lemma EarliestHolderOwns(groups: Groups, priority: seq<Group>, address: Network, g: Group)
    requires Owns(Prioritised(groups, priority), address, g)
    ensures forall h :: Owns(groups, address, h) ==> h == g || Precedes(priority, g, h)
    ensures Owns(groups, address, g)
  {
    var table := Prioritised(groups, priority);
    var n :| LongestMatch(table, address, g, n);
    forall h, m | h in groups && m in groups[h] && Contains(m, address)
      ensures |m.bits| <= |n.bits|
    {
      var first := EarliestHolder(groups, priority, h, m);
      assert m in table[first];
    }
    assert LongestMatch(groups, address, g, n);
    forall h | Owns(groups, address, h)
      ensures h == g || Precedes(priority, g, h)
    {
      var m :| LongestMatch(groups, address, h, m);
      Nested(n, m, address);
    }
  }

  /** Some group that holds `n` comes before all others that do. */
  lemma EarliestHolder(groups: Groups, priority: seq<Group>, g: Group, n: Network) returns (first: Group)
    requires g in groups && n in groups[g]
    ensures first in groups && n in groups[first]
    ensures forall h :: h in groups && n in groups[h] ==> h == first || Precedes(priority, first, h)
    decreases FirstIndex(priority, g), g
  {
    if h :| h in groups && n in groups[h] && h != g && !Precedes(priority, g, h) {
      FirstIndexIsUnique(priority, g, h);
      first := EarliestHolder(groups, priority, h, n);
    } else {
      first := g;
    }
  }

  // ---------- the program ----------

  /** The integer Python gives for a network address: the prefix bits, then zeros up to the full width. */
  function NetworkAddress(bits: Bits, width: nat): nat
    requires |bits| <= width
  {
    if bits == [] then 0
    else (if bits[0] then Power(width - 1) else 0) + NetworkAddress(bits[1..], width - 1)
  }

  function Power(n: nat): nat
  {
    if n == 0 then 1 else 2 * Power(n - 1)
  }

  /** Python compares the sort keys (version, address, prefix length) position by position. */
  predicate SortsBefore(n: Network, m: Network)
    requires IsNetwork(n) && IsNetwork(m)
  {
    var a, b := NetworkAddress(n.bits, Width(n.version)), NetworkAddress(m.bits, Width(m.version));
    || n.version < m.version
    || (n.version == m.version && a < b)
    || (n.version == m.version && a == b && |n.bits| <= |m.bits|)
  }

  /** The order of a dictionary, in which 0 comes before 1 and a word before its continuations. */
  ghost predicate Alphabetical(p: Bits, q: Bits)
  {
    p == [] || (q != [] && if p[0] == q[0] then Alphabetical(p[1..], q[1..]) else q[0])
  }

  lemma {:induction false} AddressFits(p: Bits, width: nat)
    requires |p| <= width
    ensures NetworkAddress(p, width) < Power(width)
  {
    if p == [] {
      PowerIsPositive(width);
    } else {
      AddressFits(p[1..], width - 1);
    }
  }

  lemma {:induction false} PowerIsPositive(n: nat)
    ensures Power(n) > 0
  {
    if n > 0 {
      PowerIsPositive(n - 1);
    }
  }

  lemma {:induction false} AddressesAreAlphabetical(p: Bits, q: Bits, width: nat)
    requires |p| <= width && |q| <= width
    ensures var a, b := NetworkAddress(p, width), NetworkAddress(q, width);
            a < b || (a == b && |p| <= |q|) <==> Alphabetical(p, q)
  {
    if p != [] && q != [] {
      AddressFits(p[1..], width - 1);
      AddressFits(q[1..], width - 1);
      AddressesAreAlphabetical(p[1..], q[1..], width - 1);
    }
  }

  /** The sort keys arrange networks by version and then like words of a dictionary. */
  lemma SortsLikeADictionary(n: Network, m: Network)
    requires IsNetwork(n) && IsNetwork(m)
    ensures SortsBefore(n, m) <==> n.version < m.version || (n.version == m.version && Alphabetical(n.bits, m.bits))
  {
    if n.version == m.version {
      AddressesAreAlphabetical(n.bits, m.bits, Width(n.version));
    }
  }

  lemma {:induction false} LongerPrefixHasNoSmallerAddress(p: Bits, q: Bits, width: nat)
    requires p <= q && |q| <= width
    ensures NetworkAddress(p, width) <= NetworkAddress(q, width)
  {
    if p != [] {
      LongerPrefixHasNoSmallerAddress(p[1..], q[1..], width - 1);
    }
  }

  /** In sorted order a network comes before everything inside it. */
  lemma SupernetsSortFirst(n: Network, m: Network)
    requires IsNetwork(n) && IsNetwork(m) && SortsBefore(n, m) && SubnetOf(n, m)
    ensures n == m
  {
    LongerPrefixHasNoSmallerAddress(m.bits, n.bits, Width(n.version));
  }

  ghost predicate Sorted(s: seq<Network>)
  {
    && (forall i :: 0 <= i < |s| ==> IsNetwork(s[i]))
    && (forall i, j :: 0 <= i < j < |s| ==> SortsBefore(s[i], s[j]) && s[i] != s[j])
  }

  method Least(networks: set<Network>) returns (least: Network)
    requires networks != {} && forall n :: n in networks ==> IsNetwork(n)
    ensures least in networks && forall n :: n in networks ==> SortsBefore(least, n)
  {
    least :| least in networks;
    var rest := networks - {least};
    while rest != {}
      invariant rest <= networks && least in networks
      invariant forall n :: n in networks - rest ==> SortsBefore(least, n)
    {
      var n :| n in rest;
      if SortsBefore(n, least) {
        assert forall m :: m in networks - rest ==> SortsBefore(least, m) && SortsBefore(n, m);
        least := n;
      }
      rest := rest - {n};
    }
  }

  method SortNetworks(networks: set<Network>) returns (s: seq<Network>)
    requires forall n :: n in networks ==> IsNetwork(n)
    ensures Sorted(s) && forall n :: n in s <==> n in networks
  {
    s := [];
    var rest := networks;
    while rest != {}
      invariant rest <= networks && Sorted(s)
      invariant forall n :: n in s <==> n in networks - rest
      invariant forall i, n :: 0 <= i < |s| && n in rest ==> SortsBefore(s[i], n) && s[i] != n
    {
      var n := Least(rest);
      s, rest := s + [n], rest - {n};
    }
  }

  /** Where a group stands in the priority list. */
  lemma {:induction false} FirstIndexFinds(priority: seq<Group>, i: nat)
    requires i < |priority|
    ensures FirstIndex(priority, priority[i]) <= i
  {
    if i > 0 {
      FirstIndexFinds(priority[1..], i - 1);
    }
  }

  lemma {:induction false} FirstIndexHolds(priority: seq<Group>, g: Group)
    ensures FirstIndex(priority, g) <= |priority|
    ensures g in priority ==> FirstIndex(priority, g) < |priority| && priority[FirstIndex(priority, g)] == g
  {
    if priority != [] && priority[0] != g {
      FirstIndexHolds(priority[1..], g);
    }
  }

  /** Whoever has not been asked when `ordered[i]` is, comes after it. */
  ghost predicate AskedInOrder(priority: seq<Group>, keys: set<Group>, ordered: seq<Group>, i: nat)
    requires i < |ordered|
  {
    forall h :: h in keys && h !in ordered[..i] && h != ordered[i] ==> Precedes(priority, ordered[i], h)
  }

  /** Groups in the order they are asked: the listed ones first, then the others by name. */
  method OrderGroups(keys: set<Group>, priority: seq<Group>) returns (ordered: seq<Group>)
    ensures forall g :: g in ordered <==> g in keys
    ensures forall i :: 0 <= i < |ordered| ==> AskedInOrder(priority, keys, ordered, i)
  {
    ordered := [];
    for i := 0 to |priority|
      invariant forall g :: g in ordered <==> g in keys && g in priority[..i]
      invariant forall k :: 0 <= k < |ordered| ==> AskedInOrder(priority, keys, ordered, k)
    {
      var g := priority[i];
      if g in keys {
        forall h | h in keys && h !in ordered && h != g
          ensures Precedes(priority, g, h)
        {
          FirstIndexFinds(priority, i);
          FirstIndexHolds(priority, h);
          if h in priority {
            assert FirstIndex(priority, h) >= i;
          } else {
            FirstIndexIsUnique(priority, h, g);
          }
        }
        Extend(priority, keys, ordered, g);
        ordered := ordered + [g];
      }
      assert priority[..i + 1] == priority[..i] + [g];
    }
    assert priority[..|priority|] == priority;
    var rest := set g | g in keys && g !in priority;
    while rest != {}
      invariant rest <= keys && forall g :: g in rest ==> g !in priority
      invariant forall g :: g in ordered <==> g in keys && g !in rest
      invariant forall k :: 0 <= k < |ordered| ==> AskedInOrder(priority, keys, ordered, k)
    {
      var g := LeastName(rest);
      Extend(priority, keys, ordered, g);
      ordered, rest := ordered + [g], rest - {g};
    }
  }

  method LeastName(names: set<Group>) returns (least: Group)
    requires names != {}
    ensures least in names && forall g :: g in names ==> least <= g
  {
    least :| least in names;
    var rest := names - {least};
    while rest != {}
      invariant rest <= names && least in names
      invariant forall g :: g in names && g !in rest ==> least <= g
    {
      var g :| g in rest;
      if g < least {
        least := g;
      }
      rest := rest - {g};
    }
  }

  lemma Extend(priority: seq<Group>, keys: set<Group>, ordered: seq<Group>, g: Group)
    requires forall i :: 0 <= i < |ordered| ==> AskedInOrder(priority, keys, ordered, i)
    requires forall h :: h in keys && h !in ordered && h != g ==> Precedes(priority, g, h)
    ensures forall i :: 0 <= i <= |ordered| ==> AskedInOrder(priority, keys, ordered + [g], i)
  {
    forall i | 0 <= i <= |ordered|
      ensures AskedInOrder(priority, keys, ordered + [g], i)
    {
      if i < |ordered| {
        assert AskedInOrder(priority, keys, ordered, i);
        assert (ordered + [g])[..i] == ordered[..i];
      } else {
        assert (ordered + [g])[..i] == ordered;
      }
    }
  }

  /** owner_by_prefix: the first group asked keeps a network. */
  method FindOwners(groups: Groups, ordered: seq<Group>, ghost priority: seq<Group>) returns (owner: map<Network, Group>)
    requires forall g :: g in ordered <==> g in groups
    requires forall i :: 0 <= i < |ordered| ==> AskedInOrder(priority, groups.Keys, ordered, i)
    ensures forall g, n :: g in groups && n in groups[g] ==>
              n in owner && (owner[n] == g <==> n in Prioritised(groups, priority)[g])
  {
    owner := map[];
    for i := 0 to |ordered|
      invariant forall n :: n in owner <==> exists g :: g in ordered[..i] && n in groups[g]
      invariant forall n :: n in owner ==> owner[n] in groups && n in groups[owner[n]]
      invariant forall n, h :: n in owner && h in groups && n in groups[h] ==> h == owner[n] || Precedes(priority, owner[n], h)
    {
      var g := ordered[i];
      assert AskedInOrder(priority, groups.Keys, ordered, i);
      assert ordered[..i + 1] == ordered[..i] + [g];
      ghost var before := owner;
      owner := (map n | n in groups[g] :: g) + owner;
      forall n, h | n in owner && h in groups && n in groups[h]
        ensures h == owner[n] || Precedes(priority, owner[n], h)
      {
        assert n !in before ==> h !in ordered[..i];
      }
    }
    assert ordered[..|ordered|] == ordered;
    forall g, n | g in groups && n in groups[g]
      ensures n in owner && (owner[n] == g <==> n in Prioritised(groups, priority)[g])
    {
      FirstIndexIsUnique(priority, g, owner[n]);
      FirstIndexIsUnique(priority, owner[n], g);
    }
  }

  method Prioritise(groups: Groups, priority: seq<Group>) returns (table: Groups)
    ensures table == Prioritised(groups, priority)
  {
    var ordered := OrderGroups(groups.Keys, priority);
    var owner := FindOwners(groups, ordered, priority);
    table := map g | g in groups :: set n | n in groups[g] && owner[n] == g;
    assert forall g :: g in groups ==> table[g] == Prioritised(groups, priority)[g];
  }

  datatype Claim = Claim(group: Group, network: Network)
  datatype Clashing = NoClash | ClashOf(first: Network, second: Network)

  /** Everything claimed so far, in the order it was claimed. */
  ghost predicate Lists(claimed: seq<Claim>, manual: Groups)
  {
    forall c :: c in claimed <==> Maintained(manual, c.group, c.network)
  }

  /** No two claims of different groups overlap, and no claim lies inside a later one of its group. */
  ghost predicate Compatible(claimed: seq<Claim>)
  {
    forall i, j :: 0 <= i < j < |claimed| ==>
      if claimed[i].group == claimed[j].group then !SubnetOf(claimed[i].network, claimed[j].network)
      else !Overlaps(claimed[i].network, claimed[j].network)
  }

  /** The first maintained network of another group that overlaps `network`. */
  method FindClash(claimed: seq<Claim>, group: Group, network: Network) returns (clash: Clashing)
    ensures clash.NoClash? ==> forall c :: c in claimed && c.group != group ==> !Overlaps(network, c.network)
    ensures clash.ClashOf? ==> clash.first == network && exists c :: c in claimed && c.group != group && c.network == clash.second && Overlaps(network, c.network)
  {
    for i := 0 to |claimed|
      invariant forall k :: 0 <= k < i && claimed[k].group != group ==> !Overlaps(network, claimed[k].network)
    {
      var c := claimed[i];
      if c.group != group && Overlaps(network, c.network) {
        return ClashOf(network, c.network);
      }
    }
    return NoClash;
  }

  /** Claim the maintained networks group by group, each group's in sorted order. */
  method ClaimAll(manual: Groups) returns (claimed: seq<Claim>, clash: Clashing)
    requires forall g, n :: Maintained(manual, g, n) ==> IsNetwork(n)
    ensures clash.NoClash? <==> !Clashes(manual)
    ensures clash.ClashOf? ==> exists g, h :: Clash(manual, g, clash.first, h, clash.second)
    ensures clash.NoClash? ==> Lists(claimed, manual) && Compatible(claimed)
  {
    claimed := [];
    var todo := manual.Keys;
    while todo != {}
      invariant todo <= manual.Keys && Compatible(claimed)
      invariant forall c :: c in claimed <==> c.group !in todo && Maintained(manual, c.group, c.network)
    {
      var g :| g in todo;
      assert forall n :: n in manual[g] ==> Maintained(manual, g, n);
      var sorted := SortNetworks(manual[g]);
      ghost var before := claimed;
      for i := 0 to |sorted|
        invariant Compatible(claimed)
        invariant forall c :: c in claimed <==> c in before || (c.group == g && c.network in sorted[..i])
      {
        var n := sorted[i];
        clash := FindClash(claimed, g, n);
        if clash.ClashOf? {
          var c :| c in claimed && c.group != g && c.network == clash.second && Overlaps(n, c.network);
          assert Clash(manual, g, n, c.group, c.network);
          return;
        }
        forall k | 0 <= k < |claimed| && claimed[k].group == g
          ensures !SubnetOf(claimed[k].network, n)
        {
          assert claimed[k] in claimed;
          if SubnetOf(claimed[k].network, n) {
            SupernetsSortFirst(claimed[k].network, n);
          }
        }
        claimed := claimed + [Claim(g, n)];
        assert sorted[..i + 1] == sorted[..i] + [n];
      }
      assert sorted[..|sorted|] == sorted;
      todo := todo - {g};
    }
    clash := NoClash;
    forall g, n, h, m
      ensures !Clash(manual, g, n, h, m)
    {
      if Maintained(manual, g, n) && Maintained(manual, h, m) && g != h {
        CompatibleClaimsDoNotOverlap(claimed, Claim(g, n), Claim(h, m));
      }
    }
  }

  lemma CompatibleClaimsDoNotOverlap(claimed: seq<Claim>, c: Claim, d: Claim)
    requires Compatible(claimed) && c in claimed && d in claimed && c.group != d.group
    ensures !Overlaps(c.network, d.network)
  {
    var i :| 0 <= i < |claimed| && claimed[i] == c;
    var j :| 0 <= j < |claimed| && claimed[j] == d;
    assert Overlaps(c.network, d.network) == Overlaps(d.network, c.network);
  }

  ghost predicate ClearOf(networks: set<Network>, claimed: seq<Claim>, count: nat, n: Network)
    requires count <= |claimed|
  {
    n in networks && forall k :: 0 <= k < count ==> !SubnetOf(n, claimed[k].network)
  }

  /** Remove what lies inside one claimed network from every group, then add the claim. */
  method InstallOne(groups: Groups, c: Claim) returns (r: Groups)
    requires c.group in groups
    ensures r.Keys == groups.Keys
    ensures forall g, n :: g in groups ==> (n in r[g] <==> (n in groups[g] && !SubnetOf(n, c.network)) || c == Claim(g, n))
  {
    r := map g | g in groups :: set n | n in groups[g] && !SubnetOf(n, c.network);
    r := r[c.group := r[c.group] + {c.network}];
  }

  /** The groups once the first `count` claims are in place. */
  ghost predicate InstalledUpTo(groups: Groups, table: Groups, claimed: seq<Claim>, count: nat)
    requires count <= |claimed|
  {
    && groups.Keys == table.Keys
    && forall g, n :: g in table ==> (n in groups[g] <==> Claim(g, n) in claimed[..count] || ClearOf(table[g], claimed, count, n))
  }

  method Install(table: Groups, manual: Groups, claimed: seq<Claim>) returns (groups: Groups)
    requires manual.Keys == table.Keys && Lists(claimed, manual) && Compatible(claimed)
    ensures groups == Installed(table, manual)
  {
    groups := table;
    for i := 0 to |claimed|
      invariant InstalledUpTo(groups, table, claimed, i)
    {
      var c := claimed[i];
      assert c in claimed && claimed[..i + 1] == claimed[..i] + [c];
      groups := InstallOne(groups, c);
    }
    AllInstalled(groups, table, manual, claimed);
  }

  lemma AllInstalled(groups: Groups, table: Groups, manual: Groups, claimed: seq<Claim>)
    requires manual.Keys == table.Keys && Lists(claimed, manual)
    requires InstalledUpTo(groups, table, claimed, |claimed|)
    ensures groups == Installed(table, manual)
  {
    assert claimed[..|claimed|] == claimed;
    forall g | g in table
      ensures groups[g] == Installed(table, manual)[g]
    {
      forall n
        ensures ClearOf(table[g], claimed, |claimed|, n) <==> n in table[g] && Free(manual, n)
      {
        FreeOfClaims(manual, claimed, n);
      }
      assert forall n :: Claim(g, n) in claimed <==> n in manual[g];
    }
  }

  lemma FreeOfClaims(manual: Groups, claimed: seq<Claim>, n: Network)
    requires Lists(claimed, manual)
    ensures Free(manual, n) <==> forall k :: 0 <= k < |claimed| ==> !SubnetOf(n, claimed[k].network)
  {
    forall g, m | Maintained(manual, g, m)
      ensures exists k :: 0 <= k < |claimed| && claimed[k].network == m
    {
      assert Claim(g, m) in claimed;
    }
    forall k | 0 <= k < |claimed|
      ensures Maintained(manual, claimed[k].group, claimed[k].network)
    {
      assert claimed[k] in claimed;
    }
  }

  // ---------- what the resolution means ----------

  /** The networks belong to two different groups of the overrides and share addresses. */
  ghost predicate Collide(overrides: Groups, g: Group, n: Network, h: Group, m: Network)
  {
    && g in overrides && h in overrides && g != h && n in overrides[g] && m in overrides[h]
    && n.version == m.version && (n.bits <= m.bits || m.bits <= n.bits)
  }

  ghost predicate OverridesOverlap(overrides: Groups)
  {
    exists g, n, h, m :: Collide(overrides, g, n, h, m)
  }

  ghost predicate Overridden(overrides: Groups, g: Group, address: Network)
  {
    g in overrides && exists n :: n in overrides[g] && n.version == address.version && n.bits <= address.bits
  }

  /** The automatic owner of an address: of the groups whose collapsed list has the longest network that contains it, the
      one that is asked first. */
  ghost predicate OwnsAutomatically(automatic: Groups, priority: seq<Group>, address: Network, g: Group)
  {
    var collapsed := map h | h in automatic :: CollapseGroup(automatic[h]);
    Owns(collapsed, address, g) && forall h :: Owns(collapsed, address, h) ==> h == g || Precedes(priority, g, h)
  }

  /** Every override is in its group and in no other; it decides about all of its addresses, and each other address has
      its automatic owner. */
  ghost predicate Resolves(automatic: Groups, overrides: Groups, priority: seq<Group>, groups: Groups)
  {
    && groups.Keys == automatic.Keys
    && (forall g, n :: g in overrides && n in overrides[g] ==> g in groups && n in groups[g] && forall h :: h in groups && n in groups[h] ==> h == g)
    && forall address, g ::
         Owns(groups, address, g) <==>
           if exists h :: Overridden(overrides, h, address) then Overridden(overrides, g, address)
           else OwnsAutomatically(automatic, priority, address, g)
  }

  /** A group comes before another if it is listed before any mention of the other, or if neither is listed and its name
      sorts first. */
  lemma {:induction false} PrecedesMeans(priority: seq<Group>, g: Group, h: Group)
    requires g != h
    ensures Precedes(priority, g, h) <==>
              || (exists i :: 0 <= i < |priority| && priority[i] == g && h !in priority[..i])
              || (g !in priority && h !in priority && g < h)
  {
    FirstIndexIs(priority, g);
    FirstIndexIs(priority, h);
    if exists i :: 0 <= i < |priority| && priority[i] == g && h !in priority[..i] {
      var i :| 0 <= i < |priority| && priority[i] == g && h !in priority[..i];
      assert forall k :: 0 <= k < i ==> priority[..i][k] == priority[k];
      assert FirstIndex(priority, g) <= i;
    }
    if FirstIndex(priority, g) < FirstIndex(priority, h) {
      var i := FirstIndex(priority, g);
      assert forall k :: 0 <= k < i ==> priority[k] != h;
      assert priority[i] == g && h !in priority[..i];
    }
  }

  lemma {:induction false} FirstIndexIs(priority: seq<Group>, g: Group)
    ensures FirstIndex(priority, g) <= |priority| && (FirstIndex(priority, g) == |priority| <==> g !in priority)
    ensures FirstIndex(priority, g) < |priority| ==> priority[FirstIndex(priority, g)] == g
    ensures forall k :: 0 <= k < FirstIndex(priority, g) ==> priority[k] != g
  {
    if priority != [] && priority[0] != g {
      FirstIndexIs(priority[1..], g);
      forall k | 0 <= k < FirstIndex(priority, g)
        ensures priority[k] != g
      {
        assert k > 0 ==> priority[k] == priority[1..][k - 1];
      }
      assert priority == [priority[0]] + priority[1..];
    }
  }

  lemma ManualCollides(automatic: Groups, overrides: Groups, g: Group, n: Network, h: Group, m: Network)
    requires overrides.Keys <= automatic.Keys
    ensures Clash(Manual(automatic, overrides), g, n, h, m) <==> Collide(overrides, g, n, h, m)
  {
  }

  lemma ManualClashes(automatic: Groups, overrides: Groups)
    requires overrides.Keys <= automatic.Keys
    ensures Clashes(Manual(automatic, overrides)) <==> OverridesOverlap(overrides)
  {
    hide Clash, Collide, Manual;
    forall g, n, h, m
      ensures Clash(Manual(automatic, overrides), g, n, h, m) <==> Collide(overrides, g, n, h, m)
    {
      ManualCollides(automatic, overrides, g, n, h, m);
    }
  }

  lemma ManualOverrides(automatic: Groups, overrides: Groups, address: Network, g: Group)
    requires overrides.Keys <= automatic.Keys
    ensures Overridden(overrides, g, address) <==> exists n :: Maintained(Manual(automatic, overrides), g, n) && Contains(n, address)
  {
    if n :| Maintained(Manual(automatic, overrides), g, n) && Contains(n, address) {
      assert n in overrides[g] && n.bits <= address.bits;
    }
    if Overridden(overrides, g, address) {
      var n :| n in overrides[g] && n.version == address.version && n.bits <= address.bits;
      assert Maintained(Manual(automatic, overrides), g, n) && Contains(n, address);
    }
  }

  lemma AutomaticOwner(automatic: Groups, priority: seq<Group>, address: Network, g: Group)
    ensures Owns(AutomaticTable(automatic, priority), address, g) <==> OwnsAutomatically(automatic, priority, address, g)
  {
    var collapsed: Groups := map h | h in automatic :: CollapseGroup(automatic[h]);
    var table := Prioritised(collapsed, priority);
    if Owns(table, address, g) {
      EarliestHolderOwns(collapsed, priority, address, g);
    }
    if OwnsAutomatically(automatic, priority, address, g) {
      var n :| LongestMatch(collapsed, address, g, n);
      forall h | h in collapsed && n in collapsed[h]
        ensures h == g || Precedes(priority, g, h)
      {
        assert LongestMatch(collapsed, address, h, n);
        assert Owns(collapsed, address, h);
      }
      assert LongestMatch(table, address, g, n);
    }
  }

  /** Who owns an address in what `ResolvePrefixGroups` returns. */
  lemma ResolvedOwner(automatic: Groups, overrides: Groups, priority: seq<Group>, address: Network, g: Group)
    requires !Clashes(Manual(automatic, overrides))
    ensures var manual := Manual(automatic, overrides);
            var table := AutomaticTable(automatic, priority);
            var out := Installed(table, manual);
            && OneHolder(out)
            && (Owns(out, address, g) <==>
                if exists h, n :: Maintained(manual, h, n) && Contains(n, address)
                then exists n :: Maintained(manual, g, n) && Contains(n, address)
                else Owns(table, address, g))
  {
    var manual, table := Manual(automatic, overrides), AutomaticTable(automatic, priority);
    PrioritisedHasOneHolder(map h | h in automatic :: CollapseGroup(automatic[h]), priority);
    InstalledHasOneHolder(table, manual);
    OwnerAfterResolution(table, manual, address, g);
  }

  lemma ResolutionMeans(automatic: Groups, overrides: Groups, priority: seq<Group>)
    requires overrides.Keys <= automatic.Keys && !OverridesOverlap(overrides)
    ensures Resolves(automatic, overrides, priority, Installed(AutomaticTable(automatic, priority), Manual(automatic, overrides)))
  {
    hide AutomaticTable, OwnsAutomatically, Overridden, Owns, Clashes, OverridesOverlap, Collide, Free;
    var manual, table := Manual(automatic, overrides), AutomaticTable(automatic, priority);
    assert table.Keys == automatic.Keys by {
      TableKeys(automatic, priority);
    }
    var groups := Installed(table, manual);
    ManualClashes(automatic, overrides);
    forall address, g
      ensures Owns(groups, address, g) <==>
                if exists h :: Overridden(overrides, h, address) then Overridden(overrides, g, address)
                else OwnsAutomatically(automatic, priority, address, g)
    {
      OwnerMeans(automatic, overrides, priority, address, g);
    }
    ResolvedOwner(automatic, overrides, priority, Network(4, []), 0);
    assert OneHolder(groups);
    forall g, n | g in overrides && n in overrides[g]
      ensures g in groups && n in groups[g] && forall h :: h in groups && n in groups[h] ==> h == g
    {
      assert n in manual[g];
    }
  }

  lemma TableKeys(automatic: Groups, priority: seq<Group>)
    ensures AutomaticTable(automatic, priority).Keys == automatic.Keys
  {
  }

  lemma OwnerMeans(automatic: Groups, overrides: Groups, priority: seq<Group>, address: Network, g: Group)
    requires overrides.Keys <= automatic.Keys && !Clashes(Manual(automatic, overrides))
    ensures var groups := Installed(AutomaticTable(automatic, priority), Manual(automatic, overrides));
            Owns(groups, address, g) <==>
              if exists h :: Overridden(overrides, h, address) then Overridden(overrides, g, address)
              else OwnsAutomatically(automatic, priority, address, g)
  {
    hide OwnsAutomatically, Overridden, Owns, Clashes, Prioritised, Contains, Maintained;
    ResolvedOwner(automatic, overrides, priority, address, g);
    AutomaticOwner(automatic, priority, address, g);
    forall h
      ensures Overridden(overrides, h, address) <==> exists n :: Maintained(Manual(automatic, overrides), h, n) && Contains(n, address)
    {
      ManualOverrides(automatic, overrides, address, h);
    }
    var manual := Manual(automatic, overrides);
    if h :| Overridden(overrides, h, address) {
      var n :| Maintained(manual, h, n) && Contains(n, address);
      assert exists k, m :: Maintained(manual, k, m) && Contains(m, address);
    }
    if h, n :| Maintained(manual, h, n) && Contains(n, address) {
      assert Overridden(overrides, h, address);
    }
  }

  lemma LongestHolder(groups: Groups, address: Network, g: Group, n: Network) returns (h: Group, m: Network)
    requires g in groups && n in groups[g] && Contains(n, address)
    ensures LongestMatch(groups, address, h, m)
    decreases |address.bits| - |n.bits|
  {
    if k, l :| k in groups && l in groups[k] && Contains(l, address) && |l.bits| > |n.bits| {
      h, m := LongestHolder(groups, address, k, l);
    } else {
      h, m := g, n;
    }
  }

  lemma EarliestOwner(groups: Groups, priority: seq<Group>, address: Network, g: Group, n: Network) returns (first: Group)
    requires g in groups && n in groups[g] && Contains(n, address)
    ensures Owns(groups, address, first) && forall h :: Owns(groups, address, h) ==> h == first || Precedes(priority, first, h)
  {
    var k, l := LongestHolder(groups, address, g, n);
    first := EarliestHolder(groups, priority, k, l);
    assert LongestMatch(groups, address, first, l);
    forall h | Owns(groups, address, h)
      ensures h == first || Precedes(priority, first, h)
    {
      var m :| LongestMatch(groups, address, h, m);
      Nested(l, m, address);
    }
  }

  /** Whatever the groups, an address has an owner exactly if some network, automatic or override, contains it. */
  lemma SomeOwner(automatic: Groups, overrides: Groups, priority: seq<Group>, groups: Groups, address: Network)
    requires Resolves(automatic, overrides, priority, groups) && OneHolder(groups)
    requires (forall g, n :: g in automatic && n in automatic[g] ==> IsNetwork(n)) && IsNetwork(address) && |address.bits| == Width(address.version)
    ensures (exists g :: Owns(groups, address, g)) <==>
              (exists g :: Overridden(overrides, g, address)) || exists g :: Overridden(automatic, g, address)
  {
    var collapsed: Groups := map h | h in automatic :: CollapseGroup(automatic[h]);
    if exists g :: Overridden(overrides, g, address) {
      var g :| Overridden(overrides, g, address);
      assert Owns(groups, address, g);
    } else {
      if g :| Owns(groups, address, g) {
        var n :| LongestMatch(collapsed, address, g, n);
        CollapseGroupKeepsMembers(automatic[g], address);
        assert Overridden(automatic, g, address);
      }
      if g :| Overridden(automatic, g, address) {
        var raw :| raw in automatic[g] && raw.version == address.version && raw.bits <= address.bits;
        assert Contains(raw, address);
        CollapseGroupKeepsMembers(automatic[g], address);
        var n :| n in CollapseGroup(automatic[g]) && Contains(n, address);
        var h := EarliestOwner(collapsed, priority, address, g, n);
        assert OwnsAutomatically(automatic, priority, address, h);
      }
    }
  }

  /** resolve_prefix_groups. */
  method ResolvePrefixGroups(automatic: Groups, overrides: Groups, priority: seq<Group>) returns (r: Result)
    requires forall g, n :: g in overrides && n in overrides[g] ==> IsNetwork(n)
    ensures r.UnknownGroups? <==> !(overrides.Keys <= automatic.Keys)
    ensures r.ManualOverlap? <==> overrides.Keys <= automatic.Keys && Clashes(Manual(automatic, overrides))
    ensures r.ManualOverlap? ==> exists g, h :: Clash(Manual(automatic, overrides), g, r.first, h, r.second)
    ensures r.Resolved? ==> r.groups == Installed(AutomaticTable(automatic, priority), Manual(automatic, overrides))
    ensures r.ManualOverlap? <==> overrides.Keys <= automatic.Keys && OverridesOverlap(overrides)
    ensures r.Resolved? ==> Resolves(automatic, overrides, priority, r.groups)
  {
    if !(overrides.Keys <= automatic.Keys) {
      return UnknownGroups;
    }
    hide Resolves, OverridesOverlap;
    ManualClashes(automatic, overrides);
    var collapsed := map g | g in automatic :: CollapseGroup(automatic[g]);
    var table := Prioritise(collapsed, priority);
    var manual: Groups := map g | g in automatic :: if g in overrides then overrides[g] else {};
    var claimed, clash := ClaimAll(manual);
    if clash.ClashOf? {
      return ManualOverlap(clash.first, clash.second);
    }
    var groups := Install(table, manual, claimed);
    ResolutionMeans(automatic, overrides, priority);
    r := Resolved(groups);
  }
}
