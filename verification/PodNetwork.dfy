/** deploy/gitops/scripts/gateway-realip.py: the one network that holds every node's slice. */
module PodNetwork {
  import opened Common

  const WIDEN_TO_PREFIX := 16
  const MIN_PREFIX := 8

  function Pow2(k: nat): (r: nat)
    ensures r > 0
  {
    if k == 0 then 1 else 2 * Pow2(k - 1)
  }

  datatype Cidr = Cidr(width: nat, base: nat, prefix: nat)

  predicate Valid(n: Cidr) {
    && (n.width == 32 || n.width == 128) && n.prefix <= n.width
    && n.base % Pow2(n.width - n.prefix) == 0 && n.base + Pow2(n.width - n.prefix) <= Pow2(n.width)
  }

  /** A network in prefix notation, section 3.1 of RFC 4632, over 32 or 128 bits. */
  type Network = n: Cidr | Valid(n) witness Cidr(32, 0, 0)

  datatype Address = Address(width: nat, value: nat)

  /** How many addresses a network holds. */
  function Size(n: Network): nat {
    Pow2(n.width - n.prefix)
  }

  /** `subnet_of`, once the families agree: first and last address within those of `m`. */
  predicate SubnetOf(n: Network, m: Network) {
    m.base <= n.base && n.base + Size(n) <= m.base + Size(m)
  }

  predicate Contains(n: Network, a: Address) {
    a.width == n.width && n.base <= a.value < n.base + Size(n)
  }

  // ---- blocks of powers of two ----

  lemma {:induction false} Pow2Grows(j: nat, k: nat)
    requires j <= k
    ensures Pow2(k) % Pow2(j) == 0 && Pow2(j) <= Pow2(k) && (j < k ==> Pow2(j) < Pow2(k))
  {
    if j < k {
      Pow2Grows(j, k - 1);
      var q := Pow2(k - 1) / Pow2(j);
      assert Pow2(k) == (2 * q) * Pow2(j);
      MultipleHasNoRest(2 * q, Pow2(j));
    }
  }

  lemma MultipleHasNoRest(q: nat, s: nat)
    requires s > 0
    ensures (q * s) % s == 0
  {
    var x := q * s;
    assert x == s * (x / s) + x % s;
    assert s * (q - x / s) == x % s;
    NoSmallMultiple(q - x / s, s);
  }

  lemma NoSmallMultiple(d: int, s: nat)
    requires s > 0 && 0 <= s * d < s
    ensures d == 0
  {
  }

  /** Two multiples of `s` less than apart by `s` are the same. */
  lemma MultiplesApart(x: nat, y: nat, s: nat)
    requires s > 0 && x % s == 0 && y % s == 0 && x < y
    ensures x + s <= y
  {
    var i, j := x / s, y / s;
    assert x == s * i && y == s * j;
    Distributes(s, i, j);
    PositiveMultiple(j - i, s);
  }

  lemma Distributes(s: int, i: int, j: int)
    ensures s * j - s * i == s * (j - i)
  {
  }

  lemma PositiveMultiple(d: int, s: nat)
    requires s > 0 && s * d > 0
    ensures s * d >= s
  {
  }

  lemma NotNegative(d: int, s: nat)
    requires s > 0 && s * d >= 0
    ensures d >= 0
  {
  }

  lemma FactorOut(s: int, i: int, j: int, q: int)
    ensures s * i - s * j * q == s * (i - j * q)
  {
  }

  /** Rounding down to a multiple of a multiple of `s` keeps multiples of `s`. */
  lemma RestIsMultiple(x: nat, s: nat, t: nat)
    requires s > 0 && t > 0 && x % s == 0 && t % s == 0
    ensures (x % t) % s == 0 && (x - x % t) % t == 0 && x % t + s <= t
  {
    var i, j, q := x / s, t / s, x / t;
    assert x == s * i && t == s * j;
    assert x - x % t == t * q == q * t == s * j * q;
    MultipleHasNoRest(q, t);
    FactorOut(s, i, j, q);
    var r := i - j * q;
    assert x % t == s * r;
    NotNegative(r, s);
    assert r * s == x % t;
    MultipleHasNoRest(r, s);
    MultiplesApart(x % t, t, s);
  }

  /** Masking a block of 2^j addresses to a block of 2^k, within 2^w. */
  lemma Masking(base: nat, j: nat, k: nat, w: nat)
    requires j <= k <= w && base % Pow2(j) == 0 && base + Pow2(j) <= Pow2(w)
    ensures var down := base - base % Pow2(k);
            down >= 0 && down % Pow2(k) == 0 && down + Pow2(k) <= Pow2(w) && base % Pow2(k) + Pow2(j) <= Pow2(k)
  {
    hide Pow2;
    Pow2Grows(j, k);
    RestIsMultiple(base, Pow2(j), Pow2(k));
    Pow2Grows(k, w);
    var down := base - base % Pow2(k);
    RestIsSmall(base, Pow2(k));
    MultiplesApart(down, Pow2(w), Pow2(k));
  }

  lemma RestIsSmall(x: nat, t: nat)
    requires t > 0
    ensures 0 <= x % t <= x && x % t < t
  {
  }

  /** The address without its low bits. */
  function Masked(base: nat, t: nat): (r: nat)
    requires t > 0
    ensures r == base - base % t
  {
    RestIsSmall(base, t);
    base - base % t
  }

  lemma MaskedIsValid(n: Network, p: nat)
    requires p <= n.prefix
    ensures Valid(Cidr(n.width, Masked(n.base, Pow2(n.width - p)), p))
  {
    hide Pow2;
    Masking(n.base, n.width - n.prefix, n.width - p, n.width);
  }

  /** `supernet(new_prefix=p)`: the address masked down to `p` bits. */
  function Widen(n: Network, p: nat): (r: Network)
    requires p <= n.prefix
    ensures r.width == n.width && r.prefix == p
  {
    MaskedIsValid(n, p);
    Cidr(n.width, Masked(n.base, Pow2(n.width - p)), p)
  }

  /** `supernet()`: one bit less, and a network of all addresses is its own. */
  function Supernet(n: Network): Network {
    if n.prefix == 0 then n else Widen(n, n.prefix - 1)
  }

  lemma WidenCovers(n: Network, p: nat)
    requires p <= n.prefix
    ensures SubnetOf(n, Widen(n, p))
  {
    hide Pow2;
    Masking(n.base, n.width - n.prefix, n.width - p, n.width);
  }

  /** A network holds another one exactly when it is that one's widening to its own prefix: there is
      one candidate a prefix. */
  lemma CoverIsWiden(n: Network, m: Network)
    requires n.width == m.width
    ensures SubnetOf(n, m) <==> m.prefix <= n.prefix && m == Widen(n, m.prefix)
  {
    hide Pow2;
    if SubnetOf(n, m) {
      if m.prefix > n.prefix { Pow2Grows(m.width - m.prefix, n.width - n.prefix); }
      OneBlock(n.base, m.base, Size(m), Size(n));
    } else if m.prefix <= n.prefix && m == Widen(n, m.prefix) {
      WidenCovers(n, m.prefix);
    }
  }

  /** Only one block of `t` addresses holds address `x`. */
  lemma OneBlock(x: nat, y: nat, t: nat, s: nat)
    requires t > 0 && s > 0 && y % t == 0 && y <= x && x + s <= y + t
    ensures x - x % t == y
  {
    RestIsMultiple(x, 1, t);
    var down := x - x % t;
    RestIsSmall(x, t);
    if down < y { MultiplesApart(down, y, t); }
    if y < down { MultiplesApart(y, down, t); }
  }

  lemma SameRange(m: Network, k: Network)
    requires m.width == k.width && SubnetOf(m, k) && SubnetOf(k, m)
    ensures m == k
  {
    CoverIsWiden(m, k);
    CoverIsWiden(k, m);
  }

  // ---- what the search is for ----

  ghost predicate CoversAll(m: Network, slices: seq<Network>) {
    forall s :: s in slices ==> SubnetOf(s, m)
  }

  ghost predicate OneFamily(slices: seq<Network>) {
    forall s :: s in slices ==> s.width == slices[0].width
  }

  /** Every network that holds all the slices holds `m`. */
  ghost predicate BelowCommon(m: Network, slices: seq<Network>) {
    forall n: Network :: n.width == m.width && CoversAll(n, slices) ==> SubnetOf(m, n)
  }

  /** `m` holds every slice, and every network that does holds `m`. */
  ghost predicate SmallestCommon(m: Network, slices: seq<Network>)
    requires slices != []
  {
    m.width == slices[0].width && CoversAll(m, slices) && BelowCommon(m, slices)
  }

  function AtMostSixteen(m: Network): Network {
    if m.prefix > WIDEN_TO_PREFIX then Widen(m, WIDEN_TO_PREFIX) else m
  }

  /** The smallest common network, or the /16 around it where it is smaller. */
  ghost predicate Encloses(r: Network, slices: seq<Network>)
    requires slices != []
  {
    exists m :: SmallestCommon(m, slices) && r == AtMostSixteen(m)
  }

  datatype Inclusion = Inside | Outside | TypeMismatch

  /** `all(s.subnet_of(merged) for s in slices)`: the first slice that is not inside, or of another
      family, settles it. */
  function AllInside(slices: seq<Network>, merged: Network): Inclusion {
    if slices == [] then Inside
    else if slices[0].width != merged.width then TypeMismatch
    else if !SubnetOf(slices[0], merged) then Outside
    else AllInside(slices[1..], merged)
  }

  lemma {:induction false} AllInsideMeans(slices: seq<Network>, merged: Network)
    ensures AllInside(slices, merged).Inside? <==>
              forall s :: s in slices ==> s.width == merged.width && SubnetOf(s, merged)
    ensures AllInside(slices, merged).TypeMismatch? ==> exists s :: s in slices && s.width != merged.width
    ensures AllInside(slices, merged).Outside? ==>
            exists s :: s in slices && s.width == merged.width && !SubnetOf(s, merged)
  {
    if slices != [] {
      AllInsideMeans(slices[1..], merged);
      assert slices == [slices[0]] + slices[1..];
    }
  }

  lemma EverythingHolds(merged: Network, s: Network)
    requires merged.prefix == 0 && s.width == merged.width
    ensures SubnetOf(s, merged)
  {
  }

  /** One bit less is still below every network that holds all the slices. */
  lemma StepUp(slices: seq<Network>, merged: Network)
    requires merged.prefix > 0 && BelowCommon(merged, slices) && !CoversAll(merged, slices)
    ensures var up := Supernet(merged);
            up.prefix == merged.prefix - 1 && up.width == merged.width && BelowCommon(up, slices)
  {
    hide Size, SubnetOf, CoversAll;
    var up := Supernet(merged);
    forall n: Network | n.width == up.width && CoversAll(n, slices) ensures SubnetOf(up, n) {
      CoverIsWiden(merged, n);
      WideningToItself(merged);
      WidenCovers(merged, merged.prefix - 1);
      WidenCovers(up, n.prefix);
      InsideInside(merged, up, Widen(up, n.prefix));
      CoverIsWiden(merged, Widen(up, n.prefix));
    }
  }

  lemma WideningToItself(n: Network)
    ensures Widen(n, n.prefix) == n
  {
  }

  lemma InsideInside(a: Network, b: Network, c: Network)
    requires SubnetOf(a, b) && SubnetOf(b, c)
    ensures SubnetOf(a, c)
  {
  }

  /** `enclosing_network`. It stops for any slices, refuses two families, and else finds what
      `Encloses` describes. */
  method EnclosingNetwork(slices: seq<Network>) returns (r: Option<Network>)
    requires slices != []
    ensures r.Some? <==> OneFamily(slices)
    ensures r.Some? ==> Encloses(r.value, slices)
  {
    hide SubnetOf, Size, Widen, Supernet;
    var merged := slices[0];
    while true
      invariant merged.width == slices[0].width && BelowCommon(merged, slices)
      decreases merged.prefix
    {
      var inside := AllInside(slices, merged);
      AllInsideMeans(slices, merged);
      if inside.TypeMismatch? { return None; }
      if inside.Inside? { break; }
      if merged.prefix == 0 {
        forall s | s in slices && s.width == merged.width ensures SubnetOf(s, merged) { EverythingHolds(merged, s); }
      }
      StepUp(slices, merged);
      merged := Supernet(merged);
    }
    assert SmallestCommon(merged, slices);
    if merged.prefix > WIDEN_TO_PREFIX {
      return Some(Widen(merged, WIDEN_TO_PREFIX));
    }
    return Some(merged);
  }

  // ---- what that determines ----

  /** The result depends on which slices there are and not on their order or number. */
  lemma EnclosingIsUnique(one: seq<Network>, other: seq<Network>, r: Network, q: Network)
    requires one != [] && other != [] && OneFamily(one) && OneFamily(other)
    requires forall s :: s in one <==> s in other
    requires Encloses(r, one) && Encloses(q, other)
    ensures r == q
  {
    hide SubnetOf, AtMostSixteen;
    var m: Network :| SmallestCommon(m, one) && r == AtMostSixteen(m);
    var k: Network :| SmallestCommon(k, other) && q == AtMostSixteen(k);
    assert other[0] in one;
    assert CoversAll(m, other) && CoversAll(k, one);
    SameRange(m, k);
  }

  /** The result holds every slice, its prefix is at most 16, it is the only network of its prefix
      that does, and the smallest of any prefix unless it was widened to 16. */
  lemma EnclosingCovers(slices: seq<Network>, r: Network, n: Network)
    requires slices != [] && OneFamily(slices) && Encloses(r, slices)
    ensures r.prefix <= WIDEN_TO_PREFIX && r.width == slices[0].width && CoversAll(r, slices)
    ensures n.width == r.width && CoversAll(n, slices) && n.prefix <= WIDEN_TO_PREFIX ==> SubnetOf(r, n)
    ensures n.width == r.width && CoversAll(n, slices) && n.prefix == r.prefix ==> n == r
  {
    hide SubnetOf, Widen;
    var m: Network :| SmallestCommon(m, slices) && r == AtMostSixteen(m);
    if m.prefix > WIDEN_TO_PREFIX {
      WidenCovers(m, WIDEN_TO_PREFIX);
      forall s | s in slices ensures SubnetOf(s, r) { InsideInside(s, m, r); }
    }
    if n.width == r.width && CoversAll(n, slices) {
      CoverIsWiden(m, n);
      CoverIsWiden(slices[0], n);
      CoverIsWiden(slices[0], r);
      if n.prefix <= WIDEN_TO_PREFIX < m.prefix {
        WidenCovers(r, n.prefix);
        InsideInside(m, r, Widen(r, n.prefix));
        CoverIsWiden(m, Widen(r, n.prefix));
      }
    }
  }

  /** Not all of `b` is needed: one half of it holds all the slices. */
  ghost predicate InOneHalf(b: Network, slices: seq<Network>) {
    exists half: Network :: half.width == b.width && half.prefix == b.prefix + 1 && SubnetOf(half, b)
                            && CoversAll(half, slices)
  }

  /** The result is a given network of at most 16 bits exactly if all slices lie in it and, unless it
      is a /16, not all of them in one half of it. */
  lemma EnclosingIsExactly(slices: seq<Network>, r: Network, b: Network)
    requires slices != [] && OneFamily(slices) && Encloses(r, slices)
    requires b.width == r.width && b.prefix <= WIDEN_TO_PREFIX
    ensures r == b <==> CoversAll(b, slices) && (b.prefix == WIDEN_TO_PREFIX || !InOneHalf(b, slices))
  {
    hide SubnetOf, Widen, Encloses, Size;
    EnclosingCovers(slices, r, b);
    if half: Network :| half.width == b.width && half.prefix == b.prefix + 1 && SubnetOf(half, b)
                        && CoversAll(half, slices) {
      if b.prefix < WIDEN_TO_PREFIX {
        EnclosingCovers(slices, r, half);
        CoverIsWiden(r, half);
      }
    }
    if CoversAll(b, slices) {
      CoverIsWiden(r, b);
      WideningToItself(r);
      if r.prefix > b.prefix { HalfCovers(slices, r, b); }
    }
  }

  /** A network strictly inside `b` lies in one half of it. */
  lemma HalfCovers(slices: seq<Network>, r: Network, b: Network)
    requires r.width == b.width && SubnetOf(r, b) && r.prefix > b.prefix && CoversAll(r, slices)
    ensures InOneHalf(b, slices)
  {
    hide Size;
    var half := Widen(r, b.prefix + 1);
    WidenCovers(r, b.prefix + 1);
    WidenCovers(half, b.prefix);
    InsideInside(r, half, Widen(half, b.prefix));
    CoverIsWiden(r, Widen(half, b.prefix));
    CoverIsWiden(r, b);
    forall s | s in slices ensures SubnetOf(s, half) { InsideInside(s, r, half); }
    hide SubnetOf, Widen;
    assert SubnetOf(half, b);
  }

  /** The private blocks, section 3 of RFC 1918: 10.0.0.0/8, 172.16.0.0/12 and 192.168.0.0/16. */
  predicate IsPrivateBlock(n: Cidr) {
    n in {Cidr(32, 10 * 0x100_0000, 8), Cidr(32, 172 * 0x100_0000 + 16 * 0x1_0000, 12),
          Cidr(32, 192 * 0x100_0000 + 168 * 0x1_0000, 16)}
  }

  /** The result is one of these as a whole exactly if the slices lie in one and either it is the /16
      or they do not fit into half of it. */
  lemma WholePrivateBlockExactly(slices: seq<Network>, r: Network)
    requires slices != [] && OneFamily(slices) && Encloses(r, slices)
    ensures IsPrivateBlock(r) <==>
            exists b: Network :: IsPrivateBlock(b) && b.width == r.width && CoversAll(b, slices)
                                 && (b.prefix == WIDEN_TO_PREFIX || !InOneHalf(b, slices))
  {
    forall b: Network | IsPrivateBlock(b) && b.width == r.width
      ensures r == b <==> CoversAll(b, slices) && (b.prefix == WIDEN_TO_PREFIX || !InOneHalf(b, slices))
    {
      EnclosingIsExactly(slices, r, b);
    }
    hide CoversAll, InOneHalf, Encloses;
  }

  lemma SomePowers()
    ensures Pow2(8) == 0x100 && Pow2(16) == 0x1_0000 && Pow2(32) == 0x1_0000_0000
  {
    assert Pow2(8) == 0x100;
    assert Pow2(16) == 0x1_0000;
    assert Pow2(24) == 0x100_0000;
  }

  /** A cluster with one node on 192.168.1.0/24: the result is the whole of 192.168.0.0/16. */
  lemma OneSliceWidensToAPrivateBlock()
    ensures var slice, block := Cidr(32, 192 * 0x100_0000 + 168 * 0x1_0000 + 0x100, 24),
                                Cidr(32, 192 * 0x100_0000 + 168 * 0x1_0000, 16);
            Valid(slice) && Valid(block) && IsPrivateBlock(block) && Encloses(block, [slice])
  {
    SomePowers();
    hide Pow2;
    var slice: Network := Cidr(32, 192 * 0x100_0000 + 168 * 0x1_0000 + 0x100, 24);
    assert Widen(slice, 16) == Cidr(32, 192 * 0x100_0000 + 168 * 0x1_0000, 16);
    assert SmallestCommon(slice, [slice]);
  }

  // ---- main ----

  datatype Outcome =
    | Skipped
    | NotPrivate(network: Network)
    | TooWide(network: Network)
    | Uncovered(network: Network, ips: seq<Address>)
    | Crashed
    | Printed(network: Network)

  /** An address lies in a network exactly if it is of its family and the network's once its low bits are gone. */
  lemma ContainsMeans(n: Network, a: Address)
    ensures Contains(n, a) <==> a.width == n.width && a.value - a.value % Size(n) == n.base
  {
    hide Pow2;
    if Contains(n, a) { OneBlock(a.value, n.base, Size(n), 1); }
    RestIsSmall(a.value, Size(n));
  }

  function IpsOutside(ips: seq<Address>, n: Network): seq<Address> {
    if ips == [] then []
    else (if Contains(n, ips[0]) then [] else [ips[0]]) + IpsOutside(ips[1..], n)
  }

  lemma {:induction false} IpsOutsideAreUncovered(ips: seq<Address>, n: Network)
    ensures forall a :: a in IpsOutside(ips, n) <==> a in ips && !Contains(n, a)
  {
    if ips != [] {
      IpsOutsideAreUncovered(ips[1..], n);
      assert ips == [ips[0]] + ips[1..];
    }
  }

  /** `main`, with the nodes' slices and the Envoy pods' addresses read. What it prints has a prefix
      of 8 to 16, is private, and holds every slice and every Envoy pod; and it prints whenever the
      enclosing network is like that. */
  method Resolve(slices: seq<Network>, envoyIps: seq<Address>, isPrivate: Network -> bool) returns (o: Outcome)
    ensures o.Skipped? <==> slices == []
    ensures o.Crashed? <==> slices != [] && !OneFamily(slices)
    ensures slices != [] && OneFamily(slices) ==> Encloses(o.network, slices)
    ensures o.Printed? <==>
              && slices != [] && OneFamily(slices)
              && var n := o.network;
                 isPrivate(n) && 8 <= n.prefix && (forall a :: a in envoyIps ==> Contains(n, a))
    ensures o.Printed? ==> 8 <= o.network.prefix <= 16 && CoversAll(o.network, slices)
    ensures o.NotPrivate? ==> !isPrivate(o.network)
    ensures o.TooWide? ==> isPrivate(o.network) && o.network.prefix < 8
    ensures o.Uncovered? ==>
              && isPrivate(o.network) && 8 <= o.network.prefix && o.ips != []
              && forall a :: a in o.ips <==> a in envoyIps && !Contains(o.network, a)
  {
    if slices == [] { return Skipped; }
    var enclosing := EnclosingNetwork(slices);
    if enclosing.None? { return Crashed; }
    var network := enclosing.value;
    EnclosingCovers(slices, network, network);
    if !isPrivate(network) { return NotPrivate(network); }
    if network.prefix < MIN_PREFIX { return TooWide(network); }
    var uncovered := IpsOutside(envoyIps, network);
    IpsOutsideAreUncovered(envoyIps, network);
    if uncovered != [] {
      assert uncovered[0] in uncovered;
      return Uncovered(network, uncovered);
    }
    return Printed(network);
  }
}
