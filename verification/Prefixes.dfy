/**
 pkg/utils/helper.go: expansion of an IPv4 prefix into its /32 addresses, in the
 CIDR notation of section 3.1 of RFC 4632.
 */
module Prefixes {
  import opened Collections
  import opened GoMath
  import opened GoStrings

  /** The list of addresses, or nothing for each of the four malformed-prefix errors. */
  type Expansion = Option<seq<string>>

  /** A prefix read apart: the three leading octets, the last octet and the number of addresses. */
  datatype Block = Block(network: string, host: int, size: nat)

  function ReadBlock(prefix: string): Option<Block> {
    var index := IndexOf(prefix, '/');
    if index < 0 then None
    else
      var addr := Split(prefix[..index], '.');
      var mask := Atoi(prefix[index + 1..]);
      if |addr| != 4 || !mask.ok || mask.value < 0 || mask.value > 32 || !Atoi(addr[3]).ok then None
      else
        Some(Block(addr[0] + "." + addr[1] + "." + addr[2] + ".", Atoi(addr[3]).value, Pow2(32 - mask.value)))
  }

  function Address(network: string, host: int, i: nat): string {
    network + Itoa(Wrap64(host + i)) + "/32"
  }

  function Addresses(b: Block, n: nat): (ips: seq<string>)
    ensures |ips| == n
  {
    if n == 0 then [] else Addresses(b, n - 1) + [Address(b.network, b.host, n - 1)]
  }

  /** The meaning of DeconstructIPsFromPrefix: what each input string expands to. */
  function Deconstruct(prefix: string): Expansion {
    match ReadBlock(prefix)
    case None => None
    case Some(b) => Some(Addresses(b, b.size))
  }

  method DeconstructIPsFromPrefix(prefix: string) returns (ips: Expansion)
    ensures ips == Deconstruct(prefix)
  {
    hide Pow, Pow2, Atoi, Split, IndexOf, Addresses, Wrap64;
    var index := IndexOf(prefix, '/');
    if index < 0 {
      return None;
    }
    var addr := Split(prefix[..index], '.');
    if |addr| != 4 {
      return None;
    }
    var networkAddr := addr[0] + "." + addr[1] + "." + addr[2] + ".";
    var mask := Atoi(prefix[index + 1..]);
    if !mask.ok {
      return None;
    }
    if mask.value < 0 || mask.value > 32 {
      return None;
    }
    var numOfAddresses := IntPower(2, 32 - mask.value);
    PowOfTwo(32 - mask.value);
    Pow2Monotone(32 - mask.value, 32);
    Pow2Values();
    ips := HostAddresses(networkAddr, addr[3], numOfAddresses);
  }

  /** The counting loop of DeconstructIPsFromPrefix; the last octet is parsed again in every round. */
  method HostAddresses(networkAddr: string, lastOctet: string, numOfAddresses: nat) returns (ips: Expansion)
    requires numOfAddresses > 0
    ensures ips == if Atoi(lastOctet).ok
                   then Some(Addresses(Block(networkAddr, Atoi(lastOctet).value, numOfAddresses), numOfAddresses))
                   else None
  {
    hide Atoi, Itoa, Wrap64;
    var deconstructed: seq<string> := [];
    ghost var block := Block(networkAddr, Atoi(lastOctet).value, numOfAddresses);
    var i := 0;
    while i < numOfAddresses
      invariant 0 <= i <= numOfAddresses
      invariant i > 0 ==> Atoi(lastOctet).ok
      invariant deconstructed == Addresses(block, i)
    {
      var host := Atoi(lastOctet);
      if !host.ok {
        return None;
      }
      deconstructed := deconstructed + [networkAddr + Itoa(Wrap64(host.value + i)) + "/32"];
      i := i + 1;
    }
    return Some(deconstructed);
  }

  // ------------------------------------------------------------------ canonical prefixes

  predicate IsOctet(n: int) { 0 <= n <= 255 }

  /** The canonical text of an IPv4 prefix; addresses are prefixes of length 32. */
  function Cidr(a: nat, b: nat, c: nat, d: nat, m: nat): string {
    Itoa(a) + "." + Itoa(b) + "." + Itoa(c) + "." + Itoa(d) + "/" + Itoa(m)
  }

  function Network(a: nat, b: nat, c: nat): string {
    Itoa(a) + "." + Itoa(b) + "." + Itoa(c) + "."
  }

  /** The two parsing steps read back the four octets and the length that were printed. */
  lemma CidrParses(a: nat, b: nat, c: nat, d: nat, m: nat)
    ensures var s := Cidr(a, b, c, d, m);
            var index := IndexOf(s, '/');
            && index >= 0
            && s[index + 1..] == Itoa(m)
            && Split(s[..index], '.') == [Itoa(a), Itoa(b), Itoa(c), Itoa(d)]
  {
    hide Itoa, Split, IndexOf;
    ItoaPlain(a);
    ItoaPlain(b);
    ItoaPlain(c);
    ItoaPlain(d);
    var s := Cidr(a, b, c, d, m);
    var dotted := Itoa(a) + "." + Itoa(b) + "." + Itoa(c) + "." + Itoa(d);
    assert s == dotted + ['/'] + Itoa(m);
    IndexOfFirst(dotted, '/', Itoa(m));
    assert s[..|dotted|] == dotted;
    assert s[|dotted| + 1..] == Itoa(m);
    DottedSplits(Itoa(a), Itoa(b), Itoa(c), Itoa(d));
  }

  lemma Regroup(front: string, head: string, tail: string)
    ensures front + head + "." + tail == front + (head + ['.'] + tail)
  {
  }

  lemma DottedText(p: string, q: string, r: string, t: string)
    ensures p + "." + q + "." + r + "." + t == p + ['.'] + (q + ['.'] + (r + ['.'] + t))
  {
    Regroup(p + "." + q + ".", r, t);
    Regroup(p + ".", q, r + ['.'] + t);
  }

  lemma SplitNested(p: string, q: string, r: string, t: string)
    requires '.' !in p && '.' !in q && '.' !in r && '.' !in t
    ensures Split(p + ['.'] + (q + ['.'] + (r + ['.'] + t)), '.') == [p] + ([q] + ([r] + [t]))
  {
    assert Split(t, '.') == [t];
    hide Split, IndexOf;
    var tail2 := r + ['.'] + t;
    var tail1 := q + ['.'] + tail2;
    SplitFirst(r, '.', t);
    SplitFirst(q, '.', tail2);
    SplitFirst(p, '.', tail1);
  }

  lemma DottedSplits(p: string, q: string, r: string, t: string)
    requires '.' !in p && '.' !in q && '.' !in r && '.' !in t
    ensures Split(p + "." + q + "." + r + "." + t, '.') == [p, q, r, t]
  {
    hide Split, IndexOf;
    SplitNested(p, q, r, t);
    DottedText(p, q, r, t);
    assert [p] + ([q] + ([r] + [t])) == [p, q, r, t];
  }

  lemma ItoaInjective(m: nat, n: nat)
    requires Itoa(m) == Itoa(n)
    ensures m == n
  {
    DigitsRoundTrip(m);
    DigitsRoundTrip(n);
  }

  /** Different prefixes have different texts. */
  lemma CidrInjective(a: nat, b: nat, c: nat, d: nat, m: nat, a': nat, b': nat, c': nat, d': nat, m': nat)
    requires Cidr(a, b, c, d, m) == Cidr(a', b', c', d', m')
    ensures a == a' && b == b' && c == c' && d == d' && m == m'
  {
    CidrParses(a, b, c, d, m);
    CidrParses(a', b', c', d', m');
    ItoaInjective(a, a');
    ItoaInjective(b, b');
    ItoaInjective(c, c');
    ItoaInjective(d, d');
    ItoaInjective(m, m');
  }

  lemma CidrReads(a: nat, b: nat, c: nat, d: nat, m: nat)
    requires IsOctet(d) && m <= 32
    ensures ReadBlock(Cidr(a, b, c, d, m)) == Some(Block(Network(a, b, c), d, Pow2(32 - m)))
  {
    hide Cidr, Atoi, Itoa, Split, IndexOf, Pow2;
    CidrParses(a, b, c, d, m);
    AtoiItoa(m);
    AtoiItoa(d);
  }

  // ------------------------------------------------------------------ any text

  /** Four parts with dots between them, a slash and a rest; no dot or slash in the parts. */
  ghost predicate Dotted(s: string, p: string, q: string, r: string, t: string, m: string) {
    && s == p + "." + q + "." + r + "." + t + "/" + m
    && (forall c :: c in p || c in q || c in r || c in t ==> c != '.' && c != '/')
  }

  /** The last part and the rest are readable numbers, the latter a prefix length. */
  predicate ReadableEnds(t: string, m: string) {
    Atoi(t).ok && Atoi(m).ok && 0 <= Atoi(m).value <= 32
  }

  lemma DottedReads(s: string, p: string, q: string, r: string, t: string, m: string)
    requires Dotted(s, p, q, r, t, m)
    ensures ReadBlock(s) == if ReadableEnds(t, m)
                            then Some(Block(p + "." + q + "." + r + ".", Atoi(t).value, Pow2(32 - Atoi(m).value)))
                            else None
  {
    hide Split, IndexOf, Atoi, Pow2;
    var dotted := p + "." + q + "." + r + "." + t;
    assert s == dotted + ['/'] + m;
    IndexOfFirst(dotted, '/', m);
    assert s[..|dotted|] == dotted && s[|dotted| + 1..] == m;
    DottedSplits(p, q, r, t);
  }

  /**
   What a text of this form expands to: as many texts as the length leaves, counting up from the last part with
   64-bit wrap-around, behind the other three as they are; nothing when an end is unreadable.
   */
  lemma DottedExpands(s: string, p: string, q: string, r: string, t: string, m: string)
    requires Dotted(s, p, q, r, t, m)
    ensures Deconstruct(s).Some? <==> ReadableEnds(t, m)
    ensures ReadableEnds(t, m) ==>
              var ips := Deconstruct(s).value;
              && |ips| == Pow2(32 - Atoi(m).value)
              && forall i :: 0 <= i < |ips| ==>
                               ips[i] == p + "." + q + "." + r + "." + Itoa(Wrap64(Atoi(t).value + i)) + "/32"
  {
    hide ReadBlock, Atoi, Itoa, Wrap64, Pow2, Dotted, Addresses, ReadableEnds;
    DottedReads(s, p, q, r, t, m);
    if ReadableEnds(t, m) {
      var b := ReadBlock(s).value;
      forall i | 0 <= i < b.size ensures Addresses(b, b.size)[i] == Address(b.network, b.host, i) {
        AddressesAt(b, b.size, i);
      }
    }
  }

  /** A text of any other form expands to nothing. */
  lemma OnlyDottedExpands(s: string) returns (p: string, q: string, r: string, t: string, m: string)
    requires Deconstruct(s).Some?
    ensures Dotted(s, p, q, r, t, m)
  {
    hide Split, IndexOf, Atoi, Pow2, Addresses;
    var index := IndexOf(s, '/');
    var addr := Split(s[..index], '.');
    p, q, r, t, m := addr[0], addr[1], addr[2], addr[3], s[index + 1..];
    assert s == s[..index] + ['/'] + m;
    SplitJoins(s[..index], '.');
    FourJoined(addr);
    assert forall k :: 0 <= k < 4 ==> '.' !in addr[k] && forall c :: c in addr[k] ==> c in s[..index];
    assert '/' !in s[..index];
  }

  lemma FourJoined(parts: seq<string>)
    requires |parts| == 4
    ensures Join(parts, '.') == parts[0] + "." + parts[1] + "." + parts[2] + "." + parts[3]
  {
    var three, two := parts[1..], parts[2..];
    assert three[1..] == two && two[1..] == [parts[3]];
    assert Join(two, '.') == parts[2] + ['.'] + parts[3];
    assert Join(three, '.') == parts[1] + ['.'] + (parts[2] + ['.'] + parts[3]);
    DottedText(parts[0], parts[1], parts[2], parts[3]);
  }

  lemma {:induction false} AddressesAt(b: Block, n: nat, i: nat)
    requires i < n
    ensures Addresses(b, n)[i] == Address(b.network, b.host, i)
  {
    if i < n - 1 {
      AddressesAt(b, n - 1, i);
    }
  }

  /** The texts a canonical prefix expands to: they count up from its last octet. */
  ghost predicate CountsUp(ips: seq<string>, a: nat, b: nat, c: nat, d: nat) {
    forall i :: 0 <= i < |ips| ==> ips[i] == Cidr(a, b, c, d + i, 32)
  }

  /** A canonical prefix of length m expands to exactly 2^(32-m) texts, counting up from its last octet. */
  lemma ExpandCanonical(a: nat, b: nat, c: nat, d: nat, m: nat) returns (ips: seq<string>)
    requires IsOctet(d) && m <= 32
    ensures Deconstruct(Cidr(a, b, c, d, m)) == Some(ips)
    ensures |ips| == Pow2(32 - m)
    ensures CountsUp(ips, a, b, c, d)
  {
    hide Cidr, ReadBlock, Addresses, Network;
    CidrReads(a, b, c, d, m);
    var block := Block(Network(a, b, c), d, Pow2(32 - m));
    ips := Addresses(block, block.size);
    Pow2Values();
    Pow2Monotone(32 - m, 32);
    CanonicalAddresses(block, ips, a, b, c, d);
  }

  lemma CanonicalAddresses(block: Block, ips: seq<string>, a: nat, b: nat, c: nat, d: nat)
    requires block.network == Network(a, b, c) && block.host == d && d + block.size <= MAX_INT64
    requires ips == Addresses(block, block.size)
    ensures CountsUp(ips, a, b, c, d)
  {
    forall i | 0 <= i < |ips| ensures ips[i] == Cidr(a, b, c, d + i, 32) {
      AddressesAt(block, block.size, i);
      AddressIsCidr(a, b, c, d, i);
    }
  }

  lemma AddressIsCidr(a: nat, b: nat, c: nat, d: nat, i: nat)
    requires d + i <= MAX_INT64
    ensures Address(Network(a, b, c), d, i) == Cidr(a, b, c, d + i, 32)
  {
    assert Itoa(32) == "32" by {
      assert Digits(3) == "3";
    }
    assert Wrap64(d + i) == d + i;
    var n := Network(a, b, c) + Itoa(d + i);
    assert n + "/32" == n + "/" + "32";
  }

  /** Texts that count up are pairwise distinct. */
  lemma CountsUpNoDup(ips: seq<string>, a: nat, b: nat, c: nat, d: nat)
    requires CountsUp(ips, a, b, c, d)
    ensures NoDup(ips)
  {
    forall i, j | 0 <= i < j < |ips| ensures ips[i] != ips[j] {
      if ips[i] == ips[j] {
        CidrInjective(a, b, c, d + i, 32, a, b, c, d + j, 32);
      }
    }
  }

  ghost predicate IsIPv4Address(s: string) {
    exists a: nat, b: nat, c: nat, d: nat ::
      IsOctet(a) && IsOctet(b) && IsOctet(c) && IsOctet(d) && s == Cidr(a, b, c, d, 32)
  }

  /** Every text of the expansion is an IPv4 address exactly when the block ends inside the last octet. */
  lemma ExpandStaysInOctet(a: nat, b: nat, c: nat, d: nat, m: nat)
    requires IsOctet(a) && IsOctet(b) && IsOctet(c) && IsOctet(d) && m <= 32
    ensures exists ips :: && Deconstruct(Cidr(a, b, c, d, m)) == Some(ips)
                          && ((forall ip :: ip in ips ==> IsIPv4Address(ip)) <==> d + Pow2(32 - m) <= 256)
  {
    var ips := ExpandCanonical(a, b, c, d, m);
    OctetOverflow(ips, a, b, c, d);
  }

  /** A block of at most 256 addresses on its own boundary ends within the octet. */
  lemma AlignedFits(d: nat, k: nat)
    requires IsOctet(d) && k <= 8 && d % Pow2(k) == 0
    ensures d + Pow2(k) <= 256
  {
    Pow2Sum(k, 8 - k);
    Pow2Values();
    hide Pow2;
    NextMultiple(d, Pow2(k), Pow2(8 - k));
  }

  /** A multiple below a multiple leaves room for one more block. */
  lemma NextMultiple(d: nat, size: nat, n: nat)
    requires size > 0 && d % size == 0 && d < size * n
    ensures d + size <= size * n
  {
    var q := d / size;
    assert d == q * size;
    if q >= n {
      MulMonotone(n, q, size);
    } else {
      MulMonotone(q + 1, n, size);
      assert (q + 1) * size == q * size + size;
    }
  }

  /**
   Every aligned prefix of length 24 to 32 expands to exactly its block: 2^(32-m) distinct IPv4 addresses, counting
   up from the last octet.
   */
  lemma AlignedExpands(a: nat, b: nat, c: nat, d: nat, m: nat) returns (ips: seq<string>)
    requires IsOctet(a) && IsOctet(b) && IsOctet(c) && IsOctet(d) && 24 <= m <= 32
    requires d % Pow2(32 - m) == 0
    ensures Deconstruct(Cidr(a, b, c, d, m)) == Some(ips)
    ensures |ips| == Pow2(32 - m) && NoDup(ips) && CountsUp(ips, a, b, c, d)
    ensures forall ip :: ip in ips ==> IsIPv4Address(ip)
  {
    hide Cidr, Deconstruct, CountsUp, IsIPv4Address, Pow2;
    ips := ExpandCanonical(a, b, c, d, m);
    CountsUpNoDup(ips, a, b, c, d);
    AlignedFits(d, 32 - m);
    OctetOverflow(ips, a, b, c, d);
  }

  lemma OctetOverflow(ips: seq<string>, a: nat, b: nat, c: nat, d: nat)
    requires IsOctet(a) && IsOctet(b) && IsOctet(c) && IsOctet(d)
    requires ips != [] && CountsUp(ips, a, b, c, d)
    ensures (forall ip :: ip in ips ==> IsIPv4Address(ip)) <==> d + |ips| <= 256
  {
    var n := |ips|;
    if d + n > 256 {
      var last := ips[n - 1];
      assert last in ips;
      if IsIPv4Address(last) {
        var a': nat, b': nat, c': nat, d': nat :|
          IsOctet(a') && IsOctet(b') && IsOctet(c') && IsOctet(d') && last == Cidr(a', b', c', d', 32);
        CidrInjective(a, b, c, d + n - 1, 32, a', b', c', d', 32);
      }
    } else {
      forall ip | ip in ips ensures IsIPv4Address(ip) {
        var i :| 0 <= i < n && ips[i] == ip;
        assert ip == Cidr(a, b, c, d + i, 32) && IsOctet(d + i);
      }
    }
  }

  /** Two aligned blocks of the same size with an address in common are the same block. */
  lemma AlignedBlocksDisjoint(ips: seq<string>, a: nat, b: nat, c: nat, d: nat,
                              ips': seq<string>, a': nat, b': nat, c': nat, d': nat, ip: string)
    requires CountsUp(ips, a, b, c, d) && CountsUp(ips', a', b', c', d')
    requires |ips| == |ips'| > 0 && d % |ips| == 0 && d' % |ips| == 0
    requires ip in ips && ip in ips'
    ensures a == a' && b == b' && c == c' && d == d'
  {
    hide Cidr;
    var i :| 0 <= i < |ips| && ips[i] == ip;
    var j :| 0 <= j < |ips'| && ips'[j] == ip;
    CidrInjective(a, b, c, d + i, 32, a', b', c', d' + j, 32);
    SameBlock(d, d', i, j, |ips|);
  }

  lemma SameBlock(d: nat, d': nat, i: nat, j: nat, size: nat)
    requires size > 0 && d % size == 0 && d' % size == 0 && i < size && j < size
    requires d + i == d' + j
    ensures d == d'
  {
    var n := d + i;
    assert d == (d / size) * size;
    assert d' == (d' / size) * size;
    QuotientUnique(n, size, d / size, i);
    QuotientUnique(n, size, d' / size, j);
  }

  /** Two different aligned prefixes of one length share no address, whatever the length. */
  lemma PrefixesDisjoint(a: nat, b: nat, c: nat, d: nat, a': nat, b': nat, c': nat, d': nat, m: nat, ip: string)
    requires IsOctet(d) && IsOctet(d') && m <= 32
    requires d % Pow2(32 - m) == 0 && d' % Pow2(32 - m) == 0
    requires Cidr(a, b, c, d, m) != Cidr(a', b', c', d', m)
    ensures exists ips, ips' :: && Deconstruct(Cidr(a, b, c, d, m)) == Some(ips)
                                && Deconstruct(Cidr(a', b', c', d', m)) == Some(ips')
                                && !(ip in ips && ip in ips')
  {
    hide Cidr, Deconstruct, Pow2;
    var ips := ExpandCanonical(a, b, c, d, m);
    var ips' := ExpandCanonical(a', b', c', d', m);
    if ip in ips && ip in ips' {
      AlignedBlocksDisjoint(ips, a, b, c, d, ips', a', b', c', d', ip);
    }
  }

  // ------------------------------------------------------------------ /28 prefixes

  /** A prefix-delegation group: a canonical /28 whose last octet is on a 16-address boundary. */
  ghost predicate IsPrefix28(g: string) {
    exists a: nat, b: nat, c: nat, d: nat ::
      IsOctet(a) && IsOctet(b) && IsOctet(c) && IsOctet(d) && d % 16 == 0 && g == Cidr(a, b, c, d, 28)
  }

  lemma Prefix28Expands(g: string) returns (ips: seq<string>)
    requires IsPrefix28(g)
    ensures Deconstruct(g) == Some(ips)
    ensures |ips| == 16 && NoDup(ips)
    ensures forall ip :: ip in ips ==> IsIPv4Address(ip)
  {
    hide Cidr, Deconstruct, CountsUp, IsIPv4Address, Pow2;
    var a: nat, b: nat, c: nat, d: nat :|
      IsOctet(a) && IsOctet(b) && IsOctet(c) && IsOctet(d) && d % 16 == 0 && g == Cidr(a, b, c, d, 28);
    Pow2Values();
    ips := AlignedExpands(a, b, c, d, 28);
  }

  /** An address belongs to at most one /28. */
  lemma Prefix28sDisjoint(g: string, h: string, ips: seq<string>, ips': seq<string>, ip: string)
    requires IsPrefix28(g) && IsPrefix28(h)
    requires Deconstruct(g) == Some(ips) && Deconstruct(h) == Some(ips')
    requires ip in ips && ip in ips'
    ensures g == h
  {
    hide Cidr, Deconstruct, CountsUp, Pow2;
    var a: nat, b: nat, c: nat, d: nat :|
      IsOctet(a) && IsOctet(b) && IsOctet(c) && IsOctet(d) && d % 16 == 0 && g == Cidr(a, b, c, d, 28);
    var a': nat, b': nat, c': nat, d': nat :|
      IsOctet(a') && IsOctet(b') && IsOctet(c') && IsOctet(d') && d' % 16 == 0 && h == Cidr(a', b', c', d', 28);
    Pow2Values();
    var e := ExpandCanonical(a, b, c, d, 28);
    var e' := ExpandCanonical(a', b', c', d', 28);
    AlignedBlocksDisjoint(ips, a, b, c, d, ips', a', b', c', d', ip);
  }
}
