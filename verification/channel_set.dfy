/**
 * The 32-bit channel set of an IEEE 802.15.4 scan request.
 *
 * A `channel_set` is a `uint32_t` in which bit `c - 1` selects channel `c`,
 * so the channels a set can name are 1 to 32. The header offers two
 * membership macros over it and one constant, the set of the sixteen
 * 2.4 GHz channels 11 to 26 of section 6.1.2 of IEEE 802.15.4-2006.
 *
 * Channel numbers are integers; bit positions are `bv5` values, so that every
 * shift stays inside the word. Facts about single bits are stated once over
 * a bit position (the `...Bit` lemmas) and then lifted to channels.
 */
module ChannelSet {

  /** Lowest and highest channel number a 32-bit set can select. */
  const FirstChannel: int := 1
  const LastChannel: int := 32

  /**
   * A channel number the membership macros are defined for: `BIT(c - 1)`
   * has no meaning for `c < 1`, and a `uint32_t` has no bit past 31.
   */
  predicate ValidChannel(c: int) {
    FirstChannel <= c <= LastChannel
  }

  /** The bit position that selects channel `c`, counted up from channel 1. */
  function Index(c: int): bv5
    requires ValidChannel(c)
  {
    if c == FirstChannel then 0 else Index(c - 1) + 1
  }

  /** The bit position of channel `c` is `c - 1`. */
  lemma {:induction false} IndexValue(c: int)
    requires ValidChannel(c)
    ensures Index(c) as int == c - 1
  {
    if c > FirstChannel {
      IndexValue(c - 1);
    }
  }

  /** Different channels have different bit positions. */
  lemma IndexIsInjective(c: int, d: int)
    requires ValidChannel(c) && ValidChannel(d)
    ensures Index(c) == Index(d) <==> c == d
  {
    IndexValue(c);
    IndexValue(d);
  }

  /** `BIT(n)`: the 32-bit word with only bit `n` set. */
  function Bit(n: bv5): bv32 {
    1 << n
  }

  /** `BIT(c - 1)`: the word that selects channel `c` alone. */
  function ChanBit(c: int): bv32
    requires ValidChannel(c)
  {
    Bit(Index(c))
  }

  /** Bit `i` of `s` is 1: shifted down to position 0, it survives `& 1`. */
  predicate BitIsSet(s: bv32, i: bv5) {
    (s >> i) & 1 != 0
  }

  /** Channel `c` is selected by `s`: bit `c - 1` of `s` is 1. */
  predicate IsChanScanned(s: bv32, c: int)
    requires ValidChannel(c)
  {
    BitIsSet(s, Index(c))
  }

  // Single-bit facts, stated over a bit position.

  lemma MaskedBitIsBitOrZero(s: bv32, i: bv5)
    ensures s & Bit(i) == 0 || s & Bit(i) == Bit(i)
  {
  }

  lemma MaskedBitIsSet(s: bv32, i: bv5)
    ensures s & Bit(i) != 0 <==> BitIsSet(s, i)
  {
  }

  lemma UnionBit(s: bv32, t: bv32, i: bv5)
    ensures BitIsSet(s | t, i) <==> BitIsSet(s, i) || BitIsSet(t, i)
  {
  }

  lemma IntersectionBit(s: bv32, t: bv32, i: bv5)
    ensures BitIsSet(s & t, i) <==> BitIsSet(s, i) && BitIsSet(t, i)
  {
  }

  lemma FlipOtherBitAt(s: bv32, i: bv5, j: bv5)
    requires i != j
    ensures BitIsSet(s ^ Bit(j), i) <==> BitIsSet(s, i)
  {
  }

  lemma FlipOwnBitAt(s: bv32, i: bv5)
    ensures BitIsSet(s ^ Bit(i), i) <==> !BitIsSet(s, i)
  {
  }

  lemma SingleBit(i: bv5, j: bv5)
    ensures BitIsSet(Bit(j), i) <==> i == j
  {
  }

  lemma ZeroHasNoBit(i: bv5)
    ensures !BitIsSet(0, i)
  {
  }

  /** The bits of `IEEE802154_ALL_CHANNELS` are positions 10 to 25. */
  lemma AllChannelsBit(i: bv5)
    ensures BitIsSet(0x03FF_FC00, i) <==> 10 <= i as int <= 25
  {
  }

  // The macros and their properties, per channel.

  /** `s & BIT(c - 1)` is 0 or `BIT(c - 1)`, and non-zero exactly when `c` is selected. */
  lemma ChanMaskedBit(s: bv32, c: int)
    requires ValidChannel(c)
    ensures s & ChanBit(c) == 0 || s & ChanBit(c) == ChanBit(c)
    ensures s & ChanBit(c) != 0 <==> IsChanScanned(s, c)
  {
    ChanMaskedBitIsBitOrZero(s, c);
    ChanMaskedBitIsSet(s, c);
  }

  lemma ChanMaskedBitIsBitOrZero(s: bv32, c: int)
    requires ValidChannel(c)
    ensures s & ChanBit(c) == 0 || s & ChanBit(c) == ChanBit(c)
  {
    MaskedBitIsBitOrZero(s, Index(c));
  }

  lemma ChanMaskedBitIsSet(s: bv32, c: int)
    requires ValidChannel(c)
    ensures s & ChanBit(c) != 0 <==> IsChanScanned(s, c)
  {
    MaskedBitIsSet(s, Index(c));
  }

  /**
   * The value of `IEEE802154_IS_CHAN_SCANNED(s, c)` as the C expression
   * `s & BIT(c - 1)`: either 0 or the channel's own bit, and non-zero
   * exactly when bit `c - 1` of `s` is 1.
   */
  function ChanScannedValue(s: bv32, c: int): (r: bv32)
    requires ValidChannel(c)
    ensures r == 0 || r == ChanBit(c)
    ensures r != 0 <==> IsChanScanned(s, c)
  {
    ChanMaskedBit(s, c);
    s & ChanBit(c)
  }

  /**
   * The value of `IEEE802154_IS_CHAN_UNSCANNED(s, c)`, the C expression
   * `!(s & BIT(c - 1))`: 1 when the scanned value is 0, and 0 otherwise.
   */
  function ChanUnscannedValue(s: bv32, c: int): (r: int)
    requires ValidChannel(c)
    ensures r == 0 || r == 1
    ensures r != 0 <==> !IsChanScanned(s, c)
  {
    if ChanScannedValue(s, c) == 0 then 1 else 0
  }

  /** `IEEE802154_IS_CHAN_UNSCANNED(s, c)` is true in C: channel `c` is not selected. */
  predicate IsChanUnscanned(s: bv32, c: int)
    requires ValidChannel(c)
  {
    ChanUnscannedValue(s, c) != 0
  }

  /**
   * Exactly one of the two macros is true in C, for every set and channel:
   * the second is the negation of the first.
   */
  lemma UnscannedIsNegation(s: bv32, c: int)
    requires ValidChannel(c)
    ensures (ChanUnscannedValue(s, c) != 0) <==> !(ChanScannedValue(s, c) != 0)
    ensures IsChanUnscanned(s, c) <==> !IsChanScanned(s, c)
  {
  }

  /** Channel `c` reads only bit `c - 1`: sets that agree there agree on `c`. */
  lemma ScannedReadsOnlyItsBit(s: bv32, t: bv32, c: int)
    requires ValidChannel(c)
    requires s & ChanBit(c) == t & ChanBit(c)
    ensures IsChanScanned(s, c) <==> IsChanScanned(t, c)
  {
    ChanMaskedBit(s, c);
    ChanMaskedBit(t, c);
  }

  /** Flipping any bit other than `c - 1` leaves the answer for `c` unchanged. */
  lemma FlipOtherBit(s: bv32, c: int, j: bv5)
    requires ValidChannel(c)
    requires j as int != c - 1
    ensures IsChanScanned(s ^ Bit(j), c) <==> IsChanScanned(s, c)
  {
    IndexValue(c);
    FlipOtherBitAt(s, Index(c), j);
  }

  /** Flipping bit `c - 1` itself flips the answer for `c`. */
  lemma FlipOwnBit(s: bv32, c: int)
    requires ValidChannel(c)
    ensures IsChanScanned(s ^ ChanBit(c), c) <==> !IsChanScanned(s, c)
  {
    FlipOwnBitAt(s, Index(c));
  }

  /** A channel is selected by a union of sets when it is selected by either. */
  lemma ScannedInUnion(s: bv32, t: bv32, c: int)
    requires ValidChannel(c)
    ensures IsChanScanned(s | t, c) <==> IsChanScanned(s, c) || IsChanScanned(t, c)
  {
    UnionBit(s, t, Index(c));
  }

  /** Channel `c` is selected by `BIT(d - 1)` exactly when `c` is `d`. */
  lemma ScannedInSingleton(d: int, c: int)
    requires ValidChannel(c) && ValidChannel(d)
    ensures IsChanScanned(ChanBit(d), c) <==> c == d
  {
    SingleBit(Index(c), Index(d));
    IndexIsInjective(c, d);
  }

  /**
   * The macro's arguments are not parenthesised, so C's `&` binds tighter
   * than an operator inside the set argument. The text
   * `IEEE802154_IS_CHAN_SCANNED(s | t, c)` expands to `(s | t & BIT(c - 1))`,
   * which C reads as `s | (t & BIT(c - 1))`: it is non-zero whenever `s` is.
   */
  function ScannedOfUnionAsWritten(s: bv32, t: bv32, c: int): (r: bv32)
    requires ValidChannel(c)
    ensures s != 0 ==> r != 0
  {
    s | (t & ChanBit(c))
  }

  /**
   * Channel 2 is not in the set `1 | 0`, yet the expanded macro reports it
   * as scanned.
   */
  lemma UnionPrecedenceCounterexample()
    ensures ScannedOfUnionAsWritten(1, 0, 2) != 0
    ensures !IsChanScanned(1 | 0, 2)
  {
    assert Index(2) == 1;
  }

  /**
   * The macro with its arguments parenthesised, `((s | t) & BIT((c) - 1))`:
   * non-zero exactly when channel `c` is selected by `s` or by `t`.
   */
  function ScannedOfUnion(s: bv32, t: bv32, c: int): (r: bv32)
    requires ValidChannel(c)
    ensures r == 0 || r == ChanBit(c)
    ensures r != 0 <==> IsChanScanned(s, c) || IsChanScanned(t, c)
  {
    ScannedInUnion(s, t, c);
    ChanScannedValue(s | t, c)
  }

  /** The empty set selects no channel. */
  lemma NothingScannedInZero(c: int)
    requires ValidChannel(c)
    ensures !IsChanScanned(0, c)
  {
    ZeroHasNoBit(Index(c));
  }

  /** Two sets select the same channels. */
  ghost predicate SameChannels(s: bv32, t: bv32) {
    forall c :: ValidChannel(c) ==> (IsChanScanned(s, c) <==> IsChanScanned(t, c))
  }

  /** Every bit position is the position of some channel. */
  lemma IndexOfPosition(i: bv5)
    ensures ValidChannel(i as int + 1)
    ensures Index(i as int + 1) == i
  {
    IndexValue(i as int + 1);
  }

  /** A 32-bit word is determined by its bits 0 to 31. */
  lemma BitsDetermineWord(s: bv32, t: bv32)
    requires BitIsSet(s, 0) == BitIsSet(t, 0)
    requires BitIsSet(s, 1) == BitIsSet(t, 1)
    requires BitIsSet(s, 2) == BitIsSet(t, 2)
    requires BitIsSet(s, 3) == BitIsSet(t, 3)
    requires BitIsSet(s, 4) == BitIsSet(t, 4)
    requires BitIsSet(s, 5) == BitIsSet(t, 5)
    requires BitIsSet(s, 6) == BitIsSet(t, 6)
    requires BitIsSet(s, 7) == BitIsSet(t, 7)
    requires BitIsSet(s, 8) == BitIsSet(t, 8)
    requires BitIsSet(s, 9) == BitIsSet(t, 9)
    requires BitIsSet(s, 10) == BitIsSet(t, 10)
    requires BitIsSet(s, 11) == BitIsSet(t, 11)
    requires BitIsSet(s, 12) == BitIsSet(t, 12)
    requires BitIsSet(s, 13) == BitIsSet(t, 13)
    requires BitIsSet(s, 14) == BitIsSet(t, 14)
    requires BitIsSet(s, 15) == BitIsSet(t, 15)
    requires BitIsSet(s, 16) == BitIsSet(t, 16)
    requires BitIsSet(s, 17) == BitIsSet(t, 17)
    requires BitIsSet(s, 18) == BitIsSet(t, 18)
    requires BitIsSet(s, 19) == BitIsSet(t, 19)
    requires BitIsSet(s, 20) == BitIsSet(t, 20)
    requires BitIsSet(s, 21) == BitIsSet(t, 21)
    requires BitIsSet(s, 22) == BitIsSet(t, 22)
    requires BitIsSet(s, 23) == BitIsSet(t, 23)
    requires BitIsSet(s, 24) == BitIsSet(t, 24)
    requires BitIsSet(s, 25) == BitIsSet(t, 25)
    requires BitIsSet(s, 26) == BitIsSet(t, 26)
    requires BitIsSet(s, 27) == BitIsSet(t, 27)
    requires BitIsSet(s, 28) == BitIsSet(t, 28)
    requires BitIsSet(s, 29) == BitIsSet(t, 29)
    requires BitIsSet(s, 30) == BitIsSet(t, 30)
    requires BitIsSet(s, 31) == BitIsSet(t, 31)
    ensures s == t
  {
  }

  /**
   * A channel set is determined by the channels it selects: two words that
   * agree on every channel 1 to 32 are the same word.
   */
  lemma SameChannelsIsEqual(s: bv32, t: bv32)
    requires SameChannels(s, t)
    ensures s == t
  {
    forall i: bv5
      ensures BitIsSet(s, i) == BitIsSet(t, i)
    {
      IndexOfPosition(i);
      assert IsChanScanned(s, i as int + 1) == IsChanScanned(t, i as int + 1);
    }
    BitsDetermineWord(s, t);
  }

  /**
   * The OR of `BIT(c - 1)` for `c` from `lo` to `hi`: the set that selects
   * exactly the channels of that range.
   */
  function RangeMask(lo: int, hi: int): (r: bv32)
    requires ValidChannel(lo) && hi <= LastChannel
    ensures forall c :: ValidChannel(c) ==> (IsChanScanned(r, c) <==> lo <= c <= hi)
    decreases hi
  {
    if hi < lo then
      assert forall c :: ValidChannel(c) ==> !IsChanScanned(0, c) by {
        forall c | ValidChannel(c)
          ensures !IsChanScanned(0, c)
        {
          NothingScannedInZero(c);
        }
      }
      0
    else
      var rest := RangeMask(lo, hi - 1);
      assert forall c :: ValidChannel(c) ==> (IsChanScanned(rest | ChanBit(hi), c) <==> lo <= c <= hi) by {
        forall c | ValidChannel(c)
          ensures IsChanScanned(rest | ChanBit(hi), c) <==> lo <= c <= hi
        {
          ScannedInUnion(rest, ChanBit(hi), c);
          ScannedInSingleton(hi, c);
        }
      }
      rest | ChanBit(hi)
  }

  /** `IEEE802154_ALL_CHANNELS`: documented as channels 11 to 26 included. */
  const AllChannels: bv32 := 0x03FF_FC00

  /** The 2.4 GHz band of IEEE 802.15.4-2006, section 6.1.2. */
  const BandFirst: int := 11
  const BandLast: int := 26

  /** A channel of the 2.4 GHz band. */
  predicate InBand(c: int) {
    BandFirst <= c <= BandLast
  }

  /** `IEEE802154_ALL_CHANNELS` selects channel `c` exactly when `c` is in 11..26. */
  lemma AllChannelsSelectsBand(c: int)
    requires ValidChannel(c)
    ensures IsChanScanned(AllChannels, c) <==> InBand(c)
    ensures IsChanUnscanned(AllChannels, c) <==> (c < BandFirst || BandLast < c)
  {
    IndexValue(c);
    AllChannelsBit(Index(c));
  }

  /** `IEEE802154_ALL_CHANNELS` is the OR of `BIT(c - 1)` for `c` from 11 to 26. */
  lemma AllChannelsIsBandMask()
    ensures AllChannels == RangeMask(BandFirst, BandLast)
  {
    forall c | ValidChannel(c)
      ensures IsChanScanned(AllChannels, c) <==> IsChanScanned(RangeMask(BandFirst, BandLast), c)
    {
      AllChannelsSelectsBand(c);
    }
    SameChannelsIsEqual(AllChannels, RangeMask(BandFirst, BandLast));
  }

  /** Masking a set with `IEEE802154_ALL_CHANNELS` keeps exactly its in-band channels. */
  lemma MaskWithAllChannels(s: bv32, c: int)
    requires ValidChannel(c)
    ensures IsChanScanned(s & AllChannels, c) <==> IsChanScanned(s, c) && InBand(c)
  {
    IntersectionBit(s, AllChannels, Index(c));
    AllChannelsSelectsBand(c);
  }

  /** Every element of `cs` is a channel number a set can hold. */
  predicate AllValid(cs: seq<int>) {
    forall i :: 0 <= i < |cs| ==> ValidChannel(cs[i])
  }

  /** The set that selects exactly the channels listed in `cs`. */
  function FromChannels(cs: seq<int>): (r: bv32)
    requires AllValid(cs)
    ensures forall c :: ValidChannel(c) ==> (IsChanScanned(r, c) <==> c in cs)
  {
    if cs == [] then 0
    else
      var rest := FromChannels(cs[1..]);
      assert cs == [cs[0]] + cs[1..];
      assert forall c :: ValidChannel(c) ==> (IsChanScanned(ChanBit(cs[0]) | rest, c) <==> c in cs) by {
        forall c | ValidChannel(c)
          ensures IsChanScanned(ChanBit(cs[0]) | rest, c) <==> c in cs
        {
          ScannedInUnion(ChanBit(cs[0]), rest, c);
          ScannedInSingleton(cs[0], c);
        }
      }
      ChanBit(cs[0]) | rest
  }

  /** `cs` lists its elements in strictly ascending order. */
  predicate Ascending(cs: seq<int>) {
    forall i, j :: 0 <= i < j < |cs| ==> cs[i] < cs[j]
  }

  /** The channels from `lo` to 32 that `s` selects, in ascending order. */
  function ChannelsFrom(s: bv32, lo: int): (cs: seq<int>)
    requires FirstChannel <= lo <= LastChannel + 1
    ensures forall i :: 0 <= i < |cs| ==> lo <= cs[i] <= LastChannel && IsChanScanned(s, cs[i])
    ensures forall c :: lo <= c <= LastChannel && IsChanScanned(s, c) ==> c in cs
    ensures Ascending(cs)
    decreases LastChannel + 1 - lo
  {
    if lo > LastChannel then []
    else if IsChanScanned(s, lo) then [lo] + ChannelsFrom(s, lo + 1)
    else ChannelsFrom(s, lo + 1)
  }

  /** The channels `s` selects, in ascending order and without repetition. */
  function Members(s: bv32): (cs: seq<int>)
    ensures AllValid(cs) && Ascending(cs)
    ensures forall c :: ValidChannel(c) ==> (c in cs <==> IsChanScanned(s, c))
  {
    ChannelsFrom(s, FirstChannel)
  }

  /** Listing the channels of a set and OR-ing their bits gives back the set. */
  lemma MembersRoundTrip(s: bv32)
    ensures FromChannels(Members(s)) == s
  {
    SameChannelsIsEqual(FromChannels(Members(s)), s);
  }

  /** The head of a non-empty ascending list is below every later element. */
  lemma HeadIsLeast(a: seq<int>, x: int)
    requires Ascending(a) && a != []
    requires x in a[1..]
    ensures a[0] < x
  {
    var k :| 1 <= k < |a| && a[k] == x;
  }

  /** The head of a non-empty ascending list is its least element. */
  lemma HeadIsMin(a: seq<int>, x: int)
    requires Ascending(a)
    requires x in a
    ensures a[0] <= x
  {
    var k :| 0 <= k < |a| && a[k] == x;
    if k > 0 {
      assert a[0] < a[k];
    }
  }

  /** Two ascending lists with the same elements are the same list. */
  lemma {:induction false} AscendingUnique(a: seq<int>, b: seq<int>)
    requires Ascending(a) && Ascending(b)
    requires forall x :: x in a <==> x in b
    ensures a == b
    decreases |a|
  {
    if a != [] {
      assert a[0] in a;
    }
    if b != [] {
      assert b[0] in b;
    }
    if a != [] {
      assert a == [a[0]] + a[1..] && b == [b[0]] + b[1..];
      HeadIsMin(b, a[0]);
      HeadIsMin(a, b[0]);
      forall x
        ensures x in a[1..] <==> x in b[1..]
      {
        if x in a[1..] {
          HeadIsLeast(a, x);
          assert x in a && x != b[0];
        }
        if x in b[1..] {
          HeadIsLeast(b, x);
          assert x in b && x != a[0];
        }
      }
      AscendingUnique(a[1..], b[1..]);
    }
  }

  /** The set built from a list of channels lists exactly the channels of the list. */
  lemma FromChannelsMembers(cs: seq<int>)
    requires AllValid(cs)
    ensures forall x :: x in Members(FromChannels(cs)) <==> x in cs
  {
    var ms := Members(FromChannels(cs));
    forall x
      ensures x in ms <==> x in cs
    {
      if x in cs {
        var i :| 0 <= i < |cs| && cs[i] == x;
        assert ValidChannel(cs[i]);
      }
    }
  }

  /**
   * Building a set from an ascending list of channels and listing its
   * channels gives back the list.
   */
  lemma FromChannelsRoundTrip(cs: seq<int>)
    requires AllValid(cs) && Ascending(cs)
    ensures Members(FromChannels(cs)) == cs
  {
    var ms := Members(FromChannels(cs));
    assert AllValid(ms) && Ascending(ms);
    FromChannelsMembers(cs);
    AscendingUnique(ms, cs);
  }

  /** The channel numbers `lo`, `lo + 1`, ..., `hi`, in ascending order. */
  function ChannelRange(lo: int, hi: int): (cs: seq<int>)
    ensures forall x :: x in cs <==> lo <= x <= hi
    ensures Ascending(cs)
    ensures |cs| == if lo <= hi then hi - lo + 1 else 0
    decreases hi - lo
  {
    if hi < lo then []
    else
      var rest := ChannelRange(lo + 1, hi);
      assert forall j :: 0 <= j < |rest| ==> lo < rest[j] by {
        forall j | 0 <= j < |rest|
          ensures lo < rest[j]
        {
          assert rest[j] in rest;
        }
      }
      [lo] + rest
  }

  /** `IEEE802154_ALL_CHANNELS` lists the sixteen channels 11, 12, ..., 26. */
  lemma AllChannelsMembers()
    ensures Members(AllChannels) == ChannelRange(BandFirst, BandLast)
    ensures |Members(AllChannels)| == 16
  {
    var band := ChannelRange(BandFirst, BandLast);
    var ms := Members(AllChannels);
    forall x
      ensures x in ms <==> x in band
    {
      if ValidChannel(x) {
        AllChannelsSelectsBand(x);
      }
    }
    AscendingUnique(ms, band);
  }
}
