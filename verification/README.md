# IEEE 802.15.4 L2 header: channel sets, management commands and records

This project models the public header of the IEEE 802.15.4 L2 stack,
`include/net/ieee802154.h`, in Dafny and proves properties of the model.

- **Channel sets** (`channel_set.dfy`, module `ChannelSet`). A scan request
  names its channels as a 32-bit `channel_set`: bit `c - 1` selects channel
  `c`. The module models the two membership macros
  `IEEE802154_IS_CHAN_SCANNED` and `IEEE802154_IS_CHAN_UNSCANNED` as the C
  values they compute, over `bv32`. It also models the constant
  `IEEE802154_ALL_CHANNELS`. It proves:
  - the macros read exactly bit `c - 1`, and nothing else;
  - the second macro is the negation of the first;
  - a set is determined by the channels it selects;
  - `0x03FFFC00` selects exactly channels 11 to 26, the 2.4 GHz channels of
    section 6.1.2 of IEEE 802.15.4-2006.

  Channel numbers are integers. A channel must lie in 1 to 32, since
  `BIT(c - 1)` has no meaning below 1 and the word has 32 bits.
- **Management commands** (`management.dfy`, module `Management`). These
  are the request enumerators `SET_ACK` to `DISASSOCIATE` and the event
  enumerator `SCAN_RESULT`, with their C numbering. The numbering is
  decoded back and proved consecutive and injective.
- **Records** (`records.dfy`, module `Records`). These are
  `ieee802154_req_params` and the data fields of `ieee802154_context`, with
  every integer bounded by its C width. The address union and its length
  byte become a tagged `Address` (short or extended). A C-shaped
  `RawAddress` is related to it by a round trip.
- `options.dfy` (module `Options`) holds the `Option` type used for decoders
  that can fail.

## Model

| member | source | states |
|---|---|---|
| ChannelSet.IndexValue | include/net/ieee802154.h:119-120 | the bit that `BIT(chan - 1)` selects for channel `c` is bit `c - 1` |
| ChannelSet.IndexIsInjective | include/net/ieee802154.h:119-120 | two channels use the same bit only when they are the same channel |
| ChannelSet.ChanScannedValue | include/net/ieee802154.h:119-120 | `IS_CHAN_SCANNED(s, c)` is 0 or `BIT(c - 1)`, and non-zero exactly when bit `c - 1` of `s` is 1 |
| ChannelSet.ChanUnscannedValue | include/net/ieee802154.h:121-122 | `IS_CHAN_UNSCANNED(s, c)` is 0 or 1, and non-zero exactly when channel `c` is not selected |
| ChannelSet.UnscannedIsNegation | include/net/ieee802154.h:121-122 | for every set and channel, `IS_CHAN_UNSCANNED` is true exactly when `IS_CHAN_SCANNED` is false |
| ChannelSet.ScannedReadsOnlyItsBit | include/net/ieee802154.h:119-120 | two sets that agree on bit `c - 1` give the same answer for channel `c` |
| ChannelSet.FlipOtherBit | include/net/ieee802154.h:119-120 | flipping any bit other than `c - 1` does not change whether `c` is scanned |
| ChannelSet.FlipOwnBit | include/net/ieee802154.h:119-120 | flipping bit `c - 1` flips whether `c` is scanned |
| ChannelSet.ScannedInUnion | include/net/ieee802154.h:119-120 | for the set value that is the OR of `s` and `t`, a channel is scanned exactly when it is scanned in `s` or in `t` |
| ChannelSet.ScannedInSingleton | include/net/ieee802154.h:119-120 | `BIT(d - 1)` selects channel `d` and no other |
| ChannelSet.ScannedOfUnionAsWritten | include/net/ieee802154.h:119-120 | the macro text applied to the expression `s OR t` expands to `s OR (t & BIT(c - 1))`, which is non-zero whenever `s` is, whatever the channel |
| ChannelSet.UnionPrecedenceCounterexample | include/net/ieee802154.h:119-120 | for the set `1 OR 0` and channel 2, the expanded macro is non-zero although channel 2 is not in the set |
| ChannelSet.ScannedOfUnion | include/net/ieee802154.h:119-120 | with its arguments parenthesised, the macro applied to `s OR t` is non-zero exactly when channel `c` is selected by `s` or by `t` |
| ChannelSet.NothingScannedInZero | include/net/ieee802154.h:119-120 | the empty set selects no channel |
| ChannelSet.SameChannelsIsEqual | include/net/ieee802154.h:135-136 | two 32-bit channel sets that select the same channels are equal |
| ChannelSet.RangeMask | include/net/ieee802154.h:124-127 | the OR of `BIT(c - 1)` for `c` from `lo` to `hi` selects exactly the channels `lo` to `hi` |
| ChannelSet.AllChannelsSelectsBand | include/net/ieee802154.h:124-127 | `IEEE802154_ALL_CHANNELS` marks every channel 11 to 26 scanned and every channel 1 to 10 and 27 to 32 unscanned |
| ChannelSet.AllChannelsIsBandMask | include/net/ieee802154.h:127 | `0x03FFFC00` equals the OR of `BIT(c - 1)` for `c` from 11 to 26 |
| ChannelSet.MaskWithAllChannels | include/net/ieee802154.h:119-127 | `s & IEEE802154_ALL_CHANNELS` keeps exactly the channels of `s` that lie in 11 to 26 |
| ChannelSet.FromChannels | include/net/ieee802154.h:135-136 | the set built from a list of channels selects exactly the listed channels |
| ChannelSet.ChannelsFrom | include/net/ieee802154.h:135-136 | lists, in ascending order, every channel from `lo` to 32 that the set selects, and only those |
| ChannelSet.Members | include/net/ieee802154.h:135-136 | lists the selected channels in ascending order, each once: a channel is listed exactly when it is scanned |
| ChannelSet.MembersRoundTrip | include/net/ieee802154.h:135-136 | building a set from its listed channels gives back the set |
| ChannelSet.FromChannelsMembers | include/net/ieee802154.h:135-136 | the channels listed for a set built from a list are exactly the channels of the list |
| ChannelSet.FromChannelsRoundTrip | include/net/ieee802154.h:135-136 | listing the channels of a set built from an ascending list gives back the list |
| ChannelSet.ChannelRange | include/net/ieee802154.h:124-126 | the ascending list `lo, ..., hi`: exactly the numbers of that range, `hi - lo + 1` of them |
| ChannelSet.AllChannelsMembers | include/net/ieee802154.h:124-127 | the channels of `IEEE802154_ALL_CHANNELS` are 11, 12, ..., 26: sixteen channels |
| Management.RequestCode | include/net/ieee802154.h:63-71 | each request command's number is 1 plus its place in the declaration order, so it lies in 1 to 7 |
| Management.RequestFromCode | include/net/ieee802154.h:63-71 | a number names a request command exactly when it lies in 1 to 7, and then that command has this number |
| Management.RequestCodesAreConsecutive | include/net/ieee802154.h:63-71 | the i-th declared request command has number `1 + i` |
| Management.RequestIndexIsUnique | include/net/ieee802154.h:63-71 | no request command is declared twice |
| Management.RequestCodeIsInjective | include/net/ieee802154.h:63-71 | two request commands have the same number exactly when they are the same command |
| Management.RequestCodeRoundTrip | include/net/ieee802154.h:63-71 | decoding a command's number gives back the command |
| Management.EventCode | include/net/ieee802154.h:110-112 | the event command's number is 1 plus its place in the declaration order |
| Management.EventFromCode | include/net/ieee802154.h:110-112 | a number names an event command exactly when it is 1 |
| Management.EventCodeRoundTrip | include/net/ieee802154.h:110-112 | decoding `SCAN_RESULT`'s number gives back `SCAN_RESULT` |
| Records.AddrLength | include/net/ieee802154.h:27 | the length of a well-formed address never exceeds `IEEE802154_MAX_ADDR_LENGTH` = 8, and it is 2 exactly for a short address |
| Records.ToRaw | include/net/ieee802154.h:147-153 | an address stored in the C-shaped union has an 8-byte array and a length byte equal to the address's length |
| Records.FromRaw | include/net/ieee802154.h:147-153 | a C-shaped address is read exactly when its length byte is 2 or 8, and the result is well formed with that length |
| Records.AddressRoundTrip | include/net/ieee802154.h:147-153 | storing an address in the two-field C shape and reading it back gives the address |
| Records.RawAddressRoundTrip | include/net/ieee802154.h:147-153 | re-storing an address read from C shape gives back the length byte and the union member it selects |
| Records.ReqParamsLen | include/net/ieee802154.h:152-153 | the `len` of a well-formed scan record is at most 8, and is 2 exactly for a short address |
| Records.WithResult | include/net/ieee802154.h:129-156 | reusing a request record for a result replaces the result fields and keeps the channel set and the duration |
| Records.CoordAddrLen | include/net/ieee802154.h:40-44 | the `coord_addr_len` of a well-formed context is at most 8, and is 2 exactly for a short coordinator address |

## Left out

- ChannelSet.ChanScannedValue: the macros are modelled as functions of the values of their arguments. In C they are text substitutions whose arguments are not parenthesised, so an argument that is itself an expression with an operator binding looser than `&` or `-` changes the meaning. For example, `IEEE802154_IS_CHAN_SCANNED(s | t, c)` computes `s | (t & BIT(c - 1))`, and `IEEE802154_IS_CHAN_SCANNED(s, x ? 11 : 26)` shifts by `x ? 11 : 25`. The same holds for `ChanUnscannedValue`, `ScannedReadsOnlyItsBit`, `FlipOtherBit`, `FlipOwnBit` and `ScannedInUnion`: they are about the macros applied to already computed values. The gap for a union argument is recorded under Findings.
- Records.Context: the model is of the build with `CONFIG_NET_L2_IEEE802154_MGMT` enabled. Without that option the context has no `coord`, no `coord_addr_len`, no `scan_ctx` and no lock union, and `CoordAddrLen` has no counterpart.
- The semaphores `ack_lock`, `res_lock` and `req_lock`, and the `scan_ctx` field. They coordinate scanning, association and the ACK wait, whose code is not part of this model. Their point is concurrency.
- The scan and association procedures, cancellation and the ACK handshake. The header only declares the fields they use.
- The request and event codes as composed with `_NET_IEEE802154_BASE` and `_NET_IEEE802154_EVENT`. These depend on the `NET_MGMT_*` macros of `net/net_mgmt.h`, which is not part of this model. Only the command numbers are modelled.
- The `NET_MGMT_DEFINE_REQUEST_HANDLER` registrations. They name handlers whose bodies are not part of this model.
- The `__packed` byte layout, the order of the bitfields (`ack_received`, `ack_requested`, `associated`, `_unused`) and union type-punning of `short_addr` over the address bytes. All three depend on the compiler and the byte order. The flags are booleans, and the union's two members are named fields.
- Radio I/O and frame encoding. Neither is present in the header.
- Records.FromRaw: the header does not say how the length byte picks the union member. The model reads length 2 as a short address and length 8 as an extended one, and refuses other lengths.
- Records.ValidAddress: an extended address is taken to be exactly 8 bytes (the 64-bit address of IEEE 802.15.4). The header's `len` alone would allow any length up to 8.
- Records.ToRaw: in C the two union members overlap, so `short_addr` is the first two bytes of `addr`. Storing an extended address overwrites `short_addr`, and storing a short address overwrites `addr[0]` and `addr[1]` and leaves the other six bytes as they were. The model keeps the two members as separate fields (see the type-punning line above), and `ToRaw` fills the member the address does not use with zeros.

## Findings

| source | as written | input that shows it | evidently intended | confidence | as-written member | corrected member |
|---|---|---|---|---|---|---|
| include/net/ieee802154.h:119-120 | `(_channel_set & BIT(_chan - 1))` with the arguments unparenthesised, so the set argument `s OR t` expands to `s OR (t & BIT(c - 1))` | set `1 OR 0`, channel 2: the expansion is 1, non-zero, but bit 1 of the set is 0 | `((_channel_set) & BIT((_chan) - 1))`: non-zero exactly when channel `c` is in the set value | high; not executed | ChannelSet.ScannedOfUnionAsWritten, ChannelSet.UnionPrecedenceCounterexample | ChannelSet.ScannedOfUnion |
