/**
 * The plain data records of the IEEE 802.15.4 L2 header: the scan
 * request/result parameters `ieee802154_req_params` and the data fields of
 * the per-interface `ieee802154_context`.
 *
 * Every integer field is bounded by its declared C width. The address union
 * with its separate length field becomes a tagged `Address`, whose length is
 * derived from its form. `RawAddress` holds the two members of the union,
 * kept as separate fields, and the length byte, so that the two views can
 * be related.
 */
module Records {

  import opened Options

  /** `uint8_t`, `uint16_t` and `uint32_t` values. */
  type U8 = x: int | 0 <= x < 0x100
  type U16 = x: int | 0 <= x < 0x1_0000
  type U32 = x: int | 0 <= x < 0x1_0000_0000

  /** `IEEE802154_MAX_ADDR_LENGTH`: the bytes of the address storage. */
  const MaxAddrLength: int := 8

  /** A short address is one `uint16_t`: two bytes. */
  const ShortAddrLength: int := 2

  /**
   * A link-layer address: a 16-bit short address or a 64-bit extended
   * address, given as its bytes.
   */
  datatype Address = Short(shortAddr: U16) | Extended(extAddr: seq<U8>)

  /** An extended address has exactly the eight bytes of the storage. */
  predicate ValidAddress(a: Address) {
    a.Extended? ==> |a.extAddr| == MaxAddrLength
  }

  /**
   * The value of the length field (`len`, `coord_addr_len`) for `a`: it
   * never exceeds the storage, and it tells the two forms apart.
   */
  function AddrLength(a: Address): (n: U8)
    requires ValidAddress(a)
    ensures n <= MaxAddrLength
    ensures n == ShortAddrLength <==> a.Short?
  {
    match a
    case Short(_) => ShortAddrLength
    case Extended(bytes) => |bytes|
  }

  /**
   * The address part of a record in its C shape: the two members of the
   * union, the byte array `addr[IEEE802154_MAX_ADDR_LENGTH]` and
   * `short_addr`, kept as separate fields, with the length byte that says
   * which of the two holds the address. In C the two members overlap.
   */
  datatype RawAddress = RawAddress(extAddr: seq<U8>, shortAddr: U16, len: U8)

  /** The byte array has the size it is declared with. */
  predicate ValidRawAddress(r: RawAddress) {
    |r.extAddr| == MaxAddrLength
  }

  /**
   * The C shape of `a`: its length byte and the member of the union it
   * uses. The member it does not use is left at zero.
   */
  function ToRaw(a: Address): (r: RawAddress)
    requires ValidAddress(a)
    ensures ValidRawAddress(r)
    ensures r.len == AddrLength(a)
  {
    match a
    case Short(s) => RawAddress(seq(MaxAddrLength, _ => 0), s, ShortAddrLength)
    case Extended(bytes) => RawAddress(bytes, 0, MaxAddrLength)
  }

  /**
   * The address a C-shaped record holds, or `None` when its length byte is
   * neither the short nor the extended length.
   */
  function FromRaw(r: RawAddress): (a: Option<Address>)
    requires ValidRawAddress(r)
    ensures a.Some? <==> r.len == ShortAddrLength || r.len == MaxAddrLength
    ensures a.Some? ==> ValidAddress(a.value) && AddrLength(a.value) == r.len
  {
    if r.len == ShortAddrLength then Some(Short(r.shortAddr))
    else if r.len == MaxAddrLength then Some(Extended(r.extAddr))
    else None
  }

  /** Reading back the C shape of an address gives the address. */
  lemma AddressRoundTrip(a: Address)
    requires ValidAddress(a)
    ensures FromRaw(ToRaw(a)) == Some(a)
  {
  }

  /**
   * A C-shaped record that holds an address is rebuilt from that address,
   * up to the union member the length byte does not select.
   */
  lemma RawAddressRoundTrip(r: RawAddress)
    requires ValidRawAddress(r)
    requires FromRaw(r).Some?
    ensures ToRaw(FromRaw(r).value).len == r.len
    ensures r.len == ShortAddrLength ==> ToRaw(FromRaw(r).value).shortAddr == r.shortAddr
    ensures r.len == MaxAddrLength ==> ToRaw(FromRaw(r).value).extAddr == r.extAddr
  {
  }

  /**
   * `struct ieee802154_req_params`: the channels to scan and the time per
   * channel, and, as a result, the channel, PAN and coordinator address
   * found and the link quality measured.
   */
  datatype ReqParams = ReqParams(
    channelSet: bv32,
    duration: U32,
    channel: U16,
    panId: U16,
    addr: Address,
    lqi: U8)

  predicate ValidReqParams(p: ReqParams) {
    ValidAddress(p.addr)
  }

  /** The `len` field of a well-formed record: at most eight. */
  function ReqParamsLen(p: ReqParams): (len: U8)
    requires ValidReqParams(p)
    ensures len <= MaxAddrLength
    ensures len == ShortAddrLength <==> p.addr.Short?
  {
    AddrLength(p.addr)
  }

  /**
   * The same record reused to return one result: the found channel, PAN,
   * coordinator address and link quality replace the result fields, and
   * the request fields are unchanged.
   */
  function WithResult(p: ReqParams, channel: U16, panId: U16, addr: Address, lqi: U8): (q: ReqParams)
    requires ValidAddress(addr)
    ensures ValidReqParams(q)
    ensures q.channelSet == p.channelSet && q.duration == p.duration
    ensures q.channel == channel && q.panId == panId && q.addr == addr && q.lqi == lqi
    ensures ReqParamsLen(q) == AddrLength(addr)
  {
    p.(channel := channel, panId := panId, addr := addr, lqi := lqi)
  }

  /**
   * The data fields of `struct ieee802154_context`: the PAN and channel in
   * use, the coordinator address, the frame sequence number and the three
   * one-bit flags. The semaphores and `scan_ctx` are not data.
   */
  datatype Context = Context(
    panId: U16,
    channel: U16,
    coord: Address,
    sequence: U8,
    ackReceived: bool,
    ackRequested: bool,
    associated: bool)

  predicate ValidContext(ctx: Context) {
    ValidAddress(ctx.coord)
  }

  /** The `coord_addr_len` field of a well-formed context: at most eight. */
  function CoordAddrLen(ctx: Context): (len: U8)
    requires ValidContext(ctx)
    ensures len <= MaxAddrLength
    ensures len == ShortAddrLength <==> ctx.coord.Short?
  {
    AddrLength(ctx.coord)
  }
}
