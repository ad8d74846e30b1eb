/** The standard requests of usb.c, shared by the firmware and the boot loader:
    handle_setup decides what to answer and hands everything else to the
    application. */
module UsbRequests {
  import opened Wire
  import opened Endpoint

  type u8 = x: int | 0 <= x < 0x100
  type u16 = x: int | 0 <= x < 0x1_0000

  datatype SetupRequest = SetupRequest(bmRequestType: u8, bRequest: u8, wValue: u16, wIndex: u16, wLength: u16)

  /** Descriptor memory: device, configuration, and what user_get_descriptor
      finds under a type and an index. */
  datatype Descriptors = Descriptors(device: seq<byte>, config: seq<byte>, other: map<(u8, u8), seq<byte>>)

  /** A configuration descriptor is a header and a chain of descriptors, each
      beginning with its length, that ends exactly at the total length. */
  predicate Chain(d: seq<byte>, at: nat)
    decreases |d| - at
  {
    at == |d| || (at + 4 <= |d| && d[at] as int >= 4 && at + d[at] as int <= |d| && Chain(d, at + d[at] as int))
  }

  predicate ValidDescriptors(d: Descriptors) {
    |d.device| >= 1 && d.device[0] as int <= |d.device| &&
    |d.config| >= 9 && d.config[2] as int == |d.config| && Chain(d.config, 9) &&
    forall k | k in d.other :: |d.other[k]| < 0x100
  }

  datatype Answer =
    | Refuse                       // stall
    | Accept                       // done, status stage follows
    | Reply(data: seq<byte>)       // data stage to the host
    | SetAddress                   // empty packet, then enable the address
    | SelectInterface(nth: nat)    // user_set_interface
    | Application                  // user_setup

  function Truncate(data: seq<byte>, length: nat): seq<byte> {
    if length < |data| then data[..length] else data
  }

  /** get_descriptor */
  function GetDescriptor(d: Descriptors, kind: u8, index: u8, length: u16): (a: Answer)
    requires ValidDescriptors(d)
    ensures a.Reply? ==> |a.data| < 0x100
  {
    if kind == 1 then Reply(Truncate(d.device[..d.device[0] as int], length))
    else if kind == 2 then
      if index != 0 then Refuse else Reply(Truncate(d.config, length))
    else if (kind, index) in d.other then Reply(Truncate(d.other[(kind, index)], length))
    else Refuse
  }

  /** Whether the SET_INTERFACE loop accepts the descriptor at `at`. */
  predicate Matches(d: seq<byte>, at: nat, value: u16, index: u16)
    requires at + 4 <= |d|
  {
    d[at + 2] as int == index && d[at + 3] as int == value
  }

  /** Position in the chain of the first match, if any. */
  function Walk(d: seq<byte>, at: nat, nth: nat, value: u16, index: u16): (a: Answer)
    requires Chain(d, at)
    ensures a.Refuse? || a.SelectInterface?
    decreases |d| - at
  {
    if at == |d| then Refuse
    else if Matches(d, at, value, index) then SelectInterface(nth)
    else Walk(d, at + d[at] as int, nth + 1, value, index)
  }

  /** handle_setup */
  function Standard(d: Descriptors, r: SetupRequest): (a: Answer)
    requires ValidDescriptors(d)
    ensures a.Reply? ==> |a.data| < 0x100
  {
    match (r.bmRequestType, r.bRequest)
    case (0x80, 0x00) => if r.wLength != 2 then Refuse else Reply([0, 0])
    case (0x00, 0x01) => Accept
    case (0x00, 0x03) => Refuse
    case (0x00, 0x05) => SetAddress
    case (0x80, 0x06) => GetDescriptor(d, r.wValue / 0x100, r.wValue % 0x100, r.wLength)
    case (0x00, 0x07) => Refuse
    case (0x80, 0x08) => Reply([0])
    case (0x00, 0x09) => if r.wValue != d.config[5] as int then Refuse else Accept
    case (0x81, 0x00) => Refuse
    case (0x01, 0x01) => Refuse
    case (0x01, 0x03) => Refuse
    case (0x81, 0x0a) => Refuse
    case (0x01, 0x0b) => Walk(d.config, 9, 0, r.wValue, r.wIndex)
    case (0x82, 0x00) => Refuse
    case (0x02, 0x01) => Refuse
    case (0x02, 0x03) => Refuse
    case (0x82, 0x0c) => Refuse
    case _ => Application
  }

  // ----- which request gets which answer ------------------------------------------

  /** `whole` is the descriptor of a type and an index; for the device descriptor
      the index does not matter. */
  predicate Describes(d: Descriptors, kind: u8, index: u8, whole: seq<byte>)
    requires ValidDescriptors(d)
  {
    if kind == 1 then whole == d.device[..d.device[0] as int]
    else if kind == 2 then index == 0 && whole == d.config
    else (kind, index) in d.other && whole == d.other[(kind, index)]
  }

  /** GET_DESCRIPTOR carries the type in the upper byte of wValue, the index in
      the lower. */
  lemma DescriptorAnswer(d: Descriptors, kind: u8, index: u8, language: u16, length: u16)
    requires ValidDescriptors(d)
    ensures var a := Standard(d, SetupRequest(0x80, 6, 0x100 * kind + index, language, length));
            && (forall whole | Describes(d, kind, index, whole) :: a == Reply(whole[..Min(|whole|, length)]))
            && (a == Refuse <==> forall whole :: !Describes(d, kind, index, whole))
  {
    if kind == 1 {
      assert Describes(d, kind, index, d.device[..d.device[0] as int]);
    } else if kind == 2 {
      assert index == 0 ==> Describes(d, kind, index, d.config);
    } else if (kind, index) in d.other {
      assert Describes(d, kind, index, d.other[(kind, index)]);
    }
    forall whole | Describes(d, kind, index, whole)
      ensures Standard(d, SetupRequest(0x80, 6, 0x100 * kind + index, language, length)) == Reply(whole[..Min(|whole|, length)])
    {
      assert whole[..|whole|] == whole;
    }
  }

  /** Requests of chapter 9 of USB 2.0 that are always refused: SET_FEATURE and
      SET_DESCRIPTOR of a device, GET_STATUS, CLEAR_FEATURE, SET_FEATURE and
      GET_INTERFACE of an interface, GET_STATUS, CLEAR_FEATURE, SET_FEATURE
      and SYNCH_FRAME of an endpoint. */
  const REFUSED: set<(u8, u8)> :=
    {(0x00, 3), (0x00, 7), (0x81, 0), (0x01, 1), (0x01, 3), (0x81, 10), (0x82, 0), (0x02, 1), (0x02, 3), (0x82, 12)}

  /** GET_STATUS, CLEAR_FEATURE, SET_ADDRESS, GET_DESCRIPTOR, GET_CONFIGURATION,
      SET_CONFIGURATION, SET_INTERFACE. */
  const SERVED: set<(u8, u8)> := {(0x80, 0), (0x00, 1), (0x00, 5), (0x80, 6), (0x80, 8), (0x00, 9), (0x01, 11)}

  /** Everything else is left to the application. */
  lemma ApplicationIff(d: Descriptors, r: SetupRequest)
    requires ValidDescriptors(d)
    ensures Standard(d, r) == Application <==> (r.bmRequestType, r.bRequest) !in REFUSED + SERVED
    ensures (r.bmRequestType, r.bRequest) in REFUSED ==> Standard(d, r) == Refuse
  {
  }

  // ----- the descriptor walk ------------------------------------------------------

  /** Offsets of the descriptors from `at` on. */
  function Offsets(d: seq<byte>, at: nat): (os: seq<nat>)
    requires Chain(d, at)
    ensures forall i | 0 <= i < |os| :: os[i] + 4 <= |d|
    decreases |d| - at
  {
    if at == |d| then [] else [at] + Offsets(d, at + d[at] as int)
  }

  ghost predicate NoMatch(d: seq<byte>, os: seq<nat>, upTo: nat, value: u16, index: u16)
    requires upTo <= |os| && forall i | 0 <= i < |os| :: os[i] + 4 <= |d|
  {
    forall j | 0 <= j < upTo :: !Matches(d, os[j], value, index)
  }

  ghost predicate FoundFirst(a: Answer, d: seq<byte>, os: seq<nat>, nth: nat, value: u16, index: u16)
    requires forall i | 0 <= i < |os| :: os[i] + 4 <= |d|
  {
    match a
    case SelectInterface(n) =>
      nth <= n < nth + |os| && Matches(d, os[n - nth], value, index) && NoMatch(d, os, n - nth, value, index)
    case Refuse => NoMatch(d, os, |os|, value, index)
    case _ => false
  }

  /** SET_INTERFACE selects the first descriptor of the chain, of whatever kind,
      whose third and fourth byte are wIndex and wValue, and is refused if
      there is none. */
  lemma {:induction false} WalkFindsFirst(d: seq<byte>, at: nat, nth: nat, value: u16, index: u16)
    requires Chain(d, at)
    ensures FoundFirst(Walk(d, at, nth, value, index), d, Offsets(d, at), nth, value, index)
    decreases |d| - at
  {
    if at != |d| && !Matches(d, at, value, index) {
      var next := at + d[at] as int;
      WalkFindsFirst(d, next, nth + 1, value, index);
      FoundLater(Walk(d, next, nth + 1, value, index), d, at, Offsets(d, next), nth, value, index);
    }
  }

  lemma FoundLater(a: Answer, d: seq<byte>, at: nat, rest: seq<nat>, nth: nat, value: u16, index: u16)
    requires at + 4 <= |d| && forall i | 0 <= i < |rest| :: rest[i] + 4 <= |d|
    requires !Matches(d, at, value, index) && FoundFirst(a, d, rest, nth + 1, value, index)
    ensures forall i | 0 <= i < |[at] + rest| :: ([at] + rest)[i] + 4 <= |d|
    ensures FoundFirst(a, d, [at] + rest, nth, value, index)
  {
    NoMatchCons(d, at, rest, if a.SelectInterface? then a.nth - nth - 1 else |rest|, value, index);
    if a.SelectInterface? {
      assert ([at] + rest)[a.nth - nth] == rest[a.nth - (nth + 1)];
    }
  }

  lemma NoMatchCons(d: seq<byte>, at: nat, rest: seq<nat>, upTo: nat, value: u16, index: u16)
    requires at + 4 <= |d| && upTo <= |rest| && (forall i | 0 <= i < |rest| :: rest[i] + 4 <= |d|)
    requires !Matches(d, at, value, index) && NoMatch(d, rest, upTo, value, index)
    ensures forall i | 0 <= i < |[at] + rest| :: ([at] + rest)[i] + 4 <= |d|
    ensures NoMatch(d, [at] + rest, upTo + 1, value, index)
  {
    var os := [at] + rest;
    forall j | 0 <= j < upTo + 1
      ensures os[j] + 4 <= |d| && !Matches(d, os[j], value, index)
    {
      if j > 0 {
        assert os[j] == rest[j - 1];
      }
    }
  }

  /** Some descriptor of the chain is taken for the interface asked for. */
  ghost predicate InChain(d: seq<byte>, value: u16, index: u16)
    requires |d| >= 9 && Chain(d, 9)
  {
    exists k :: 0 <= k < |Offsets(d, 9)| && Matches(d, Offsets(d, 9)[k], value, index)
  }

  lemma InChainIff(d: seq<byte>, value: u16, index: u16)
    requires |d| >= 9 && Chain(d, 9)
    ensures Walk(d, 9, 0, value, index).SelectInterface? <==> InChain(d, value, index)
  {
    WalkFindsFirst(d, 9, 0, value, index);
  }

  /** A GET_DESCRIPTOR reply reaches the host in packets of at most the
      endpoint size, as much of the descriptor as wLength asks for. */
  lemma DescriptorReachesHost(d: Descriptors, kind: u8, index: u8, length: u16, ep: Ep)
    requires ValidDescriptors(d) && ep.xfer.Idle? && 0 < ep.size && !ep.truncate
    requires GetDescriptor(d, kind, index, length).Reply?
    ensures var whole := if kind == 1 then d.device[..d.device[0] as int] else if kind == 2 then d.config else d.other[(kind, index)];
            var packets := Drain(Send(ep, GetDescriptor(d, kind, index, length).data, NoCallback));
            && Concat(packets) == whole[..Min(|whole|, length)]
            && |packets| == Min(|whole|, length) / ep.size + 1
            && (forall i | 0 <= i < |packets| - 1 :: |packets[i]| == ep.size)
  {
    var whole := if kind == 1 then d.device[..d.device[0] as int] else if kind == 2 then d.config else d.other[(kind, index)];
    assert whole[..|whole|] == whole;
    Packetisation(Send(ep, GetDescriptor(d, kind, index, length).data, NoCallback));
  }

  /** The loop of SET_INTERFACE, a pointer walk over the descriptors. */
  method SetInterface(d: seq<byte>, value: u16, index: u16) returns (a: Answer)
    requires |d| >= 9 && Chain(d, 9)
    ensures a == Walk(d, 9, 0, value, index)
  {
    var i := 0;
    var p := 9;
    while p != |d|
      invariant 9 <= p <= |d| && Chain(d, p)
      invariant Walk(d, 9, 0, value, index) == Walk(d, p, i, value, index)
      decreases |d| - p
    {
      if d[p + 2] as int == index && d[p + 3] as int == value {
        return SelectInterface(i);
      }
      p := p + d[p] as int;
      i := i + 1;
    }
    a := Refuse;
  }

  // ----- the firmware's configuration -------------------------------------------

  /** firmware/descr.c: interface 0 with its two endpoints, interface 1 (DFU);
      `power` is the bMaxPower byte. */
  function FirmwareConfig(power: byte): seq<byte> {
    [9, 2, 41, 0, 2, 1, 0, 0x80, power,
     9, 4, 0, 0, 2, 0xff, 0, 0, 0,
     7, 5, 0x01, 2, 32, 0, 0,
     7, 5, 0x82, 2, 64, 0, 0,
     9, 4, 1, 0, 0, 0xfe, 0x01, 1, 0]
  }

  /** What the walk reads: lengths, and the bytes it compares. */
  ghost predicate FirmwareLayout(d: seq<byte>) {
    |d| == 41 &&
    d[9] as int == 9 && d[11] as int == 0 && d[12] as int == 0 &&
    d[18] as int == 7 && d[20] as int == 0x01 && d[21] as int == 2 &&
    d[25] as int == 7 && d[27] as int == 0x82 && d[28] as int == 2 &&
    d[32] as int == 9 && d[34] as int == 1 && d[35] as int == 0
  }

  lemma FirmwareConfigLayout(power: byte)
    ensures FirmwareLayout(FirmwareConfig(power))
  {
  }

  lemma LayoutIsChain(d: seq<byte>)
    requires FirmwareLayout(d)
    ensures Chain(d, 9) && Chain(d, 18) && Chain(d, 25) && Chain(d, 32) && Chain(d, 41)
  {
    assert Chain(d, 41);
    assert Chain(d, 32);
    assert Chain(d, 25);
    assert Chain(d, 18);
  }

  lemma WalkStep(d: seq<byte>, at: nat, nth: nat, value: u16, index: u16, next: nat, a: int, b: int)
    requires Chain(d, at) && at < |d| && next == at + d[at] as int && a == d[at + 2] as int && b == d[at + 3] as int
    ensures Chain(d, next)
    ensures Walk(d, at, nth, value, index) ==
            if index == a && value == b then SelectInterface(nth) else Walk(d, next, nth + 1, value, index)
  {
  }

  lemma LayoutWalk(d: seq<byte>, value: u16, index: u16)
    requires FirmwareLayout(d)
    ensures Chain(d, 9)
    ensures Walk(d, 9, 0, value, index) ==
            if value == 0 && index == 0 then SelectInterface(0)
            else if value == 2 && index == 0x01 then SelectInterface(1)
            else if value == 2 && index == 0x82 then SelectInterface(2)
            else if value == 0 && index == 1 then SelectInterface(3)
            else Refuse
  {
    LayoutIsChain(d);
    WalkStep(d, 9, 0, value, index, 18, 0, 0);
    WalkStep(d, 18, 1, value, index, 25, 0x01, 2);
    WalkStep(d, 25, 2, value, index, 32, 0x82, 2);
    WalkStep(d, 32, 3, value, index, 41, 1, 0);
  }

  /** The requests SET_INTERFACE accepts. Interface 1 is the fourth descriptor,
      and the two endpoint descriptors are mistaken for interfaces; every
      answer but the first is a non-zero argument of my_set_interface and so
      selects the DFU handler. */
  lemma FirmwareInterfaces(power: byte, value: u16, index: u16)
    ensures Chain(FirmwareConfig(power), 9)
    ensures var a := Walk(FirmwareConfig(power), 9, 0, value, index);
            (a == SelectInterface(0) <==> (value, index) == (0, 0)) &&
            (a.SelectInterface? <==> (value, index) in {(0, 0), (2, 0x01), (2, 0x82), (0, 1)})
  {
    FirmwareConfigLayout(power);
    LayoutWalk(FirmwareConfig(power), value, index);
  }
}
