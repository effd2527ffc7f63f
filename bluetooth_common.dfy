// Value types shared by the Bluetooth stack:
// - the 6-byte device address with its LAP, UAP and NAP parts (section 1.2
//   of the Bluetooth Core Specification 2.1);
// - the 128-bit UUID with its 16- and 32-bit short forms over the
//   Bluetooth Base UUID;
// - the PIN code and the remote device name.
//
// Each structure keeps its bytes in a fixed-size array that the setters
// overwrite in place, so each is a class over an `array<byte>`. The
// getters, equality and ordering are functions of the array contents.

module BluetoothCommon {

  import opened Obex

  /** BluetoothAddress::ANY(), the all-zero address. */
  const AnyAddress: seq<byte> := [0, 0, 0, 0, 0, 0]

  /** Sixteen zero bytes: the cleared UUID and the empty pin-code buffer. */
  const SixteenZeroBytes: seq<byte> := [0, 0, 0, 0, 0, 0, 0, 0, 0, 0, 0, 0, 0, 0, 0, 0]

  /** BluetoothUuid::ZERO() */
  const ZeroUuid: seq<byte> := SixteenZeroBytes

  /** BluetoothUuid::BASE(), 00000000-0000-1000-8000-00805F9B34FB, big-endian. */
  const BaseUuid: seq<byte> :=
    [0x00, 0x00, 0x00, 0x00, 0x00, 0x00, 0x10, 0x00,
     0x80, 0x00, 0x00, 0x80, 0x5F, 0x9B, 0x34, 0xFB]

  const PinCodeCapacity: int := 16
  const RemoteNameCapacity: int := 248

  // ---------------------------------------------------------------------
  // Byte order helpers (mozilla::LittleEndian / BigEndian)

  /** LittleEndian::readUint16 */
  function ReadUint16LE(lo: byte, hi: byte): (r: int)
    ensures 0 <= r < 0x1_0000
    ensures r % 256 == lo as int && r / 256 == hi as int
  {
    lo as int + 256 * hi as int
  }

  /** LittleEndian::writeUint16: low byte first. */
  function WriteUint16LE(v: int): (r: seq<byte>)
    requires 0 <= v < 0x1_0000
    ensures |r| == 2 && ReadUint16LE(r[0], r[1]) == v
  {
    [(v % 256) as byte, (v / 256) as byte]
  }

  /** BigEndian::writeUint16: high byte first. */
  function WriteUint16BE(v: int): (r: seq<byte>)
    requires 0 <= v < 0x1_0000
    ensures |r| == 2 && ReadUint16(r[0], r[1]) == v
  {
    [(v / 256) as byte, (v % 256) as byte]
  }

  /** BigEndian::writeUint32: most significant byte first. */
  function WriteUint32BE(v: int): (r: seq<byte>)
    requires 0 <= v < 0x1_0000_0000
    ensures |r| == 4 && ReadUint32(r) == v
  {
    var hi, lo := v / 0x1_0000, v % 0x1_0000;
    WriteUint16BE(hi) + WriteUint16BE(lo)
  }

  /** The 24-bit LAP held least significant byte first in three bytes. */
  function LapOf(b0: byte, b1: byte, b2: byte): (r: int)
    ensures 0 <= r < 0x100_0000
    ensures r % 256 == b0 as int && (r / 256) % 256 == b1 as int && r / 0x1_0000 == b2 as int
  {
    b0 as int + 256 * b1 as int + 0x1_0000 * b2 as int
  }

  /** The three bytes SetLAP stores: `aLAP`, `aLAP >> 8`, `aLAP >> 16` truncated to bytes. */
  function LapBytes(lap: int): (r: seq<byte>)
    requires 0 <= lap < 0x100_0000
    ensures |r| == 3 && LapOf(r[0], r[1], r[2]) == lap
  {
    [(lap % 256) as byte, ((lap / 256) % 256) as byte, (lap / 0x1_0000) as byte]
  }

  // ---------------------------------------------------------------------
  // memcmp

  /** The sign of memcmp over two equally long byte strings. */
  function Memcmp(a: seq<byte>, b: seq<byte>): (r: int)
    requires |a| == |b|
    ensures -1 <= r <= 1
    ensures r == 0 <==> a == b
    decreases |a|
  {
    if |a| == 0 then 0
    else if a[0] < b[0] then -1
    else if a[0] > b[0] then 1
    else
      var r := Memcmp(a[1..], b[1..]);
      assert a == [a[0]] + a[1..] && b == [b[0]] + b[1..];
      r
  }

  /** Swapping the operands negates the comparison. */
  lemma {:induction false} MemcmpAntisymmetric(a: seq<byte>, b: seq<byte>)
    requires |a| == |b|
    ensures Memcmp(b, a) == -Memcmp(a, b)
    decreases |a|
  {
    if |a| > 0 && a[0] == b[0] {
      MemcmpAntisymmetric(a[1..], b[1..]);
    }
  }

  /** memcmp < 0 exactly when the strings agree up to some k and a is smaller at k. */
  lemma {:induction false} MemcmpIsLexicographic(a: seq<byte>, b: seq<byte>)
    requires |a| == |b|
    ensures Memcmp(a, b) < 0 <==> exists k | 0 <= k < |a| :: a[..k] == b[..k] && a[k] < b[k]
    decreases |a|
  {
    if |a| > 0 {
      if a[0] < b[0] {
        assert a[..0] == b[..0];
      } else if a[0] > b[0] {
        forall k | 0 < k < |a|
          ensures a[..k][0] == a[0] && b[..k][0] == b[0]
        {
        }
      } else {
        MemcmpIsLexicographic(a[1..], b[1..]);
        if Memcmp(a, b) < 0 {
          var k :| 0 <= k < |a| - 1 && a[1..][..k] == b[1..][..k] && a[1..][k] < b[1..][k];
          assert a[..k + 1] == [a[0]] + a[1..][..k];
          assert b[..k + 1] == [b[0]] + b[1..][..k];
        } else {
          forall k | 0 <= k < |a| && a[..k] == b[..k]
            ensures !(a[k] < b[k])
          {
            if k > 0 {
              assert a[1..][..k - 1] == a[..k][1..];
              assert b[1..][..k - 1] == b[..k][1..];
            }
          }
        }
      }
    }
  }

  /** memcmp < 0 is transitive. */
  lemma {:induction false} MemcmpTransitive(a: seq<byte>, b: seq<byte>, c: seq<byte>)
    requires |a| == |b| == |c|
    requires Memcmp(a, b) < 0 && Memcmp(b, c) < 0
    ensures Memcmp(a, c) < 0
    decreases |a|
  {
    if a[0] == b[0] && b[0] == c[0] {
      MemcmpTransitive(a[1..], b[1..], c[1..]);
    }
  }

  /** Copies `b` over the whole of `a`, as a struct assignment does. */
  method Fill(a: array<byte>, b: seq<byte>)
    requires a.Length == |b|
    modifies a
    ensures a[..] == b
  {
    for i := 0 to a.Length
      invariant a[..i] == b[..i]
    {
      a[i] := b[i];
    }
  }

  /** std::equal over the first `len` bytes, after the lengths agree. */
  predicate PrefixEqual(a: seq<byte>, la: int, b: seq<byte>, lb: int)
    requires 0 <= la <= |a| && 0 <= lb <= |b|
  {
    la == lb && forall i | 0 <= i < la :: a[i] == b[i]
  }

  /** Bytes after the length never matter, and the relation is an equivalence. */
  lemma PrefixEqualProperties(a: seq<byte>, la: int, b: seq<byte>, lb: int, c: seq<byte>, lc: int)
    requires 0 <= la <= |a| && 0 <= lb <= |b| && 0 <= lc <= |c|
    ensures PrefixEqual(a, la, b, lb) <==> la == lb && a[..la] == b[..lb]
    ensures PrefixEqual(a, la, a, la)
    ensures PrefixEqual(a, la, b, lb) ==> PrefixEqual(b, lb, a, la)
    ensures PrefixEqual(a, la, b, lb) && PrefixEqual(b, lb, c, lc) ==> PrefixEqual(a, la, c, lc)
  {
    if la == lb && a[..la] == b[..lb] {
      forall i | 0 <= i < la
        ensures a[i] == b[i]
      {
        assert a[i] == a[..la][i];
      }
    }
  }

  // ---------------------------------------------------------------------
  // BluetoothAddress

  class Address {
    const addr: array<byte>

    ghost predicate Valid() {
      addr.Length == 6
    }

    /** BluetoothAddress(): the address is cleared to ANY(). */
    constructor ()
      ensures Valid() && fresh(addr)
      ensures addr[..] == AnyAddress
    {
      addr := new byte[6];
      new;
      Clear();
    }

    constructor FromBytes(a0: byte, a1: byte, a2: byte, a3: byte, a4: byte, a5: byte)
      ensures Valid() && fresh(addr)
      ensures addr[..] == [a0, a1, a2, a3, a4, a5]
    {
      addr := new byte[6];
      new;
      addr[0], addr[1], addr[2], addr[3], addr[4], addr[5] := a0, a1, a2, a3, a4, a5;
    }

    /** operator==: equal exactly when all six bytes agree. */
    function Equals(other: Address): (r: bool)
      requires Valid() && other.Valid()
      reads addr, other.addr
      ensures r <==> forall i | 0 <= i < 6 :: addr[i] == other.addr[i]
    {
      assert addr[..] == other.addr[..] <==> forall i | 0 <= i < 6 :: addr[..][i] == other.addr[..][i];
      Memcmp(addr[..], other.addr[..]) == 0
    }

    method Clear()
      requires Valid()
      modifies addr
      ensures addr[..] == AnyAddress && IsCleared()
    {
      Fill(addr, AnyAddress);
    }

    /** IsCleared: the address equals ANY(). */
    function IsCleared(): (r: bool)
      requires Valid()
      reads addr
      ensures r <==> addr[..] == AnyAddress
    {
      Memcmp(addr[..], AnyAddress) == 0
    }

    /** The LAP is bytes 0..2, least significant first. */
    function GetLAP(): (r: int)
      requires Valid()
      reads addr
      ensures 0 <= r < 0x100_0000
      ensures r % 256 == addr[0] as int && r / 0x1_0000 == addr[2] as int
    {
      LapOf(addr[0], addr[1], addr[2])
    }

    /** SetLAP: needs a value without its top 8 bits; bytes 3..5 keep their values. */
    method SetLAP(lap: int)
      requires Valid() && 0 <= lap < 0x100_0000
      modifies addr
      ensures GetLAP() == lap
      ensures addr[3..] == old(addr[3..])
    {
      var b := LapBytes(lap);
      addr[0], addr[1], addr[2] := b[0], b[1], b[2];
    }

    function GetUAP(): (r: byte)
      requires Valid()
      reads addr
      ensures r == addr[3]
    {
      addr[3]
    }

    /** SetUAP changes byte 3 and nothing else. */
    method SetUAP(uap: byte)
      requires Valid()
      modifies addr
      ensures GetUAP() == uap
      ensures addr[..3] == old(addr[..3]) && addr[4..] == old(addr[4..])
    {
      addr[3] := uap;
    }

    /** The NAP is bytes 4..5, little-endian. */
    function GetNAP(): (r: int)
      requires Valid()
      reads addr
      ensures 0 <= r < 0x1_0000
      ensures r % 256 == addr[4] as int && r / 256 == addr[5] as int
    {
      ReadUint16LE(addr[4], addr[5])
    }

    /** SetNAP writes bytes 4..5 only. */
    method SetNAP(nap: int)
      requires Valid() && 0 <= nap < 0x1_0000
      modifies addr
      ensures GetNAP() == nap
      ensures addr[..4] == old(addr[..4])
    {
      var b := WriteUint16LE(nap);
      addr[4], addr[5] := b[0], b[1];
    }
  }

  /** Setting the three parts of an address and reading them back gives the parts. */
  lemma AddressPartsRoundTrip(lap: int, uap: byte, nap: int)
    requires 0 <= lap < 0x100_0000 && 0 <= nap < 0x1_0000
    ensures var a := LapBytes(lap) + [uap] + WriteUint16LE(nap);
      |a| == 6 && LapOf(a[0], a[1], a[2]) == lap && a[3] == uap && ReadUint16LE(a[4], a[5]) == nap
  {
  }

  // ---------------------------------------------------------------------
  // BluetoothUuid

  /** BluetoothServiceClass: the 16-bit service class identifiers. */
  datatype ServiceClass =
    | Unknown | ObjectPush | Headset | A2dpSink | AvrcpTarget | A2dp | Avrcp
    | AvrcpController | HeadsetAg | Handsfree | HandsfreeAg | Hid | PbapPce
    | PbapPse | MapMas | MapMns

  function ServiceClassCode(c: ServiceClass): (r: int)
    ensures 0 <= r < 0x1_0000
    ensures r == 0 <==> c == Unknown
  {
    match c
    case Unknown => 0x0000
    case ObjectPush => 0x1105
    case Headset => 0x1108
    case A2dpSink => 0x110b
    case AvrcpTarget => 0x110c
    case A2dp => 0x110d
    case Avrcp => 0x110e
    case AvrcpController => 0x110f
    case HeadsetAg => 0x1112
    case Handsfree => 0x111e
    case HandsfreeAg => 0x111f
    case Hid => 0x1124
    case PbapPce => 0x112e
    case PbapPse => 0x112f
    case MapMas => 0x1132
    case MapMns => 0x1133
  }

  /** The service classes have distinct identifiers. */
  lemma ServiceClassCodeInjective(c: ServiceClass, d: ServiceClass)
    ensures ServiceClassCode(c) == ServiceClassCode(d) ==> c == d
  {
  }

  class Uuid {
    /** The 128-bit value, big-endian. */
    const uuid: array<byte>

    ghost predicate Valid() {
      uuid.Length == 16
    }

    /** BluetoothUuid(): the zero UUID. */
    constructor ()
      ensures Valid() && fresh(uuid)
      ensures uuid[..] == ZeroUuid
    {
      uuid := new byte[16];
      new;
      Fill(uuid, ZeroUuid);
    }

    constructor FromBytes(b: seq<byte>)
      requires |b| == 16
      ensures Valid() && fresh(uuid)
      ensures uuid[..] == b
    {
      uuid := new byte[16];
      new;
      Fill(uuid, b);
    }

    constructor FromUuid32(v: int)
      requires 0 <= v < 0x1_0000_0000
      ensures Valid() && fresh(uuid)
      ensures GetUuid32() == v && uuid[4..] == BaseUuid[4..]
    {
      uuid := new byte[16];
      new;
      SetUuid32(v);
    }

    constructor FromUuid16(v: int)
      requires 0 <= v < 0x1_0000
      ensures Valid() && fresh(uuid)
      ensures GetUuid16() == v
      ensures uuid[..2] == BaseUuid[..2] && uuid[4..] == BaseUuid[4..]
    {
      uuid := new byte[16];
      new;
      SetUuid16(v);
    }

    /** A service class is the 16-bit short form of its identifier. */
    constructor FromServiceClass(c: ServiceClass)
      ensures Valid() && fresh(uuid)
      ensures GetUuid16() == ServiceClassCode(c)
      ensures uuid[..2] == BaseUuid[..2] && uuid[4..] == BaseUuid[4..]
    {
      uuid := new byte[16];
      new;
      SetUuid16(ServiceClassCode(c));
    }

    method Clear()
      requires Valid()
      modifies uuid
      ensures uuid[..] == ZeroUuid && IsCleared()
    {
      Fill(uuid, ZeroUuid);
    }

    /** IsCleared: the UUID equals ZERO(). */
    function IsCleared(): (r: bool)
      requires Valid()
      reads uuid
      ensures r <==> uuid[..] == ZeroUuid
    {
      assert uuid[..] == ZeroUuid <==> forall i | 0 <= i < 16 :: uuid[..][i] == ZeroUuid[i];
      forall i | 0 <= i < 16 :: uuid[i] == 0
    }

    /** operator==: std::equal over the sixteen bytes. */
    function Equals(other: Uuid): (r: bool)
      requires Valid() && other.Valid()
      reads uuid, other.uuid
      ensures r <==> uuid[..] == other.uuid[..]
    {
      assert uuid[..] == other.uuid[..] <==> forall i | 0 <= i < 16 :: uuid[..][i] == other.uuid[..][i];
      forall i | 0 <= i < 16 :: uuid[i] == other.uuid[i]
    }

    /** operator<: memcmp of the sixteen bytes is negative. */
    function Less(other: Uuid): (r: bool)
      requires Valid() && other.Valid()
      reads uuid, other.uuid
      ensures r <==> exists k | 0 <= k < 16 :: uuid[..][..k] == other.uuid[..][..k] && uuid[k] < other.uuid[k]
      ensures r ==> !Equals(other)
    {
      MemcmpIsLexicographic(uuid[..], other.uuid[..]);
      Memcmp(uuid[..], other.uuid[..]) < 0
    }

    /** SetUuid32: BASE() with the first four bytes replaced by the value, big-endian. */
    method SetUuid32(v: int)
      requires Valid() && 0 <= v < 0x1_0000_0000
      modifies uuid
      ensures GetUuid32() == v
      ensures uuid[4..] == BaseUuid[4..]
    {
      Fill(uuid, BaseUuid);
      var b := WriteUint32BE(v);
      uuid[0], uuid[1], uuid[2], uuid[3] := b[0], b[1], b[2], b[3];
    }

    function GetUuid32(): (r: int)
      requires Valid()
      reads uuid
      ensures 0 <= r < 0x1_0000_0000
      ensures r / 0x100_0000 == uuid[0] as int && (r / 0x1_0000) % 256 == uuid[1] as int
      ensures (r / 256) % 256 == uuid[2] as int && r % 256 == uuid[3] as int
    {
      ReadUint32(uuid[..4])
    }

    /** SetUuid16: BASE() with bytes 2..3 replaced by the value, big-endian. */
    method SetUuid16(v: int)
      requires Valid() && 0 <= v < 0x1_0000
      modifies uuid
      ensures GetUuid16() == v
      ensures uuid[..2] == BaseUuid[..2] && uuid[4..] == BaseUuid[4..]
    {
      Fill(uuid, BaseUuid);
      var b := WriteUint16BE(v);
      uuid[2], uuid[3] := b[0], b[1];
    }

    function GetUuid16(): (r: int)
      requires Valid()
      reads uuid
      ensures 0 <= r < 0x1_0000
      ensures r / 256 == uuid[2] as int && r % 256 == uuid[3] as int
    {
      ReadUint16(uuid[2], uuid[3])
    }
  }

  /** operator< on UUIDs is a strict order consistent with operator==. */
  lemma UuidOrder(a: Uuid, b: Uuid, c: Uuid)
    requires a.Valid() && b.Valid() && c.Valid()
    ensures !a.Less(a)
    ensures a.Less(b) ==> !b.Less(a)
    ensures a.Less(b) && b.Less(c) ==> a.Less(c)
    ensures (a.Less(b) && !a.Equals(b) && !b.Less(a))
         || (!a.Less(b) && a.Equals(b) && !b.Less(a))
         || (!a.Less(b) && !a.Equals(b) && b.Less(a))
  {
    MemcmpAntisymmetric(a.uuid[..], b.uuid[..]);
    if a.Less(b) && b.Less(c) {
      MemcmpTransitive(a.uuid[..], b.uuid[..], c.uuid[..]);
    }
  }

  // ---------------------------------------------------------------------
  // BluetoothPinCode and BluetoothRemoteName

  class PinCode {
    /** Not NUL-terminated; only the first `length` bytes are the code. */
    const pinCode: array<byte>
    var length: byte

    ghost predicate Valid()
      reads this
    {
      pinCode.Length == PinCodeCapacity && length as int <= PinCodeCapacity
    }

    /** BluetoothPinCode(): an empty code over zeroed bytes. */
    constructor ()
      ensures Valid() && fresh(pinCode)
      ensures length == 0 && pinCode[..] == SixteenZeroBytes
    {
      pinCode := new byte[16];
      length := 0;
      new;
      Fill(pinCode, SixteenZeroBytes);
    }

    /** operator==: the lengths agree and so do the first `length` bytes; the rest is ignored. */
    function Equals(other: PinCode): (r: bool)
      requires length as int <= pinCode.Length
      requires other.length as int <= other.pinCode.Length
      reads this, pinCode, other, other.pinCode
      ensures r <==> length == other.length && pinCode[..length] == other.pinCode[..other.length]
    {
      PrefixEqualProperties(pinCode[..], length as int, other.pinCode[..], other.length as int, [], 0);
      PrefixEqual(pinCode[..], length as int, other.pinCode[..], other.length as int)
    }
  }

  class RemoteName {
    /** Not NUL-terminated; only the first `length` bytes are the name. */
    const name: array<byte>
    var length: byte

    ghost predicate Valid()
      reads this
    {
      name.Length == RemoteNameCapacity && length as int <= RemoteNameCapacity
    }

    /** BluetoothRemoteName(): an empty name. */
    constructor ()
      ensures Valid() && fresh(name)
      ensures length == 0 && IsCleared()
    {
      name := new byte[248];
      length := 0;
    }

    /** BluetoothRemoteName(aString): the string's bytes, at most 248 of them. */
    constructor FromString(s: seq<byte>)
      requires |s| <= RemoteNameCapacity
      ensures Valid() && fresh(name)
      ensures length as int == |s| && name[..length] == s
    {
      name := new byte[248];
      length := 0;
      new;
      Assign(s);
    }

    /** operator==: the lengths agree and so do the first `length` bytes; the rest is ignored. */
    function Equals(other: RemoteName): (r: bool)
      requires length as int <= name.Length
      requires other.length as int <= other.name.Length
      reads this, name, other, other.name
      ensures r <==> length == other.length && name[..length] == other.name[..other.length]
    {
      PrefixEqualProperties(name[..], length as int, other.name[..], other.length as int, [], 0);
      PrefixEqual(name[..], length as int, other.name[..], other.length as int)
    }

    /** Assign: the memcpy copies the given bytes to the front; later bytes keep their values. */
    method Assign(s: seq<byte>)
      requires name.Length == RemoteNameCapacity && |s| <= RemoteNameCapacity
      modifies this, name
      ensures Valid()
      ensures length as int == |s| && name[..length] == s
      ensures name[|s|..] == old(name[|s|..])
    {
      for i := 0 to |s|
        invariant name[..i] == s[..i]
        invariant name[|s|..] == old(name[|s|..])
      {
        name[i] := s[i];
      }
      length := |s| as byte;
    }

    /** Clear: the length drops to 0; the bytes stay. */
    method Clear()
      modifies this
      ensures length == 0 && IsCleared()
      ensures unchanged(name)
    {
      length := 0;
    }

    predicate IsCleared()
      reads this
    {
      length == 0
    }
  }

  /** An empty name equals every other empty name, whatever the bytes behind it. */
  lemma ClearedNamesAreEqual(a: RemoteName, b: RemoteName)
    requires a.Valid() && b.Valid()
    requires a.IsCleared() && b.IsCleared()
    ensures a.Equals(b)
  {
  }
}
