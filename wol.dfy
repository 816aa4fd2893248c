/** wol/wol.go: the Wake-on-LAN "Magic Packet". */
module Wol {
  import opened Wrappers

  newtype byte = b: int | 0 <= b < 256

  /** Six bytes of 0xFF open every Magic Packet. */
  const Header: seq<byte> := [0xFF, 0xFF, 0xFF, 0xFF, 0xFF, 0xFF]

  /** How many times the MAC address follows the header. */
  const Repetitions: nat := 16

  /** `mac` written `n` times in a row. */
  function Repeat(mac: seq<byte>, n: nat): (r: seq<byte>)
    ensures |r| == n * |mac|
  {
    if n == 0 then [] else Repeat(mac, n - 1) + mac
  }

  /** The packet for `mac`: the header, then the address sixteen times. */
  function MagicPacket(mac: seq<byte>): (p: seq<byte>)
    ensures |p| == |Header| + Repetitions * |mac|
    ensures p[..|Header|] == Header
  {
    Header + Repeat(mac, Repetitions)
  }

  /** The k-th copy of a `width`-byte address in a packet. */
  function Copy(p: seq<byte>, width: nat, k: nat): seq<byte>
    requires 6 + (k + 1) * width <= |p|
  {
    p[6 + k * width .. 6 + (k + 1) * width]
  }

  /** packet: the header is written, then the address once per iteration. */
  method Packet(mac: seq<byte>) returns (buf: seq<byte>)
    ensures buf == MagicPacket(mac)
  {
    buf := Header;
    var i := 0;
    while i < Repetitions
      invariant 0 <= i <= Repetitions
      invariant buf == Header + Repeat(mac, i)
    {
      buf := buf + mac;
      i := i + 1;
    }
  }

  /** Within `Repeat(mac, n)`, the k-th block of |mac| bytes is `mac`. */
  lemma {:induction false} RepeatBlock(mac: seq<byte>, n: nat, k: nat)
    requires k < n
    ensures (k + 1) * |mac| <= n * |mac|
    ensures Repeat(mac, n)[k * |mac| .. (k + 1) * |mac|] == mac
  {
    var w := |mac|;
    assert (k + 1) * w <= n * w by {
      MulMono(k + 1, n, w);
    }
    if k < n - 1 {
      RepeatBlock(mac, n - 1, k);
      assert (k + 1) * w <= (n - 1) * w;
      assert Repeat(mac, n) == Repeat(mac, n - 1) + mac;
      assert Repeat(mac, n)[k * w .. (k + 1) * w] == Repeat(mac, n - 1)[k * w .. (k + 1) * w];
    } else {
      assert k * w == (n - 1) * w;
      assert Repeat(mac, n)[k * w ..] == mac;
    }
  }

  lemma MulMono(a: nat, b: nat, w: nat)
    requires a <= b
    ensures a * w <= b * w
  {
  }

  /**
   * The layout of the packet: 6 + 16 x |mac| bytes, six 0xFF bytes, then
   * the sixteen copies of the address.
   */
  lemma PacketLayout(mac: seq<byte>)
    ensures |MagicPacket(mac)| == 6 + 16 * |mac|
    ensures forall i :: 0 <= i < 6 ==> MagicPacket(mac)[i] == 0xFF
    ensures forall k: nat :: k < 16 ==>
      6 + (k + 1) * |mac| <= |MagicPacket(mac)| && Copy(MagicPacket(mac), |mac|, k) == mac
  {
    var p := MagicPacket(mac);
    forall k: nat | k < 16
      ensures 6 + (k + 1) * |mac| <= |p|
      ensures Copy(p, |mac|, k) == mac
    {
      RepeatBlock(mac, 16, k);
      assert Copy(p, |mac|, k) == Repeat(mac, 16)[k * |mac| .. (k + 1) * |mac|];
    }
  }

  /** For a 6-byte hardware address the packet is 102 bytes long. */
  lemma PacketLength(mac: seq<byte>)
    requires |mac| == 6
    ensures |MagicPacket(mac)| == 102
  {
  }

  /** The value of a hexadecimal digit. */
  function HexDigit(c: char): (d: Option<int>)
    ensures d.Some? ==> 0 <= d.value < 16
  {
    if '0' <= c <= '9' then Some(c as int - '0' as int)
    else if 'a' <= c <= 'f' then Some(c as int - 'a' as int + 10)
    else if 'A' <= c <= 'F' then Some(c as int - 'A' as int + 10)
    else None
  }

  /** The byte written as the hexadecimal digits `hi` and `lo`. */
  function HexByte(hi: char, lo: char): Option<byte> {
    var h, l := HexDigit(hi), HexDigit(lo);
    if h.Some? && l.Some? then Some((h.value * 16 + l.value) as byte) else None
  }

  /** hex.DecodeString: two digits per byte, high nibble first. */
  function HexDecode(s: string): Option<seq<byte>> {
    if |s| == 0 then Some([])
    else if |s| == 1 then None
    else
      var b, rest := HexByte(s[0], s[1]), HexDecode(s[2..]);
      if b.Some? && rest.Some? then Some([b.value] + rest.value) else None
  }

  /** A decoded text is twice as long as its bytes, so a text of odd length is an error. */
  lemma {:induction false} HexDecodeLength(s: string)
    ensures HexDecode(s).Some? ==> |s| == 2 * |HexDecode(s).value|
    ensures |s| % 2 == 1 ==> HexDecode(s).None?
  {
    if |s| >= 2 {
      HexDecodeLength(s[2..]);
    }
  }

  /** Decoding two hex strings one after the other decodes their concatenation. */
  lemma {:induction false} HexDecodeAppend(s: string, t: string)
    requires HexDecode(s).Some? && HexDecode(t).Some?
    ensures HexDecode(s + t) == Some(HexDecode(s).value + HexDecode(t).value)
  {
    if |s| > 0 {
      var b, u, v := HexByte(s[0], s[1]).value, HexDecode(s[2..]).value, HexDecode(t).value;
      assert HexDecode(s[2..] + t) == Some(u + v) by {
        HexDecodeAppend(s[2..], t);
      }
      var st := s + t;
      assert st[0] == s[0] && st[1] == s[1] && st[2..] == s[2..] + t;
      assert [b] + (u + v) == ([b] + u) + v;
    } else {
      assert s + t == t;
      assert HexDecode(s).value == [];
      assert [] + HexDecode(t).value == HexDecode(t).value;
    }
  }

  const TestMac: seq<byte> := [0xa8, 0x23, 0x22, 0xad, 0xbe, 0xc7]
  const TestMacHex: string := "a82322adbec7"

  /** One byte at a time, from the end: the hex text of the test address decodes to it. */
  lemma TestMacDecodes()
    ensures HexDecode(TestMacHex) == Some(TestMac)
  {
    var e: seq<byte> := [];
    assert "c7"[2..] == "" && HexDecode("") == Some(e);
    assert HexDecode("c7") == Some([0xc7] + e);
    assert "bec7"[2..] == "c7";
    assert HexDecode("bec7") == Some([0xbe] + ([0xc7] + e));
    assert "adbec7"[2..] == "bec7";
    assert HexDecode("adbec7") == Some([0xad] + ([0xbe] + ([0xc7] + e)));
    assert "22adbec7"[2..] == "adbec7";
    assert HexDecode("22adbec7") == Some([0x22] + ([0xad] + ([0xbe] + ([0xc7] + e))));
    assert "2322adbec7"[2..] == "22adbec7";
    assert HexDecode("2322adbec7") == Some([0x23] + ([0x22] + ([0xad] + ([0xbe] + ([0xc7] + e)))));
    assert TestMacHex[2..] == "2322adbec7";
    assert HexDecode(TestMacHex) == Some([0xa8] + ([0x23] + ([0x22] + ([0xad] + ([0xbe] + ([0xc7] + e))))));
    assert [0xa8] + ([0x23] + ([0x22] + ([0xad] + ([0xbe] + ([0xc7] + e))))) == TestMac;
  }

  /** The header's hex text decodes to the header. */
  lemma HeaderDecodes()
    ensures HexDecode("ffffffffffff") == Some(Header)
  {
    var e: seq<byte> := [];
    var f: seq<byte> := [0xFF];
    assert "ff"[2..] == "" && HexDecode("") == Some(e);
    assert HexDecode("ff") == Some(f + e);
    assert "ffff"[2..] == "ff";
    assert HexDecode("ffff") == Some(f + (f + e));
    assert "ffffff"[2..] == "ffff";
    assert HexDecode("ffffff") == Some(f + (f + (f + e)));
    assert "ffffffff"[2..] == "ffffff";
    assert HexDecode("ffffffff") == Some(f + (f + (f + (f + e))));
    assert "ffffffffff"[2..] == "ffffffff";
    assert HexDecode("ffffffffff") == Some(f + (f + (f + (f + (f + e)))));
    assert "ffffffffffff"[2..] == "ffffffffff";
    assert HexDecode("ffffffffffff") == Some(f + (f + (f + (f + (f + (f + e))))));
    assert f + (f + (f + (f + (f + (f + e))))) == Header;
  }

  /**
   * The hex text of the expected packet in wol/wol_test.go, written as the
   * header's text followed by sixteen copies of the address's text.
   */
  const TestVectorHex: string := "ffffffffffff"
    + "a82322adbec7" + "a82322adbec7" + "a82322adbec7" + "a82322adbec7"
    + "a82322adbec7" + "a82322adbec7" + "a82322adbec7" + "a82322adbec7"
    + "a82322adbec7" + "a82322adbec7" + "a82322adbec7" + "a82322adbec7"
    + "a82322adbec7" + "a82322adbec7" + "a82322adbec7" + "a82322adbec7"

  /** `text` written `n` times in a row. */
  function RepeatText(text: string, n: nat): (r: string)
    ensures |r| == n * |text|
  {
    if n == 0 then "" else RepeatText(text, n - 1) + text
  }

  /** `n` copies of an address's text decode to `n` copies of the address. */
  lemma {:induction false} DecodeCopies(macText: string, mac: seq<byte>, n: nat)
    requires HexDecode(macText) == Some(mac)
    ensures HexDecode(RepeatText(macText, n)) == Some(Repeat(mac, n))
  {
    if n > 0 {
      DecodeCopies(macText, mac, n - 1);
      HexDecodeAppend(RepeatText(macText, n - 1), macText);
    }
  }

  lemma CopyTextStep(n: nat)
    ensures "ffffffffffff" + RepeatText(TestMacHex, n + 1) == ("ffffffffffff" + RepeatText(TestMacHex, n)) + TestMacHex
  {
  }

  /** The test vector: the packet for a8:23:22:ad:be:c7. */
  lemma TestVector()
    ensures |TestVectorHex| == 204
    ensures HexDecode(TestVectorHex) == Some(MagicPacket(TestMac))
  {
    HeaderDecodes();
    TestMacDecodes();
    DecodeCopies(TestMacHex, TestMac, 16);
    HexDecodeAppend("ffffffffffff", RepeatText(TestMacHex, 16));
    var t0 := "ffffffffffff";
    assert t0 == "ffffffffffff" + RepeatText(TestMacHex, 0);
    var t1 := t0 + TestMacHex;
    CopyTextStep(0);
    var t2 := t1 + TestMacHex;
    CopyTextStep(1);
    var t3 := t2 + TestMacHex;
    CopyTextStep(2);
    var t4 := t3 + TestMacHex;
    CopyTextStep(3);
    var t5 := t4 + TestMacHex;
    CopyTextStep(4);
    var t6 := t5 + TestMacHex;
    CopyTextStep(5);
    var t7 := t6 + TestMacHex;
    CopyTextStep(6);
    var t8 := t7 + TestMacHex;
    CopyTextStep(7);
    var t9 := t8 + TestMacHex;
    CopyTextStep(8);
    var t10 := t9 + TestMacHex;
    CopyTextStep(9);
    var t11 := t10 + TestMacHex;
    CopyTextStep(10);
    var t12 := t11 + TestMacHex;
    CopyTextStep(11);
    var t13 := t12 + TestMacHex;
    CopyTextStep(12);
    var t14 := t13 + TestMacHex;
    CopyTextStep(13);
    var t15 := t14 + TestMacHex;
    CopyTextStep(14);
    var t16 := t15 + TestMacHex;
    CopyTextStep(15);
    assert t16 == TestVectorHex;
  }

  /**
   * Where one case of TestPacket ends: at a Fatalf on the given line of
   * wol/wol_test.go, or at the end of the case, with or without an Errorf.
   */
  datatype CaseEnd = FatalAt(line: int) | Finished(reported: bool)

  /**
   * One case of TestPacket as written. `parsed` is what net.ParseMAC
   * returned, `None` for an error; `err` is the test's one error variable,
   * set by ParseMAC and set again by hex.DecodeString. The length check sits
   * between the two and tests the first, which is nil by then, so its Fatalf
   * is never reached; the test's own vector passes although its text is 204
   * characters long.
   */
  method PacketCase(parsed: Option<seq<byte>>, hexText: string) returns (end: CaseEnd)
    ensures end != FatalAt(33)
    ensures end == FatalAt(28) <==> parsed.None?
    ensures end == FatalAt(38) <==> parsed.Some? && HexDecode(hexText).None?
    ensures end.Finished? <==> parsed.Some? && HexDecode(hexText).Some?
    ensures end.Finished? ==> (end.reported <==> HexDecode(hexText).value != MagicPacket(parsed.value))
    ensures parsed == Some(TestMac) && hexText == TestVectorHex ==> |hexText| != 102 && end == Finished(false)
  {
    TestVector();
    var err := parsed.None?;
    if err {
      return FatalAt(28);
    }
    var mac := parsed.value;
    if |hexText| != 102 {
      if err {
        return FatalAt(33);
      }
    }
    var want := HexDecode(hexText);
    err := want.None?;
    if err {
      return FatalAt(38);
    }
    var got := Packet(mac);
    return Finished(want.value != got);
  }

  /** The hex text of any packet for a 6-byte address is 204 characters, never the 102 the check compares with. */
  lemma PacketTextLength(mac: seq<byte>, hexText: string)
    requires |mac| == 6 && HexDecode(hexText) == Some(MagicPacket(mac))
    ensures |hexText| == 204
  {
    HexDecodeLength(hexText);
  }

  /** The check as intended: the decoded packet, not its hex text, is 102 bytes long. */
  lemma DecodedLength()
    ensures HexDecode(TestVectorHex).Some? && |HexDecode(TestVectorHex).value| == 102
  {
    TestVector();
    PacketLength(TestMac);
  }
}
