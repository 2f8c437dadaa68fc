/**
 * The PDU helpers of the SIM-clearing tool: `bytes.fromhex`, `int(x, 16)`, the 7-bit unpacking
 * of the user data, the sender address and the parser of an `AT+CMGL=4` listing. The tool takes
 * fixed offsets into the PDU and reads bits most significant first; the model does the same.
 */
module ClearSms {
  import opened Wrappers
  import opened Strings
  import opened Powers

  newtype byte = x: int | 0 <= x < 256

  // ---------------------------------------------------------------------------------------
  // Hexadecimal

  predicate IsHexDigit(c: char) {
    '0' <= c <= '9' || 'a' <= c <= 'f' || 'A' <= c <= 'F'
  }

  function HexDigitValue(c: char): (v: nat)
    requires IsHexDigit(c)
    ensures v < 16
  {
    if '0' <= c <= '9' then c as int - '0' as int
    else if 'a' <= c <= 'f' then c as int - 'a' as int + 10
    else c as int - 'A' as int + 10
  }

  /** The value of a string of hexadecimal digits, most significant first. */
  function HexValue(s: string): nat
    requires forall i :: 0 <= i < |s| ==> IsHexDigit(s[i])
  {
    if s == [] then 0 else 16 * HexValue(s[..|s| - 1]) + HexDigitValue(s[|s| - 1])
  }

  /** `int(s, 16)` on a slice of a PDU; None is the ValueError of an empty or non-hexadecimal slice. */
  function HexInt(s: string): (r: Option<nat>)
    ensures r.Some? <==> s != [] && forall i :: 0 <= i < |s| ==> IsHexDigit(s[i])
  {
    if s != [] && forall i :: 0 <= i < |s| ==> IsHexDigit(s[i]) then Some(HexValue(s)) else None
  }

  const HexDigits: string := "0123456789ABCDEF"

  /** The two-digit upper-case form of a byte. */
  function ByteHex(b: byte): string {
    [HexDigits[b / 16], HexDigits[b % 16]]
  }

  lemma HexDigitsValues(d: nat)
    requires d < 16
    ensures IsHexDigit(HexDigits[d]) && HexDigitValue(HexDigits[d]) == d && !IsSpace(HexDigits[d])
  {
  }

  /** A byte written as two hexadecimal digits reads back as the same number. */
  lemma HexIntOfByteHex(b: byte)
    ensures HexInt(ByteHex(b)) == Some(b as nat)
  {
    var s := ByteHex(b);
    HexDigitsValues(b as nat / 16);
    HexDigitsValues(b as nat % 16);
    assert s[..1] == [s[0]];
    assert HexValue(s[..1]) == HexDigitValue(s[0]);
  }

  /** `bytes.fromhex`: pairs of hexadecimal digits, with whitespace allowed before each pair. */
  function FromHex(s: string): Result<seq<byte>, string>
    decreases |s|
  {
    if s == [] then Success([])
    else if IsSpace(s[0]) then FromHex(s[1..])
    else if |s| >= 2 && IsHexDigit(s[0]) && IsHexDigit(s[1]) then
      match FromHex(s[2..])
      case Failure(e) => Failure(e)
      case Success(rest) => Success([(16 * HexDigitValue(s[0]) + HexDigitValue(s[1])) as byte] + rest)
    else Failure("non-hexadecimal number found in fromhex() arg")
  }

  /** The hexadecimal text of a byte string. */
  function ToHex(bs: seq<byte>): string {
    if bs == [] then [] else ByteHex(bs[0]) + ToHex(bs[1..])
  }

  lemma FromHexOfPair(b: byte, rest: string)
    requires FromHex(rest).Success?
    ensures FromHex(ByteHex(b) + rest) == Success([b] + FromHex(rest).value)
  {
    var hi, lo := b as int / 16, b as int % 16;
    assert (b / 16) as int == hi && (b % 16) as int == lo;
    HexDigitsValues(hi);
    HexDigitsValues(lo);
    var s := ByteHex(b) + rest;
    assert s[0] == HexDigits[hi] && s[1] == HexDigits[lo] && s[2..] == rest;
    FromHexStep(s);
  }

  /** Two hexadecimal digits at the front of the text are one byte of the result. */
  lemma FromHexStep(s: string)
    requires |s| >= 2 && !IsSpace(s[0]) && IsHexDigit(s[0]) && IsHexDigit(s[1])
    requires FromHex(s[2..]).Success?
    ensures FromHex(s) == Success([(16 * HexDigitValue(s[0]) + HexDigitValue(s[1])) as byte] + FromHex(s[2..]).value)
  {
  }

  /** bytes.fromhex(bs.hex()) == bs. */
  lemma {:induction false} FromHexOfToHex(bs: seq<byte>)
    ensures FromHex(ToHex(bs)) == Success(bs)
  {
    if bs != [] {
      FromHexOfToHex(bs[1..]);
      FromHexOfPair(bs[0], ToHex(bs[1..]));
      assert [bs[0]] + bs[1..] == bs;
    }
  }

  // ---------------------------------------------------------------------------------------
  // Bits, most significant first

  /** `int(''.join(bits), 2)`. */
  function BitsValue(bits: seq<bool>): nat {
    if bits == [] then 0 else 2 * BitsValue(bits[..|bits| - 1]) + (if bits[|bits| - 1] then 1 else 0)
  }

  lemma {:induction false} BitsValueBound(bits: seq<bool>)
    ensures BitsValue(bits) < Pow2(|bits|)
  {
    if bits != [] {
      BitsValueBound(bits[..|bits| - 1]);
    }
  }

  /** The n-bit binary form of v, padded with leading zeros. */
  function NumberBits(v: nat, n: nat): (r: seq<bool>)
    ensures |r| == n
  {
    if n == 0 then [] else NumberBits(v / 2, n - 1) + [v % 2 == 1]
  }

  /** The binary form reads back as the number it was made from. */
  lemma {:induction false} NumberBitsValue(v: nat, n: nat)
    requires v < Pow2(n)
    ensures BitsValue(NumberBits(v, n)) == v
  {
    if n > 0 {
      var r := NumberBits(v, n);
      assert r[..|r| - 1] == NumberBits(v / 2, n - 1);
      NumberBitsValue(v / 2, n - 1);
    }
  }

  /** `bin(byte)[2:].zfill(8)`. */
  function ByteBits(b: byte): (r: seq<bool>)
    ensures |r| == 8 && BitsValue(r) == b as nat
  {
    assert Pow2(8) == 256;
    NumberBitsValue(b as nat, 8);
    NumberBits(b as nat, 8)
  }

  /** The `bits` list: every byte's eight bits, in byte order. */
  function Bits(bs: seq<byte>): (r: seq<bool>)
    ensures |r| == 8 * |bs|
  {
    if bs == [] then [] else Bits(bs[..|bs| - 1]) + ByteBits(bs[|bs| - 1])
  }

  /** Byte k occupies bits 8k to 8k+8, most significant bit first. */
  lemma {:induction false} BitsOfByte(bs: seq<byte>, k: nat)
    requires k < |bs|
    ensures Bits(bs)[8 * k..8 * k + 8] == ByteBits(bs[k])
  {
    var init := bs[..|bs| - 1];
    if k < |bs| - 1 {
      BitsOfByte(init, k);
      assert init[k] == bs[k];
      assert Bits(bs)[..8 * |init|] == Bits(init);
      assert Bits(bs)[8 * k..8 * k + 8] == Bits(init)[8 * k..8 * k + 8];
    }
  }

  // ---------------------------------------------------------------------------------------
  // decode_gsm7

  /** A septet outside 32..126 prints as '?'. */
  function SeptetChar(v: nat): char {
    if 32 <= v <= 126 then v as char else '?'
  }

  /** The number of i < numChars whose septet lies inside the data: `start + 7 <= len(bits)`. */
  function SeptetCount(numBits: nat, numChars: int): nat {
    if numChars <= 0 then 0 else if numChars <= numBits / 7 then numChars else numBits / 7
  }

  /** The text of the first numChars septets that fit in the bits. */
  function Septets(bits: seq<bool>, numChars: int): string {
    seq(SeptetCount(|bits|, numChars), i requires 0 <= i < SeptetCount(|bits|, numChars) =>
      SeptetChar(BitsValue(bits[7 * i..7 * i + 7])))
  }

  function Gsm7(hexData: string, numChars: int): Result<string, string> {
    match FromHex(hexData)
    case Failure(e) => Failure(e)
    case Success(bs) => Success(Septets(Bits(bs), numChars))
  }

  /**
   * `decode_gsm7`: the bytes become one bit list, then every i below numChars whose seven bits
   * [7i, 7i+7) lie inside the list gives one character. Failure is the ValueError of fromhex.
   */
  method DecodeGsm7(hexData: string, numChars: int) returns (r: Result<string, string>)
    ensures r == Gsm7(hexData, numChars)
  {
    var bytes := FromHex(hexData);
    if bytes.Failure? {
      return Failure(bytes.error);
    }
    var bits := CollectBits(bytes.value);
    var septets: string := [];
    var i := 0;
    while i < numChars
      invariant 0 <= i && (numChars >= 0 ==> i <= numChars) && (numChars < 0 ==> i == 0)
      invariant septets == Septets(bits, i)
    {
      var start := i * 7;
      if start + 7 <= |bits| {
        var septet := BitsValue(bits[start..start + 7]);
        septets := septets + [SeptetChar(septet)];
      }
      SeptetsStep(bits, i);
      i := i + 1;
    }
    if numChars < 0 {
      assert |Septets(bits, i)| == 0 == |Septets(bits, numChars)|;
    }
    return Success(septets);
  }

  /** The bit loop of `decode_gsm7`: each byte's eight bits, most significant first, in byte order. */
  method CollectBits(data: seq<byte>) returns (bits: seq<bool>)
    ensures bits == Bits(data)
    ensures |bits| == 8 * |data|
  {
    bits := [];
    var k := 0;
    while k < |data|
      invariant 0 <= k <= |data|
      invariant bits == Bits(data[..k])
    {
      bits := bits + ByteBits(data[k]);
      assert data[..k + 1][..k] == data[..k];
      k := k + 1;
    }
    assert data[..k] == data;
  }

  /** One more position adds its septet, when its seven bits fit. */
  lemma SeptetsStep(bits: seq<bool>, i: nat)
    ensures Septets(bits, i + 1)
         == Septets(bits, i) + (if 7 * i + 7 <= |bits| then [SeptetChar(BitsValue(bits[7 * i..7 * i + 7]))] else [])
  {
    var n, n' := SeptetCount(|bits|, i), SeptetCount(|bits|, i + 1);
    assert n' == if 7 * i + 7 <= |bits| then n + 1 else n;
  }

  /**
   * The decoding fails exactly when fromhex does; otherwise character i is septet i of the
   * bits, for every i below numChars whose seven bits fit.
   */
  lemma Gsm7Septets(hexData: string, numChars: int)
    ensures Gsm7(hexData, numChars).Failure? <==> FromHex(hexData).Failure?
    ensures Gsm7(hexData, numChars).Success? ==>
      var text := Gsm7(hexData, numChars).value;
      var bits := Bits(FromHex(hexData).value);
      |text| == SeptetCount(|bits|, numChars) &&
      forall i :: 0 <= i < |text| ==> text[i] == SeptetChar(BitsValue(bits[7 * i..7 * i + 7]))
  {
  }

  /** Every decoded character is printable ASCII or '?'. */
  lemma Gsm7Printable(hexData: string, numChars: int)
    requires Gsm7(hexData, numChars).Success?
    ensures forall i :: 0 <= i < |Gsm7(hexData, numChars).value| ==>
      var c := Gsm7(hexData, numChars).value[i];
      (32 <= c as int <= 126) || c == '?'
  {
  }

  /**
   * For n bytes of data the text has `min(num_chars, 8n / 7)` characters, none for a
   * non-positive `num_chars`: no more than asked for, and none beyond the data.
   */
  lemma Gsm7Length(hexData: string, numChars: int)
    requires Gsm7(hexData, numChars).Success?
    ensures var n, len := |FromHex(hexData).value|, |Gsm7(hexData, numChars).value|;
      len == if numChars <= 0 then 0 else if numChars <= 8 * n / 7 then numChars else 8 * n / 7
    ensures |Gsm7(hexData, numChars).value| <= if numChars <= 0 then 0 else numChars
    ensures 7 * |Gsm7(hexData, numChars).value| <= 8 * |FromHex(hexData).value|
  {
  }

  /** Each septet is seven bits below 128. */
  lemma SeptetBelow128(bits: seq<bool>, i: nat)
    requires 7 * i + 7 <= |bits|
    ensures BitsValue(bits[7 * i..7 * i + 7]) < 128
  {
    BitsValueBound(bits[7 * i..7 * i + 7]);
    assert Pow2(7) == 128;
  }

  // ---------------------------------------------------------------------------------------
  // get_sender

  /** `sender_hex[i+2:i+4]` for i in range(0, sender_len, 2), joined: the first `steps` pieces. */
  function Collected(senderHex: string, steps: nat): string {
    if steps == 0 then [] else Collected(senderHex, steps - 1) + Slice(senderHex, 2 * steps, 2 * steps + 2)
  }

  /** `sender[i+1] + sender[i]` for i in range(from, len(sender)-1, 2), joined. */
  function SwapFrom(s: string, from: nat): string
    decreases |s| - from
  {
    if from + 1 >= |s| then [] else [s[from + 1], s[from]] + SwapFrom(s, from + 2)
  }

  /**
   * `get_sender`: the digit count is `int(pdu[18:20], 16)`; an address of type "91" gets a '+'
   * and its digit pairs swapped, any other keeps `sender_hex[2:]` as it is.
   */
  function GetSender(pdu: string): Result<string, string> {
    match HexInt(Slice(pdu, 18, 20))
    case None => Failure("invalid literal for int() with base 16")
    case Some(senderLen) =>
      var senderHex := Slice(pdu, 20, 20 + senderLen + 2);
      if |senderHex| >= 2 && senderHex[..2] == "91" then
        var sender := "+" + Collected(senderHex, (senderLen + 1) / 2);
        Success("+" + SwapFrom(sender, 1))
      else
        Success(Slice(senderHex, 2, |senderHex|))
  }

  lemma {:induction false} CollectedIsSlice(senderHex: string, steps: nat)
    ensures Collected(senderHex, steps) == Slice(senderHex, 2, 2 * steps + 2)
  {
    if steps > 0 {
      CollectedIsSlice(senderHex, steps - 1);
    }
  }

  /** The swap exchanges the digits of each pair and drops a last unpaired digit. */
  lemma {:induction false} SwapFromPairs(s: string, from: nat)
    requires from <= |s|
    ensures |SwapFrom(s, from)| == 2 * ((|s| - from) / 2)
    ensures forall j :: 0 <= j < (|s| - from) / 2 ==>
      SwapFrom(s, from)[2 * j] == s[from + 2 * j + 1] && SwapFrom(s, from)[2 * j + 1] == s[from + 2 * j]
    decreases |s| - from
  {
    if from + 1 < |s| {
      SwapFromPairs(s, from + 2);
      var r := SwapFrom(s, from);
      var rest := SwapFrom(s, from + 2);
      assert r == [s[from + 1], s[from]] + rest;
      forall j | 0 <= j < (|s| - from) / 2
        ensures r[2 * j] == s[from + 2 * j + 1] && r[2 * j + 1] == s[from + 2 * j]
      {
        if j > 0 {
          assert r[2 * j] == rest[2 * (j - 1)];
          assert r[2 * j + 1] == rest[2 * (j - 1) + 1];
        }
      }
    }
  }

  /** The digits an address of type "91" collects: pdu[22 : 22+n] when the PDU holds them all. */
  lemma InternationalDigits(pdu: string, n: nat)
    requires HexInt(Slice(pdu, 18, 20)) == Some(n)
    requires 22 + n <= |pdu| && pdu[20..22] == "91"
    ensures GetSender(pdu) == Success("+" + SwapFrom("+" + pdu[22..22 + n], 1))
  {
    var senderHex := Slice(pdu, 20, 20 + n + 2);
    assert senderHex == pdu[20..22 + n];
    assert senderHex[..2] == "91";
    CollectedIsSlice(senderHex, (n + 1) / 2);
    assert Collected(senderHex, (n + 1) / 2) == pdu[22..22 + n];
  }

  /**
   * For an address of type "91" whose digits are all in the PDU, the sender is '+' followed by
   * pdu[22 : 22+n] with each digit pair swapped; an odd digit count loses its last digit.
   */
  lemma InternationalSender(pdu: string, n: nat)
    requires HexInt(Slice(pdu, 18, 20)) == Some(n)
    requires 22 + n <= |pdu| && pdu[20..22] == "91"
    ensures GetSender(pdu).Success?
    ensures var sender := GetSender(pdu).value;
      var digits := pdu[22..22 + n];
      |sender| == 1 + 2 * (n / 2) && sender[0] == '+' &&
      forall j :: 0 <= j < n / 2 ==> sender[1 + 2 * j] == digits[2 * j + 1] && sender[2 + 2 * j] == digits[2 * j]
  {
    InternationalDigits(pdu, n);
    var digits := pdu[22..22 + n];
    var plus := "+" + digits;
    SwapFromPairs(plus, 1);
    var sw := SwapFrom(plus, 1);
    var sender := "+" + sw;
    assert GetSender(pdu).value == sender;
    forall j | 0 <= j < n / 2
      ensures sender[1 + 2 * j] == digits[2 * j + 1] && sender[2 + 2 * j] == digits[2 * j]
    {
      assert sw[2 * j] == plus[1 + 2 * j + 1] == digits[2 * j + 1];
      assert sw[2 * j + 1] == plus[1 + 2 * j] == digits[2 * j];
    }
  }

  /** Any other type of number gives the address field after its first two characters. */
  lemma NationalSender(pdu: string, n: nat)
    requires HexInt(Slice(pdu, 18, 20)) == Some(n)
    requires 22 + n <= |pdu| && pdu[20..22] != "91"
    ensures GetSender(pdu) == Success(pdu[22..22 + n])
  {
    var senderHex := Slice(pdu, 20, 20 + n + 2);
    assert senderHex == pdu[20..22 + n];
    assert senderHex[..2] == pdu[20..22];
    assert Slice(senderHex, 2, |senderHex|) == pdu[22..22 + n];
  }

  // ---------------------------------------------------------------------------------------
  // The listing parser of read_all_messages

  /** One listed message: its storage index, its sender and its decoded text. */
  datatype Listed = Listed(index: string, sender: string, text: string)

  /** `line.split(',')[0].split(':')[1].strip()`; Failure is the IndexError of a field without ':'. */
  function HeaderIndex(line: string): Result<string, string> {
    var field := Split(Split(line, ',')[0], ':');
    if |field| < 2 then Failure("list index out of range") else Success(Strip(field[1]))
  }

  /** The message of a `+CMGL:` line and the PDU line after it. */
  function ParseEntry(line: string, pdu: string): Result<Listed, string> {
    match HeaderIndex(line)
    case Failure(e) => Failure(e)
    case Success(index) =>
      match HexInt(Slice(pdu, 20, 22))
      case None => Failure("invalid literal for int() with base 16")
      case Some(udl) =>
        match HexInt(Slice(pdu, 18, 20))
        case None => Failure("invalid literal for int() with base 16")
        case Some(senderLen) =>
          var udStart := 22 + senderLen * 2;
          match GetSender(pdu)
          case Failure(e) => Failure(e)
          case Success(sender) =>
            match Gsm7(Slice(pdu, udStart, |pdu|), udl)
            case Failure(e) => Failure(e)
            case Success(text) => Success(Listed(index, sender, text))
  }

  predicate IsHeader(line: string) {
    IsSubstring("+CMGL:", line)
  }

  /** The messages of the listing lines, in order; the first failing entry fails the whole listing. */
  function ParseLines(lines: seq<string>): Result<seq<Listed>, string>
    decreases |lines|
  {
    if lines == [] then Success([])
    else if IsHeader(Strip(lines[0])) && |lines| >= 2 then
      match ParseEntry(Strip(lines[0]), Strip(lines[1]))
      case Failure(e) => Failure(e)
      case Success(m) =>
        match ParseLines(lines[2..])
        case Failure(e) => Failure(e)
        case Success(ms) => Success([m] + ms)
    else ParseLines(lines[1..])
  }

  /** A header with a line after it yields one entry and consumes both lines. */
  lemma ParseLinesHeader(lines: seq<string>, i: nat)
    requires i + 1 < |lines| && IsHeader(Strip(lines[i]))
    ensures ParseLines(lines[i..]) ==
      match ParseEntry(Strip(lines[i]), Strip(lines[i + 1]))
      case Failure(e) => Failure(e)
      case Success(m) => Prepend([m], ParseLines(lines[i + 2..]))
  {
    var ls := lines[i..];
    assert ls[0] == lines[i] && ls[1] == lines[i + 1] && ls[2..] == lines[i + 2..];
  }

  /** Any other line is skipped on its own. */
  lemma ParseLinesSkip(lines: seq<string>, i: nat)
    requires i < |lines| && !(IsHeader(Strip(lines[i])) && i + 1 < |lines|)
    ensures ParseLines(lines[i..]) == ParseLines(lines[i + 1..])
  {
    var ls := lines[i..];
    assert ls[0] == lines[i] && ls[1..] == lines[i + 1..];
  }

  /** `messages` followed by what the remaining lines yield. */
  function Prepend(messages: seq<Listed>, rest: Result<seq<Listed>, string>): Result<seq<Listed>, string> {
    match rest
    case Failure(e) => Failure(e)
    case Success(ms) => Success(messages + ms)
  }

  /**
   * `read_all_messages` on the two modem responses: both must contain "OK"; then every
   * `+CMGL:` line with a line after it yields one message and both lines are consumed, and
   * any exception gives the empty list.
   */
  method ReadAllMessages(storageResponse: string, listResponse: string) returns (messages: seq<Listed>)
    ensures !IsSubstring("OK", storageResponse) || !IsSubstring("OK", listResponse) ==> messages == []
    ensures IsSubstring("OK", storageResponse) && IsSubstring("OK", listResponse) ==>
      messages == match ParseLines(Split(listResponse, '\n')) case Success(ms) => ms case Failure(_) => []
  {
    if !IsSubstring("OK", storageResponse) {
      return [];
    }
    if !IsSubstring("OK", listResponse) {
      return [];
    }
    messages := [];
    var lines := Split(listResponse, '\n');
    var i := 0;
    PrependNothing(ParseLines(lines));
    assert lines[0..] == lines;
    while i < |lines|
      invariant 0 <= i <= |lines|
      invariant ParseLines(lines) == Prepend(messages, ParseLines(lines[i..]))
      decreases |lines| - i
    {
      var line := Strip(lines[i]);
      if IsHeader(line) && i + 1 < |lines| {
        var pdu := Strip(lines[i + 1]);
        ParseLinesHeader(lines, i);
        var entry := ParseEntry(line, pdu);
        if entry.Failure? {
          return [];
        }
        PrependTwice(messages, entry.value, ParseLines(lines[i + 2..]));
        messages := messages + [entry.value];
        i := i + 2;
      } else {
        ParseLinesSkip(lines, i);
        i := i + 1;
      }
    }
    assert lines[i..] == [];
    PrependToEnd(messages);
  }

  lemma PrependNothing(r: Result<seq<Listed>, string>)
    ensures Prepend([], r) == r
  {
    if r.Success? {
      assert [] + r.value == r.value;
    }
  }

  lemma PrependToEnd(messages: seq<Listed>)
    ensures Prepend(messages, Success([])) == Success(messages)
  {
    assert messages + [] == messages;
  }

  lemma PrependTwice(messages: seq<Listed>, m: Listed, rest: Result<seq<Listed>, string>)
    ensures Prepend(messages, Prepend([m], rest)) == Prepend(messages + [m], rest)
  {
    if rest.Success? {
      assert messages + ([m] + rest.value) == (messages + [m]) + rest.value;
    }
  }

  /** Header and PDU lines one after another. */
  function Interleave(pairs: seq<(string, string)>): seq<string> {
    if pairs == [] then [] else [pairs[0].0, pairs[0].1] + Interleave(pairs[1..])
  }

  /** A listing of header and PDU pairs yields their messages in listing order. */
  lemma {:induction false} ListingInOrder(pairs: seq<(string, string)>, entries: seq<Listed>)
    requires |pairs| == |entries|
    requires forall k :: 0 <= k < |pairs| ==>
      IsHeader(Strip(pairs[k].0)) && ParseEntry(Strip(pairs[k].0), Strip(pairs[k].1)) == Success(entries[k])
    ensures ParseLines(Interleave(pairs)) == Success(entries)
  {
    if pairs != [] {
      var lines := Interleave(pairs);
      var rest, more := pairs[1..], entries[1..];
      assert lines[0] == pairs[0].0 && lines[1] == pairs[0].1 && lines[2..] == Interleave(rest);
      forall k | 0 <= k < |rest|
        ensures IsHeader(Strip(rest[k].0)) && ParseEntry(Strip(rest[k].0), Strip(rest[k].1)) == Success(more[k])
      {
        assert rest[k] == pairs[k + 1] && more[k] == entries[k + 1];
      }
      ListingInOrder(rest, more);
      ParseLinesHeader(lines, 0);
      assert lines[0..] == lines;
      ConsSplit(entries);
    }
  }

  lemma ConsSplit<T>(s: seq<T>)
    requires s != []
    ensures s == [s[0]] + s[1..]
  {
  }

  /** Lines without `+CMGL:` are skipped: a listing without one yields no message. */
  lemma {:induction false} NoHeaderNoMessages(lines: seq<string>)
    requires forall k :: 0 <= k < |lines| ==> !IsHeader(Strip(lines[k]))
    ensures ParseLines(lines) == Success([])
  {
    if lines != [] {
      NoHeaderNoMessages(lines[1..]);
    }
  }

  // ---------------------------------------------------------------------------------------
  // Worked examples

  /** "0491" + "2143": four digits, swapped in pairs. */
  lemma EvenSenderExample()
    ensures GetSender("000000000000000000" + "0491" + "2143") == Success("+1234")
  {
    var pdu := "000000000000000000" + "0491" + "2143";
    assert Slice(pdu, 18, 20) == "04";
    assert HexValue("04") == 4 by { assert "04"[..1] == "0"; }
    InternationalDigits(pdu, 4);
    assert pdu[22..26] == "2143";
    SwapFourDigits();
    assert "+" + pdu[22..26] == "+2143";
    assert "+" + "1234" == "+1234";
  }

  lemma SwapFourDigits()
    ensures SwapFrom("+2143", 1) == "1234"
  {
    var plus := "+2143";
    assert SwapFrom(plus, 5) == [];
    assert SwapFrom(plus, 3) == "34";
  }

  /** "0391" + "21F3": three digits; the padded last pair is cut off and its digit is lost. */
  lemma OddSenderExample()
    ensures GetSender("000000000000000000" + "0391" + "21F3") == Success("+12")
  {
    var pdu := "000000000000000000" + "0391" + "21F3";
    assert Slice(pdu, 18, 20) == "03";
    assert HexValue("03") == 3 by { assert "03"[..1] == "0"; }
    InternationalDigits(pdu, 3);
    assert pdu[22..25] == "21F";
    var plus := "+21F";
    assert SwapFrom(plus, 3) == [];
    assert SwapFrom(plus, 1) == "12";
    assert "+" + pdu[22..25] == plus;
    assert "+" + "12" == "+12";
  }

  /** 0xC8 is 11001000: its first seven bits, most significant first, are 1100100 = 100 = 'd'. */
  lemma MsbFirstExample()
    ensures Gsm7("C8", 1) == Success("d")
  {
    var hex := "C8";
    assert hex[0] == 'C' && hex[1] == '8' && hex[2..] == [];
    assert !IsSpace(hex[0]) && IsHexDigit(hex[0]) && IsHexDigit(hex[1]);
    assert FromHex(hex[2..]) == Success([]);
    assert HexDigitValue('C') == 12 && HexDigitValue('8') == 8;
    assert [200 as byte] + [] == [200 as byte];
    assert FromHex(hex) == Success([200 as byte]);
    var bits := Bits([200 as byte]);
    assert [200 as byte][..0] == [];
    assert bits == ByteBits(200 as byte) == NumberBits(100, 7) + [false];
    assert BitsValue(bits) == 200;
    assert bits[..7] == bits[0..7];
    assert BitsValue(bits[0..7]) == 100;
    assert Septets(bits, 1) == [SeptetChar(100)];
  }

  /** The index is the stripped text between the first ':' and the first ','. */
  lemma HeaderIndexOf(tag: string, index: string, rest: string)
    requires ',' !in tag && ':' !in tag && ',' !in index && ':' !in index
    ensures HeaderIndex(tag + ":" + index + "," + rest) == Success(Strip(index))
  {
    var field := tag + ":" + index;
    assert ',' !in field;
    assert tag + ":" + index + "," + rest == field + [','] + rest;
    SplitPrefix(field, rest, ',');
    assert field == tag + [':'] + index;
    SplitPrefix(tag, index, ':');
    SplitNoSep(index, ':');
  }
}
