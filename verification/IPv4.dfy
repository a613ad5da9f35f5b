/** The IPv4 parser of lib/whatwg/url/parser.js and the printer of lib/whatwg/url.js. Numbers
    are exact: the source's doubles lose digits only far above the 2^32 they are compared with. */
module IPv4 {
  import opened Wrappers
  import opened Digits
  import opened Splitting

  // ---- numbers ---------------------------------------------------------------------------

  predicate AllOctal(s: string) { forall i :: 0 <= i < |s| ==> '0' <= s[i] <= '7' }

  /** parseIPv4Number: hexadecimal after "0x", octal after a leading zero, else decimal. */
  function ParseNumber(input: string): Option<nat> {
    if |input| >= 2 && input[0] == '0' && (input[1] == 'x' || input[1] == 'X') then
      if AllHex(input[2..]) then Some(Value(input[2..], 16)) else None
    else if |input| >= 2 && input[0] == '0' then
      if AllOctal(input[1..]) then Some(Value(input[1..], 8)) else None
    else if AllDigits(input) then Some(Value(input, 10)) else None
  }

  /** Printed decimal numbers are read as themselves. */
  lemma DecimalIsRead(n: nat)
    ensures Render(n, 10) != "" && Free(Render(n, 10), '.') && ParseNumber(Render(n, 10)) == Some(n)
  {
    RenderIsShortest(n, 10);
    RenderValue(n, 10);
  }

  /** After "0x" or "0X" a number is hexadecimal. */
  lemma HexIsRead(n: nat)
    ensures ParseNumber("0x" + Render(n, 16)) == ParseNumber("0X" + Render(n, 16)) == Some(n)
  {
    RenderValue(n, 16);
    hide Render, Value;
    assert ("0x" + Render(n, 16))[2..] == Render(n, 16) && ("0X" + Render(n, 16))[2..] == Render(n, 16);
  }

  /** In either case of letters. */
  lemma HexInAnyCase(n: nat, digits: string)
    requires SameButForCase(Render(n, 16), digits)
    ensures ParseNumber("0x" + digits) == Some(n)
  {
    RenderIsLower(n, 16);
    assert AllHex(digits);
    CaseIsIgnored(Render(n, 16), digits, 16);
    RenderValue(n, 16);
    hide Render, Value;
    assert ("0x" + digits)[2..] == digits;
  }

  /** After a zero it is octal. */
  lemma OctalIsRead(n: nat)
    ensures ParseNumber("0" + Render(n, 8)) == Some(n)
  {
    RenderIsLower(n, 8);
    RenderValue(n, 8);
    var digits, text := Render(n, 8), "0" + Render(n, 8);
    hide Render, Value;
    assert text[1..] == digits;
    forall i | 0 <= i < |digits| ensures '0' <= digits[i] <= '7' {
      assert DigitValue(digits[i]) < 8;
    }
    assert text[1] == digits[0];
  }

  lemma PrefixIsZero()
    ensures ParseNumber("0x") == ParseNumber("0X") == ParseNumber("0") == Some(0)
  {
    assert Value("0", 10) == Value("", 10) * 10 + DigitValue('0');
  }

  /** The digits of each base. */
  function Radix(hex: bool, octal: bool): string {
    if hex then "0123456789abcdefABCDEF" else if octal then "01234567" else "0123456789"
  }

  /** Which texts are no number: those with a character that is no digit of the base that their start
      calls for. */
  lemma NoNumberExactly(input: string)
    ensures var hex := |input| >= 2 && input[0] == '0' && input[1] in "xX";
            var octal := |input| >= 2 && input[0] == '0' && !hex;
            ParseNumber(input) == None <==>
              exists i :: (if hex then 2 else 0) <= i < |input| && input[i] !in Radix(hex, octal)
  {
    var hex := |input| >= 2 && input[0] == '0' && input[1] in "xX";
    var octal := |input| >= 2 && input[0] == '0' && !hex;
    HexDigits();
    if hex {
      assert AllHex(input[2..]) <==> forall i :: 2 <= i < |input| ==> IsHex(input[i]) by {
        if AllHex(input[2..]) {
          forall i | 2 <= i < |input| ensures IsHex(input[i]) { assert input[2..][i - 2] == input[i]; }
        }
      }
    } else if octal {
      assert AllOctal(input[1..]) <==> forall i :: 0 <= i < |input| ==> '0' <= input[i] <= '7' by {
        if AllOctal(input[1..]) {
          forall i | 0 <= i < |input| ensures '0' <= input[i] <= '7' {
            if i > 0 { assert input[1..][i - 1] == input[i]; }
          }
        }
      }
    }
  }

  lemma HexDigits()
    ensures forall c :: IsHex(c) <==> c in "0123456789abcdefABCDEF"
    ensures forall c :: IsDigit(c) <==> c in "0123456789"
    ensures forall c :: '0' <= c <= '7' <==> c in "01234567"
  {
    var hex := "0123456789abcdefABCDEF";
    forall c ensures IsHex(c) <==> c in hex {
      if IsDigit(c) { assert hex[c as int - '0' as int] == c; }
      else if 'a' <= c <= 'f' { assert hex[10 + (c as int - 'a' as int)] == c; }
      else if 'A' <= c <= 'F' { assert hex[16 + (c as int - 'A' as int)] == c; }
    }
    forall c ensures IsDigit(c) <==> c in "0123456789" {
      if IsDigit(c) { assert "0123456789"[c as int - '0' as int] == c; }
    }
    forall c ensures '0' <= c <= '7' <==> c in "01234567" {
      if '0' <= c <= '7' { assert "01234567"[c as int - '0' as int] == c; }
    }
  }

  // ---- addresses -------------------------------------------------------------------------

  /** NotAnAddress is the source's returning its input, Failure its returning null. */
  datatype Parsed = NotAnAddress | Failure | Address(n: nat)

  /** 256 ** k */
  function Unit(k: nat): nat
    requires k <= 4
  {
    if k == 0 then 1
    else if k == 1 then 0x100
    else if k == 2 then 0x1_0000
    else if k == 3 then 0x100_0000
    else 0x1_0000_0000
  }

  /** What the numbers add up to: the last counts as it is, each other one in its place. */
  function Weigh(numbers: seq<nat>, place: nat): nat
    requires place <= 3 && |numbers| <= place + 1
  {
    if numbers == [] then 0 else numbers[0] * Unit(place) + (if place == 0 then 0 else Weigh(numbers[1..], place - 1))
  }

  function PartsOf(input: string): seq<string> {
    var parts := Split(input, '.');
    if parts[|parts| - 1] == "" && |parts| > 1 then parts[..|parts| - 1] else parts
  }

  predicate IsNumber(part: string) { part != "" && ParseNumber(part).Some? }

  predicate AllNumbers(parts: seq<string>) { forall i :: 0 <= i < |parts| ==> IsNumber(parts[i]) }

  function Numbers(parts: seq<string>): (ns: seq<nat>)
    requires AllNumbers(parts)
    ensures |ns| == |parts| && forall i :: 0 <= i < |ns| ==> ParseNumber(parts[i]) == Some(ns[i])
  {
    if parts == [] then [] else [ParseNumber(parts[0]).value] + Numbers(parts[1..])
  }

  /** All but the last are bytes, and the last fits in what is left of four bytes. */
  predicate InRange(numbers: seq<nat>)
    requires 0 < |numbers| <= 4
  {
    && (forall i :: 0 <= i < |numbers| - 1 ==> numbers[i] <= 255)
    && numbers[|numbers| - 1] < Unit(5 - |numbers|)
  }

  function IPv4Of(input: string): Parsed {
    var parts := PartsOf(input);
    if |parts| > 4 || !AllNumbers(parts) then NotAnAddress
    else
      var numbers := Numbers(parts);
      if !InRange(numbers) then Failure
      else Address(numbers[|numbers| - 1] + Weigh(numbers[..|numbers| - 1], 3))
  }

  lemma {:induction false} WeighIsBounded(numbers: seq<nat>, place: nat)
    requires place <= 3 && |numbers| <= place + 1 && forall i :: 0 <= i < |numbers| ==> numbers[i] <= 255
    ensures Weigh(numbers, place) + Unit(place + 1 - |numbers|) <= Unit(place + 1)
  {
    if numbers != [] {
      if place > 0 { WeighIsBounded(numbers[1..], place - 1); }
      Bytes(numbers[0], Unit(place), Unit(place + 1));
    }
  }

  lemma Bytes(b: nat, unit: nat, next: nat)
    requires b <= 255 && next == 256 * unit
    ensures b * unit + unit <= next
  {}

  /** A parsed address fits in 32 bits. */
  lemma AddressFits(input: string)
    requires IPv4Of(input).Address?
    ensures IPv4Of(input).n < 0x1_0000_0000
  {
    var numbers := Numbers(PartsOf(input));
    WeighIsBounded(numbers[..|numbers| - 1], 3);
  }

  // ---- parsing -----------------------------------------------------------------------------

  /** The first loop: the parts as numbers, if they all are. */
  method ReadNumbers(parts: seq<string>) returns (numbers: Option<seq<nat>>)
    ensures numbers == if AllNumbers(parts) then Some(Numbers(parts)) else None
  {
    hide ParseNumber;
    var ns: seq<nat> := [];
    for i := 0 to |parts|
      invariant forall j :: 0 <= j < i ==> IsNumber(parts[j])
      invariant |ns| == i && forall j :: 0 <= j < i ==> ParseNumber(parts[j]) == Some(ns[j])
    {
      var n := ParseNumber(parts[i]);
      if parts[i] == "" || n == None {
        assert !IsNumber(parts[i]);
        return None;
      }
      ns := ns + [n.value];
    }
    assert ns == Numbers(parts);
    numbers := Some(ns);
  }

  /** The second loop, and the test after it. */
  method CheckRange(numbers: seq<nat>) returns (inRange: bool)
    requires 0 < |numbers| <= 4
    ensures inRange == InRange(numbers)
  {
    for i := 0 to |numbers| - 1
      invariant forall j :: 0 <= j < i ==> numbers[j] <= 255
    {
      if numbers[i] > 255 {
        return false;
      }
    }
    inRange := numbers[|numbers| - 1] < Unit(5 - |numbers|);
  }

  /** The last loop. */
  method AddUp(last: nat, numbers: seq<nat>) returns (ipv4: nat)
    requires |numbers| <= 3
    ensures ipv4 == last + Weigh(numbers, 3)
  {
    hide Unit;
    ipv4 := last;
    var counter := 0;
    assert numbers[0..] == numbers;
    while counter < |numbers|
      invariant 0 <= counter <= |numbers|
      invariant ipv4 + Weigh(numbers[counter..], 3 - counter) == last + Weigh(numbers, 3)
    {
      assert numbers[counter..][1..] == numbers[counter + 1..];
      ipv4 := ipv4 + numbers[counter] * Unit(3 - counter);
      counter := counter + 1;
    }
  }

  /** parseIPv4; splitting the text is the language's own. */
  method ParseIPv4(input: string) returns (r: Parsed)
    ensures r == IPv4Of(input)
  {
    hide Split, AllNumbers, Numbers, InRange, Weigh;
    var parts := Split(input, '.');
    if parts[|parts| - 1] == "" {
      if |parts| > 1 {
        parts := parts[..|parts| - 1];
      }
    }
    if |parts| > 4 {
      return NotAnAddress;
    }
    var numbers := ReadNumbers(parts);
    if numbers == None {
      return NotAnAddress;
    }
    var inRange := CheckRange(numbers.value);
    if !inRange {
      return Failure;
    }
    var ipv4 := AddUp(numbers.value[|numbers.value| - 1], numbers.value[..|numbers.value| - 1]);
    r := Address(ipv4);
  }

  // ---- printing ----------------------------------------------------------------------------

  function Shifted(n: nat, k: nat): nat { if k == 0 then n else Shifted(n, k - 1) / 256 }

  /** The four bytes, the highest first. */
  function Octets(n: nat): (bytes: seq<nat>)
    ensures |bytes| == 4
  {
    [Shifted(n, 3) % 256, Shifted(n, 2) % 256, Shifted(n, 1) % 256, n % 256]
  }

  function DottedDecimal(n: nat): string {
    Join(seq(4, i requires 0 <= i < 4 => Render(Octets(n)[i], 10)), '.')
  }

  /** The text of the last `k` bytes, with a dot before them if others are to come. */
  function Tail(bytes: seq<nat>, k: nat): string
    requires |bytes| == 4 && k <= 4
  {
    if k == 0 then "" else (if k < 4 then "." else "") + (Render(bytes[4 - k], 10) + Tail(bytes, k - 1))
  }

  lemma TailIsJoin(a: string, b: string, c: string, d: string)
    ensures Join([a, b, c, d], '.') == a + ("." + (b + ("." + (c + ("." + (d + ""))))))
  {
    assert [a, b, c, d][1..] == [b, c, d] && [b, c, d][1..] == [c, d] && [c, d][1..] == [d];
    assert d + "" == d;
    assert Join([c, d], '.') == c + ("." + d);
    assert Join([b, c, d], '.') == b + ("." + Join([c, d], '.'));
    assert Join([a, b, c, d], '.') == a + ("." + Join([b, c, d], '.'));
  }

  lemma WholeTail(n: nat)
    ensures Tail(Octets(n), 4) == DottedDecimal(n)
  {
    var bytes := Octets(n);
    hide Render, Octets;
    var a, b, c, d := Render(bytes[0], 10), Render(bytes[1], 10), Render(bytes[2], 10), Render(bytes[3], 10);
    assert seq(4, i requires 0 <= i < 4 => Render(bytes[i], 10)) == [a, b, c, d];
    TailIsJoin(a, b, c, d);
    assert Tail(bytes, 1) == "." + (d + "");
    assert Tail(bytes, 2) == "." + (c + Tail(bytes, 1));
    assert Tail(bytes, 3) == "." + (b + Tail(bytes, 2));
    assert Tail(bytes, 4) == a + Tail(bytes, 3);
  }

  method SerializeIPv4(host: nat) returns (output: string)
    ensures output == DottedDecimal(host)
  {
    hide Render;
    output := "";
    var n := host;
    for i := 1 to 5
      invariant n == Shifted(host, i - 1) && output == Tail(Octets(host), i - 1)
    {
      assert Octets(host)[4 - i] == n % 256;
      output := Render(n % 256, 10) + output;
      if i != 4 {
        output := "." + output;
      }
      n := n / 256;
    }
    WholeTail(host);
  }

  lemma AddressOf(input: string, ns: seq<nat>)
    requires AllNumbers(PartsOf(input)) && Numbers(PartsOf(input)) == ns && 1 <= |ns| <= 4
    ensures IPv4Of(input) == if InRange(ns) then Address(ns[|ns| - 1] + Weigh(ns[..|ns| - 1], 3)) else Failure
  {
    hide AllNumbers, Numbers, PartsOf, InRange, Weigh;
  }

  lemma NumbersAre(parts: seq<string>, ns: seq<nat>)
    requires |ns| == |parts| && forall i :: 0 <= i < |ns| ==> parts[i] != "" && ParseNumber(parts[i]) == Some(ns[i])
    ensures AllNumbers(parts) && Numbers(parts) == ns
  {
    hide ParseNumber;
  }

  /** Parsing what was printed gives the address back. */
  lemma PrintedIsParsed(n: nat)
    requires n < 0x1_0000_0000
    ensures IPv4Of(DottedDecimal(n)) == Address(n)
  {
    var bytes := Octets(n);
    var parts := seq(4, i requires 0 <= i < 4 => Render(bytes[i], 10));
    forall i | 0 <= i < 4 ensures Free(parts[i], '.') && IsNumber(parts[i]) && ParseNumber(parts[i]) == Some(bytes[i]) {
      DecimalIsRead(bytes[i]);
    }
    OctetsWeigh(n);
    hide ParseNumber, Render, Free, Octets, InRange, Weigh;
    SplitJoin(parts, '.');
    assert parts[3] != "";
    assert PartsOf(DottedDecimal(n)) == parts;
    NumbersAre(parts, bytes);
    hide *;
    AddressOf(DottedDecimal(n), bytes);
  }

  lemma OctetsWeigh(n: nat)
    requires n < 0x1_0000_0000
    ensures InRange(Octets(n)) && Octets(n)[3] + Weigh(Octets(n)[..3], 3) == n
  {
    Divided(n);
    var bytes := Octets(n);
    hide Octets, Shifted;
    WeighThree(bytes[0], bytes[1], bytes[2]);
    assert bytes[..3] == [bytes[0], bytes[1], bytes[2]];
  }

  lemma Divided(n: nat)
    requires n < 0x1_0000_0000
    ensures var b := Octets(n); n == b[0] * 0x100_0000 + b[1] * 0x1_0000 + b[2] * 0x100 + b[3]
    ensures forall i :: 0 <= i < 4 ==> Octets(n)[i] <= 255
  {
    assert Shifted(n, 0) == n;
    assert Shifted(n, 1) == Shifted(n, 0) / 256;
    assert Shifted(n, 2) == Shifted(n, 1) / 256;
    assert Shifted(n, 3) == Shifted(n, 2) / 256;
  }

  lemma WeighThree(a: nat, b: nat, c: nat)
    ensures Weigh([a, b, c], 3) == a * 0x100_0000 + b * 0x1_0000 + c * 0x100
  {
    assert [a, b, c][1..] == [b, c] && [b, c][1..] == [c] && [c][1..] == [];
    assert Weigh([c], 1) == c * 0x100;
    assert Weigh([b, c], 2) == b * 0x1_0000 + Weigh([c], 1);
  }

  // ---- parts ---------------------------------------------------------------------------------

  /** The address that one to four numbers make: each but the last is a byte from the top, and the last
      is what is left. */
  function Assembled(ns: seq<nat>): nat
    requires 1 <= |ns| <= 4
  {
    if |ns| == 1 then ns[0]
    else if |ns| == 2 then ns[0] * 0x100_0000 + ns[1]
    else if |ns| == 3 then ns[0] * 0x100_0000 + ns[1] * 0x1_0000 + ns[2]
    else ns[0] * 0x100_0000 + ns[1] * 0x1_0000 + ns[2] * 0x100 + ns[3]
  }

  /** How much is left for the last of so many numbers. */
  function Room(count: nat): nat {
    if count == 1 then 0x1_0000_0000 else if count == 2 then 0x100_0000 else if count == 3 then 0x1_0000 else 0x100
  }

  lemma WeighOne(a: nat)
    ensures Weigh([a], 3) == a * 0x100_0000 && Weigh([], 3) == 0
  {}

  lemma WeighTwo(a: nat, b: nat)
    ensures Weigh([a, b], 3) == a * 0x100_0000 + b * 0x1_0000
  {
    assert [a, b][1..] == [b] && [b][1..] == [];
    assert Weigh([b], 2) == b * 0x1_0000;
  }

  lemma AssembledIsWeighed(ns: seq<nat>)
    requires 1 <= |ns| <= 4
    ensures ns[|ns| - 1] + Weigh(ns[..|ns| - 1], 3) == Assembled(ns)
  {
    hide Weigh;
    if |ns| == 1 {
      WeighOne(0);
      assert ns[..0] == [];
    } else if |ns| == 2 {
      WeighOne(ns[0]);
      assert ns[..1] == [ns[0]];
    } else if |ns| == 3 {
      WeighTwo(ns[0], ns[1]);
      assert ns[..2] == [ns[0], ns[1]];
    } else {
      WeighThree(ns[0], ns[1], ns[2]);
      assert ns[..3] == [ns[0], ns[1], ns[2]];
    }
  }

  /** The text of parts with dots between them, and perhaps one after them. */
  function Dots(parts: seq<string>, trailing: bool): string { Join(if trailing then parts + [""] else parts, '.') }

  lemma PartsOfDots(parts: seq<string>, trailing: bool)
    requires parts != [] && (forall i :: 0 <= i < |parts| ==> Free(parts[i], '.'))
    requires trailing || |parts| == 1 || parts[|parts| - 1] != ""
    ensures PartsOf(Dots(parts, trailing)) == parts
  {
    SplitJoin(if trailing then parts + [""] else parts, '.');
    hide Split, Join;
    if trailing { assert (parts + [""])[..|parts|] == parts; }
  }

  /** Parts are no address exactly if there are more than four, or one is empty or no number. */
  lemma NoAddressExactly(parts: seq<string>, trailing: bool)
    requires parts != [] && (forall i :: 0 <= i < |parts| ==> Free(parts[i], '.'))
    requires trailing || |parts| == 1 || parts[|parts| - 1] != ""
    ensures IPv4Of(Dots(parts, trailing)) == NotAnAddress <==>
              |parts| > 4 || exists i :: 0 <= i < |parts| && (parts[i] == "" || ParseNumber(parts[i]) == None)
  {
    PartsOfDots(parts, trailing);
    hide Dots, ParseNumber, Weigh, PartsOf, Numbers;
    if |parts| <= 4 && AllNumbers(parts) {
      assert forall i :: 0 <= i < |parts| ==> IsNumber(parts[i]);
    } else if |parts| <= 4 {
      var i :| 0 <= i < |parts| && !IsNumber(parts[i]);
      assert parts[i] == "" || ParseNumber(parts[i]) == None;
    }
  }

  lemma RangeMeans(ns: seq<nat>)
    requires 1 <= |ns| <= 4
    ensures InRange(ns) <==> (forall i :: 0 <= i < |ns| - 1 ==> ns[i] <= 255) && ns[|ns| - 1] < Room(|ns|)
  {}

  /** One to four numbers make an address if each but the last fits in a byte, and the last in what is
      left; else the parse fails. */
  lemma PartsAreRead(parts: seq<string>, trailing: bool, ns: seq<nat>)
    requires parts != [] && (forall i :: 0 <= i < |parts| ==> Free(parts[i], '.'))
    requires trailing || |parts| == 1 || parts[|parts| - 1] != ""
    requires |ns| == |parts| <= 4
    requires forall i :: 0 <= i < |ns| ==> parts[i] != "" && ParseNumber(parts[i]) == Some(ns[i])
    ensures IPv4Of(Dots(parts, trailing)) ==
              if (forall i :: 0 <= i < |ns| - 1 ==> ns[i] <= 255) && ns[|ns| - 1] < Room(|ns|)
              then Address(Assembled(ns)) else Failure
  {
    PartsOfDots(parts, trailing);
    NumbersAre(parts, ns);
    AssembledIsWeighed(ns);
    RangeMeans(ns);
    hide *;
    AddressOf(Dots(parts, trailing), ns);
  }
}
